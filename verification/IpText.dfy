/**
 IPv4 addresses and prefixes: their text as the server and the browser read it, and the masks each of
 them computes. JavaScript's 32-bit operators are written out on unbounded numbers.
 */
module IpText {
  import opened Bits
  import opened Division
  import opened Numerals
  import opened Options

  const WORD: nat := 0x1_0000_0000

  type Prefix4 = n: nat | n <= 32

  // ---- splitting ---------------------------------------------------------------------------------------

  function Parts(s: string, sep: char): (parts: seq<string>)
    ensures parts != []
  {
    if s == "" then [""]
    else
      var rest := Parts(s[1..], sep);
      if s[0] == sep then [""] + rest else [[s[0]] + rest[0]] + rest[1..]
  }

  lemma {:induction false} PartsOfOne(s: string, sep: char)
    requires sep !in s
    ensures Parts(s, sep) == [s]
  {
    if s != "" {
      PartsOfOne(s[1..], sep);
      assert [s[0]] + s[1..] == s;
    }
  }

  lemma {:induction false} PartsOfMore(s: string, sep: char, rest: string)
    requires sep !in s
    ensures Parts(s + [sep] + rest, sep) == [s] + Parts(rest, sep)
  {
    var all := s + [sep] + rest;
    if s == "" {
      assert all[1..] == rest;
    } else {
      assert all[0] == s[0] && all[1..] == s[1..] + [sep] + rest;
      PartsOfMore(s[1..], sep, rest);
      assert [s[0]] + s[1..] == s;
    }
  }

  // ---- addresses -----------------------------------------------------------------------------------------

  predicate AllDigits(s: string) {
    s != "" && forall i :: 0 <= i < |s| ==> IsDigit(s[i])
  }

  /** One to three digits worth at most 255, as the browser's pattern has it. */
  function BrowserOctet(s: string): Option<nat> {
    if !AllDigits(s) || |s| > 3 then None else
    match ReadNat(s)
    case None => None
    case Some(n) => if n > 255 then None else Some(n)
  }

  predicate LeadingZero(s: string) { |s| > 1 && s[0] == '0' }

  /** The server's library also refuses leading zeros. */
  function ServerOctet(s: string): Option<nat> {
    if !AllDigits(s) || |s| > 3 || LeadingZero(s) then None else
    match ReadNat(s)
    case None => None
    case Some(n) => if n > 255 then None else Some(n)
  }

  function Pack(a: nat, b: nat, c: nat, d: nat): nat {
    ((a * 256 + b) * 256 + c) * 256 + d
  }

  function ServerAddress(s: string): Option<nat> {
    var parts := Parts(s, '.');
    if |parts| != 4 then None else
    var a, b, c, d := ServerOctet(parts[0]), ServerOctet(parts[1]), ServerOctet(parts[2]), ServerOctet(parts[3]);
    if a.None? || b.None? || c.None? || d.None? then None
    else Some(Pack(a.value, b.value, c.value, d.value))
  }

  /** What the octets from the i-th on make of a number started with n. */
  function Accumulated(parts: seq<string>, i: nat, n: nat): Option<nat>
    requires i <= |parts|
    decreases |parts| - i
  {
    if i == |parts| then Some(n) else
    match BrowserOctet(parts[i])
    case None => None
    case Some(octet) => Accumulated(parts, i + 1, n * 256 + octet)
  }

  function BrowserAddress(s: string): Option<nat> {
    var parts := Parts(s, '.');
    if |parts| != 4 then None else Accumulated(parts, 0, 0)
  }

  /** The browser's loop; its final unsigned shift changes nothing, as four octets fit the word. */
  method Ipv4ToInt(ip: string) returns (r: Option<nat>)
    ensures r == BrowserAddress(ip)
    ensures r.Some? ==> r.value < WORD
  {
    var parts := Parts(ip, '.');
    if |parts| != 4 {
      return None;
    }
    var n: nat := 0;
    for i := 0 to 4
      invariant Accumulated(parts, 0, 0) == Accumulated(parts, i, n)
      invariant if i == 0 then n == 0 else if i == 1 then n < 256 else if i == 2 then n < 65536
                else if i == 3 then n < 0x100_0000 else n < WORD
    {
      var octet := BrowserOctet(parts[i]);
      if octet.None? {
        return None;
      }
      n := n * 256 + octet.value;
    }
    r := Some(n % WORD);
  }

  ghost predicate AnyLeadingZero(parts: seq<string>) {
    exists i :: 0 <= i < |parts| && |parts[i]| > 1 && parts[i][0] == '0'
  }

  lemma SameOctet(s: string)
    ensures ServerOctet(s) == if LeadingZero(s) then None else BrowserOctet(s)
  {
  }

  /** An octet is one to three digits worth at most 255. */
  lemma OctetIs(s: string)
    ensures BrowserOctet(s).Some? <==>
      && 1 <= |s| <= 3 && (forall i :: 0 <= i < |s| ==> '0' <= s[i] <= '9')
      && ReadNat(s).Some? && ReadNat(s).value <= 255
    ensures BrowserOctet(s).Some? ==> BrowserOctet(s) == ReadNat(s)
  {
    ReadNatIff(s);
  }

  /** The browser accepts what the server does, and beyond that exactly the addresses with a leading zero. */
  lemma SameAddresses(s: string)
    ensures ServerAddress(s) == if AnyLeadingZero(Parts(s, '.')) then None else BrowserAddress(s)
  {
    var parts := Parts(s, '.');
    if |parts| == 4 {
      SameOctet(parts[0]);
      SameOctet(parts[1]);
      SameOctet(parts[2]);
      SameOctet(parts[3]);
      assert AnyLeadingZero(parts) <==>
        LeadingZero(parts[0]) || LeadingZero(parts[1]) || LeadingZero(parts[2]) || LeadingZero(parts[3]);
      FourOctets(parts);
    }
  }

  lemma FourOctets(parts: seq<string>)
    requires |parts| == 4
    ensures var a, b, c, d :=
              BrowserOctet(parts[0]), BrowserOctet(parts[1]), BrowserOctet(parts[2]), BrowserOctet(parts[3]);
            Accumulated(parts, 0, 0) == (if a.None? || b.None? || c.None? || d.None? then None
                                         else Some(Pack(a.value, b.value, c.value, d.value)))
  {
    if BrowserOctet(parts[0]).Some? {
      var a := BrowserOctet(parts[0]).value;
      assert Accumulated(parts, 0, 0) == Accumulated(parts, 1, a);
      LastThree(parts, a);
    }
  }

  lemma LastThree(parts: seq<string>, n: nat)
    requires |parts| == 4
    ensures var b, c, d := BrowserOctet(parts[1]), BrowserOctet(parts[2]), BrowserOctet(parts[3]);
            Accumulated(parts, 1, n) == (if b.None? || c.None? || d.None? then None
                                         else Some(((n * 256 + b.value) * 256 + c.value) * 256 + d.value))
  {
    if BrowserOctet(parts[1]).Some? {
      var m := n * 256 + BrowserOctet(parts[1]).value;
      assert Accumulated(parts, 1, n) == Accumulated(parts, 2, m);
      if BrowserOctet(parts[2]).Some? {
        var k := m * 256 + BrowserOctet(parts[2]).value;
        assert Accumulated(parts, 2, m) == Accumulated(parts, 3, k);
      }
    }
  }

  /** The canonical text of an address. */
  function Dotted(n: nat): string
    requires n < WORD
  {
    NatText(n / 0x100_0000) + "." + (NatText(n / 0x1_0000 % 256) + "." + (NatText(n / 256 % 256) + "." + NatText(n % 256)))
  }

  lemma {:induction false} NatTextShape(n: nat)
    ensures AllDigits(NatText(n)) && !LeadingZero(NatText(n)) && '.' !in NatText(n) && '/' !in NatText(n)
    ensures n < 1000 ==> |NatText(n)| <= 3
    ensures n > 0 ==> NatText(n)[0] != '0'
  {
    if n >= 10 {
      NatTextShape(n / 10);
      NatTextLength(n);
    }
  }

  lemma NatTextLength(n: nat)
    ensures n < 10 ==> |NatText(n)| == 1
    ensures n < 100 ==> |NatText(n)| <= 2
    ensures n < 1000 ==> |NatText(n)| <= 3
  {
    if n >= 10 {
      assert |NatText(n)| == |NatText(n / 10)| + 1;
      if n >= 100 {
        assert |NatText(n / 10)| == |NatText(n / 10 / 10)| + 1;
      }
    }
  }

  lemma OctetReadsBack(n: nat)
    requires n < 256
    ensures ServerOctet(NatText(n)) == Some(n)
  {
    NatTextShape(n);
    NatReadsBack(n);
  }

  lemma DottedParts(n: nat)
    requires n < WORD
    ensures Parts(Dotted(n), '.')
         == [NatText(n / 0x100_0000), NatText(n / 0x1_0000 % 256), NatText(n / 256 % 256), NatText(n % 256)]
  {
    var a, b, c, d := NatText(n / 0x100_0000), NatText(n / 0x1_0000 % 256), NatText(n / 256 % 256), NatText(n % 256);
    NatTextShape(n / 0x100_0000);
    NatTextShape(n / 0x1_0000 % 256);
    NatTextShape(n / 256 % 256);
    NatTextShape(n % 256);
    PartsOfOne(d, '.');
    PartsOfMore(c, '.', d);
    PartsOfMore(b, '.', c + "." + d);
    PartsOfMore(a, '.', b + "." + (c + "." + d));
  }

  lemma PackUnpacks(n: nat)
    requires n < WORD
    ensures n / 0x100_0000 < 256
    ensures Pack(n / 0x100_0000, n / 0x1_0000 % 256, n / 256 % 256, n % 256) == n
  {
    assert n / 0x1_0000 == n / 256 / 256 && n / 0x100_0000 == n / 0x1_0000 / 256;
  }

  /** Canonical text reads back as the address it shows, on both sides. */
  lemma AddressReadsBack(n: nat)
    requires n < WORD
    ensures ServerAddress(Dotted(n)) == Some(n) && BrowserAddress(Dotted(n)) == Some(n)
  {
    DottedParts(n);
    PackUnpacks(n);
    OctetReadsBack(n / 0x100_0000);
    OctetReadsBack(n / 0x1_0000 % 256);
    OctetReadsBack(n / 256 % 256);
    OctetReadsBack(n % 256);
    SameAddresses(Dotted(n));
    NatTextShape(n / 0x100_0000);
    NatTextShape(n / 0x1_0000 % 256);
    NatTextShape(n / 256 % 256);
    NatTextShape(n % 256);
  }

  // ---- masks ---------------------------------------------------------------------------------------------

  /** All ones of a word, with as many of them flipped as the prefix leaves over. */
  function ServerMask(width: nat, bits: nat): nat
    requires bits <= width
  {
    Xor(Pow2(width) - 1, (Pow2(width) - 1) / Pow2(bits))
  }

  lemma DropOne(r: nat, p: nat, q: nat)
    requires p > 0 && q > 0 && r == p * q && r > 0
    ensures (r - 1) / q == p - 1
  {
    assert (p - 1) * q == p * q - q;
    DivUnique(r - 1, q, p - 1);
  }

  lemma ServerMaskIs(width: nat, bits: nat)
    requires bits <= width
    ensures ServerMask(width, bits) == Pow2(width) - Pow2(width - bits)
  {
    var r, p, q := Pow2(width), Pow2(width - bits), Pow2(bits);
    assert (r - 1) / q == p - 1 by {
      Pow2Adds(width - bits, bits);
      DropOne(r, p, q);
    }
    XorOnes(width, width - bits);
  }

  /** A left shift of 32-bit words: the count is taken modulo 32, and high bits fall off. */
  function ShiftLeft(x: nat, count: nat): nat {
    x * Pow2(count % 32) % WORD
  }

  /** The signed reading of a word, which is what JavaScript compares after an `&`. */
  function Signed(n: nat): int {
    if n >= WORD / 2 then n - WORD else n
  }

  function BrowserMask(bits: Prefix4): nat { ShiftLeft(WORD - 1, 32 - bits) }

  lemma Pow2Of32()
    ensures Pow2(32) == WORD
  {
    Pow2Adds(8, 8);
    Pow2Adds(16, 16);
    assert Pow2(8) == 256 by {
      Pow2Adds(4, 4);
      assert Pow2(4) == 16 by {
        assert Pow2(4) == 2 * Pow2(3) && Pow2(3) == 2 * Pow2(2) && Pow2(2) == 2 * Pow2(1) && Pow2(1) == 2 * Pow2(0);
      }
    }
  }

  lemma ShiftedOnes(p: nat)
    requires 0 < p < WORD
    ensures (WORD - 1) * p % WORD == WORD - p
  {
    assert (WORD - 1) * p == (p - 1) * WORD + (WORD - p);
    DivMod((WORD - 1) * p, WORD, p - 1, WORD - p);
  }

  lemma SmallPower(count: nat)
    requires count < 32
    ensures Pow2(count) < WORD
  {
    Pow2Of32();
    Pow2Grows(count, 31);
    assert Pow2(32) == 2 * Pow2(31);
  }

  lemma CountStays(count: nat)
    requires count < 32
    ensures ShiftLeft(WORD - 1, count) == (WORD - 1) * Pow2(count) % WORD
  {
    assert count % 32 == count;
  }

  lemma BrowserMaskIs(bits: Prefix4)
    ensures BrowserMask(bits) == if bits == 0 then WORD - 1 else WORD - Pow2(32 - bits)
  {
    if bits > 0 {
      CountStays(32 - bits);
      SmallPower(32 - bits);
      ShiftedOnes(Pow2(32 - bits));
    } else {
      assert 32 % 32 == 0 && Pow2(0) == 1;
    }
  }

  /** The two masks agree for every prefix but the empty one, where the browser's would keep every bit. */
  lemma MasksAgree(bits: Prefix4)
    ensures BrowserMask(bits) == ServerMask(32, bits) <==> bits != 0
  {
    Pow2Of32();
    ServerMaskIs(32, bits);
    BrowserMaskIs(bits);
  }

  lemma Aligned(b: nat, p: nat)
    requires p > 0
    ensures (b - b % p) % p == 0 && b - b % p >= 0
  {
    assert b == (b / p) * p + b % p;
    DivMod(b - b % p, p, b / p, 0);
  }

  /** A prefix mask keeps exactly the numbers of one aligned interval, whatever the word. */
  lemma MaskIsInterval(width: nat, a: nat, b: nat, bits: nat)
    requires bits <= width && a < Pow2(width) && b < Pow2(width)
    ensures var mask := ServerMask(width, bits);
            var first := And(b, mask);
            && first % Pow2(width - bits) == 0
            && (And(a, mask) == first <==> first <= a < first + Pow2(width - bits))
  {
    var p := Pow2(width - bits);
    ServerMaskIs(width, bits);
    Pow2Grows(width - bits, width);
    AndHighOnes(a, width, width - bits);
    AndHighOnes(b, width, width - bits);
    BlockIs(a, b, p);
    Aligned(b, p);
  }

  // ---- ranges in the browser -------------------------------------------------------------------------------

  /** What the browser's own number reader makes of text; None for anything but a whole number. */
  type NumberReader = string -> Option<int>

  predicate ReadsNumerals(number: NumberReader, bits: Prefix4) {
    number(NatText(bits)) == Some(bits)
  }

  function FirstIndex(s: string, c: char): (i: Option<nat>)
    ensures i.Some? ==> i.value < |s|
  {
    if s == "" then None
    else if s[0] == c then Some(0)
    else match FirstIndex(s[1..], c)
         case None => None
         case Some(i) => Some(i + 1)
  }

  /** The browser's comparison of two addresses under a prefix. */
  function SameBlock(a: nat, b: nat, bits: Prefix4): bool {
    bits == 0 || Signed(And(a, BrowserMask(bits))) == Signed(And(b, BrowserMask(bits)))
  }

  function BrowserInRange(number: NumberReader, ip: string, cidr: string): bool {
    var slash := FirstIndex(cidr, '/');
    if slash.None? then false else
    var bits := number(cidr[slash.value + 1..]);
    if bits.None? || bits.value < 0 || bits.value > 32 then false else
    var a, b := BrowserAddress(ip), BrowserAddress(cidr[..slash.value]);
    if a.None? || b.None? then false
    else SameBlock(a.value, b.value, bits.value)
  }

  /** Canonical text of a range. */
  function RangeText(base: nat, bits: Prefix4): string
    requires base < WORD
  {
    Dotted(base) + "/" + NatText(bits)
  }

  lemma {:induction false} AndBelow(a: nat, b: nat)
    ensures And(a, b) <= b
  {
    if a != 0 && b != 0 {
      AndBelow(a / 2, b / 2);
    }
  }

  lemma SignedInjective(a: nat, b: nat)
    requires a < WORD && b < WORD
    ensures Signed(a) == Signed(b) <==> a == b
  {
  }

  lemma DottedHasNoSlash(n: nat)
    requires n < WORD
    ensures '/' !in Dotted(n)
  {
    NatTextShape(n / 0x100_0000);
    NatTextShape(n / 0x1_0000 % 256);
    NatTextShape(n / 256 % 256);
    NatTextShape(n % 256);
  }

  lemma RangeTextSplits(base: nat, bits: Prefix4)
    requires base < WORD
    ensures FirstIndex(RangeText(base, bits), '/') == Some(|Dotted(base)|)
    ensures RangeText(base, bits)[..|Dotted(base)|] == Dotted(base)
    ensures |Dotted(base)| < |RangeText(base, bits)|
    ensures RangeText(base, bits)[|Dotted(base)| + 1..] == NatText(bits)
  {
    var s := RangeText(base, bits);
    DottedHasNoSlash(base);
    FirstIndexOf(Dotted(base), '/', NatText(bits));
    assert s == Dotted(base) + ['/'] + NatText(bits);
  }

  lemma {:induction false} FirstIndexOf(s: string, c: char, rest: string)
    requires c !in s
    ensures FirstIndex(s + [c] + rest, c) == Some(|s|)
  {
    if s != "" {
      assert (s + [c] + rest)[0] == s[0] && (s + [c] + rest)[1..] == s[1..] + [c] + rest;
      FirstIndexOf(s[1..], c, rest);
    }
  }

  lemma SameBlockIsInterval(a: nat, base: nat, bits: Prefix4)
    requires a < WORD && base < WORD
    ensures var first := And(base, ServerMask(32, bits));
            SameBlock(a, base, bits) <==> first <= a < first + Pow2(32 - bits)
  {
    Pow2Of32();
    MaskIsInterval(32, a, base, bits);
    MasksAgree(bits);
    if bits == 0 {
      WholeRange(base);
    } else {
      var mask := ServerMask(32, bits);
      ServerMaskIs(32, bits);
      AndBelow(a, mask);
      AndBelow(base, mask);
      SignedInjective(And(a, mask), And(base, mask));
    }
  }

  /** For canonical text, the browser's range test is the interval the prefix stands for. */
  lemma BrowserRangeIsInterval(number: NumberReader, a: nat, base: nat, bits: Prefix4)
    requires a < WORD && base < WORD && ReadsNumerals(number, bits)
    ensures var first := And(base, ServerMask(32, bits));
            BrowserInRange(number, Dotted(a), RangeText(base, bits)) <==> first <= a < first + Pow2(32 - bits)
  {
    RangeTextSplits(base, bits);
    AddressReadsBack(a);
    AddressReadsBack(base);
    SameBlockIsInterval(a, base, bits);
  }

  lemma WholeRange(base: nat)
    requires base < WORD
    ensures And(base, ServerMask(32, 0)) == 0
  {
    ServerMaskIs(32, 0);
    AndBelow(base, ServerMask(32, 0));
  }
}
