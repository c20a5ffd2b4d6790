/** Decimal numerals: how whole numbers are printed and read. */
module Numerals {
  import opened Options

  predicate IsDigit(c: char) { '0' <= c <= '9' }

  function NatText(n: nat): (s: string)
    ensures s != "" && forall i :: 0 <= i < |s| ==> IsDigit(s[i])
  {
    if n < 10 then [('0' as int + n) as char] else NatText(n / 10) + [('0' as int + n % 10) as char]
  }

  function IntText(n: int): string {
    if n < 0 then "-" + NatText(-n) else NatText(n)
  }

  function ReadNat(s: string): Option<nat> {
    if s == "" || !IsDigit(s[|s| - 1]) then None else
    var digit := s[|s| - 1] as int - '0' as int;
    if |s| == 1 then Some(digit) else
    match ReadNat(s[..|s| - 1])
    case None => None
    case Some(high) => Some(high * 10 + digit)
  }

  function ReadInt(s: string): Option<int> {
    if s != "" && (s[0] == '-' || s[0] == '+') then
      var n := ReadNat(s[1..]);
      if n.None? then None else
      Some(if s[0] == '-' then -(n.value as int) else n.value as int)
    else
      var n := ReadNat(s);
      if n.None? then None else
      Some(n.value as int)
  }

  lemma {:induction false} NatReadsBack(n: nat)
    ensures ReadNat(NatText(n)) == Some(n)
  {
    if n >= 10 {
      NatReadsBack(n / 10);
      var s := NatText(n);
      assert s[..|s| - 1] == NatText(n / 10);
    }
  }

  lemma IntReadsBack(n: int)
    ensures ReadInt(IntText(n)) == Some(n)
  {
    NatReadsBack(if n < 0 then -n else n);
    if n < 0 {
      assert IntText(n)[1..] == NatText(-n);
    } else {
      assert IsDigit(NatText(n)[0]);
    }
  }

  lemma {:induction false} ReadNatIff(s: string)
    ensures ReadNat(s).Some? <==> s != "" && forall i :: 0 <= i < |s| ==> '0' <= s[i] <= '9'
  {
    if s != "" {
      ReadNatIff(s[..|s| - 1]);
    }
  }

  /** A whole number is text of decimal digits, with one sign in front or none. */
  lemma ReadIntIff(s: string)
    ensures ReadInt(s).Some? <==>
      var digits := if s != "" && (s[0] == '-' || s[0] == '+') then s[1..] else s;
      digits != "" && forall i :: 0 <= i < |digits| ==> '0' <= digits[i] <= '9'
  {
    ReadNatIff(s);
    if s != "" {
      ReadNatIff(s[1..]);
    }
  }

  lemma {:induction false} ZerosDoNotCount(zeros: string, n: nat)
    requires forall i :: 0 <= i < |zeros| ==> zeros[i] == '0'
    ensures ReadNat(zeros + NatText(n)) == Some(n)
    decreases n
  {
    var s := NatText(n);
    assert (zeros + s)[..|zeros| + |s| - 1] == zeros + s[..|s| - 1];
    if n >= 10 {
      assert s[..|s| - 1] == NatText(n / 10);
      ZerosDoNotCount(zeros, n / 10);
    } else {
      assert zeros + s[..|s| - 1] == zeros;
      AllZeros(zeros);
    }
  }

  lemma {:induction false} AllZeros(zeros: string)
    requires forall i :: 0 <= i < |zeros| ==> zeros[i] == '0'
    ensures ReadNat(zeros) == if zeros == "" then None else Some(0)
  {
    if zeros != "" {
      AllZeros(zeros[..|zeros| - 1]);
    }
  }

  lemma Signed(text: string)
    requires text != "" && text[0] != '-' && text[0] != '+'
    ensures ReadInt(text).Some? <==> ReadNat(text).Some?
    ensures ReadInt("+" + text).Some? <==> ReadNat(text).Some?
    ensures ReadInt("-" + text).Some? <==> ReadNat(text).Some?
    ensures ReadNat(text).Some? ==>
      && ReadInt(text).value == ReadNat(text).value && ReadInt("+" + text).value == ReadNat(text).value
      && ReadInt("-" + text).value == 0 - ReadNat(text).value
  {
    assert ("+" + text)[1..] == text && ("-" + text)[1..] == text;
  }

  /** Leading zeros and a plus sign change nothing; a minus sign negates. */
  lemma SignsAndZeros(zeros: string, n: nat)
    requires forall i :: 0 <= i < |zeros| ==> zeros[i] == '0'
    ensures ReadInt(zeros + NatText(n)).Some? && ReadInt(zeros + NatText(n)).value == n
    ensures ReadInt("+" + (zeros + NatText(n))).Some? && ReadInt("+" + (zeros + NatText(n))).value == n
    ensures ReadInt("-" + (zeros + NatText(n))).Some? && ReadInt("-" + (zeros + NatText(n))).value == 0 - n
  {
    var text := zeros + NatText(n);
    ZerosDoNotCount(zeros, n);
    assert IsDigit(text[0]);
    Signed(text);
  }
}
