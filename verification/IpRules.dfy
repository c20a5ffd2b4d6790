/**
 IP access rules: compiling them, the verdict on one client, and the browser's warning before a rule
 is added.
 */
module IpRules {
  import opened Bits
  import opened IpText
  import opened Numerals
  import opened Options

  datatype Address = Address(v6: bool, number: nat)

  function Width(v6: bool): nat { if v6 then 128 else 32 }

  datatype Network = Network(v6: bool, base: nat, bits: nat)

  /** What is left to the languages' own libraries: upper case, trimming, and the other address texts. */
  datatype Library = Library(
    upper: string -> string, trim: string -> string, number: NumberReader,
    address6: string -> Option<nat>, network6: string -> Option<Network>, netmask: string -> Option<nat>)

  datatype Rule = Rule(
    id: Option<string>, deleted: bool, enabled: Option<bool>, kind: string, matchType: string, value: string)

  datatype Compiled = Compiled(
    id: Option<string>, kind: string, matchType: string, value: string, network: Option<Network>)

  datatype RuleSet = RuleSet(
    allowNetworks: seq<Compiled>, denyNetworks: seq<Compiled>,
    allowCountries: map<string, Compiled>, denyCountries: map<string, Compiled>)

  datatype Reason = Allowlisted | Denied | DefaultAllow | Unresolved

  datatype Decision = Decision(allowed: bool, reason: Reason, rule: Option<Compiled>)

  // ---- parsing ----------------------------------------------------------------------------------------------

  function ParseAddress(lib: Library, s: string): Option<Address> {
    match ServerAddress(s)
    case Some(n) => Some(Address(false, n))
    case None =>
      match lib.address6(s)
      case Some(n) => Some(Address(true, n))
      case None => None
  }

  /** A prefix length in digits, or else a mask in dotted form. */
  function PrefixOf(lib: Library, s: string): Option<nat> {
    var n := if AllDigits(s) then ReadNat(s) else None;
    if n.Some? && n.value <= 32 then n
    else if lib.netmask(s).Some? && lib.netmask(s).value <= 32 then lib.netmask(s)
    else None
  }

  function ParseNetwork4(lib: Library, s: string): Option<Network> {
    var parts := Parts(s, '/');
    if |parts| > 2 then None else
    var base := ServerAddress(parts[0]);
    var bits := if |parts| == 1 then Some(32) else PrefixOf(lib, parts[1]);
    if base.None? || bits.None? || bits.value > 32 then None
    else Some(Network(false, And(base.value, ServerMask(32, bits.value)), bits.value))
  }

  function ParseNetwork(lib: Library, s: string): Option<Network> {
    var net := ParseNetwork4(lib, s);
    if net.Some? then net else lib.network6(s)
  }

  predicate Contains(net: Network, addr: Address) {
    addr.v6 == net.v6 && net.bits <= Width(net.v6) && And(addr.number, ServerMask(Width(net.v6), net.bits)) == net.base
  }

  // ---- compiling --------------------------------------------------------------------------------------------

  predicate Live(rule: Rule) {
    && !rule.deleted && rule.enabled != Some(false)
    && (rule.kind == "allow" || rule.kind == "deny") && rule.value != ""
  }

  function Add(lib: Library, rs: RuleSet, rule: Rule): RuleSet {
    if !Live(rule) then rs
    else if rule.matchType == "ip" || rule.matchType == "cidr" then
      var network := ParseNetwork(lib, rule.value);
      if network.None? then rs else
      var compiled := Compiled(rule.id, rule.kind, rule.matchType, rule.value, network);
      if rule.kind == "allow" then rs.(allowNetworks := rs.allowNetworks + [compiled])
      else rs.(denyNetworks := rs.denyNetworks + [compiled])
    else if rule.matchType == "country" then
      var code := lib.upper(rule.value);
      var compiled := Compiled(rule.id, rule.kind, rule.matchType, code, None);
      if rule.kind == "allow" then rs.(allowCountries := rs.allowCountries[code := compiled])
      else rs.(denyCountries := rs.denyCountries[code := compiled])
    else rs
  }

  function Compile(lib: Library, rules: seq<Rule>): RuleSet {
    if rules == [] then RuleSet([], [], map[], map[]) else
    var n := |rules| - 1;
    Add(lib, Compile(lib, rules[..n]), rules[n])
  }

  method CompileRules(lib: Library, rules: seq<Rule>) returns (rs: RuleSet)
    ensures rs == Compile(lib, rules)
  {
    rs := RuleSet([], [], map[], map[]);
    for i := 0 to |rules|
      invariant rs == Compile(lib, rules[..i])
    {
      var rule := rules[i];
      assert rules[..i + 1][..i] == rules[..i];
      if rule.deleted || rule.enabled == Some(false) {
        continue;
      }
      if (rule.kind != "allow" && rule.kind != "deny") || rule.value == "" {
        continue;
      }
      if rule.matchType == "ip" || rule.matchType == "cidr" {
        var network := ParseNetwork(lib, rule.value);
        if network.None? {
          continue;
        }
        var compiled := Compiled(rule.id, rule.kind, rule.matchType, rule.value, network);
        if rule.kind == "allow" {
          rs := rs.(allowNetworks := rs.allowNetworks + [compiled]);
        } else {
          rs := rs.(denyNetworks := rs.denyNetworks + [compiled]);
        }
      } else if rule.matchType == "country" {
        var code := lib.upper(rule.value);
        var compiled := Compiled(rule.id, rule.kind, rule.matchType, code, None);
        if rule.kind == "allow" {
          rs := rs.(allowCountries := rs.allowCountries[code := compiled]);
        } else {
          rs := rs.(denyCountries := rs.denyCountries[code := compiled]);
        }
      }
    }
    assert rules[..|rules|] == rules;
  }

  // ---- deciding ---------------------------------------------------------------------------------------------

  predicate Catches(rule: Compiled, addr: Address) {
    rule.network.Some? && Contains(rule.network.value, addr)
  }

  method MatchNetwork(addr: Address, rules: seq<Compiled>) returns (hit: Option<Compiled>)
    ensures hit == FirstHit(addr, rules)
  {
    for i := 0 to |rules|
      invariant FirstHit(addr, rules) == FirstHit(addr, rules[i..])
    {
      if Catches(rules[i], addr) {
        return Some(rules[i]);
      }
      assert rules[i..][1..] == rules[i + 1..];
    }
    hit := None;
  }

  function FirstHit(addr: Address, rules: seq<Compiled>): Option<Compiled> {
    if rules == [] then None
    else if Catches(rules[0], addr) then Some(rules[0])
    else FirstHit(addr, rules[1..])
  }

  function Verdict(rule: Compiled): Decision {
    var allowed := rule.kind == "allow";
    Decision(allowed, if allowed then Allowlisted else Denied, Some(rule))
  }

  function AddressOf(lib: Library, ip: Option<string>): Option<Address> {
    if ip.Some? && ip.value != "" then ParseAddress(lib, ip.value) else None
  }

  function CodeOf(lib: Library, country: Option<string>): Option<string> {
    if country.Some? && country.value != "" && lib.upper(country.value) != "" then Some(lib.upper(country.value))
    else None
  }

  /** The rule of one side that applies: a network first, then the country. */
  function Applies(networks: seq<Compiled>, countries: map<string, Compiled>, addr: Option<Address>, code: Option<string>)
    : Option<Compiled>
  {
    var hit := if addr.Some? then FirstHit(addr.value, networks) else None;
    if hit.Some? then hit
    else if code.Some? && code.value in countries then Some(countries[code.value])
    else None
  }

  function Decided(lib: Library, ip: Option<string>, rs: RuleSet, country: Option<string>): Decision {
    var addr, code := AddressOf(lib, ip), CodeOf(lib, country);
    var allow := Applies(rs.allowNetworks, rs.allowCountries, addr, code);
    var deny := Applies(rs.denyNetworks, rs.denyCountries, addr, code);
    if allow.Some? then Verdict(allow.value)
    else if deny.Some? then Verdict(deny.value)
    else Decision(true, if ip.Some? && ip.value != "" && addr.None? then Unresolved else DefaultAllow, None)
  }

  method Decide(lib: Library, ip: Option<string>, rs: RuleSet, country: Option<string>) returns (d: Decision)
    ensures d == Decided(lib, ip, rs, country)
  {
    var addr := None;
    if ip.Some? && ip.value != "" {
      addr := ParseAddress(lib, ip.value);
    }
    var code := if country.Some? && country.value != "" then lib.upper(country.value) else "";
    if addr.Some? {
      var hit := MatchNetwork(addr.value, rs.allowNetworks);
      if hit.Some? {
        return Verdict(hit.value);
      }
    }
    if code != "" && code in rs.allowCountries {
      return Verdict(rs.allowCountries[code]);
    }
    if addr.Some? {
      var hit := MatchNetwork(addr.value, rs.denyNetworks);
      if hit.Some? {
        return Verdict(hit.value);
      }
    }
    if code != "" && code in rs.denyCountries {
      return Verdict(rs.denyCountries[code]);
    }
    d := Decision(true, if ip.Some? && ip.value != "" && addr.None? then Unresolved else DefaultAllow, None);
  }

  // ---- first principles ----------------------------------------------------------------------------------------

  predicate NetworkMatch(lib: Library, rule: Rule, kind: string, addr: Address) {
    && Live(rule) && rule.kind == kind && (rule.matchType == "ip" || rule.matchType == "cidr")
    && ParseNetwork(lib, rule.value).Some? && Contains(ParseNetwork(lib, rule.value).value, addr)
  }

  predicate CountryMatch(lib: Library, rule: Rule, kind: string, code: string) {
    Live(rule) && rule.kind == kind && rule.matchType == "country" && lib.upper(rule.value) == code
  }

  /** A live, enabled rule of that kind covers the client, by its address or by its country. */
  predicate Covers(lib: Library, rule: Rule, kind: string, addr: Option<Address>, code: Option<string>) {
    || (addr.Some? && NetworkMatch(lib, rule, kind, addr.value))
    || (code.Some? && CountryMatch(lib, rule, kind, code.value))
  }

  ghost predicate Covered(lib: Library, rules: seq<Rule>, kind: string, addr: Option<Address>, code: Option<string>) {
    exists rule :: rule in rules && Covers(lib, rule, kind, addr, code)
  }

  function NetworksOf(rs: RuleSet, kind: string): seq<Compiled> {
    if kind == "allow" then rs.allowNetworks else rs.denyNetworks
  }

  function CountriesOf(rs: RuleSet, kind: string): map<string, Compiled> {
    if kind == "allow" then rs.allowCountries else rs.denyCountries
  }

  predicate IsKind(kind: string) { kind == "allow" || kind == "deny" }

  lemma {:induction false} HitSnoc(addr: Address, rules: seq<Compiled>, rule: Compiled)
    ensures FirstHit(addr, rules + [rule]) ==
      if FirstHit(addr, rules).Some? then FirstHit(addr, rules)
      else if Catches(rule, addr) then Some(rule) else None
  {
    if rules == [] {
      assert [rule][1..] == [];
    } else {
      assert (rules + [rule])[0] == rules[0] && (rules + [rule])[1..] == rules[1..] + [rule];
      HitSnoc(addr, rules[1..], rule);
    }
  }

  /** One more rule adds at most one network to its side. */
  lemma AddNetwork(lib: Library, rs: RuleSet, rule: Rule, kind: string, addr: Address)
    requires IsKind(kind)
    ensures var was, now := FirstHit(addr, NetworksOf(rs, kind)), FirstHit(addr, NetworksOf(Add(lib, rs, rule), kind));
            && (now.Some? <==> was.Some? || NetworkMatch(lib, rule, kind, addr))
            && (now.Some? && now != was ==> now.value.kind == kind)
  {
    var before, after := NetworksOf(rs, kind), NetworksOf(Add(lib, rs, rule), kind);
    if after != before {
      HitSnoc(addr, before, after[|before|]);
    }
  }

  lemma AddCountry(lib: Library, rs: RuleSet, rule: Rule, kind: string, code: string)
    requires IsKind(kind)
    ensures var was, now := CountriesOf(rs, kind), CountriesOf(Add(lib, rs, rule), kind);
            && (code in now <==> code in was || CountryMatch(lib, rule, kind, code))
            && (code in now && !(code in was && now[code] == was[code]) ==> now[code].kind == kind)
  {
  }

  ghost predicate AnyNetwork(lib: Library, rules: seq<Rule>, kind: string, addr: Address) {
    exists rule :: rule in rules && NetworkMatch(lib, rule, kind, addr)
  }

  ghost predicate AnyCountry(lib: Library, rules: seq<Rule>, kind: string, code: string) {
    exists rule :: rule in rules && CountryMatch(lib, rule, kind, code)
  }

  lemma LastOrEarlier(lib: Library, rules: seq<Rule>, kind: string, addr: Address, code: string)
    requires rules != []
    ensures var n := |rules| - 1;
            && (AnyNetwork(lib, rules, kind, addr)
                <==> AnyNetwork(lib, rules[..n], kind, addr) || NetworkMatch(lib, rules[n], kind, addr))
            && (AnyCountry(lib, rules, kind, code)
                <==> AnyCountry(lib, rules[..n], kind, code) || CountryMatch(lib, rules[n], kind, code))
  {
    assert rules == rules[..|rules| - 1] + [rules[|rules| - 1]];
  }

  lemma {:induction false} HitsAre(lib: Library, rules: seq<Rule>, kind: string, addr: Address)
    requires IsKind(kind)
    ensures var hit := FirstHit(addr, NetworksOf(Compile(lib, rules), kind));
            && (hit.Some? <==> AnyNetwork(lib, rules, kind, addr))
            && (hit.Some? ==> hit.value.kind == kind)
  {
    if rules != [] {
      var n := |rules| - 1;
      HitsAre(lib, rules[..n], kind, addr);
      AddNetwork(lib, Compile(lib, rules[..n]), rules[n], kind, addr);
      LastOrEarlier(lib, rules, kind, addr, "");
    }
  }

  lemma {:induction false} CountriesAre(lib: Library, rules: seq<Rule>, kind: string, code: string)
    requires IsKind(kind)
    ensures var countries := CountriesOf(Compile(lib, rules), kind);
            && (code in countries <==> AnyCountry(lib, rules, kind, code))
            && (code in countries ==> countries[code].kind == kind)
  {
    if rules != [] {
      var n := |rules| - 1;
      CountriesAre(lib, rules[..n], kind, code);
      AddCountry(lib, Compile(lib, rules[..n]), rules[n], kind, code);
      LastOrEarlier(lib, rules, kind, Address(false, 0), code);
    }
  }

  lemma AppliesIsCovered(lib: Library, rules: seq<Rule>, kind: string, addr: Option<Address>, code: Option<string>)
    requires IsKind(kind)
    ensures var rs := Compile(lib, rules);
            var hit := Applies(NetworksOf(rs, kind), CountriesOf(rs, kind), addr, code);
            && (hit.Some? <==> Covered(lib, rules, kind, addr, code))
            && (hit.Some? ==> hit.value.kind == kind)
  {
    if addr.Some? {
      HitsAre(lib, rules, kind, addr.value);
    }
    if code.Some? {
      CountriesAre(lib, rules, kind, code.value);
    }
    var rs := Compile(lib, rules);
    var hit := Applies(NetworksOf(rs, kind), CountriesOf(rs, kind), addr, code);
    if hit.Some? {
      var rule :| rule in rules && ((addr.Some? && NetworkMatch(lib, rule, kind, addr.value))
                                    || (code.Some? && CountryMatch(lib, rule, kind, code.value)));
      assert Covers(lib, rule, kind, addr, code);
    }
  }

  // ---- coverage, spelled out ---------------------------------------------------------------------------------

  /** The number lies in the block of 2^(32 - bits) addresses that the base address is in. */
  predicate InBlock(number: nat, base: nat, bits: nat)
    requires bits <= 32
  {
    var size := Pow2(32 - bits);
    base - base % size <= number < base - base % size + size
  }

  /** The prefix written behind a slash: up to 32 in digits, or else a mask the library reads. */
  predicate PrefixReads(lib: Library, s: string, bits: nat) {
    && bits <= 32
    && if ReadNat(s).Some? && ReadNat(s).value <= 32 then ReadNat(s) == Some(bits) else lib.netmask(s) == Some(bits)
  }

  /** The value is an IPv4 address, or one with a prefix behind a slash. */
  predicate ReadsBlock(lib: Library, value: string, base: nat, bits: nat) {
    var parts := Parts(value, '/');
    && bits <= 32 && (|parts| == 1 || |parts| == 2) && ServerAddress(parts[0]) == Some(base)
    && (if |parts| == 1 then bits == 32 else PrefixReads(lib, parts[1], bits))
  }

  /** What the value of an address rule covers: a block of IPv4 addresses, or else what the library makes of it. */
  ghost predicate CoversAddress(lib: Library, value: string, ip: string) {
    if ReadsSomeBlock(lib, value)
    then exists base, bits :: ReadsBlock(lib, value, base, bits)
           && ServerAddress(ip).Some? && InBlock(ServerAddress(ip).value, base, bits)
    else lib.network6(value).Some? && InNetwork(lib, lib.network6(value).value, ip)
  }

  predicate InNetwork(lib: Library, net: Network, ip: string) {
    if ServerAddress(ip).Some? then Contains(net, Address(false, ServerAddress(ip).value))
    else lib.address6(ip).Some? && Contains(net, Address(true, lib.address6(ip).value))
  }

  /** A live, enabled rule of that kind that covers the client by its address or by its country. */
  ghost predicate CoversClient(lib: Library, rule: Rule, kind: string, ip: Option<string>, country: Option<string>) {
    && !rule.deleted && rule.enabled != Some(false) && rule.kind == kind && rule.value != ""
    && (|| ((rule.matchType == "ip" || rule.matchType == "cidr")
            && ip.Some? && ip.value != "" && CoversAddress(lib, rule.value, ip.value))
        || (rule.matchType == "country" && country.Some? && country.value != ""
            && lib.upper(country.value) != "" && lib.upper(country.value) == lib.upper(rule.value)))
  }

  ghost predicate SomeCovers(lib: Library, rules: seq<Rule>, kind: string, ip: Option<string>, country: Option<string>) {
    exists rule :: rule in rules && CoversClient(lib, rule, kind, ip, country)
  }

  lemma AddressFits(s: string)
    requires ServerAddress(s).Some?
    ensures ServerAddress(s).value < WORD
  {
  }

  lemma BlockIsMasked(number: nat, base: nat, bits: nat)
    requires number < WORD && base < WORD && bits <= 32
    ensures And(number, ServerMask(32, bits)) == And(base, ServerMask(32, bits)) <==> InBlock(number, base, bits)
  {
    Pow2Of32();
    ServerMaskIs(32, bits);
    Pow2Grows(32 - bits, 32);
    AndHighOnes(number, 32, 32 - bits);
    AndHighOnes(base, 32, 32 - bits);
    BlockIs(number, base, Pow2(32 - bits));
  }

  /** An address in a network, in either family, is one that the network's prefix takes to its base. */
  lemma ContainsIs(net: Network, addr: Address)
    requires addr.number < Pow2(if addr.v6 then 128 else 32)
    ensures Contains(net, addr) <==>
      && addr.v6 == net.v6 && net.bits <= (if net.v6 then 128 else 32)
      && addr.number - addr.number % Pow2((if net.v6 then 128 else 32) - net.bits) == net.base
  {
    var width := if net.v6 then 128 else 32;
    if addr.v6 == net.v6 && net.bits <= width {
      ServerMaskIs(width, net.bits);
      Pow2Grows(width - net.bits, width);
      AndHighOnes(addr.number, width, width - net.bits);
    }
  }

  ghost predicate ReadsSomeBlock(lib: Library, value: string) {
    exists base, bits :: ReadsBlock(lib, value, base, bits)
  }

  lemma ReadsOneBlock(lib: Library, value: string, base: nat, bits: nat, b: nat, n: nat)
    requires ReadsBlock(lib, value, base, bits) && ReadsBlock(lib, value, b, n)
    ensures b == base && n == bits
  {
  }

  lemma ReadsNoBlock(lib: Library, value: string)
    requires ParseNetwork4(lib, value).None?
    ensures !ReadsSomeBlock(lib, value)
  {
    var parts := Parts(value, '/');
    if |parts| == 2 {
      ReadNatIff(parts[1]);
    }
  }

  lemma ReadsBlockIs(lib: Library, value: string) returns (base: nat, bits: nat)
    requires ParseNetwork4(lib, value).Some?
    ensures ReadsBlock(lib, value, base, bits) && base < WORD
    ensures ParseNetwork4(lib, value).value == Network(false, And(base, ServerMask(32, bits)), bits)
  {
    var parts := Parts(value, '/');
    base, bits := ServerAddress(parts[0]).value, ParseNetwork4(lib, value).value.bits;
    AddressFits(parts[0]);
    if |parts| == 2 {
      ReadNatIff(parts[1]);
    }
  }

  /** A block of IPv4 addresses holds the IPv4 addresses in it and nothing else. */
  lemma BlockCovers(lib: Library, base: nat, bits: nat, ip: string)
    requires base < WORD && bits <= 32
    ensures var addr, net := ParseAddress(lib, ip), Network(false, And(base, ServerMask(32, bits)), bits);
            addr.Some? && Contains(net, addr.value)
            <==> ServerAddress(ip).Some? && InBlock(ServerAddress(ip).value, base, bits)
  {
    if ServerAddress(ip).Some? {
      AddressFits(ip);
      BlockIsMasked(ServerAddress(ip).value, base, bits);
    }
  }

  lemma AddressCoverIs(lib: Library, value: string, ip: string)
    ensures var addr, net := ParseAddress(lib, ip), ParseNetwork(lib, value);
            addr.Some? && net.Some? && Contains(net.value, addr.value) <==> CoversAddress(lib, value, ip)
  {
    if ParseNetwork4(lib, value).Some? {
      var base, bits := ReadsBlockIs(lib, value);
      BlockCovers(lib, base, bits, ip);
      if b, n :| ReadsBlock(lib, value, b, n) && ServerAddress(ip).Some? && InBlock(ServerAddress(ip).value, b, n) {
        ReadsOneBlock(lib, value, base, bits, b, n);
      }
    } else {
      ReadsNoBlock(lib, value);
    }
  }

  lemma CoversIsClient(lib: Library, rule: Rule, kind: string, ip: Option<string>, country: Option<string>)
    requires IsKind(kind)
    ensures Covers(lib, rule, kind, AddressOf(lib, ip), CodeOf(lib, country))
            <==> CoversClient(lib, rule, kind, ip, country)
  {
    if ip.Some? && ip.value != "" {
      AddressCoverIs(lib, rule.value, ip.value);
    }
  }

  lemma CoveredIsSome(lib: Library, rules: seq<Rule>, kind: string, ip: Option<string>, country: Option<string>)
    requires IsKind(kind)
    ensures Covered(lib, rules, kind, AddressOf(lib, ip), CodeOf(lib, country))
            <==> SomeCovers(lib, rules, kind, ip, country)
  {
    forall rule | rule in rules
      ensures Covers(lib, rule, kind, AddressOf(lib, ip), CodeOf(lib, country))
              <==> CoversClient(lib, rule, kind, ip, country)
    {
      CoversIsClient(lib, rule, kind, ip, country);
    }
  }

  /** A client is let in exactly when some live allow rule covers it or no live deny rule does. */
  lemma VerdictFromFirstPrinciples(lib: Library, rules: seq<Rule>, ip: Option<string>, country: Option<string>)
    ensures var d := Decided(lib, ip, Compile(lib, rules), country);
            var allow, deny := SomeCovers(lib, rules, "allow", ip, country), SomeCovers(lib, rules, "deny", ip, country);
            && (d.allowed <==> allow || !deny)
            && (d.reason == Allowlisted <==> allow) && (d.reason == Denied <==> !allow && deny)
            && (d.reason == Unresolved <==>
                  !allow && !deny && ip.Some? && ip.value != ""
                  && ServerAddress(ip.value).None? && lib.address6(ip.value).None?)
            && (d.rule.Some? <==> allow || deny)
  {
    AppliesIsCovered(lib, rules, "allow", AddressOf(lib, ip), CodeOf(lib, country));
    AppliesIsCovered(lib, rules, "deny", AddressOf(lib, ip), CodeOf(lib, country));
    CoveredIsSome(lib, rules, "allow", ip, country);
    CoveredIsSome(lib, rules, "deny", ip, country);
  }

  /** Neither the order of the rules nor repeating one matters to the verdict. */
  lemma OrderDoesNotMatter(lib: Library, a: seq<Rule>, b: seq<Rule>, ip: Option<string>, country: Option<string>)
    requires forall rule :: rule in a <==> rule in b
    ensures Decided(lib, ip, Compile(lib, a), country).allowed == Decided(lib, ip, Compile(lib, b), country).allowed
  {
    VerdictFromFirstPrinciples(lib, a, ip, country);
    VerdictFromFirstPrinciples(lib, b, ip, country);
  }

  /** More allow rules never shut anyone out, and more deny rules never let anyone in. */
  lemma MoreRules(lib: Library, rules: seq<Rule>, more: seq<Rule>, ip: Option<string>, country: Option<string>)
    ensures var was := Decided(lib, ip, Compile(lib, rules), country).allowed;
            var now := Decided(lib, ip, Compile(lib, rules + more), country).allowed;
            && ((forall rule :: rule in more ==> rule.kind != "deny") && was ==> now)
            && ((forall rule :: rule in more ==> rule.kind != "allow") && now ==> was)
  {
    VerdictFromFirstPrinciples(lib, rules, ip, country);
    VerdictFromFirstPrinciples(lib, rules + more, ip, country);
  }

  // ---- the browser's warning -----------------------------------------------------------------------------------

  function WouldBlockSelf(
      lib: Library, myIp: string, myCountry: Option<string>, kind: string, matchType: string, value: string): bool
  {
    var v := lib.trim(value);
    if kind != "deny" || v == "" || myIp == "" then false
    else if matchType == "ip" then v == myIp
    else if matchType == "cidr" then BrowserInRange(lib.number, myIp, v)
    else if matchType == "country" then
      myCountry.Some? && myCountry.value != "" && lib.upper(v) == lib.upper(myCountry.value)
    else false
  }

  /** Rule values in canonical text; a range may be given by any address inside it. */
  datatype Value = One(number: nat) | Range(base: nat, bits: Prefix4) | Country(code: string)

  predicate Writable(v: Value) {
    match v
    case One(n) => n < WORD
    case Range(base, bits) => base < WORD
    case Country(code) => true
  }

  function TextOf(v: Value): string
    requires Writable(v)
  {
    match v
    case One(n) => Dotted(n)
    case Range(base, bits) => RangeText(base, bits)
    case Country(code) => code
  }

  function TypeOf(v: Value): string {
    match v
    case One(_) => "ip"
    case Range(_, _) => "cidr"
    case Country(_) => "country"
  }

  predicate Ordinary(lib: Library, v: Value, country: Option<string>)
    requires Writable(v)
  {
    && lib.trim(TextOf(v)) == TextOf(v)
    && (v.Range? ==> ReadsNumerals(lib.number, v.bits))
    && (country.Some? && country.value != "" ==> lib.upper(country.value) != "")
  }

  lemma NetworkOfOne(lib: Library, n: nat)
    requires n < WORD
    ensures ParseNetwork(lib, Dotted(n)) == Some(Network(false, n, 32))
  {
    DottedHasNoSlash(n);
    PartsOfOne(Dotted(n), '/');
    AddressReadsBack(n);
    FullMask(n);
  }

  lemma FullMask(n: nat)
    requires n < WORD
    ensures And(n, ServerMask(32, 32)) == n
  {
    Pow2Of32();
    FullServerMask();
    AndOnes(n, 32);
  }

  lemma FullServerMask()
    ensures ServerMask(32, 32) == Pow2(32) - 1
  {
    ServerMaskIs(32, 32);
  }

  lemma NetworkOfRange(lib: Library, base: nat, bits: Prefix4)
    requires base < WORD
    ensures ParseNetwork(lib, RangeText(base, bits)) == Some(Network(false, And(base, ServerMask(32, bits)), bits))
  {
    DottedHasNoSlash(base);
    NatTextShape(bits);
    PartsOfOne(NatText(bits), '/');
    PartsOfMore(Dotted(base), '/', NatText(bits));
    assert RangeText(base, bits) == Dotted(base) + ['/'] + NatText(bits);
    AddressReadsBack(base);
    NatReadsBack(bits);
  }

  lemma DottedNotEmpty(n: nat)
    requires n < WORD
    ensures Dotted(n) != ""
  {
    NatTextShape(n % 256);
  }

  lemma DottedInjective(a: nat, b: nat)
    requires a < WORD && b < WORD
    ensures Dotted(a) == Dotted(b) <==> a == b
  {
    AddressReadsBack(a);
    AddressReadsBack(b);
  }

  lemma SeesAddress(lib: Library, my: nat, n: nat)
    requires my < WORD && n < WORD
    ensures Dotted(n) == Dotted(my) <==>
      ParseNetwork(lib, Dotted(n)).Some? && Contains(ParseNetwork(lib, Dotted(n)).value, Address(false, my))
  {
    NetworkOfOne(lib, n);
    FullMask(my);
    DottedInjective(n, my);
  }

  lemma SeesRange(lib: Library, my: nat, base: nat, bits: Prefix4)
    requires my < WORD && base < WORD && ReadsNumerals(lib.number, bits)
    ensures var net := ParseNetwork(lib, RangeText(base, bits));
            BrowserInRange(lib.number, Dotted(my), RangeText(base, bits))
            <==> net.Some? && Contains(net.value, Address(false, my))
  {
    NetworkOfRange(lib, base, bits);
    BrowserRangeIsInterval(lib.number, my, base, bits);
    Pow2Of32();
    MaskIsInterval(32, my, base, bits);
  }

  /** Whether the one rule covers the client, as the browser works it out. */
  lemma BrowserSeesCover(lib: Library, my: nat, country: Option<string>, v: Value, rule: Rule)
    requires my < WORD && Writable(v) && Ordinary(lib, v, country)
    requires rule == Rule(None, false, Some(true), "deny", TypeOf(v), TextOf(v))
    ensures WouldBlockSelf(lib, Dotted(my), country, "deny", TypeOf(v), TextOf(v))
        <==> Covers(lib, rule, "deny", Some(Address(false, my)), CodeOf(lib, country))
  {
    DottedNotEmpty(my);
    match v
    case One(n) =>
      DottedNotEmpty(n);
      SeesAddress(lib, my, n);
    case Range(base, bits) =>
      SeesRange(lib, my, base, bits);
    case Country(code) =>
  }

  /** For addresses in canonical form, the browser warns exactly when that rule alone would shut the client out. */
  lemma WarningMatchesVerdict(lib: Library, my: nat, country: Option<string>, kind: string, v: Value)
    requires my < WORD && Writable(v) && Ordinary(lib, v, country)
    ensures var rule := Rule(None, false, Some(true), kind, TypeOf(v), TextOf(v));
            WouldBlockSelf(lib, Dotted(my), country, kind, TypeOf(v), TextOf(v))
            <==> !Decided(lib, Some(Dotted(my)), Compile(lib, [rule]), country).allowed
  {
    var rule := Rule(None, false, Some(true), kind, TypeOf(v), TextOf(v));
    var addr, code := Some(Address(false, my)), CodeOf(lib, country);
    DottedNotEmpty(my);
    AddressReadsBack(my);
    VerdictFromFirstPrinciples(lib, [rule], Some(Dotted(my)), country);
    CoveredIsSome(lib, [rule], "allow", Some(Dotted(my)), country);
    CoveredIsSome(lib, [rule], "deny", Some(Dotted(my)), country);
    assert forall k :: Covered(lib, [rule], k, addr, code) <==> Covers(lib, rule, k, addr, code) by {
      assert rule in [rule];
    }
    if kind == "deny" {
      BrowserSeesCover(lib, my, country, v, rule);
    }
  }
}
