/**
 The route part of the production profile check: which private CIDRs and local addresses a
 profile may name, and what an accepted profile guarantees about the address space and to the
 route helper.
 */
module ProductionProfile {
  import opened Wrappers
  import opened Bits
  import opened Prefixes
  import opened RouteNetworks
  import opened NetworkPrefixes
  import opened Texts
  import opened AddressText
  import RouteJournal

  const MAX_PRIVATE_CIDRS: nat := 16
  const MAX_PRIVATE_CIDR_TEXT_BYTES: nat := 1024

  // ----- the private ranges -----

  const ULA_FIRST: nat := 0xfc00_0000_0000_0000_0000_0000_0000_0000
  const ULA_END: nat := 0xfe00_0000_0000_0000_0000_0000_0000_0000

  /** Section 3 of RFC 1918 and section 3.1 of RFC 4193. */
  predicate IsPrivate(family: Family, address: nat) {
    match family
    case IPv4 =>
      || 0x0a00_0000 <= address < 0x0b00_0000
      || 0xac10_0000 <= address < 0xac20_0000
      || 0xc0a8_0000 <= address < 0xc0a9_0000
    case IPv6 => ULA_FIRST <= address < ULA_END
  }

  lemma Powers()
    ensures Pow2(1) == 2 && Pow2(16) == 0x1_0000 && Pow2(20) == 0x10_0000 && Pow2(24) == 0x100_0000 && Pow2(32) == 0x1_0000_0000
    ensures Pow2(121) == ULA_END - ULA_FIRST
    ensures Pow2(128) == 0x1_0000_0000_0000_0000_0000_0000_0000_0000
    ensures Pow2(120) == 0x100_0000_0000_0000_0000_0000_0000_0000
    ensures Pow2(112) == 0x1_0000_0000_0000_0000_0000_0000_0000
  {
    SixteenBits();
    assert Pow2(4) == 16 && Pow2(8) == 256 && Pow2(1) == 2;
    Pow2Add(16, 4);
    Pow2Add(16, 8);
    Pow2Add(16, 16);
    Pow2Add(32, 32);
    Pow2Add(64, 32);
    Pow2Add(96, 16);
    Pow2Add(96, 24);
    Pow2Add(120, 1);
    Pow2Add(120, 8);
  }

  lemma AllowlistIsProper()
    ensures IsProper(ParsedPrefix(0x0a00_0000, 8, IPv4)) && IsProper(ParsedPrefix(0xac10_0000, 12, IPv4))
    ensures IsProper(ParsedPrefix(0xc0a8_0000, 16, IPv4)) && IsProper(ParsedPrefix(ULA_FIRST, 7, IPv6))
  {
    hide Pow2;
    Powers();
  }

  function PrivateAllowlist(): seq<Prefix> {
    AllowlistIsProper();
    [ParsedPrefix(0x0a00_0000, 8, IPv4),
     ParsedPrefix(0xac10_0000, 12, IPv4),
     ParsedPrefix(0xc0a8_0000, 16, IPv4),
     ParsedPrefix(ULA_FIRST, 7, IPv6)]
  }

  /** The allowlist is what the source parses from its four literals. */
  lemma AllowlistIsParsed()
    ensures ParsedCanonicalPrefix("10.0.0.0/8") == Some(PrivateAllowlist()[0])
    ensures ParsedCanonicalPrefix("172.16.0.0/12") == Some(PrivateAllowlist()[1])
    ensures ParsedCanonicalPrefix("192.168.0.0/16") == Some(PrivateAllowlist()[2])
    ensures ParsedCanonicalPrefix("fc00::/7") == Some(PrivateAllowlist()[3])
  {
    hide Pow2, ParsedCanonicalPrefix, Spelled, IPv4Text;
    Numerals();
    UlaLiteral();
    IPv4Literal(PrivateAllowlist()[0], 10, 0, "10", "0", "8");
    IPv4Literal(PrivateAllowlist()[1], 172, 16, "172", "16", "12");
    IPv4Literal(PrivateAllowlist()[2], 192, 168, "192", "168", "16");
    assert "10" + "." + "0" + ".0.0/" + "8" == "10.0.0.0/8";
    assert "172" + "." + "16" + ".0.0/" + "12" == "172.16.0.0/12";
    assert "192" + "." + "168" + ".0.0/" + "16" == "192.168.0.0/16";
  }

  lemma Numerals()
    ensures Spelled(0, 10) == "0" && Spelled(7, 10) == "7" && Spelled(8, 10) == "8" && Spelled(10, 10) == "10"
    ensures Spelled(12, 10) == "12" && Spelled(16, 10) == "16"
    ensures Spelled(168, 10) == "168" && Spelled(172, 10) == "172" && Spelled(192, 10) == "192"
    ensures Spelled(0xfc00, 16) == "fc00"
  {
    assert Spelled(1, 10) == "1";
    assert Spelled(10, 10) == "10" && Spelled(16, 10) == "16" && Spelled(17, 10) == "17" && Spelled(19, 10) == "19";
    assert Spelled(0xf, 16) == "f";
    assert Spelled(0xfc, 16) == "fc";
    assert Spelled(0xfc0, 16) == "fc0";
  }

  lemma IPv4Literal(p: Prefix, first: Byte, second: Byte, one: string, two: string, length: string)
    requires p.family == IPv4 && p.address == (first * 256 + second) * 65536 && Spelled(p.bits, 10) == length
    requires Spelled(first, 10) == one && Spelled(second, 10) == two
    ensures ParsedCanonicalPrefix(one + "." + two + ".0.0/" + length) == Some(p)
  {
    hide Pow2, ParsedCanonicalPrefix, Spelled, IPv4Text;
    OctetsOfBlock(first, second);
    DottedBlock(first, second, one, two);
    PrefixAcceptsOneSpelling(one + "." + two + ".0.0/" + length, p);
    assert one + "." + two + ".0.0/" + length == one + "." + two + ".0.0" + "/" + length;
  }

  /** The four octets of a /16-aligned address. */
  lemma OctetsOfBlock(first: Byte, second: Byte)
    ensures Bytes((first * 256 + second) * 65536, 4) == [first, second, 0, 0]
  {
    hide Bytes;
    ValueOfAppended([], first);
    ValueOfAppended([first], second);
    ValueOfAppended([first, second], 0);
    ValueOfAppended([first, second, 0], 0);
    assert [] + [first] == [first] && [first] + [second] == [first, second];
    assert [first, second] + [0] == [first, second, 0] && [first, second, 0] + [0] == [first, second, 0, 0];
    BytesOfTheirValue([first, second, 0, 0]);
  }

  lemma DottedBlock(first: Byte, second: Byte, one: string, two: string)
    requires Spelled(first, 10) == one && Spelled(second, 10) == two
    requires Bytes((first * 256 + second) * 65536, 4) == [first, second, 0, 0]
    ensures IPv4Text((first * 256 + second) * 65536) == one + "." + two + ".0.0"
  {
    hide Spelled, Bytes;
    Numerals();
    assert Decimals([first, second, 0, 0]) == [one, two, "0", "0"];
    JoinOfTwo("0", "0");
    JoinOneMore(two, ["0", "0"]);
    JoinOneMore(one, [two, "0", "0"]);
    assert [two] + ["0", "0"] == [two, "0", "0"] && [one] + [two, "0", "0"] == [one, two, "0", "0"];
    assert "0" + "." + "0" == "0.0";
    assert one + "." + (two + "." + "0.0") == one + "." + two + ".0.0";
  }

  lemma JoinOfTwo(a: string, b: string)
    ensures Join([a, b], '.') == a + "." + b
  {
    assert [a, b][1..] == [b];
  }

  lemma JoinOneMore(first: string, rest: seq<string>)
    requires rest != []
    ensures Join([first] + rest, '.') == first + "." + Join(rest, '.')
  {
  }

  lemma ValueOfAppended(bytes: seq<Byte>, last: Byte)
    ensures Value(bytes + [last]) == 256 * Value(bytes) + last
  {
    assert (bytes + [last])[..|bytes|] == bytes;
  }

  lemma UlaLiteral()
    ensures ParsedCanonicalPrefix("fc00::/7") == Some(PrivateAllowlist()[3])
  {
    hide Pow2, ParsedCanonicalPrefix, Spelled, GroupsOfValue, GroupsValue;
    var groups := [0xfc00] + Zeros(7);
    GroupsOfTheirValue(groups);
    ZerosShift(0xfc00, 7);
    Powers();
    assert groups[0] != 0 && IsZeroRun(groups, 1, 7);
    assert IsShortened(groups, 1, 7);
    ShorteningIsUnique(groups, 1, 7);
    Numerals();
    assert groups[..1] == [0xfc00] && groups[8..] == [];
    assert HexGroups([0xfc00]) == ["fc00"] && HexGroups([]) == [];
    PrefixAcceptsOneSpelling("fc00::/7", PrivateAllowlist()[3]);
    assert "fc00" + "::" + "" + "/" + "7" == "fc00::/7";
  }

  /** Trailing zero groups only shift. */
  lemma {:induction false} ZerosShift(first: nat, count: nat)
    ensures GroupsValue([first] + Zeros(count)) == first * Pow2(16 * count)
  {
    var groups := [first] + Zeros(count);
    if count > 0 {
      ZerosShift(first, count - 1);
      assert groups[..count] == [first] + Zeros(count - 1);
      Pow2Add(16, 16 * (count - 1));
      SixteenBits();
    } else {
      assert groups == [first] && groups[..0] == [];
    }
  }

  predicate IsAllowlistedPrivatePrefix(p: Prefix) {
    exists i | 0 <= i < |PrivateAllowlist()| :: PrefixContains(PrivateAllowlist()[i], p)
  }

  /** Allowlisted prefixes hold private addresses only. */
  lemma AllowlistedIsPrivate(p: Prefix, a: nat)
    requires IsAllowlistedPrivatePrefix(p) && p.Covers(a)
    ensures IsPrivate(p.family, a)
  {
    hide Pow2, BitAnd, PrefixMask, IsNetworkPrefix, LeadingBits;
    Powers();
    var i :| 0 <= i < |PrivateAllowlist()| && PrefixContains(PrivateAllowlist()[i], p);
    var allowed := PrivateAllowlist()[i];
    AllowlistIsNetworks(i);
    PrefixContainsMeansSubset(allowed, p);
    CoversIsRange(allowed, a);
  }

  /** The private range that an address lies in. */
  lemma RangeOf(family: Family, a: nat) returns (i: nat)
    requires IsPrivate(family, a)
    ensures i < |PrivateAllowlist()| && PrivateAllowlist()[i].family == family && PrivateAllowlist()[i].Covers(a)
  {
    hide Pow2, Quotient, IsNetworkPrefix, LeadingBits;
    Powers();
    i := if family == IPv6 then 3 else if a < 0x0b00_0000 then 0 else if a < 0xac20_0000 then 1 else 2;
    AllowlistIsNetworks(i);
    CoversIsRange(PrivateAllowlist()[i], a);
  }

  lemma SameBlock(x: nat, y: nat, block: nat, q: nat)
    requires q * block <= x < q * block + block && q * block <= y < q * block + block
    ensures Quotient(x, block) == Quotient(y, block)
  {
    DivModUnique(x, block, q, x - q * block);
    DivModUnique(y, block, q, y - q * block);
  }

  /** One bit less than a private range reaches an address that is not private. */
  lemma BeyondRange(i: nat, a: nat) returns (outside: nat)
    requires i < |PrivateAllowlist()| && PrivateAllowlist()[i].Covers(a)
    ensures var allowed := PrivateAllowlist()[i];
            && !IsPrivate(allowed.family, outside) && outside < Pow2(allowed.Width())
            && ShareLeadingBits(allowed.Width(), outside, a, allowed.bits - 1)
  {
    hide Pow2, Quotient, IsNetworkPrefix;
    Powers();
    Pow2Add(24, 1);
    Pow2Add(20, 1);
    Pow2Add(16, 1);
    Pow2Add(121, 1);
    AllowlistIsNetworks(i);
    CoversIsRange(PrivateAllowlist()[i], a);
    outside := [0x0b00_0000, 0xac00_0000, 0xc0a9_0000, ULA_END][i];
    SameBlock(outside, a, [0x200_0000, 0x20_0000, 0x2_0000, 2 * (ULA_END - ULA_FIRST)][i], [5, 0x560, 0x6054, 0x3f][i]);
  }

  /** A shorter prefix over a private address holds one that is not. */
  lemma ReachesOut(p: Prefix, i: nat) returns (outside: nat)
    requires i < |PrivateAllowlist()| && PrivateAllowlist()[i].family == p.family && PrivateAllowlist()[i].Covers(p.address)
    requires p.bits < PrivateAllowlist()[i].bits
    ensures p.Covers(outside) && !IsPrivate(p.family, outside)
  {
    hide Pow2, LeadingBits, PrivateAllowlist, IsPrivate;
    outside := BeyondRange(i, p.address);
    FewerLeadingBits(p.Width(), outside, p.address, PrivateAllowlist()[i].bits - 1, p.bits);
  }

  /** The allowlist misses nothing: a prefix that holds private addresses only is allowlisted. */
  lemma PrivateIsAllowlisted(p: Prefix)
    requires HoldsOnlyPrivate(p)
    ensures IsAllowlistedPrivatePrefix(p)
  {
    hide Pow2, BitAnd, PrefixMask, LeadingBits, PrivateAllowlist, IsPrivate;
    CoversItself(p);
    var i := RangeOf(p.family, p.address);
    var allowed := PrivateAllowlist()[i];
    AllowlistIsNetworks(i);
    if p.bits < allowed.bits {
      var _ := ReachesOut(p, i);
    } else {
      MasksAgreeOnLeadingBits(p.Width(), p.address, allowed.address, allowed.bits);
      assert PrefixContains(allowed, p);
    }
  }

  ghost predicate HoldsOnlyPrivate(p: Prefix) {
    forall a: nat | p.Covers(a) :: IsPrivate(p.family, a)
  }

  lemma AllowlistedExactlyWhenPrivate(p: Prefix)
    ensures IsAllowlistedPrivatePrefix(p) <==> HoldsOnlyPrivate(p)
  {
    hide IsAllowlistedPrivatePrefix, IsPrivate;
    if IsAllowlistedPrivatePrefix(p) {
      forall a: nat | p.Covers(a)
        ensures IsPrivate(p.family, a)
      {
        AllowlistedIsPrivate(p, a);
      }
    } else if HoldsOnlyPrivate(p) {
      PrivateIsAllowlisted(p);
    }
  }

  lemma AllowlistIsNetworks(i: nat)
    requires i < |PrivateAllowlist()|
    ensures IsNetworkPrefix(PrivateAllowlist()[i])
  {
    hide Pow2, IsNetworkPrefix;
    Powers();
    NetworkPrefixMeansNoHostBits(PrivateAllowlist()[i]);
  }

  /** The addresses of a network prefix are the block that starts at its address. */
  lemma CoversIsRange(p: Prefix, a: nat)
    requires IsNetworkPrefix(p) && a < Pow2(p.Width())
    ensures p.Covers(a) <==> p.address <= a < p.address + Pow2(p.Width() - p.bits)
  {
    hide Pow2, Quotient, IsNetworkPrefix;
    NetworkPrefixMeansNoHostBits(p);
    var block := Pow2(p.Width() - p.bits);
    QuotientDivision(a, block);
    QuotientDivision(p.address, block);
    BlockRange(a, p.address, block, Quotient(a, block), Quotient(p.address, block), a % block);
  }

  lemma BlockRange(a: nat, start: nat, block: nat, q: nat, k: nat, r: nat)
    requires a == q * block + r && r < block && start == k * block
    ensures q == k <==> start <= a < start + block
  {
    if start <= a < start + block {
      DivModUnique(a, block, k, a - start);
      DivModUnique(a, block, q, r);
    }
  }

  // ----- the source's loops -----

  function TextLength(values: seq<string>): nat {
    if values == [] then 0 else TextLength(values[..|values| - 1]) + |values[|values| - 1]|
  }

  /** Every text counts with its length. */
  lemma {:induction false} TextLengthOfParts(a: seq<string>, b: seq<string>)
    ensures TextLength(a + b) == TextLength(a) + TextLength(b)
    ensures forall s: string :: TextLength([s]) == |s|
  {
    assert forall s: string :: [s][..0] == [];
    if b == [] {
      assert a + b == a;
    } else {
      TextLengthOfParts(a, b[..|b| - 1]);
      assert (a + b)[..|a + b| - 1] == a + b[..|b| - 1];
    }
  }

  /** Each text is the one spelling of the prefix at its place. */
  ghost predicate Spell(values: seq<string>, prefixes: seq<Prefix>) {
    |values| == |prefixes| && forall i | 0 <= i < |values| :: ParsedCanonicalPrefix(values[i]) == Some(prefixes[i])
  }

  /** Not everything, no host bits, and private addresses only. */
  ghost predicate IsRoute(p: Prefix) {
    p.bits != 0 && p.address % Pow2(p.Width() - p.bits) == 0 && HoldsOnlyPrivate(p)
  }

  /** One private address. */
  ghost predicate IsHost(p: Prefix) {
    p.bits == p.Width() && IsPrivate(p.family, p.address)
  }

  /** No address lies in both. */
  ghost predicate AreApart(p: Prefix, q: Prefix) {
    p.family == q.family ==> forall a: nat | p.Covers(a) :: !q.Covers(a)
  }

  lemma RouteTest(p: Prefix)
    ensures IsRoute(p) <==> p.bits != 0 && IsNetworkPrefix(p) && IsAllowlistedPrivatePrefix(p)
  {
    hide Pow2, HoldsOnlyPrivate, IsNetworkPrefix, IsAllowlistedPrivatePrefix;
    NetworkPrefixMeansNoHostBits(p);
    AllowlistedExactlyWhenPrivate(p);
  }

  lemma HostTest(p: Prefix)
    ensures IsHost(p) <==> p.bits == p.Width() && IsAllowlistedPrivatePrefix(p)
  {
    hide IsAllowlistedPrivatePrefix, IsPrivate;
    AllowlistedExactlyWhenPrivate(p);
    if p.bits == p.Width() {
      CoversItself(p);
      forall a: nat | p.Covers(a)
        ensures a == p.address
      {
        assert Pow2(0) == 1;
        QuotientDivision(a, 1);
        QuotientDivision(p.address, 1);
      }
    }
  }

  lemma ApartTest(p: Prefix, q: Prefix)
    ensures AreApart(p, q) <==> !PrefixesOverlap(p, q)
  {
    hide PrefixesOverlap, Prefixes.Covers;
    PrefixesOverlapMeansCommonAddress(p, q);
  }

  ghost predicate AreRoutes(prefixes: seq<Prefix>) {
    && (forall i | 0 <= i < |prefixes| :: IsRoute(prefixes[i]))
    && (forall i, j | 0 <= i < j < |prefixes| :: AreApart(prefixes[i], prefixes[j]))
  }

  ghost predicate AreHosts(prefixes: seq<Prefix>) {
    && (forall i | 0 <= i < |prefixes| :: IsHost(prefixes[i]))
    && (forall i, j | 0 <= i < j < |prefixes| :: prefixes[i].family != prefixes[j].family)
  }

  function FamiliesOf(prefixes: seq<Prefix>): set<Family> {
    set p | p in prefixes :: p.family
  }

  /** What the texts must spell to be accepted as private CIDRs; at most one list qualifies. */
  ghost predicate SpellRoutes(values: seq<string>, prefixes: seq<Prefix>) {
    && 1 <= |values| <= MAX_PRIVATE_CIDRS && TextLength(values) <= MAX_PRIVATE_CIDR_TEXT_BYTES
    && Spell(values, prefixes) && AreRoutes(prefixes)
  }

  ghost predicate SpellHosts(values: seq<string>, prefixes: seq<Prefix>) {
    1 <= |values| <= 2 && Spell(values, prefixes) && AreHosts(prefixes)
  }

  method ParsePrivatePrefixes(values: seq<string>) returns (result: Option<(set<Family>, seq<Prefix>)>)
    ensures result.Some? ==> SpellRoutes(values, result.value.1) && result.value.0 == FamiliesOf(result.value.1)
    ensures result.None? ==> forall prefixes :: !SpellRoutes(values, prefixes)
  {
    hide ParsedCanonicalPrefix, IsNetworkPrefix, IsAllowlistedPrivatePrefix, PrefixesOverlap, IsRoute, AreApart;
    if |values| < 1 || |values| > MAX_PRIVATE_CIDRS || TextLength(values) > MAX_PRIVATE_CIDR_TEXT_BYTES {
      return None;
    }
    var families: set<Family> := {};
    var prefixes: seq<Prefix> := [];
    for i := 0 to |values|
      invariant |prefixes| == i && Spell(values[..i], prefixes) && AreRoutes(prefixes)
      invariant families == FamiliesOf(prefixes)
    {
      var prefix := ParseCanonicalPrefix(values[i]);
      if prefix.Some? {
        RouteTest(prefix.value);
        forall k | 0 <= k < |prefixes|
          ensures AreApart(prefixes[k], prefix.value) <==> !PrefixesOverlap(prefixes[k], prefix.value)
        {
          ApartTest(prefixes[k], prefix.value);
        }
      }
      if prefix.None? || prefix.value.bits == 0 || !IsNetworkPrefix(prefix.value)
         || !IsAllowlistedPrivatePrefix(prefix.value)
         || exists k | 0 <= k < |prefixes| :: PrefixesOverlap(prefixes[k], prefix.value) {
        NotSpelled(values, prefixes, i);
        return None;
      }
      families := families + {prefix.value.family};
      prefixes := prefixes + [prefix.value];
    }
    assert values[..|values|] == values;
    return Some((families, prefixes));
  }

  /** The first text that fails rules out every list. */
  lemma NotSpelled(values: seq<string>, prefixes: seq<Prefix>, i: nat)
    requires i < |values| && Spell(values[..i], prefixes)
    requires var p := ParsedCanonicalPrefix(values[i]);
             p.None? || !IsRoute(p.value) || exists k | 0 <= k < i :: !AreApart(prefixes[k], p.value)
    ensures forall all :: !SpellRoutes(values, all)
  {
    hide ParsedCanonicalPrefix, IsRoute, AreApart;
    forall all | Spell(values, all)
      ensures !AreRoutes(all)
    {
      assert ParsedCanonicalPrefix(values[i]) == Some(all[i]);
      forall k | 0 <= k < i
        ensures all[k] == prefixes[k]
      {
        assert ParsedCanonicalPrefix(values[..i][k]) == Some(prefixes[k]);
      }
    }
  }

  method ParseHostPrefixes(values: seq<string>) returns (result: Option<(set<Family>, seq<Prefix>)>)
    ensures result.Some? ==> SpellHosts(values, result.value.1) && result.value.0 == FamiliesOf(result.value.1)
    ensures result.None? ==> forall prefixes :: !SpellHosts(values, prefixes)
  {
    hide ParsedCanonicalPrefix, IsAllowlistedPrivatePrefix, IsHost;
    if |values| < 1 || |values| > 2 {
      return None;
    }
    var families: set<Family> := {};
    var prefixes: seq<Prefix> := [];
    for i := 0 to |values|
      invariant |prefixes| == i && Spell(values[..i], prefixes) && AreHosts(prefixes)
      invariant families == FamiliesOf(prefixes)
    {
      var prefix := ParseCanonicalPrefix(values[i]);
      if prefix.Some? {
        HostTest(prefix.value);
      }
      if prefix.None? || prefix.value.bits != prefix.value.Width() || !IsAllowlistedPrivatePrefix(prefix.value)
         || prefix.value.family in families {
        NotSpelledHosts(values, prefixes, i);
        return None;
      }
      families := families + {prefix.value.family};
      prefixes := prefixes + [prefix.value];
    }
    assert values[..|values|] == values;
    return Some((families, prefixes));
  }

  lemma NotSpelledHosts(values: seq<string>, prefixes: seq<Prefix>, i: nat)
    requires i < |values| && Spell(values[..i], prefixes)
    requires var p := ParsedCanonicalPrefix(values[i]);
             p.None? || !IsHost(p.value) || p.value.family in FamiliesOf(prefixes)
    ensures forall all :: !SpellHosts(values, all)
  {
    hide ParsedCanonicalPrefix, IsHost;
    forall all | Spell(values, all)
      ensures !AreHosts(all)
    {
      assert ParsedCanonicalPrefix(values[i]) == Some(all[i]);
      forall k | 0 <= k < i
        ensures all[k] == prefixes[k]
      {
        assert ParsedCanonicalPrefix(values[..i][k]) == Some(prefixes[k]);
      }
    }
  }

  /** Both lists have the same families, and no host lies in a route. */
  ghost predicate Acceptable(hosts: seq<Prefix>, routes: seq<Prefix>) {
    && FamiliesOf(hosts) == FamiliesOf(routes)
    && forall h, r | h in hosts && r in routes && h.family == r.family :: !r.Covers(h.address)
  }

  lemma HostApartTest(h: Prefix, r: Prefix)
    requires IsHost(h)
    ensures PrefixesOverlap(h, r) <==> h.family == r.family && r.Covers(h.address)
  {
    hide PrefixesOverlap, IsPrivate;
    CoversItself(h);
    PrefixesOverlapMeansCommonAddress(h, r);
    forall a: nat | h.Covers(a)
      ensures a == h.address
    {
      assert Pow2(0) == 1;
      QuotientDivision(a, 1);
      QuotientDivision(h.address, 1);
    }
  }

  lemma SameFamilies(left: set<Family>, right: set<Family>)
    ensures |left| == |right| && left <= right <==> left == right
  {
    if |left| == |right| && left <= right {
      assert right == left + (right - left);
    }
  }

  /** The route part of the contract: it holds exactly when the texts spell acceptable hosts and routes. */
  method CheckRoutes(localAddresses: seq<string>, privateCidrs: seq<string>) returns (accepted: bool)
    ensures accepted <==>
              exists hosts, routes ::
                SpellHosts(localAddresses, hosts) && SpellRoutes(privateCidrs, routes) && Acceptable(hosts, routes)
  {
    hide SpellHosts, SpellRoutes, PrefixesOverlap;
    var local := ParseHostPrefixes(localAddresses);
    var privateRoutes := ParsePrivatePrefixes(privateCidrs);
    if local.None? || privateRoutes.None? {
      return false;
    }
    var hosts, routes := local.value.1, privateRoutes.value.1;
    SameFamilies(local.value.0, privateRoutes.value.0);
    accepted := && |local.value.0| == |privateRoutes.value.0| && local.value.0 <= privateRoutes.value.0
                && !exists h | h in hosts :: exists r | r in routes :: PrefixesOverlap(h, r);
    forall h, r | h in hosts && r in routes
      ensures PrefixesOverlap(h, r) <==> h.family == r.family && r.Covers(h.address)
    {
      SpelledHost(localAddresses, hosts, h);
      HostApartTest(h, r);
    }
    OneSpelledHosts(localAddresses, hosts);
    OneSpelledRoutes(privateCidrs, routes);
  }

  lemma SpelledHost(values: seq<string>, hosts: seq<Prefix>, h: Prefix)
    requires SpellHosts(values, hosts) && h in hosts
    ensures IsHost(h)
  {
    hide Spell, IsHost;
  }

  lemma OneSpelledHosts(values: seq<string>, hosts: seq<Prefix>)
    requires SpellHosts(values, hosts)
    ensures forall hs | SpellHosts(values, hs) :: hs == hosts
  {
    hide ParsedCanonicalPrefix, AreHosts;
  }

  lemma OneSpelledRoutes(values: seq<string>, routes: seq<Prefix>)
    requires SpellRoutes(values, routes)
    ensures forall rs | SpellRoutes(values, rs) :: rs == routes
  {
    hide ParsedCanonicalPrefix, AreRoutes;
  }

  // ----- what an accepted profile guarantees -----

  /**
   Accepted private CIDRs partition what they cover: every address lies in at most one of them,
   is private, and is no local address of the tunnel.
   */
  lemma AcceptedRoutesPartition(hosts: seq<Prefix>, routes: seq<Prefix>, i: nat, a: nat)
    requires AreHosts(hosts) && AreRoutes(routes) && Acceptable(hosts, routes)
    requires i < |routes| && routes[i].Covers(a)
    ensures IsPrivate(routes[i].family, a)
    ensures forall j | 0 <= j < |routes| && j != i && routes[j].family == routes[i].family :: !routes[j].Covers(a)
    ensures forall h | h in hosts && h.family == routes[i].family :: h.address != a
  {
    hide Prefixes.Covers, Pow2, IsPrivate;
    assert IsRoute(routes[i]);
    forall j | 0 <= j < |routes| && j != i && routes[j].family == routes[i].family
      ensures !routes[j].Covers(a)
    {
      assert AreApart(routes[if i < j then i else j], routes[if i < j then j else i]);
    }
  }

  lemma CoversItself(p: Prefix)
    ensures p.Covers(p.address)
  {
  }

  lemma {:induction false} FirstByte(value: nat, count: nat)
    requires count > 0 && value < Pow2(8 * count)
    ensures Bytes(value, count)[0] == value / Pow2(8 * (count - 1))
  {
    if count == 1 {
      assert Pow2(8) == 256 && Pow2(0) == 1;
    } else {
      Pow2Add(8, 8 * (count - 1));
      Pow2Add(8, 8 * (count - 2));
      assert Pow2(8) == 256;
      QuotientBound(value, 256, Pow2(8 * (count - 1)));
      FirstByte(value / 256, count - 1);
      DivModProduct(value, 256, Pow2(8 * (count - 2)));
    }
  }

  /** The first byte of a private address is neither zero nor multicast. */
  lemma PrivateFirstByte(p: Prefix)
    requires IsPrivate(p.family, p.address)
    ensures !IsUnspecifiedOrMulticast(AsNetwork(p))
  {
    hide Pow2, Bytes;
    Powers();
    FirstByte(p.address, p.Width() / 8);
    assert AsNetwork(p).bytes[0] != 0;
  }

  function Networks(prefixes: seq<Prefix>): (networks: seq<RouteNetwork>)
    ensures |networks| == |prefixes| && forall i | 0 <= i < |networks| :: networks[i] == AsNetwork(prefixes[i])
  {
    seq(|prefixes|, i requires 0 <= i < |prefixes| => AsNetwork(prefixes[i]))
  }

  /** The route helper finds nothing to object to in the private CIDRs of an accepted profile. */
  lemma HelperAcceptsRoutes(values: seq<string>, routes: seq<Prefix>)
    requires SpellRoutes(values, routes)
    ensures var networks := Networks(routes);
            && 0 < |networks| <= RouteJournal.MAX_PRIVATE_CIDRS
            && RouteJournal.HasNoDuplicates(networks)
            && (forall n | n in networks :: IsValidCidr(n))
            && AreDisjoint(networks)
  {
    hide PrefixesOverlap, Overlaps, IsNetworkPrefix, IsCanonical, IsAllowlistedPrivatePrefix, AsNetwork, Pow2,
         IsUnspecifiedOrMulticast, ParsedCanonicalPrefix, IsRoute, AreApart;
    var networks := Networks(routes);
    forall i | 0 <= i < |routes|
      ensures IsValidCidr(networks[i])
    {
      CoversItself(routes[i]);
      RouteTest(routes[i]);
      AllowlistedIsPrivate(routes[i], routes[i].address);
      PrivateFirstByte(routes[i]);
      CanonicalTestsAgree(routes[i]);
      AsNetworkPrefixLength(routes[i]);
    }
    forall i, j | 0 <= i < j < |routes|
      ensures !Overlaps(networks[i], networks[j]) && networks[i] != networks[j]
    {
      ApartTest(routes[i], routes[j]);
      OverlapTestsAgree(routes[i], routes[j]);
      OverlapsItself(networks[i]);
    }
  }

  lemma AsNetworkPrefixLength(p: Prefix)
    ensures AsNetwork(p).prefix == p.bits
  {
  }

  lemma OverlapsItself(n: RouteNetwork)
    ensures Overlaps(n, n)
  {
  }
}
