/**
 The text of IP addresses and prefixes. Every address has exactly one accepted spelling: dotted
 decimal for IPv4, and for IPv6 the form of section 4 of RFC 5952.
 */
module AddressText {
  import opened Wrappers
  import opened Bits
  import opened Texts
  import opened RouteNetworks
  import opened NetworkPrefixes

  const GROUP_LIMIT: nat := 65536

  predicate AreGroups(groups: seq<nat>) {
    forall i | 0 <= i < |groups| :: groups[i] < GROUP_LIMIT
  }

  // ----- printing IPv6 -----

  function HexGroups(groups: seq<nat>): (parts: seq<string>)
    ensures |parts| == |groups|
    ensures forall i | 0 <= i < |parts| :: parts[i] == Spelled(groups[i], 16)
  {
    seq(|groups|, i requires 0 <= i < |groups| => Spelled(groups[i], 16))
  }

  function Colons(groups: seq<nat>): string {
    Join(HexGroups(groups), ':')
  }

  predicate IsZeroRun(groups: seq<nat>, start: nat, length: nat) {
    start + length <= |groups| && forall i | start <= i < start + length :: groups[i] == 0
  }

  /** Section 4.2.3 of RFC 5952: the longest run of zero groups, the first of equally long ones, never a single group. */
  ghost predicate IsShortened(groups: seq<nat>, start: nat, length: nat) {
    && length >= 2 && IsZeroRun(groups, start, length)
    && forall s: nat, n: nat | IsZeroRun(groups, s, n) :: n < length || (n == length && start <= s)
  }

  ghost predicate HasShortening(groups: seq<nat>) {
    exists start: nat, length: nat :: IsShortened(groups, start, length)
  }

  ghost function Shortening(groups: seq<nat>): (run: (nat, nat))
    requires HasShortening(groups)
    ensures IsShortened(groups, run.0, run.1)
  {
    var start: nat, length: nat :| IsShortened(groups, start, length);
    (start, length)
  }

  ghost function CanonicalText(groups: seq<nat>): string {
    if HasShortening(groups) then
      var (start, length) := Shortening(groups);
      Colons(groups[..start]) + "::" + Colons(groups[start + length..])
    else Colons(groups)
  }

  lemma ShorteningIsUnique(groups: seq<nat>, start: nat, length: nat)
    requires IsShortened(groups, start, length)
    ensures HasShortening(groups) && Shortening(groups) == (start, length)
  {
    var (s, n) := Shortening(groups);
    assert IsZeroRun(groups, s, n) && IsZeroRun(groups, start, length);
  }

  /** The best run among those that end by `end`. */
  ghost predicate IsBestBy(groups: seq<nat>, end: nat, bestStart: int, bestLength: nat) {
    && (bestStart < 0 ==> bestLength == 0)
    && (bestStart >= 0 ==> bestLength >= 2 && IsZeroRun(groups, bestStart, bestLength))
    && forall s: nat, n: nat | IsZeroRun(groups, s, n) && s + n <= end ::
         n < 2 || n < bestLength || (n == bestLength && bestStart <= s)
  }

  lemma LongerRun(groups: seq<nat>, start: nat, end: nat, bestStart: int, bestLength: nat)
    requires IsBestBy(groups, start, bestStart, bestLength) && (bestStart >= 0 ==> bestStart + bestLength <= start)
    requires start < end && IsZeroRun(groups, start, end - start)
    requires start > 0 ==> groups[start - 1] != 0
    ensures if end - start >= 2 && end - start > bestLength then IsBestBy(groups, end, start, end - start)
            else IsBestBy(groups, end, bestStart, bestLength)
  {
    if start > 0 {
      assert groups[start - 1] != 0;
    }
  }

  /** The source's loop over zero runs prints the canonical text. */
  method CanonicalIPv6(groups: seq<nat>) returns (text: string)
    ensures text == CanonicalText(groups)
  {
    hide IsBestBy, Join;
    var bestStart, bestLength := -1, 0;
    var start := 0;
    NoRunYet(groups);
    while start < |groups|
      invariant 0 <= start <= |groups|
      invariant IsBestBy(groups, start, bestStart, bestLength)
      invariant bestStart >= 0 ==> bestStart + bestLength <= start
      invariant 0 < start < |groups| ==> groups[start - 1] != 0 || groups[start] != 0
    {
      if groups[start] != 0 {
        PastNonZero(groups, start, bestStart, bestLength);
        start := start + 1;
        continue;
      }
      var end := start;
      while end < |groups| && groups[end] == 0
        invariant start <= end <= |groups|
        invariant IsZeroRun(groups, start, end - start)
      {
        end := end + 1;
      }
      var length := end - start;
      LongerRun(groups, start, end, bestStart, bestLength);
      if length >= 2 && length > bestLength {
        bestStart, bestLength := start, length;
      }
      start := end;
    }
    BestIsShortened(groups, bestStart, bestLength);
    if bestStart < 0 {
      return Colons(groups);
    }
    text := Colons(groups[..bestStart]) + "::" + Colons(groups[bestStart + bestLength..]);
  }

  lemma NoRunYet(groups: seq<nat>)
    ensures IsBestBy(groups, 0, -1, 0)
  {
  }

  lemma BestIsShortened(groups: seq<nat>, bestStart: int, bestLength: nat)
    requires IsBestBy(groups, |groups|, bestStart, bestLength)
    ensures bestStart < 0 ==> !HasShortening(groups)
    ensures bestStart >= 0 ==> HasShortening(groups) && Shortening(groups) == (bestStart, bestLength)
  {
    if bestStart >= 0 {
      assert IsShortened(groups, bestStart, bestLength);
      ShorteningIsUnique(groups, bestStart, bestLength);
    }
  }

  lemma PastNonZero(groups: seq<nat>, start: nat, bestStart: int, bestLength: nat)
    requires start < |groups| && groups[start] != 0 && IsBestBy(groups, start, bestStart, bestLength)
    ensures IsBestBy(groups, start + 1, bestStart, bestLength)
  {
    assert groups[start] != 0;
  }

  // ----- parsing IPv6 -----

  predicate PairAt(s: string, i: int) {
    0 <= i < |s| - 1 && s[i] == ':' && s[i + 1] == ':'
  }

  /** The first double colon at or after `from`, or -1. */
  function IndexOfPair(s: string, from: nat): (i: int)
    requires from <= |s|
    ensures i == -1 || (from <= i && PairAt(s, i))
    ensures forall k | from <= k < (if i == -1 then |s| else i) :: !PairAt(s, k)
    decreases |s| - from
  {
    if from == |s| then -1 else if PairAt(s, from) then from else IndexOfPair(s, from + 1)
  }

  /** The last double colon before `end`, or -1. */
  function LastIndexOfPair(s: string, end: nat): (i: int)
    requires end <= |s|
    ensures i == -1 || (i < end && PairAt(s, i))
    ensures forall k | i < k < end :: !PairAt(s, k)
  {
    if end == 0 then -1 else if PairAt(s, end - 1) then end - 1 else LastIndexOfPair(s, end - 1)
  }

  predicate IsGroupText(s: string) {
    1 <= |s| <= 4 && AllDigits(s, 16)
  }

  function ParseSide(side: string): Option<seq<nat>> {
    if side == "" then Some([])
    else
      var groups := Split(side, ':');
      if forall i | 0 <= i < |groups| :: IsGroupText(groups[i]) then
        Some(seq(|groups|, i requires 0 <= i < |groups| => NumberOf(groups[i], 16)))
      else None
  }

  function Zeros(n: nat): seq<nat> {
    seq(n, i => 0)
  }

  /** The eight groups that a text denotes before its spelling is checked. */
  function GroupsOfText(value: string): Option<seq<nat>> {
    if '%' in value || '.' in value then None
    else
      var compression := IndexOfPair(value, 0);
      if compression != LastIndexOfPair(value, |value|) then None
      else if compression >= 0 then
        var left, right := ParseSide(value[..compression]), ParseSide(value[compression + 2..]);
        if left.None? || right.None? || |left.value| + |right.value| >= 8 then None
        else Some(left.value + Zeros(8 - |left.value| - |right.value|) + right.value)
      else
        var parsed := ParseSide(value);
        if parsed.None? || |parsed.value| != 8 then None else parsed
  }

  /** The groups as one number, most significant first. */
  function GroupsValue(groups: seq<nat>): nat {
    if groups == [] then 0
    else GroupsValue(groups[..|groups| - 1]) * GROUP_LIMIT + groups[|groups| - 1]
  }

  ghost function ParsedIPv6(value: string): Option<nat> {
    var groups := GroupsOfText(value);
    if groups.Some? && CanonicalText(groups.value) == value then Some(GroupsValue(groups.value)) else None
  }

  method ParseIPv6(value: string) returns (address: Option<nat>)
    ensures address == ParsedIPv6(value)
  {
    var groups := GroupsOfText(value);
    if groups.None? {
      return None;
    }
    var canonical := CanonicalIPv6(groups.value);
    if canonical != value {
      return None;
    }
    return Some(GroupsValue(groups.value));
  }

  // ----- the round trip -----

  /** Text without a double colon that neither starts nor ends with a colon. */
  ghost predicate IsTame(s: string) {
    && (forall k :: !PairAt(s, k))
    && (s != "" ==> s[0] != ':' && s[|s| - 1] != ':')
    && forall i | 0 <= i < |s| :: s[i] != '%' && s[i] != '.'
  }

  lemma {:induction false} JoinIsTame(parts: seq<string>)
    requires forall i | 0 <= i < |parts| :: parts[i] != "" && IsPartTame(parts[i])
    ensures IsTame(Join(parts, ':'))
    ensures parts != [] ==> Join(parts, ':') != ""
  {
    if |parts| > 1 {
      JoinIsTame(parts[1..]);
      TamePair(parts[0], Join(parts[1..], ':'));
      assert Join(parts, ':') == parts[0] + ":" + Join(parts[1..], ':');
    }
  }

  predicate IsPartTame(part: string) {
    forall k | 0 <= k < |part| :: part[k] != ':' && part[k] != '%' && part[k] != '.'
  }

  lemma TamePair(part: string, rest: string)
    requires part != "" && rest != "" && IsPartTame(part) && IsTame(rest)
    ensures IsTame(part + ":" + rest)
  {
    var s := part + ":" + rest;
    forall k
      ensures !PairAt(s, k)
    {
      if |part| < k < |s| - 1 {
        assert s[k] == rest[k - |part| - 1] && s[k + 1] == rest[k - |part|];
        assert !PairAt(rest, k - |part| - 1);
      }
    }
  }

  lemma ColonsIsTame(groups: seq<nat>)
    ensures IsTame(Colons(groups)) && (Colons(groups) == "" <==> groups == [])
  {
    JoinIsTame(HexGroups(groups));
  }

  /** A printed side parses to its groups. */
  lemma SideRoundTrip(groups: seq<nat>)
    requires AreGroups(groups)
    ensures ParseSide(Colons(groups)) == Some(groups)
  {
    ColonsIsTame(groups);
    if groups != [] {
      var parts := HexGroups(groups);
      SplitOfJoin(parts, ':');
      forall i | 0 <= i < |parts|
        ensures IsGroupText(parts[i]) && NumberOf(parts[i], 16) == groups[i]
      {
        assert Power(16, 4) == 65536;
        SpelledLength(groups[i], 16, 65536, 4);
        NumberOfSpelled(groups[i], 16);
      }
      assert ParseSide(Colons(groups)).value == groups;
    }
  }

  /** Around one double colon the text has no other. */
  lemma OnlyPair(left: string, right: string)
    requires IsTame(left) && IsTame(right)
    ensures forall k :: PairAt(left + "::" + right, k) <==> k == |left|
  {
    var s := left + "::" + right;
    forall k
      ensures PairAt(s, k) <==> k == |left|
    {
      if 0 <= k < |left| {
        assert !PairAt(left, k);
        assert s[k] == left[k];
      } else if |left| + 2 <= k < |s| - 1 {
        assert !PairAt(right, k - |left| - 2);
        assert s[k] == right[k - |left| - 2] && s[k + 1] == right[k - |left| - 1];
      } else if k == |left| + 1 && k < |s| - 1 {
        assert s[k + 1] == right[0];
      }
    }
  }

  lemma CompressedRoundTrip(left: seq<nat>, right: seq<nat>)
    requires AreGroups(left) && AreGroups(right) && |left| + |right| < 8
    ensures GroupsOfText(Colons(left) + "::" + Colons(right)) == Some(left + Zeros(8 - |left| - |right|) + right)
  {
    hide Colons, ParseSide;
    var l, r := Colons(left), Colons(right);
    var s := l + "::" + r;
    ColonsIsTame(left);
    ColonsIsTame(right);
    OnlyPair(l, r);
    assert PairAt(s, |l|);
    assert IndexOfPair(s, 0) == |l| && LastIndexOfPair(s, |s|) == |l|;
    assert s[..|l|] == l && s[|l| + 2..] == r;
    SideRoundTrip(left);
    SideRoundTrip(right);
  }

  lemma GroupsRoundTrip(groups: seq<nat>)
    requires AreGroups(groups) && |groups| == 8
    ensures GroupsOfText(CanonicalText(groups)) == Some(groups)
  {
    if HasShortening(groups) {
      var (start, length) := Shortening(groups);
      CompressedRoundTrip(groups[..start], groups[start + length..]);
      assert groups == groups[..start] + Zeros(length) + groups[start + length..];
    } else {
      ColonsIsTame(groups);
      SideRoundTrip(groups);
    }
  }

  function GroupsOfValue(value: nat, count: nat): (groups: seq<nat>)
    ensures |groups| == count && AreGroups(groups)
  {
    if count == 0 then [] else GroupsOfValue(value / GROUP_LIMIT, count - 1) + [value % GROUP_LIMIT]
  }

  lemma {:induction false} ValueRoundTrip(value: nat, count: nat)
    requires value < Pow2(16 * count)
    ensures GroupsValue(GroupsOfValue(value, count)) == value
  {
    if count > 0 {
      Pow2Add(16, 16 * (count - 1));
      SixteenBits();
      QuotientBound(value, GROUP_LIMIT, Pow2(16 * (count - 1)));
      Division(value, GROUP_LIMIT);
      ValueRoundTrip(value / GROUP_LIMIT, count - 1);
      assert GroupsOfValue(value, count)[..count - 1] == GroupsOfValue(value / GROUP_LIMIT, count - 1);
    }
  }

  lemma {:induction false} GroupsOfTheirValue(groups: seq<nat>)
    requires AreGroups(groups)
    ensures GroupsValue(groups) < Pow2(16 * |groups|) && GroupsOfValue(GroupsValue(groups), |groups|) == groups
  {
    if groups != [] {
      var front, last := groups[..|groups| - 1], groups[|groups| - 1];
      GroupsOfTheirValue(front);
      Pow2Add(16, 16 * |front|);
      SixteenBits();
      DivModUnique(GroupsValue(groups), GROUP_LIMIT, GroupsValue(front), last);
    }
  }

  ghost function IPv6Text(address: nat): string {
    CanonicalText(GroupsOfValue(address, 8))
  }

  lemma ParsedAreGroups(side: string)
    ensures ParseSide(side).Some? ==> AreGroups(ParseSide(side).value)
  {
    if side != "" {
      var parts := Split(side, ':');
      forall i | 0 <= i < |parts| && IsGroupText(parts[i])
        ensures NumberOf(parts[i], 16) < GROUP_LIMIT
      {
        ShortIsSmall(parts[i], 4);
      }
    }
  }

  lemma {:induction false} ShortIsSmall(s: string, digits: nat)
    requires AllDigits(s, 16) && |s| <= digits <= 4
    ensures NumberOf(s, 16) < Power(16, digits)
  {
    if s != "" {
      ShortIsSmall(s[..|s| - 1], digits - 1);
    } else {
      assert Power(16, 0) == 1 && Power(16, 1) == 16 && Power(16, 2) == 256 && Power(16, 3) == 4096;
    }
  }

  /** A text is accepted exactly when it is the canonical text of the address it yields. */
  lemma IPv6AcceptsOneSpelling(value: string, address: nat)
    ensures ParsedIPv6(value) == Some(address) <==> address < Pow2(128) && value == IPv6Text(address)
  {
    if address < Pow2(128) && value == IPv6Text(address) {
      GroupsRoundTrip(GroupsOfValue(address, 8));
      ValueRoundTrip(address, 8);
    }
    if ParsedIPv6(value) == Some(address) {
      var groups := GroupsOfText(value).value;
      GroupsAreEight(value);
      GroupsOfTheirValue(groups);
    }
  }

  lemma GroupsAreEight(value: string)
    requires GroupsOfText(value).Some?
    ensures AreGroups(GroupsOfText(value).value) && |GroupsOfText(value).value| == 8
  {
    var compression := IndexOfPair(value, 0);
    if compression >= 0 {
      ParsedAreGroups(value[..compression]);
      ParsedAreGroups(value[compression + 2..]);
    } else {
      ParsedAreGroups(value);
    }
  }

  // ----- IPv4 -----

  function Decimals(octets: seq<Byte>): (parts: seq<string>)
    ensures |parts| == |octets|
    ensures forall i | 0 <= i < |parts| :: parts[i] == Spelled(octets[i], 10)
  {
    seq(|octets|, i requires 0 <= i < |octets| => Spelled(octets[i], 10))
  }

  function IPv4Text(address: nat): string {
    Join(Decimals(Bytes(address, 4)), '.')
  }

  predicate IsOctetText(s: string) {
    IsPlain(s, 10) && NumberOf(s, 10) < 256
  }

  function Octets(parts: seq<string>): (octets: seq<Byte>)
    requires forall i | 0 <= i < |parts| :: IsOctetText(parts[i])
    ensures |octets| == |parts|
    ensures forall i | 0 <= i < |octets| :: IsOctetText(parts[i]) && octets[i] == NumberOf(parts[i], 10)
  {
    seq(|parts|, i requires 0 <= i < |parts| && IsOctetText(parts[i]) => NumberOf(parts[i], 10) as Byte)
  }

  function ParsedIPv4(value: string): Option<nat> {
    var parts := Split(value, '.');
    if |parts| != 4 || exists i | 0 <= i < 4 :: !IsOctetText(parts[i]) then None
    else if Join(Decimals(Octets(parts)), '.') != value then None
    else Some(Value(Octets(parts)))
  }

  method ParseIPv4(value: string) returns (address: Option<nat>)
    ensures address == ParsedIPv4(value)
  {
    var octets := Split(value, '.');
    if |octets| != 4 {
      return None;
    }
    var result: nat := 0;
    var seen: seq<Byte> := [];
    for i := 0 to 4
      invariant |seen| == i && forall k | 0 <= k < i :: IsOctetText(octets[k]) && seen[k] == NumberOf(octets[k], 10)
      invariant result == Value(seen)
    {
      if !IsPlain(octets[i], 10) {
        return None;
      }
      var parsed := NumberOf(octets[i], 10);
      if parsed > 255 {
        return None;
      }
      seen := seen + [parsed];
      assert seen[..i] + [parsed] == seen;
      result := result * 256 + parsed;
    }
    assert seen == Octets(octets);
    return if Join(Decimals(seen), '.') == value then Some(result) else None;
  }

  lemma {:induction false} BytesOfTheirValue(bytes: seq<Byte>)
    ensures Bytes(Value(bytes), |bytes|) == bytes
  {
    if bytes != [] {
      var front, last := bytes[..|bytes| - 1], bytes[|bytes| - 1];
      BytesOfTheirValue(front);
      DivModUnique(Value(bytes), 256, Value(front), last);
    }
  }

  lemma DecimalsRoundTrip(octets: seq<Byte>)
    requires octets != []
    ensures Split(Join(Decimals(octets), '.'), '.') == Decimals(octets)
    ensures forall i | 0 <= i < |octets| :: IsOctetText(Decimals(octets)[i]) && NumberOf(Decimals(octets)[i], 10) == octets[i]
  {
    var parts := Decimals(octets);
    forall i | 0 <= i < |parts|
      ensures IsOctetText(parts[i]) && NumberOf(parts[i], 10) == octets[i]
    {
      NumberOfSpelled(octets[i], 10);
    }
    SplitOfJoin(parts, '.');
  }

  lemma IPv4AcceptsOneSpelling(value: string, address: nat)
    ensures ParsedIPv4(value) == Some(address) <==> address < Pow2(32) && value == IPv4Text(address)
  {
    if address < Pow2(32) && value == IPv4Text(address) {
      DecimalsRoundTrip(Bytes(address, 4));
      ValueOfBytes(address, 4);
      assert Octets(Split(value, '.')) == Bytes(address, 4);
    }
    if ParsedIPv4(value) == Some(address) {
      var octets := Octets(Split(value, '.'));
      BytesOfTheirValue(octets);
      ValueBound(octets);
    }
  }

  // ----- prefixes -----

  const MAX_SAFE_INTEGER: nat := 0x1f_ffff_ffff_ffff

  function IndexOf(s: string, c: char): (i: int)
    ensures -1 <= i < |s| && (i >= 0 ==> s[i] == c)
    ensures forall k | 0 <= k < (if i < 0 then |s| else i) :: s[k] != c
  {
    if s == "" then -1
    else if s[0] == c then 0
    else var rest := IndexOf(s[1..], c); if rest < 0 then -1 else rest + 1
  }

  function LastIndexOf(s: string, c: char): (i: int)
    ensures -1 <= i < |s| && (i >= 0 ==> s[i] == c)
    ensures forall k | i < k < |s| :: s[k] != c
  {
    if s == "" then -1
    else if s[|s| - 1] == c then |s| - 1
    else LastIndexOf(s[..|s| - 1], c)
  }

  ghost function ParsedAddress(address: string, bits: nat): Option<Prefix> {
    if ParsedIPv4(address).Some? && bits <= 32 then AsPrefix(ParsedIPv4(address).value, bits, IPv4)
    else if ParsedIPv6(address).Some? && bits <= 128 then AsPrefix(ParsedIPv6(address).value, bits, IPv6)
    else None
  }

  /** The prefix; the bounds always hold of what the parsers yield. */
  function AsPrefix(address: nat, bits: nat, family: Family): Option<Prefix> {
    var p := ParsedPrefix(address, bits, family);
    if IsProper(p) then Some(p) else None
  }

  ghost function ParsedCanonicalPrefix(value: string): Option<Prefix> {
    var slash := LastIndexOf(value, '/');
    if slash <= 0 || slash != IndexOf(value, '/') then None
    else
      var rawBits := value[slash + 1..];
      if !IsPlain(rawBits, 10) then None
      else
        var bits := NumberOf(rawBits, 10);
        if bits > MAX_SAFE_INTEGER || Spelled(bits, 10) != rawBits then None
        else ParsedAddress(value[..slash], bits)
  }

  method ParseCanonicalPrefix(value: string) returns (prefix: Option<Prefix>)
    ensures prefix == ParsedCanonicalPrefix(value)
  {
    hide ParsedIPv4, ParsedIPv6, AllDigits, NumberOf, Spelled, Pow2;
    var slash := LastIndexOf(value, '/');
    if slash <= 0 || slash != IndexOf(value, '/') {
      return None;
    }
    var rawAddress, rawBits := value[..slash], value[slash + 1..];
    if !IsPlain(rawBits, 10) {
      return None;
    }
    var bits := NumberOf(rawBits, 10);
    if bits > MAX_SAFE_INTEGER || Spelled(bits, 10) != rawBits {
      return None;
    }
    var ipv4 := ParseIPv4(rawAddress);
    if ipv4.Some? && bits <= 32 {
      return AsPrefix(ipv4.value, bits, IPv4);
    }
    var ipv6 := ParseIPv6(rawAddress);
    if ipv6.Some? && bits <= 128 {
      return AsPrefix(ipv6.value, bits, IPv6);
    }
    return None;
  }

  ghost function AddressOf(p: Prefix): string {
    if p.family == IPv4 then IPv4Text(p.address) else IPv6Text(p.address)
  }

  /** The one accepted spelling of a prefix. */
  ghost function PrefixText(p: Prefix): string {
    AddressOf(p) + "/" + Spelled(p.bits, 10)
  }

  /** IPv4 text always has a dot, IPv6 text never, so no text is both. */
  lemma FamiliesAreApart(text: string)
    ensures ParsedIPv4(text).None? || ParsedIPv6(text).None?
  {
    if '.' !in text {
      SplitWhole(text, '.');
    }
  }

  lemma AddressAcceptsOneSpelling(text: string, bits: nat, p: Prefix)
    ensures ParsedAddress(text, bits) == Some(p) <==> text == AddressOf(p) && bits == p.bits
  {
    hide ParsedIPv4, ParsedIPv6, IPv4Text, IPv6Text, Pow2;
    FamiliesAreApart(text);
    IPv4AcceptsOneSpelling(text, p.address);
    IPv6AcceptsOneSpelling(text, p.address);
    if ParsedIPv4(text).Some? {
      IPv4AcceptsOneSpelling(text, ParsedIPv4(text).value);
    }
    if ParsedIPv6(text).Some? {
      IPv6AcceptsOneSpelling(text, ParsedIPv6(text).value);
    }
  }

  lemma OneSlash(address: string, bits: string)
    requires '/' !in address && '/' !in bits
    ensures LastIndexOf(address + "/" + bits, '/') == |address| == IndexOf(address + "/" + bits, '/')
  {
    var s := address + "/" + bits;
    assert s[|address|] == '/';
    assert forall k | 0 <= k < |address| :: s[k] == address[k];
    assert forall k | |address| < k < |s| :: s[k] == bits[k - |address| - 1];
  }

  lemma SpelledIsPlain(n: nat)
    ensures IsPlain(Spelled(n, 10), 10) && NumberOf(Spelled(n, 10), 10) == n && '/' !in Spelled(n, 10)
  {
    NumberOfSpelled(n, 10);
  }

  lemma {:induction false} JoinHasNoSlash(parts: seq<string>, c: char)
    requires c != '/' && NoneHas(parts, '/')
    ensures '/' !in Join(parts, c)
  {
    if |parts| > 1 {
      JoinHasNoSlash(parts[1..], c);
    }
  }

  lemma AddressHasNoSlash(p: Prefix)
    ensures '/' !in AddressOf(p) && AddressOf(p) != ""
  {
    if p.family == IPv4 {
      JoinHasNoSlash(Decimals(Bytes(p.address, 4)), '.');
    } else {
      var groups := GroupsOfValue(p.address, 8);
      if HasShortening(groups) {
        var (start, length) := Shortening(groups);
        JoinHasNoSlash(HexGroups(groups[..start]), ':');
        JoinHasNoSlash(HexGroups(groups[start + length..]), ':');
      } else {
        JoinHasNoSlash(HexGroups(groups), ':');
      }
    }
  }

  /** A text is accepted as a prefix exactly when it is that prefix's one spelling. */
  lemma PrefixAcceptsOneSpelling(value: string, p: Prefix)
    ensures ParsedCanonicalPrefix(value) == Some(p) <==> value == PrefixText(p)
  {
    hide AddressOf, ParsedAddress, NumberOf, AllDigits, Spelled, Pow2;
    if value == PrefixText(p) {
      AddressHasNoSlash(p);
      SpelledIsPlain(p.bits);
      OneSlash(AddressOf(p), Spelled(p.bits, 10));
      assert value[..|AddressOf(p)|] == AddressOf(p);
      assert value[|AddressOf(p)| + 1..] == Spelled(p.bits, 10);
      AddressAcceptsOneSpelling(AddressOf(p), p.bits, p);
    }
    if ParsedCanonicalPrefix(value) == Some(p) {
      var slash := LastIndexOf(value, '/');
      AddressAcceptsOneSpelling(value[..slash], NumberOf(value[slash + 1..], 10), p);
      assert value == value[..slash] + "/" + value[slash + 1..];
    }
  }
}
