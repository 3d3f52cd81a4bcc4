/**
 The route helper's arithmetic on networks held as bytes, and its inspection of the system
 route table. A network here is what the helper's parser yields: four or sixteen bytes and a
 prefix length that fits.
 */
module RouteNetworks {
  import opened Bits
  import opened Prefixes

  type Byte = b: nat | b < 256

  datatype ParsedRouteNetwork = ParsedRouteNetwork(bytes: seq<Byte>, prefix: nat, ipv4: bool)

  predicate IsWellFormed(n: ParsedRouteNetwork) {
    |n.bytes| == (if n.ipv4 then 4 else 16) && n.prefix <= 8 * |n.bytes|
  }

  type RouteNetwork = n: ParsedRouteNetwork | IsWellFormed(n)
    witness ParsedRouteNetwork([0, 0, 0, 0], 0, true)

  datatype RouteEntry = RouteEntry(network: RouteNetwork, interfaceName: string)

  datatype RouteInspection = RouteInspection(ownedExact: bool, foreignConflict: bool) {
    predicate IsAvailable() {
      !ownedExact && !foreignConflict
    }
  }

  /** The bytes read as one big-endian number. */
  function Value(bytes: seq<Byte>): nat {
    if bytes == [] then 0 else 256 * Value(bytes[..|bytes| - 1]) + bytes[|bytes| - 1]
  }

  function Width(n: RouteNetwork): nat {
    8 * |n.bytes|
  }

  predicate Contains(n: RouteNetwork, ipv4: bool, address: nat) {
    n.ipv4 == ipv4 && Covers(Width(n), Value(n.bytes), n.prefix, address)
  }

  predicate Overlaps(a: RouteNetwork, b: RouteNetwork) {
    a.ipv4 == b.ipv4 && ShareLeadingBits(Width(a), Value(a.bytes), Value(b.bytes), Min(a.prefix, b.prefix))
  }

  lemma {:induction false} ValueBound(bytes: seq<Byte>)
    ensures Value(bytes) < Pow2(8 * |bytes|)
  {
    if bytes != [] {
      ValueBound(bytes[..|bytes| - 1]);
      Pow2Add(8, 8 * (|bytes| - 1));
      assert Pow2(8) == 256;
    }
  }

  /** `Overlaps` is the meaning of the word: some address lies in both networks. */
  lemma OverlapsMeansCommonAddress(a: RouteNetwork, b: RouteNetwork)
    ensures Overlaps(a, b) <==> exists ipv4, address: nat :: Contains(a, ipv4, address) && Contains(b, ipv4, address)
  {
    ValueBound(a.bytes);
    ValueBound(b.bytes);
    if a.ipv4 == b.ipv4 {
      OverlapIsSharedLeadingBits(Width(a), Value(a.bytes), a.prefix, Value(b.bytes), b.prefix);
      if Overlaps(a, b) {
        var address: nat :| Covers(Width(a), Value(a.bytes), a.prefix, address)
                            && Covers(Width(b), Value(b.bytes), b.prefix, address);
        assert Contains(a, a.ipv4, address) && Contains(b, a.ipv4, address);
      }
    }
  }

  lemma OverlapsSymmetric(a: RouteNetwork, b: RouteNetwork)
    ensures Overlaps(a, b) == Overlaps(b, a)
  {
  }

  function Leading(bytes: seq<Byte>, bits: nat): nat
    requires bits <= 8 * |bytes|
  {
    LeadingBits(8 * |bytes|, Value(bytes), bits)
  }

  /** Leading bits that end inside the first bytes do not depend on the later bytes. */
  lemma {:induction false} LeadingBitsIgnoreTail(bytes: seq<Byte>, count: nat, bits: nat)
    requires count <= |bytes| && bits <= 8 * count
    ensures Leading(bytes, bits) == Leading(bytes[..count], bits)
  {
    if count == |bytes| {
      assert bytes[..count] == bytes;
    } else {
      var front := bytes[..|bytes| - 1];
      LeadingBitsIgnoreTail(front, count, bits);
      assert front[..count] == bytes[..count];
      Pow2Add(8, 8 * |front| - bits);
      assert Pow2(8) == 256;
      DivModProduct(Value(bytes), 256, Pow2(8 * |front| - bits));
      DivModUnique(Value(bytes), 256, Value(front), bytes[|bytes| - 1]);
    }
  }

  /** The leading bits that end inside byte `index` are the bytes before it and the top of that byte. */
  lemma LeadingBitsEndInByte(bytes: seq<Byte>, index: nat, bits: nat)
    requires index < |bytes| && bits <= 8
    ensures Leading(bytes, 8 * index + bits) == Value(bytes[..index]) * Pow2(bits) + LeadingBits(8, bytes[index], bits)
    ensures LeadingBits(8, bytes[index], bits) < Pow2(bits)
  {
    LeadingBitsIgnoreTail(bytes, index + 1, 8 * index + bits);
    var upTo := bytes[..index + 1];
    assert upTo[..index] == bytes[..index];
    Pow2Add(8 - bits, bits);
    assert Pow2(8) == 256;
    DivModShifted(Value(bytes[..index]), bytes[index], Pow2(8 - bits), Pow2(bits));
  }

  /** Comparing leading bits one byte at a time. */
  lemma ShareUpToByte(a: seq<Byte>, b: seq<Byte>, index: nat, bits: nat)
    requires |a| == |b| && index < |a| && bits <= 8
    ensures Leading(a, 8 * index + bits) == Leading(b, 8 * index + bits)
            <==> Value(a[..index]) == Value(b[..index]) && LeadingBits(8, a[index], bits) == LeadingBits(8, b[index], bits)
  {
    LeadingBitsEndInByte(a, index, bits);
    LeadingBitsEndInByte(b, index, bits);
    SameDigits(Leading(a, 8 * index + bits), Leading(b, 8 * index + bits), Pow2(bits),
               Value(a[..index]), LeadingBits(8, a[index], bits), Value(b[..index]), LeadingBits(8, b[index], bits));
  }

  /** The helper's byte mask: an 8-bit left shift of 255 drops what leaves the byte. */
  function ByteMask(comparedBits: nat): nat
    requires 1 <= comparedBits <= 8
  {
    if comparedBits == 8 then 255 else 255 * Pow2(8 - comparedBits) % 256
  }

  lemma ByteMaskClearsLowBits(x: Byte, comparedBits: nat)
    requires 1 <= comparedBits <= 8
    ensures BitAnd(x, ByteMask(comparedBits)) == LeadingBits(8, x, comparedBits) * Pow2(8 - comparedBits)
  {
    assert Pow2(8) == 256;
    AndHighMask(x, 8, 8 - comparedBits);
    var p := Pow2(8 - comparedBits);
    assert p in {1, 2, 4, 8, 16, 32, 64, 128} by {
      assert Pow2(1) == 2 && Pow2(2) == 4 && Pow2(3) == 8 && Pow2(4) == 16;
      assert Pow2(5) == 32 && Pow2(6) == 64 && Pow2(7) == 128;
    }
    assert ByteMask(comparedBits) == 256 - p;
  }

  lemma MaskedBytesAgree(x: Byte, y: Byte, comparedBits: nat)
    requires 1 <= comparedBits <= 8
    ensures BitAnd(x, ByteMask(comparedBits)) == BitAnd(y, ByteMask(comparedBits))
            <==> ShareLeadingBits(8, x, y, comparedBits)
  {
    ByteMaskClearsLowBits(x, comparedBits);
    ByteMaskClearsLowBits(y, comparedBits);
    SameMultiple(Pow2(8 - comparedBits), LeadingBits(8, x, comparedBits), LeadingBits(8, y, comparedBits));
  }

  /** The byte loop decides overlap, for every pair of addresses and prefix lengths. */
  method NetworksOverlap(lhs: RouteNetwork, rhs: RouteNetwork) returns (overlap: bool)
    ensures overlap <==> Overlaps(lhs, rhs)
  {
    if lhs.ipv4 != rhs.ipv4 || |lhs.bytes| != |rhs.bytes| {
      return false;
    }
    var common := Min(lhs.prefix, rhs.prefix);
    var remaining := common;
    var index := 0;
    ZeroBitsAgree(lhs.bytes, rhs.bytes);
    while remaining > 0
      invariant 0 <= remaining <= common <= 8 * |lhs.bytes|
      invariant remaining > 0 ==> 8 * index + remaining == common
      invariant remaining == 0 ==> Overlaps(lhs, rhs)
      invariant index <= |lhs.bytes|
      invariant remaining > 0 ==> Value(lhs.bytes[..index]) == Value(rhs.bytes[..index])
    {
      var comparedBits := Min(remaining, 8);
      var mask := ByteMask(comparedBits);
      MaskedBytesAgree(lhs.bytes[index], rhs.bytes[index], comparedBits);
      ShareUpToByte(lhs.bytes, rhs.bytes, index, comparedBits);
      if BitAnd(lhs.bytes[index], mask) != BitAnd(rhs.bytes[index], mask) {
        if Overlaps(lhs, rhs) {
          FewerLeadingBits(Width(lhs), Value(lhs.bytes), Value(rhs.bytes), common, 8 * index + comparedBits);
        }
        return false;
      }
      ExtendAgreement(lhs.bytes, rhs.bytes, index, comparedBits);
      remaining := remaining - comparedBits;
      index := index + 1;
    }
    return true;
  }

  lemma ZeroBitsAgree(a: seq<Byte>, b: seq<Byte>)
    requires |a| == |b|
    ensures ShareLeadingBits(8 * |a|, Value(a), Value(b), 0)
  {
    ValueBound(a);
    ValueBound(b);
    DivModUnique(Value(a), Pow2(8 * |a|), 0, Value(a));
    DivModUnique(Value(b), Pow2(8 * |b|), 0, Value(b));
  }

  lemma ExtendAgreement(a: seq<Byte>, b: seq<Byte>, index: nat, comparedBits: nat)
    requires index < |a| && index < |b| && comparedBits <= 8
    requires Value(a[..index]) == Value(b[..index])
    requires ShareLeadingBits(8, a[index], b[index], comparedBits)
    ensures comparedBits == 8 ==> Value(a[..index + 1]) == Value(b[..index + 1])
  {
    assert a[..index + 1][..index] == a[..index] && b[..index + 1][..index] == b[..index];
  }

  // ----- canonical networks -----

  /** The address has no bit set below its prefix. */
  predicate IsCanonical(n: RouteNetwork) {
    Value(n.bytes) % Pow2(Width(n) - n.prefix) == 0
  }

  lemma HostBitsOfLastByte(bytes: seq<Byte>, prefix: nat)
    requires |bytes| > 0 && 8 * (|bytes| - 1) <= prefix <= 8 * |bytes|
    ensures Value(bytes) % Pow2(8 * |bytes| - prefix) == bytes[|bytes| - 1] % Pow2(8 * |bytes| - prefix)
  {
    var h := 8 * |bytes| - prefix;
    Pow2Add(h, 8 - h);
    assert Pow2(8) == 256;
    DivModShifted(Value(bytes[..|bytes| - 1]), bytes[|bytes| - 1], Pow2(h), Pow2(8 - h));
  }

  lemma HostBitsDropLastByte(bytes: seq<Byte>, prefix: nat)
    requires |bytes| > 0 && prefix <= 8 * (|bytes| - 1)
    ensures Value(bytes) % Pow2(8 * |bytes| - prefix) == 0
            <==> bytes[|bytes| - 1] == 0 && Value(bytes[..|bytes| - 1]) % Pow2(8 * (|bytes| - 1) - prefix) == 0
  {
    var front := bytes[..|bytes| - 1];
    var p := Pow2(8 * |front| - prefix);
    Pow2Add(8, 8 * |front| - prefix);
    assert Pow2(8) == 256;
    DivModProduct(Value(bytes), 256, p);
    DivModUnique(Value(bytes), 256, Value(front), bytes[|bytes| - 1]);
  }

  /** Host bits vanish exactly when the cut byte has none and every later byte is zero. */
  lemma {:induction false} CanonicalByByte(bytes: seq<Byte>, prefix: nat)
    requires prefix <= 8 * |bytes|
    ensures Value(bytes) % Pow2(8 * |bytes| - prefix) == 0
            <==> && (prefix % 8 != 0 ==> bytes[prefix / 8] % Pow2(8 - prefix % 8) == 0)
                 && (forall j | (prefix + 7) / 8 <= j < |bytes| :: bytes[j] == 0)
  {
    if prefix == 8 * |bytes| {
      assert Pow2(0) == 1;
    } else if prefix > 8 * (|bytes| - 1) {
      HostBitsOfLastByte(bytes, prefix);
    } else {
      var front := bytes[..|bytes| - 1];
      HostBitsDropLastByte(bytes, prefix);
      CanonicalByByte(front, prefix);
      assert forall j | 0 <= j < |front| :: front[j] == bytes[j];
    }
  }

  /** The byte loop decides that the address is a multiple of the block size. */
  method IsCanonicalNetwork(n: RouteNetwork) returns (canonical: bool)
    ensures canonical <==> IsCanonical(n)
  {
    CanonicalByByte(n.bytes, n.prefix);
    var totalBits := if n.ipv4 then 32 else 128;
    if n.prefix > totalBits {
      return false;
    }
    var remaining := totalBits - n.prefix;
    var index := n.prefix / 8;
    if remaining > 0 && n.prefix % 8 != 0 {
      var hostBits := 8 - n.prefix % 8;
      AndLowMask(n.bytes[index], hostBits);
      if BitAnd(n.bytes[index], Pow2(hostBits) - 1) != 0 {
        return false;
      }
      remaining := remaining - hostBits;
      index := index + 1;
    }
    while remaining >= 8
      invariant 0 <= remaining && remaining + 8 * index == totalBits
      invariant (n.prefix + 7) / 8 <= index
      invariant n.prefix % 8 != 0 ==> n.bytes[n.prefix / 8] % Pow2(8 - n.prefix % 8) == 0
      invariant forall j | (n.prefix + 7) / 8 <= j < index :: n.bytes[j] == 0
    {
      if n.bytes[index] != 0 {
        return false;
      }
      remaining := remaining - 8;
      index := index + 1;
    }
    return true;
  }

  predicate IsUnspecifiedOrMulticast(n: RouteNetwork) {
    || (forall i | 0 <= i < |n.bytes| :: n.bytes[i] == 0)
    || (if n.ipv4 then n.bytes[0] >= 224 else n.bytes[0] == 0xff)
  }

  lemma {:induction false} FirstByteBounds(bytes: seq<Byte>)
    requires bytes != []
    ensures bytes[0] * Pow2(8 * (|bytes| - 1)) <= Value(bytes) < (bytes[0] + 1) * Pow2(8 * (|bytes| - 1))
    ensures Value(bytes) == 0 <==> forall i | 0 <= i < |bytes| :: bytes[i] == 0
  {
    var front := bytes[..|bytes| - 1];
    if front == [] {
      assert Value(front) == 0 && Pow2(0) == 1;
    } else {
      FirstByteBounds(front);
      Pow2Add(8, 8 * (|front| - 1));
      assert Pow2(8) == 256;
      Scaled(bytes[0], Pow2(8 * (|front| - 1)), Value(front), bytes[|bytes| - 1]);
      assert forall i | 0 <= i < |front| :: front[i] == bytes[i];
    }
  }

  lemma Scaled(first: nat, block: nat, front: nat, last: Byte)
    requires first * block <= front < (first + 1) * block
    ensures first * (256 * block) <= 256 * front + last < (first + 1) * (256 * block)
  {
    assert first * (256 * block) == 256 * (first * block);
    assert (first + 1) * (256 * block) == 256 * ((first + 1) * block);
  }

  /** The zero address, or one from 224.0.0.0 on, or from ff00:: on. */
  lemma UnspecifiedOrMulticastMeans(n: RouteNetwork)
    ensures IsUnspecifiedOrMulticast(n) <==>
              || Value(n.bytes) == 0
              || Value(n.bytes) >= (if n.ipv4 then 224 else 0xff) * Pow2(Width(n) - 8)
  {
    hide Pow2;
    FirstByteBounds(n.bytes);
    var block, first := Pow2(Width(n) - 8), if n.ipv4 then 224 else 0xff;
    if n.bytes[0] < first {
      MulMonotone(n.bytes[0] + 1, first, block);
    } else {
      MulMonotone(first, n.bytes[0], block);
    }
  }

  /** What the helper accepts as the network of a private CIDR. */
  predicate IsValidCidr(n: RouteNetwork) {
    n.prefix > 0 && IsCanonical(n) && !IsUnspecifiedOrMulticast(n)
  }

  predicate AreDisjoint(cidrs: seq<RouteNetwork>) {
    forall i, j | 0 <= i < j < |cidrs| :: !Overlaps(cidrs[i], cidrs[j])
  }

  method PrivateCidrsAreDisjoint(cidrs: seq<RouteNetwork>) returns (disjoint: bool)
    ensures disjoint <==> AreDisjoint(cidrs)
  {
    for index := 0 to |cidrs|
      invariant forall i, j | 0 <= i < j < |cidrs| && i < index :: !Overlaps(cidrs[i], cidrs[j])
    {
      for other := index + 1 to |cidrs|
        invariant forall j | index < j < other :: !Overlaps(cidrs[index], cidrs[j])
      {
        var overlap := NetworksOverlap(cidrs[index], cidrs[other]);
        if overlap {
          return false;
        }
      }
    }
    return true;
  }

  // ----- inspecting the route table -----

  predicate RouteConflicts(target: RouteNetwork, e: RouteEntry, trusted: seq<string>) {
    && e.network.prefix > 0
    && Overlaps(target, e.network)
    && !(e.network.prefix < target.prefix && e.interfaceName in trusted)
  }

  predicate NetworksEqual(a: RouteNetwork, b: RouteNetwork) {
    a.ipv4 == b.ipv4 && a.prefix == b.prefix && Overlaps(a, b)
  }

  predicate IsOwnRoute(target: RouteNetwork, e: RouteEntry, interfaceName: string) {
    NetworksEqual(target, e.network) && e.interfaceName == interfaceName
  }

  /** What inspection reports of a table, whatever the order of its rows. */
  function Inspect(table: multiset<RouteEntry>, target: RouteNetwork, interfaceName: string,
                   trusted: seq<string>): RouteInspection
  {
    RouteInspection(
      exists e | e in table :: RouteConflicts(target, e, trusted) && IsOwnRoute(target, e, interfaceName),
      exists e | e in table :: RouteConflicts(target, e, trusted) && !IsOwnRoute(target, e, interfaceName))
  }

  method InspectTarget(target: RouteNetwork, interfaceName: string, entries: seq<RouteEntry>,
                       trusted: seq<string>) returns (inspection: RouteInspection)
    ensures inspection == Inspect(multiset(entries), target, interfaceName, trusted)
  {
    var ownedExact, foreignConflict := false, false;
    for i := 0 to |entries|
      invariant ownedExact <==> exists k | 0 <= k < i ::
        RouteConflicts(target, entries[k], trusted) && IsOwnRoute(target, entries[k], interfaceName)
      invariant foreignConflict <==> exists k | 0 <= k < i ::
        RouteConflicts(target, entries[k], trusted) && !IsOwnRoute(target, entries[k], interfaceName)
    {
      var entry := entries[i];
      var overlap := NetworksOverlap(target, entry.network);
      var exempt := entry.network.prefix < target.prefix && entry.interfaceName in trusted;
      if entry.network.prefix > 0 && overlap && !exempt {
        var equal := target.ipv4 == entry.network.ipv4 && target.prefix == entry.network.prefix && overlap;
        if equal && entry.interfaceName == interfaceName {
          ownedExact := true;
        } else {
          foreignConflict := true;
        }
      }
    }
    inspection := RouteInspection(ownedExact, foreignConflict);
    SameRows(entries, target, interfaceName, trusted);
  }

  lemma SameRows(entries: seq<RouteEntry>, target: RouteNetwork, interfaceName: string, trusted: seq<string>)
    ensures Inspect(multiset(entries), target, interfaceName, trusted) ==
            RouteInspection(
              exists k | 0 <= k < |entries| ::
                RouteConflicts(target, entries[k], trusted) && IsOwnRoute(target, entries[k], interfaceName),
              exists k | 0 <= k < |entries| ::
                RouteConflicts(target, entries[k], trusted) && !IsOwnRoute(target, entries[k], interfaceName))
  {
    assert forall k | 0 <= k < |entries| :: entries[k] in multiset(entries);
    assert forall e | e in multiset(entries) :: e in entries;
  }

  // ----- which rows an inspection minds -----

  ghost predicate ShareAnAddress(a: RouteNetwork, b: RouteNetwork) {
    exists ipv4, address: nat :: Contains(a, ipv4, address) && Contains(b, ipv4, address)
  }

  /**
   A row that an inspection of the target minds: no default route, over an address of the target, and
   not a route that covers the target through a trusted interface.
   */
  ghost predicate IsMinded(target: RouteNetwork, e: RouteEntry, trusted: seq<string>) {
    && e.network.prefix > 0
    && ShareAnAddress(target, e.network)
    && (e.interfaceName in trusted ==> target.prefix <= e.network.prefix)
  }

  /** The target's own row: as long a prefix, over an address of the target, through the helper's interface. */
  ghost predicate IsOwnRow(target: RouteNetwork, e: RouteEntry, interfaceName: string) {
    e.network.prefix == target.prefix && ShareAnAddress(target, e.network) && e.interfaceName == interfaceName
  }

  lemma MindedTest(target: RouteNetwork, e: RouteEntry, interfaceName: string, trusted: seq<string>)
    ensures RouteConflicts(target, e, trusted) <==> IsMinded(target, e, trusted)
    ensures IsOwnRoute(target, e, interfaceName) <==> IsOwnRow(target, e, interfaceName)
  {
    hide Overlaps, Contains;
    OverlapsMeansCommonAddress(target, e.network);
    if Overlaps(target, e.network) {
      SameFamily(target, e.network);
    }
  }

  lemma SameFamily(a: RouteNetwork, b: RouteNetwork)
    requires Overlaps(a, b)
    ensures a.ipv4 == b.ipv4
  {
  }

  /** What an inspection finds, in terms of addresses. */
  lemma InspectionMeans(table: multiset<RouteEntry>, target: RouteNetwork, interfaceName: string, trusted: seq<string>)
    ensures var found := Inspect(table, target, interfaceName, trusted);
            && (found.ownedExact <==>
                  exists e | e in table :: IsMinded(target, e, trusted) && IsOwnRow(target, e, interfaceName))
            && (found.foreignConflict <==>
                  exists e | e in table :: IsMinded(target, e, trusted) && !IsOwnRow(target, e, interfaceName))
            && (found.IsAvailable() <==> forall e | e in table :: !IsMinded(target, e, trusted))
  {
    hide RouteConflicts, IsMinded, IsOwnRow, IsOwnRoute;
    forall e: RouteEntry
      ensures RouteConflicts(target, e, trusted) <==> IsMinded(target, e, trusted)
      ensures IsOwnRoute(target, e, interfaceName) <==> IsOwnRow(target, e, interfaceName)
    {
      MindedTest(target, e, interfaceName, trusted);
    }
  }

  /** A default route, and a covering route through a trusted interface, make no difference. */
  lemma ExemptRowChangesNothing(table: multiset<RouteEntry>, e: RouteEntry, target: RouteNetwork, interfaceName: string,
                                trusted: seq<string>)
    requires e.network.prefix == 0 || (e.network.prefix < target.prefix && e.interfaceName in trusted)
    ensures Inspect(table + multiset{e}, target, interfaceName, trusted) == Inspect(table, target, interfaceName, trusted)
  {
    hide Overlaps, IsOwnRoute;
    assert !RouteConflicts(target, e, trusted);
    assert forall f :: f in table + multiset{e} <==> f in table || f == e;
  }

  /** Any other row over an address of the target is reported: as the own route, or as a conflict. */
  lemma OtherRowIsReported(table: multiset<RouteEntry>, e: RouteEntry, target: RouteNetwork, interfaceName: string,
                           trusted: seq<string>, address: nat)
    requires e in table && Contains(target, target.ipv4, address) && Contains(e.network, target.ipv4, address)
    requires e.network.prefix > 0 && (target.prefix <= e.network.prefix || e.interfaceName !in trusted)
    ensures var found := Inspect(table, target, interfaceName, trusted);
            if e.network.prefix == target.prefix && e.interfaceName == interfaceName then found.ownedExact
            else found.foreignConflict
  {
    hide Contains, RouteConflicts, IsOwnRoute;
    assert ShareAnAddress(target, e.network);
    InspectionMeans(table, target, interfaceName, trusted);
    assert IsMinded(target, e, trusted);
  }

  // ----- what a clean inspection means for forwarding -----

  /** Longest-prefix selection, section 5.1 of RFC 4632. */
  ghost predicate IsLongestMatch(table: multiset<RouteEntry>, e: RouteEntry, ipv4: bool, address: nat) {
    && e in table && Contains(e.network, ipv4, address)
    && forall f | f in table && Contains(f.network, ipv4, address) :: f.network.prefix <= e.network.prefix
  }

  lemma MatchIsOwnOrShorter(table: multiset<RouteEntry>, target: RouteNetwork, interfaceName: string,
                            trusted: seq<string>, e: RouteEntry, address: nat)
    requires !Inspect(table, target, interfaceName, trusted).foreignConflict
    requires e in table && Contains(target, target.ipv4, address) && Contains(e.network, target.ipv4, address)
    requires target.prefix > 0
    ensures IsOwnRoute(target, e, interfaceName) || e.network.prefix < target.prefix
  {
    OverlapsMeansCommonAddress(target, e.network);
    assert Overlaps(target, e.network);
  }

  lemma OwnRouteContains(target: RouteNetwork, e: RouteEntry, interfaceName: string, address: nat)
    requires IsOwnRoute(target, e, interfaceName) && Contains(target, target.ipv4, address)
    ensures Contains(e.network, target.ipv4, address)
  {
  }

  /**
   When a target is reported owned-exact with no foreign conflict, every address of the target
   has a longest match and each longest match leaves through the helper's interface, whatever
   default or trusted covering routes the table holds.
   */
  lemma CleanInspectionForwards(table: multiset<RouteEntry>, target: RouteNetwork, interfaceName: string,
                                trusted: seq<string>, address: nat)
    requires Inspect(table, target, interfaceName, trusted) == RouteInspection(true, false)
    requires Contains(target, target.ipv4, address)
    ensures exists e :: IsLongestMatch(table, e, target.ipv4, address)
    ensures forall e | IsLongestMatch(table, e, target.ipv4, address) :: e.interfaceName == interfaceName
  {
    var own :| own in table && RouteConflicts(target, own, trusted) && IsOwnRoute(target, own, interfaceName);
    OwnRouteContains(target, own, interfaceName, address);
    forall f | f in table && Contains(f.network, target.ipv4, address)
      ensures f.network.prefix <= own.network.prefix
    {
      MatchIsOwnOrShorter(table, target, interfaceName, trusted, f, address);
    }
    assert IsLongestMatch(table, own, target.ipv4, address);
    forall e | IsLongestMatch(table, e, target.ipv4, address)
      ensures e.interfaceName == interfaceName
    {
      MatchIsOwnOrShorter(table, target, interfaceName, trusted, e, address);
    }
  }
}
