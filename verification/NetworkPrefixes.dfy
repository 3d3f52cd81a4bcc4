/**
 The profile checker's arithmetic on prefixes held as one big number, with bit masks. It is
 shown to decide the same relations as the route helper's arithmetic on bytes.
 */
module NetworkPrefixes {
  import opened Bits
  import opened Prefixes
  import opened RouteNetworks

  datatype Family = IPv4 | IPv6

  function FamilyWidth(family: Family): nat {
    if family == IPv4 then 32 else 128
  }

  datatype ParsedPrefix = ParsedPrefix(address: nat, bits: nat, family: Family) {
    function Width(): nat {
      FamilyWidth(family)
    }

    /** The addresses of the prefix. */
    predicate Covers(candidate: nat)
      requires bits <= Width()
    {
      Prefixes.Covers(Width(), address, bits, candidate)
    }
  }

  predicate IsProper(p: ParsedPrefix) {
    p.bits <= p.Width() && p.address < Pow2(p.Width())
  }

  type Prefix = p: ParsedPrefix | IsProper(p) witness ParsedPrefix(0, 0, IPv4)

  // ----- the source's expressions -----

  function PrefixMask(width: nat, bits: nat): nat
    requires bits <= width
  {
    if bits == 0 then 0 else BitXor(Pow2(width) - 1, Pow2(width - bits) - 1)
  }

  predicate IsNetworkPrefix(p: Prefix) {
    BitAnd(p.address, PrefixMask(p.Width(), p.bits)) == p.address
  }

  predicate PrefixContains(allowed: Prefix, candidate: Prefix) {
    && allowed.family == candidate.family
    && candidate.bits >= allowed.bits
    && BitAnd(candidate.address, PrefixMask(candidate.Width(), allowed.bits)) == allowed.address
  }

  predicate PrefixesOverlap(left: Prefix, right: Prefix) {
    && left.family == right.family
    && var mask := PrefixMask(left.Width(), Min(left.bits, right.bits));
       BitAnd(left.address, mask) == BitAnd(right.address, mask)
  }

  // ----- what they mean -----

  /** The mask clears exactly the host bits. */
  lemma MaskKeepsLeadingBits(width: nat, x: nat, bits: nat)
    requires bits <= width && x < Pow2(width)
    ensures BitAnd(x, PrefixMask(width, bits)) == LeadingBits(width, x, bits) * Pow2(width - bits)
  {
    if bits == 0 {
      DivModUnique(x, Pow2(width), 0, x);
    } else {
      XorOfOnes(width, width - bits);
      AndHighMask(x, width, width - bits);
    }
  }

  lemma NetworkPrefixMeansNoHostBits(p: Prefix)
    ensures IsNetworkPrefix(p) <==> p.address % Pow2(p.Width() - p.bits) == 0
  {
    MaskKeepsLeadingBits(p.Width(), p.address, p.bits);
    Division(p.address, Pow2(p.Width() - p.bits));
  }

  lemma MasksAgreeOnLeadingBits(width: nat, x: nat, y: nat, bits: nat)
    requires bits <= width && x < Pow2(width) && y < Pow2(width)
    ensures BitAnd(x, PrefixMask(width, bits)) == BitAnd(y, PrefixMask(width, bits))
            <==> ShareLeadingBits(width, x, y, bits)
  {
    MaskKeepsLeadingBits(width, x, bits);
    MaskKeepsLeadingBits(width, y, bits);
    SameMultiple(Pow2(width - bits), LeadingBits(width, x, bits), LeadingBits(width, y, bits));
  }

  /** Two prefixes overlap by mask exactly when some address lies in both. */
  lemma PrefixesOverlapMeansCommonAddress(left: Prefix, right: Prefix)
    ensures PrefixesOverlap(left, right)
            <==> left.family == right.family && exists a: nat :: left.Covers(a) && right.Covers(a)
  {
    if left.family == right.family {
      MasksAgreeOnLeadingBits(left.Width(), left.address, right.address, Min(left.bits, right.bits));
      OverlapIsSharedLeadingBits(left.Width(), left.address, left.bits, right.address, right.bits);
      if PrefixesOverlap(left, right) {
        var a: nat :| Prefixes.Covers(left.Width(), left.address, left.bits, a)
                      && Prefixes.Covers(left.Width(), right.address, right.bits, a);
        assert left.Covers(a) && right.Covers(a);
      }
    }
  }

  /** A network prefix contains another exactly when it covers every address of it. */
  lemma PrefixContainsMeansSubset(allowed: Prefix, candidate: Prefix)
    requires IsNetworkPrefix(allowed) && allowed.family == candidate.family
    ensures PrefixContains(allowed, candidate) <==> forall a: nat | candidate.Covers(a) :: allowed.Covers(a)
  {
    MasksAgreeOnLeadingBits(allowed.Width(), candidate.address, allowed.address, allowed.bits);
    if PrefixContains(allowed, candidate) {
      forall a: nat | candidate.Covers(a)
        ensures allowed.Covers(a)
      {
        FewerLeadingBits(allowed.Width(), a, candidate.address, candidate.bits, allowed.bits);
      }
    } else {
      assert candidate.Covers(candidate.address);
      if ShareLeadingBits(allowed.Width(), candidate.address, allowed.address, allowed.bits) {
        var a := OutsideAddress(allowed.Width(), candidate.address, candidate.bits, allowed.bits);
        assert candidate.Covers(a) && !allowed.Covers(a);
      }
    }
  }

  /** A shorter prefix has an address that differs from it within more leading bits. */
  lemma OutsideAddress(width: nat, x: nat, fewer: nat, more: nat) returns (a: nat)
    requires fewer < more <= width && x < Pow2(width)
    ensures a < Pow2(width)
    ensures LeadingBits(width, a, fewer) == LeadingBits(width, x, fewer)
    ensures LeadingBits(width, a, more) != LeadingBits(width, x, more)
  {
    var half, block := Pow2(width - fewer - 1), Pow2(width - fewer);
    var high, low := Quotient(x, block), x % block;
    Division(x, block);
    var low' := if low < half then low + half else low - half;
    a := high * block + low';
    DivModUnique(a, block, high, low');
    Pow2Add(fewer, width - fewer);
    BlockFits(x, high, low, low', Pow2(fewer), block);
    if LeadingBits(width, a, more) == LeadingBits(width, x, more) {
      FewerLeadingBits(width, a, x, more, fewer + 1);
      HalvesDiffer(x, a, half, high, low, low');
    }
  }

  lemma BlockFits(x: nat, high: nat, low: nat, low': nat, blocks: nat, block: nat)
    requires x == high * block + low && x < blocks * block && low < block && low' < block
    ensures high * block + low' < blocks * block
  {
    if high >= blocks {
      MulMonotone(blocks, high, block);
    } else {
      MulMonotone(high + 1, blocks, block);
      assert (high + 1) * block == high * block + block;
    }
  }

  lemma HalvesDiffer(x: nat, a: nat, half: nat, high: nat, low: nat, low': nat)
    requires half > 0 && low < 2 * half && low' == (if low < half then low + half else low - half)
    requires x == high * (2 * half) + low && a == high * (2 * half) + low'
    ensures Quotient(x, half) != Quotient(a, half)
  {
    var bit := if low < half then 0 else 1;
    assert high * (2 * half) == (2 * high) * half;
    assert (2 * high + 1) * half == (2 * high) * half + half;
    DivModUnique(x, half, 2 * high + bit, low - bit * half);
    DivModUnique(a, half, 2 * high + 1 - bit, low' - (1 - bit) * half);
  }

  // ----- the same prefix as bytes -----

  function Bytes(value: nat, count: nat): (bytes: seq<Byte>)
    ensures |bytes| == count
  {
    if count == 0 then [] else Bytes(value / 256, count - 1) + [value % 256]
  }

  lemma {:induction false} ValueOfBytes(value: nat, count: nat)
    requires value < Pow2(8 * count)
    ensures Value(Bytes(value, count)) == value
  {
    if count > 0 {
      Pow2Add(8, 8 * (count - 1));
      assert Pow2(8) == 256;
      ValueOfBytes(value / 256, count - 1);
      assert Bytes(value, count)[..count - 1] == Bytes(value / 256, count - 1);
    }
  }

  /** The network that the route helper parses from the same text. */
  function AsNetwork(p: Prefix): RouteNetwork {
    ParsedRouteNetwork(Bytes(p.address, p.Width() / 8), p.bits, p.family == IPv4)
  }

  lemma AsNetworkKeepsValue(p: Prefix)
    ensures Value(AsNetwork(p).bytes) == p.address && RouteNetworks.Width(AsNetwork(p)) == p.Width()
  {
    ValueOfBytes(p.address, p.Width() / 8);
  }

  /** Byte loops and bit masks decide the same overlap, and it is having an address in common. */
  lemma OverlapTestsAgree(left: Prefix, right: Prefix)
    ensures PrefixesOverlap(left, right) <==> Overlaps(AsNetwork(left), AsNetwork(right))
  {
    AsNetworkKeepsValue(left);
    AsNetworkKeepsValue(right);
    if left.family == right.family {
      MasksAgreeOnLeadingBits(left.Width(), left.address, right.address, Min(left.bits, right.bits));
    }
  }

  lemma CanonicalTestsAgree(p: Prefix)
    ensures IsNetworkPrefix(p) <==> IsCanonical(AsNetwork(p))
  {
    AsNetworkKeepsValue(p);
    NetworkPrefixMeansNoHostBits(p);
  }
}
