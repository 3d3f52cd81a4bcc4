/**
 What an address prefix means: the `bits` leading bits of a `width`-bit address. Two prefixes
 overlap when some address lies in both; this module shows that it is enough to compare the
 shorter of the two.
 */
module Prefixes {
  import opened Bits

  function Min(a: nat, b: nat): nat {
    if a <= b then a else b
  }

  /** The number formed by the `bits` leading bits of a `width`-bit address. */
  function LeadingBits(width: nat, address: nat, bits: nat): nat
    requires bits <= width
  {
    Quotient(address, Pow2(width - bits))
  }

  predicate Covers(width: nat, address: nat, bits: nat, candidate: nat)
    requires bits <= width
  {
    candidate < Pow2(width) && LeadingBits(width, candidate, bits) == LeadingBits(width, address, bits)
  }

  ghost predicate HaveCommonAddress(width: nat, x: nat, p: nat, y: nat, q: nat)
    requires p <= width && q <= width
  {
    exists a: nat :: Covers(width, x, p, a) && Covers(width, y, q, a)
  }

  predicate ShareLeadingBits(width: nat, x: nat, y: nat, bits: nat)
    requires bits <= width
  {
    LeadingBits(width, x, bits) == LeadingBits(width, y, bits)
  }

  /** Agreement on some leading bits is agreement on fewer. */
  lemma FewerLeadingBits(width: nat, x: nat, y: nat, more: nat, fewer: nat)
    requires fewer <= more <= width && ShareLeadingBits(width, x, y, more)
    ensures ShareLeadingBits(width, x, y, fewer)
  {
    var a, b := Pow2(width - more), Pow2(more - fewer);
    Pow2Add(width - more, more - fewer);
    DivModProduct(x, a, b);
    DivModProduct(y, a, b);
  }

  lemma OverlapIsSharedLeadingBits(width: nat, x: nat, p: nat, y: nat, q: nat)
    requires p <= width && q <= width && x < Pow2(width) && y < Pow2(width)
    ensures HaveCommonAddress(width, x, p, y, q) <==> ShareLeadingBits(width, x, y, Min(p, q))
  {
    var m := Min(p, q);
    if ShareLeadingBits(width, x, y, m) {
      var witnessAddress := if p <= q then y else x;
      assert Covers(width, x, p, witnessAddress) && Covers(width, y, q, witnessAddress);
    }
    forall a: nat | Covers(width, x, p, a) && Covers(width, y, q, a)
      ensures ShareLeadingBits(width, x, y, m)
    {
      FewerLeadingBits(width, a, x, p, m);
      FewerLeadingBits(width, a, y, q, m);
    }
  }
}
