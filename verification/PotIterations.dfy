/** Signage points and infusion points inside a sub-slot. */
module PotIterations {
  import opened Types
  import opened Arithmetic

  /** What the program demands before it computes an infusion point (it raises otherwise). */
  ghost predicate Placeable(c: Consensus, subSlotIters: nat, index: nat, requiredIters: nat) {
    && c.numSpsSubSlot > 0 && subSlotIters > 0 && Multiple(subSlotIters, c.numSpsSubSlot)
    && index < c.numSpsSubSlot
    && 0 < requiredIters < subSlotIters / c.numSpsSubSlot
  }

  predicate IsOverflowBlock(c: Consensus, index: nat) {
    index >= c.numSpsSubSlot - c.numSpIntervalsExtra
  }

  function SpIntervalIters(c: Consensus, subSlotIters: nat): nat
    requires c.numSpsSubSlot > 0
  {
    subSlotIters / c.numSpsSubSlot
  }

  function SpIters(c: Consensus, subSlotIters: nat, index: nat): nat
    requires c.numSpsSubSlot > 0
  {
    SpIntervalIters(c, subSlotIters) * index
  }

  function IpIters(c: Consensus, subSlotIters: nat, index: nat, requiredIters: nat): nat
    requires c.numSpsSubSlot > 0 && subSlotIters > 0
  {
    (SpIters(c, subSlotIters, index) + c.numSpIntervalsExtra * SpIntervalIters(c, subSlotIters) + requiredIters)
      % subSlotIters
  }

  /** The number of whole signage-point intervals before the infusion point, in its own sub-slot. */
  function IpInterval(c: Consensus, index: nat): int {
    index + c.numSpIntervalsExtra - (if IsOverflowBlock(c, index) then c.numSpsSubSlot else 0)
  }

  /** A point inside interval k lies above the starts of intervals up to k and below all later ones. */
  lemma {:induction false} InsideInterval(k: nat, r: nat, w: nat, j: nat)
    requires 0 < r < w
    ensures j <= k ==> w * j < k * w + r
    ensures k < j ==> k * w + r < w * j
  {
    if j <= k {
      Distribute(k - j, j, w);
    } else {
      ScaleLess(k, j, w);
    }
  }

  /** Where (i + e) intervals of length w, and r more, land in a sub-slot of n intervals. */
  lemma {:induction false} LandsInInterval(n: nat, e: nat, w: nat, i: nat, r: nat)
    requires e < n && i < n && 0 < r < w && n * w > 0
    ensures var k := if i + e < n then i + e else i + e - n;
            (w * i + e * w + r) % (n * w) == k * w + r && k * w + r < n * w
  {
    Distribute(i, e, w);
    if i + e < n {
      ScaleLess(i + e, n, w);
      ModuloOnce((i + e) * w + r, n * w);
    } else {
      Distribute(i + e - n, n, w);
      ScaleLess(i + e - n, n, w);
      ModuloOnce((i + e) * w + r, n * w);
    }
  }

  /** The infusion point lies strictly inside its signage-point interval. */
  lemma {:induction false} IpItersShape(c: Consensus, subSlotIters: nat, index: nat, requiredIters: nat)
    requires Placeable(c, subSlotIters, index, requiredIters)
    requires c.numSpIntervalsExtra < c.numSpsSubSlot
    ensures 0 <= IpInterval(c, index) < c.numSpsSubSlot
    ensures IpIters(c, subSlotIters, index, requiredIters)
         == IpInterval(c, index) * SpIntervalIters(c, subSlotIters) + requiredIters
    ensures IpIters(c, subSlotIters, index, requiredIters) < subSlotIters
  {
    var n, w := c.numSpsSubSlot, SpIntervalIters(c, subSlotIters);
    MultipleIsModulo(subSlotIters, n);
    assert subSlotIters == n * w;
    LandsInInterval(n, c.numSpIntervalsExtra, w, index, requiredIters);
  }

  /** Block creation calls a block overflowing when its signage point comes after its infusion
      point in the sub-slot; validation looks at the signage point index. They agree. */
  lemma {:induction false} OverflowDefinitionsAgree(c: Consensus, subSlotIters: nat, index: nat, requiredIters: nat)
    requires Placeable(c, subSlotIters, index, requiredIters)
    requires 0 < c.numSpIntervalsExtra < c.numSpsSubSlot
    ensures SpIters(c, subSlotIters, index) > IpIters(c, subSlotIters, index, requiredIters)
       <==> IsOverflowBlock(c, index)
  {
    IpItersShape(c, subSlotIters, index, requiredIters);
    InsideInterval(IpInterval(c, index), requiredIters, SpIntervalIters(c, subSlotIters), index);
  }

  /** No infusion point falls on any signage point of its sub-slot. */
  lemma {:induction false} InfusionOffSignagePoints(c: Consensus, subSlotIters: nat, index: nat, requiredIters: nat,
                                                    other: nat)
    requires Placeable(c, subSlotIters, index, requiredIters)
    requires c.numSpIntervalsExtra < c.numSpsSubSlot
    ensures IpIters(c, subSlotIters, index, requiredIters) != SpIters(c, subSlotIters, other)
  {
    IpItersShape(c, subSlotIters, index, requiredIters);
    InsideInterval(IpInterval(c, index), requiredIters, SpIntervalIters(c, subSlotIters), other);
  }

  /** In one sub-slot every overflow block is infused before every other block. */
  lemma {:induction false} OverflowInfusedFirst(c: Consensus, subSlotIters: nat, i: nat, ri: nat, j: nat, rj: nat)
    requires Placeable(c, subSlotIters, i, ri) && Placeable(c, subSlotIters, j, rj)
    requires c.numSpIntervalsExtra < c.numSpsSubSlot
    requires IsOverflowBlock(c, i) && !IsOverflowBlock(c, j)
    ensures IpIters(c, subSlotIters, i, ri) < IpIters(c, subSlotIters, j, rj)
  {
    IpItersShape(c, subSlotIters, i, ri);
    IpItersShape(c, subSlotIters, j, rj);
    ScaleLess(IpInterval(c, i), IpInterval(c, j), SpIntervalIters(c, subSlotIters));
  }

  lemma {:induction false} SpItersInSlot(c: Consensus, subSlotIters: nat, index: nat)
    requires c.numSpsSubSlot > 0 && subSlotIters > 0 && Multiple(subSlotIters, c.numSpsSubSlot)
             && index < c.numSpsSubSlot
    ensures 0 <= SpIters(c, subSlotIters, index) < subSlotIters
  {
    var n, w := c.numSpsSubSlot, SpIntervalIters(c, subSlotIters);
    MultipleIsModulo(subSlotIters, n);
    assert subSlotIters == n * w;
    NonNegative(w, index);
    ScaleLess(index, n, w);
    assert w * index == index * w;
  }
}
