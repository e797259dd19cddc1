/** The order in which the way and relation iterators visit a block: group
    by group, and within a group by index, as (group, index) positions over
    the per-group entity counts. */
module Traversal {

  datatype Pos = Pos(group: nat, index: nat)

  /** The position names an entity: its group exists and holds more than
      `index` entities. */
  predicate InRange(counts: seq<nat>, p: Pos)
  {
    p.group < |counts| && p.index < counts[p.group]
  }

  /** Strict lexicographic order of positions. */
  predicate Before(p: Pos, q: Pos)
  {
    p.group < q.group || (p.group == q.group && p.index < q.index)
  }

  /** The positions still to visit from index `i` of group `g` on. */
  function PositionsFrom(counts: seq<nat>, g: nat, i: nat): seq<Pos>
    decreases |counts| - g, if g < |counts| && i < counts[g] then counts[g] - i else 0
  {
    if g >= |counts| then []
    else if i < counts[g] then [Pos(g, i)] + PositionsFrom(counts, g, i + 1)
    else PositionsFrom(counts, g + 1, 0)
  }

  /** The positions visited from the start of the block. */
  function Positions(counts: seq<nat>): seq<Pos>
  {
    PositionsFrom(counts, 0, 0)
  }

  /** The number of entities in groups g, g + 1, ... */
  function TotalFrom(counts: seq<nat>, g: nat): nat
    decreases |counts| - g
  {
    if g >= |counts| then 0 else counts[g] + TotalFrom(counts, g + 1)
  }

  /** The number of entities in the block: the sum of the group counts. */
  function Total(counts: seq<nat>): nat
  {
    TotalFrom(counts, 0)
  }

  /** From (g, i), what is left of group g and all later groups is visited. */
  lemma {:induction false} LengthFrom(counts: seq<nat>, g: nat, i: nat)
    requires g < |counts| ==> i <= counts[g]
    ensures |PositionsFrom(counts, g, i)| == if g < |counts| then counts[g] - i + TotalFrom(counts, g + 1) else 0
    decreases |counts| - g, if g < |counts| then counts[g] - i else 0
  {
    if g < |counts| {
      if i < counts[g] {
        LengthFrom(counts, g, i + 1);
      } else {
        LengthFrom(counts, g + 1, 0);
      }
    }
  }

  /** Every position visited from (g, i) is in range, not before (g, i),
      and the visit is in strictly increasing order. */
  lemma {:induction false} OrderedFrom(counts: seq<nat>, g: nat, i: nat)
    ensures forall k :: 0 <= k < |PositionsFrom(counts, g, i)| ==>
      InRange(counts, PositionsFrom(counts, g, i)[k]) &&
      !Before(PositionsFrom(counts, g, i)[k], Pos(g, i))
    ensures forall j, k :: 0 <= j < k < |PositionsFrom(counts, g, i)| ==>
      Before(PositionsFrom(counts, g, i)[j], PositionsFrom(counts, g, i)[k])
    decreases |counts| - g, if g < |counts| && i < counts[g] then counts[g] - i else 0
  {
    var r := PositionsFrom(counts, g, i);
    if g < |counts| {
      if i < counts[g] {
        var r' := PositionsFrom(counts, g, i + 1);
        OrderedFrom(counts, g, i + 1);
        assert r == [Pos(g, i)] + r';
        forall j, k | 0 <= j < k < |r|
          ensures Before(r[j], r[k])
        {
          if j > 0 {
            assert r[j] == r'[j - 1] && r[k] == r'[k - 1];
          } else {
            assert r[k] == r'[k - 1];
          }
        }
      } else {
        OrderedFrom(counts, g + 1, 0);
      }
    }
  }

  /** Every in-range position not before (g, i) is visited from (g, i). */
  lemma {:induction false} CompleteFrom(counts: seq<nat>, g: nat, i: nat, p: Pos)
    requires InRange(counts, p) && !Before(p, Pos(g, i))
    ensures p in PositionsFrom(counts, g, i)
    decreases |counts| - g, if g < |counts| && i < counts[g] then counts[g] - i else 0
  {
    if i < counts[g] {
      if p != Pos(g, i) {
        CompleteFrom(counts, g, i + 1, p);
      }
    } else {
      CompleteFrom(counts, g + 1, 0, p);
    }
  }

  /** Iterating from the start visits every entity of every group exactly
      once, in lexicographic (group, index) order, and so visits as many
      positions as the counts add up to. */
  lemma Visitation(counts: seq<nat>)
    ensures |Positions(counts)| == Total(counts)
    ensures forall k :: 0 <= k < |Positions(counts)| ==> InRange(counts, Positions(counts)[k])
    ensures forall j, k :: 0 <= j < k < |Positions(counts)| ==> Before(Positions(counts)[j], Positions(counts)[k])
    ensures forall p :: InRange(counts, p) ==> p in Positions(counts)
  {
    LengthFrom(counts, 0, 0);
    if counts == [] {
      assert Total(counts) == 0;
    }
    OrderedFrom(counts, 0, 0);
    forall p | InRange(counts, p)
      ensures p in Positions(counts)
    {
      CompleteFrom(counts, 0, 0, p);
    }
  }
}
