/** PbfBlock::WayIterator and PbfBlock::RelationIterator: forward iterators
    over the ways (relations) of a block, group after group. Each one's
    abstract state is the sequence of positions it has still to visit. */
module EntityIterators {
  import Osmpbf
  import Views
  import Traversal

  /** The number of ways of each group. */
  function WayCounts(b: Osmpbf.PrimitiveBlock): seq<nat>
  {
    seq(|b.groups|, g requires 0 <= g < |b.groups| => |b.groups[g].ways|)
  }

  /** The number of relations of each group. */
  function RelationCounts(b: Osmpbf.PrimitiveBlock): seq<nat>
  {
    seq(|b.groups|, g requires 0 <= g < |b.groups| => |b.groups[g].relations|)
  }

  function WayAt(b: Osmpbf.PrimitiveBlock, p: Traversal.Pos): Views.BlockWay
    requires Traversal.InRange(WayCounts(b), p)
  {
    Views.BlockWay(b.groups[p.group].ways[p.index], b)
  }

  function RelationAt(b: Osmpbf.PrimitiveBlock, p: Traversal.Pos): Views.BlockRelation
    requires Traversal.InRange(RelationCounts(b), p)
  {
    Views.BlockRelation(b.groups[p.group].relations[p.index], b)
  }

  class WayIterator {
    const block: Osmpbf.PrimitiveBlock
    var group: nat
    var i: nat
    var end: bool

    /** Outside the end state the iterator lies in an existing group and at
        most one past its last way. */
    ghost predicate Inv()
      reads this
    {
      !end ==> group < |block.groups| && i <= |block.groups[group].ways|
    }

    /** A state the constructor and next() leave: at the end or at a way. */
    ghost predicate Valid()
      reads this
    {
      Inv() && (end || HasData())
    }

    /** The positions of the ways still to visit, this one first. */
    ghost function Rest(): seq<Traversal.Pos>
      reads this
      requires Inv()
    {
      if end then [] else Traversal.PositionsFrom(WayCounts(block), group, i)
    }

    function HasData(): bool
      reads this
    {
      group < |block.groups| && i < |block.groups[group].ways|
    }

    /** Two end iterators are equal; otherwise the end flags, indices and
        groups must agree. */
    function Equals(other: WayIterator): bool
      reads this, other
    {
      if end && other.end then true
      else end == other.end && i == other.i && group == other.group
    }

    function NotEquals(other: WayIterator): bool
      reads this, other
    {
      !Equals(other)
    }

    /** operator* and operator->: a fresh view of the current way. */
    function Deref(): Views.BlockWay
      reads this
      requires HasData()
    {
      Views.BlockWay(block.groups[group].ways[i], block)
    }

    /** WayIterator(b, end); waysBegin() passes false, waysEnd() true. */
    constructor (b: Osmpbf.PrimitiveBlock, end: bool)
      requires end || |b.groups| > 0
      ensures Valid() && block == b && (end ==> this.end)
      ensures Rest() == if end then [] else Traversal.Positions(WayCounts(b))
    {
      block := b;
      group := 0;
      i := 0;
      this.end := end;
      new;
      if !HasData() {
        Next();
      }
    }

    /** next(): advance within the group, else to the start of the next
        group, else to the end, until a way is reached or the end is; at the
        end it does nothing. */
    method Next()
      requires Inv()
      modifies this
      ensures Valid()
      ensures old(end) ==> unchanged(this)
      ensures !old(end) ==> Rest() == if old(HasData()) then old(Rest())[1..] else old(Rest())
    {
      if end {
        return;
      }
      ghost var target := if HasData() then Rest()[1..] else Rest();
      while true
        invariant Inv() && !end
        invariant (group == old(group) && i == old(i)) || (Rest() == target && !HasData())
        decreases |block.groups| - group, |block.groups[group].ways| - i
      {
        ghost var before := Rest();
        ghost var had := HasData();
        ghost var counts := WayCounts(block);
        if i < |block.groups[group].ways| {
          assert before == [Traversal.Pos(group, i)] + Traversal.PositionsFrom(counts, group, i + 1);
          i := i + 1;
        } else if group < |block.groups| - 1 {
          assert before == Traversal.PositionsFrom(counts, group + 1, 0);
          group := group + 1;
          i := 0;
        } else {
          assert before == Traversal.PositionsFrom(counts, group + 1, 0) == [];
          end := true;
        }
        assert Rest() == if had then before[1..] else before;
        if end || HasData() {
          break;
        }
      }
    }
  }

  /** At a way, the first position still to visit is the current one. */
  lemma WayCurrentIsFirst(it: WayIterator)
    requires it.Valid() && !it.end
    ensures |it.Rest()| > 0 && it.Rest()[0] == Traversal.Pos(it.group, it.i)
    ensures Traversal.InRange(WayCounts(it.block), it.Rest()[0])
    ensures it.Deref() == WayAt(it.block, it.Rest()[0])
  {
  }

  /** hasData(): the iterator stands at an existing position of the
      traversal. */
  lemma WayHasDataAt(it: WayIterator)
    ensures it.HasData() <==> Traversal.InRange(WayCounts(it.block), Traversal.Pos(it.group, it.i))
  {
  }

  /** Two iterators over one block are equal exactly when they have the same
      ways still to visit. */
  lemma WayEqualsIffSameRest(a: WayIterator, b: WayIterator)
    requires a.Valid() && b.Valid() && a.block == b.block
    ensures a.Equals(b) <==> a.Rest() == b.Rest()
    ensures a.NotEquals(b) <==> a.Rest() != b.Rest()
  {
    if !a.end {
      WayCurrentIsFirst(a);
    }
    if !b.end {
      WayCurrentIsFirst(b);
    }
  }

  /** for (it = waysBegin(); it != waysEnd(); it.next()) collects *it: every
      way of the block, in group order and within a group in index order. */
  method CollectWays(b: Osmpbf.PrimitiveBlock) returns (ways: seq<Views.BlockWay>)
    requires |b.groups| > 0
    ensures |ways| == |Traversal.Positions(WayCounts(b))| == Traversal.Total(WayCounts(b))
    ensures forall k :: 0 <= k < |ways| ==>
      Traversal.InRange(WayCounts(b), Traversal.Positions(WayCounts(b))[k]) &&
      ways[k] == WayAt(b, Traversal.Positions(WayCounts(b))[k])
  {
    var it := new WayIterator(b, false);
    var last := new WayIterator(b, true);
    Traversal.Visitation(WayCounts(b));
    ways := DrainWays(it, last, Traversal.Positions(WayCounts(b)));
  }

  /** The loop of CollectWays, from wherever `it` stands: the ways at
      the positions it has still to visit, in order. */
  method DrainWays(it: WayIterator, last: WayIterator, ghost all: seq<Traversal.Pos>) returns (ways: seq<Views.BlockWay>)
    requires it.Valid() && last.Valid() && it.block == last.block && last.end && it != last
    requires it.Rest() == all
    modifies it
    ensures |ways| == |all|
    ensures forall k :: 0 <= k < |ways| ==>
      Traversal.InRange(WayCounts(it.block), all[k]) && ways[k] == WayAt(it.block, all[k])
  {
    ways := [];
    while it.NotEquals(last)
      invariant it.Valid() && last.Valid() && it.block == last.block && last.end
      invariant |ways| + |it.Rest()| == |all| && it.Rest() == all[|ways|..]
      invariant forall k :: 0 <= k < |ways| ==>
        Traversal.InRange(WayCounts(it.block), all[k]) && ways[k] == WayAt(it.block, all[k])
      decreases |it.Rest()|
    {
      WayEqualsIffSameRest(it, last);
      WayCurrentIsFirst(it);
      ways := ways + [it.Deref()];
      it.Next();
    }
    WayEqualsIffSameRest(it, last);
  }

  class RelationIterator {
    const block: Osmpbf.PrimitiveBlock
    var group: nat
    var i: nat
    var end: bool

    ghost predicate Inv()
      reads this
    {
      !end ==> group < |block.groups| && i <= |block.groups[group].relations|
    }

    ghost predicate Valid()
      reads this
    {
      Inv() && (end || HasData())
    }

    /** The positions of the relations still to visit, this one first. */
    ghost function Rest(): seq<Traversal.Pos>
      reads this
      requires Inv()
    {
      if end then [] else Traversal.PositionsFrom(RelationCounts(block), group, i)
    }

    function HasData(): bool
      reads this
    {
      group < |block.groups| && i < |block.groups[group].relations|
    }

    function Equals(other: RelationIterator): bool
      reads this, other
    {
      if end && other.end then true
      else end == other.end && i == other.i && group == other.group
    }

    function NotEquals(other: RelationIterator): bool
      reads this, other
    {
      !Equals(other)
    }

    function Deref(): Views.BlockRelation
      reads this
      requires HasData()
    {
      Views.BlockRelation(block.groups[group].relations[i], block)
    }

    /** RelationIterator(b, end); relationsBegin() passes false,
        relationsEnd() true. */
    constructor (b: Osmpbf.PrimitiveBlock, end: bool)
      requires end || |b.groups| > 0
      ensures Valid() && block == b && (end ==> this.end)
      ensures Rest() == if end then [] else Traversal.Positions(RelationCounts(b))
    {
      block := b;
      group := 0;
      i := 0;
      this.end := end;
      new;
      if !HasData() {
        Next();
      }
    }

    method Next()
      requires Inv()
      modifies this
      ensures Valid()
      ensures old(end) ==> unchanged(this)
      ensures !old(end) ==> Rest() == if old(HasData()) then old(Rest())[1..] else old(Rest())
    {
      if end {
        return;
      }
      ghost var target := if HasData() then Rest()[1..] else Rest();
      while true
        invariant Inv() && !end
        invariant (group == old(group) && i == old(i)) || (Rest() == target && !HasData())
        decreases |block.groups| - group, |block.groups[group].relations| - i
      {
        ghost var before := Rest();
        ghost var had := HasData();
        ghost var counts := RelationCounts(block);
        if i < |block.groups[group].relations| {
          assert before == [Traversal.Pos(group, i)] + Traversal.PositionsFrom(counts, group, i + 1);
          i := i + 1;
        } else if group < |block.groups| - 1 {
          assert before == Traversal.PositionsFrom(counts, group + 1, 0);
          group := group + 1;
          i := 0;
        } else {
          assert before == Traversal.PositionsFrom(counts, group + 1, 0) == [];
          end := true;
        }
        assert Rest() == if had then before[1..] else before;
        if end || HasData() {
          break;
        }
      }
    }
  }

  lemma RelationCurrentIsFirst(it: RelationIterator)
    requires it.Valid() && !it.end
    ensures |it.Rest()| > 0 && it.Rest()[0] == Traversal.Pos(it.group, it.i)
    ensures Traversal.InRange(RelationCounts(it.block), it.Rest()[0])
    ensures it.Deref() == RelationAt(it.block, it.Rest()[0])
  {
  }

  /** hasData(): the iterator stands at an existing position of the
      traversal. */
  lemma RelationHasDataAt(it: RelationIterator)
    ensures it.HasData() <==> Traversal.InRange(RelationCounts(it.block), Traversal.Pos(it.group, it.i))
  {
  }

  lemma RelationEqualsIffSameRest(a: RelationIterator, b: RelationIterator)
    requires a.Valid() && b.Valid() && a.block == b.block
    ensures a.Equals(b) <==> a.Rest() == b.Rest()
    ensures a.NotEquals(b) <==> a.Rest() != b.Rest()
  {
    if !a.end {
      RelationCurrentIsFirst(a);
    }
    if !b.end {
      RelationCurrentIsFirst(b);
    }
  }

  method CollectRelations(b: Osmpbf.PrimitiveBlock) returns (relations: seq<Views.BlockRelation>)
    requires |b.groups| > 0
    ensures |relations| == |Traversal.Positions(RelationCounts(b))| == Traversal.Total(RelationCounts(b))
    ensures forall k :: 0 <= k < |relations| ==>
      Traversal.InRange(RelationCounts(b), Traversal.Positions(RelationCounts(b))[k]) &&
      relations[k] == RelationAt(b, Traversal.Positions(RelationCounts(b))[k])
  {
    var it := new RelationIterator(b, false);
    var last := new RelationIterator(b, true);
    Traversal.Visitation(RelationCounts(b));
    relations := DrainRelations(it, last, Traversal.Positions(RelationCounts(b)));
  }

  /** The loop of CollectRelations, from wherever `it` stands: the relations at
      the positions it has still to visit, in order. */
  method DrainRelations(it: RelationIterator, last: RelationIterator, ghost all: seq<Traversal.Pos>) returns (relations: seq<Views.BlockRelation>)
    requires it.Valid() && last.Valid() && it.block == last.block && last.end && it != last
    requires it.Rest() == all
    modifies it
    ensures |relations| == |all|
    ensures forall k :: 0 <= k < |relations| ==>
      Traversal.InRange(RelationCounts(it.block), all[k]) && relations[k] == RelationAt(it.block, all[k])
  {
    relations := [];
    while it.NotEquals(last)
      invariant it.Valid() && last.Valid() && it.block == last.block && last.end
      invariant |relations| + |it.Rest()| == |all| && it.Rest() == all[|relations|..]
      invariant forall k :: 0 <= k < |relations| ==>
        Traversal.InRange(RelationCounts(it.block), all[k]) && relations[k] == RelationAt(it.block, all[k])
      decreases |it.Rest()|
    {
      RelationEqualsIffSameRest(it, last);
      RelationCurrentIsFirst(it);
      relations := relations + [it.Deref()];
      it.Next();
    }
    RelationEqualsIffSameRest(it, last);
  }
}
