/** PbfBlock::NodeIterator: walks the nodes of a block group by group, in
    each group first the dense nodes (when the group has a dense part),
    carrying the running id and coordinate totals, then the node records. Its
    abstract state is the sequence of node positions it has still to
    visit. */
module NodeIteration {
  import Osmpbf
  import Views
  import Delta
  import DenseTags

  /** The dense columns of group g (empty when the group has no dense part). */
  function Column(b: Osmpbf.PrimitiveBlock, g: nat): Osmpbf.DenseNodes
    requires g < |b.groups|
  {
    Osmpbf.DenseOf(b.groups[g])
  }

  /** Where the tag lists of the dense nodes of group g start: one entry per
      dense node the iterator visits, none exactly when the tag column is
      empty. */
  function DenseStarts(b: Osmpbf.PrimitiveBlock, g: nat): (st: seq<nat>)
    requires g < |b.groups|
    ensures st != [] <==> |Column(b, g).keysVals| > 0
    ensures st != [] ==> st[0] == 0
  {
    DenseTags.Starts(Column(b, g).keysVals, 0)
  }

  /** The id, lat and lon columns of group g reach every dense node its tag
      column starts. */
  predicate ColumnsCover(b: Osmpbf.PrimitiveBlock, g: nat)
    requires g < |b.groups|
  {
    var n := |DenseStarts(b, g)|;
    n <= |Column(b, g).ids| && n <= |Column(b, g).lats| && n <= |Column(b, g).lons|
  }

  /** What the iterator reads of the dense columns exists in every group. */
  predicate NodesIndexable(b: Osmpbf.PrimitiveBlock)
  {
    forall g :: 0 <= g < |b.groups| ==> ColumnsCover(b, g)
  }

  /** The index of the last dense node of group g, or 0 when there is none:
      the value `node` keeps once the iterator leaves dense mode. */
  function LastNode(b: Osmpbf.PrimitiveBlock, g: nat): nat
    requires g < |b.groups|
  {
    if DenseStarts(b, g) == [] then 0 else |DenseStarts(b, g)| - 1
  }

  /** A place the iterator hands out a node from: the k-th dense node of a
      group, or the j-th node record of a group. */
  datatype NodePos = DensePos(group: nat, k: nat) | RecordPos(group: nat, j: nat)

  /** The position names an existing node whose dense columns can be read. */
  predicate InRange(b: Osmpbf.PrimitiveBlock, p: NodePos)
  {
    p.group < |b.groups| &&
    match p
    case DensePos(g, k) => ColumnsCover(b, g) && k < |DenseStarts(b, g)|
    case RecordPos(g, j) => j < |b.groups[g].nodes|
  }

  /** The view handed out at a position. A dense node's tags start at the
      k-th list start, the ids before it add up to idBase, and its
      coordinates are the offsets plus the deltas 0..k. */
  function View(b: Osmpbf.PrimitiveBlock, p: NodePos): Views.BlockNode
    requires InRange(b, p)
  {
    match p
    case DensePos(g, k) =>
      var d := Column(b, g);
      Views.DenseBlockNode(b, g, DenseStarts(b, g)[k], Delta.Sum(d.ids, k), k,
        b.latOffset + Delta.Sum(d.lats, k + 1), b.lonOffset + Delta.Sum(d.lons, k + 1))
    case RecordPos(g, j) => Views.PlainBlockNode(b, g, j)
  }

  /** The dense positions of group g from the k-th on. */
  function DenseFrom(b: Osmpbf.PrimitiveBlock, g: nat, k: nat): seq<NodePos>
    requires g < |b.groups|
    decreases |DenseStarts(b, g)| - k
  {
    if k >= |DenseStarts(b, g)| then [] else [DensePos(g, k)] + DenseFrom(b, g, k + 1)
  }

  /** The record positions of group g from the j-th on. */
  function RecordsFrom(b: Osmpbf.PrimitiveBlock, g: nat, j: nat): seq<NodePos>
    requires g < |b.groups|
    decreases |b.groups[g].nodes| - j
  {
    if j >= |b.groups[g].nodes| then [] else [RecordPos(g, j)] + RecordsFrom(b, g, j + 1)
  }

  /** What the iterator hands out for group g: with a dense part, its dense
      nodes and then all node records; without one, the node records from
      the second on, since the step that leaves dense mode also moves past
      record 0. */
  function GroupPositions(b: Osmpbf.PrimitiveBlock, g: nat): seq<NodePos>
    requires g < |b.groups|
  {
    if b.groups[g].dense.Some? then DenseFrom(b, g, 0) + RecordsFrom(b, g, 0)
    else RecordsFrom(b, g, 1)
  }

  /** The positions of groups g, g + 1, ... in order. */
  function PositionsFrom(b: Osmpbf.PrimitiveBlock, g: nat): seq<NodePos>
    decreases |b.groups| - g
  {
    if g >= |b.groups| then [] else GroupPositions(b, g) + PositionsFrom(b, g + 1)
  }

  /** Everything a walk from nodesBegin() to nodesEnd() hands out. */
  function NodePositions(b: Osmpbf.PrimitiveBlock): seq<NodePos>
  {
    PositionsFrom(b, 0)
  }

  /** The positions the iterator visits from a state of group g: in dense
      mode at dense node k, or in record mode at record k. A group without a
      dense part goes straight to record 1, because the pass that leaves
      dense mode there also moves past record 0. */
  function Walk(b: Osmpbf.PrimitiveBlock, g: nat, dense: bool, k: nat): seq<NodePos>
    decreases |b.groups| - g, if dense then 1 else 0,
      if g < |b.groups| && dense && k < |DenseStarts(b, g)| then |DenseStarts(b, g)| - k
      else if g < |b.groups| && !dense && k < |b.groups[g].nodes| then |b.groups[g].nodes| - k
      else 0
  {
    if g >= |b.groups| then []
    else if dense then
      if b.groups[g].dense.None? then Walk(b, g, false, 1)
      else if k < |DenseStarts(b, g)| then [DensePos(g, k)] + Walk(b, g, true, k + 1)
      else Walk(b, g, false, 0)
    else if k < |b.groups[g].nodes| then [RecordPos(g, k)] + Walk(b, g, false, k + 1)
    else Walk(b, g + 1, true, 0)
  }

  /** From record j of group g the walk visits the rest of the group's
      records and then walks the later groups. */
  lemma {:induction false} WalkRecords(b: Osmpbf.PrimitiveBlock, g: nat, j: nat)
    requires g < |b.groups|
    ensures Walk(b, g, false, j) == RecordsFrom(b, g, j) + Walk(b, g + 1, true, 0)
    decreases |b.groups[g].nodes| - j
  {
    if j < |b.groups[g].nodes| {
      WalkRecords(b, g, j + 1);
    }
  }

  /** From dense node k of a group with a dense part the walk visits the
      rest of its dense nodes, then all its records. */
  lemma {:induction false} WalkDense(b: Osmpbf.PrimitiveBlock, g: nat, k: nat)
    requires g < |b.groups| && b.groups[g].dense.Some?
    ensures Walk(b, g, true, k) == DenseFrom(b, g, k) + Walk(b, g, false, 0)
    decreases |DenseStarts(b, g)| - k
  {
    if k < |DenseStarts(b, g)| {
      WalkDense(b, g, k + 1);
    }
  }

  /** Entering group g, the walk visits the positions of groups g, g + 1, ...
      in the order the reference definition gives. */
  lemma {:induction false} WalkFrom(b: Osmpbf.PrimitiveBlock, g: nat)
    ensures Walk(b, g, true, 0) == PositionsFrom(b, g)
    decreases |b.groups| - g
  {
    if g < |b.groups| {
      WalkFrom(b, g + 1);
      if b.groups[g].dense.Some? {
        WalkDense(b, g, 0);
        WalkRecords(b, g, 0);
        assert Walk(b, g, true, 0) == DenseFrom(b, g, 0) + (RecordsFrom(b, g, 0) + PositionsFrom(b, g + 1));
      } else {
        WalkRecords(b, g, 1);
      }
    }
  }

  /** A whole walk from nodesBegin() visits NodePositions. */
  lemma WalkIsNodeOrder(b: Osmpbf.PrimitiveBlock)
    ensures Walk(b, 0, true, 0) == NodePositions(b)
  {
    WalkFrom(b, 0);
  }

  /** A dense-mode state of group g: `node` indexes the dense node whose tag
      list starts at `i` (or is 0 with `i` = 0 when there are none), idBase is
      the sum of the id deltas before it, and lat/lon are the offsets plus the
      deltas up to and including it. */
  predicate DenseState(b: Osmpbf.PrimitiveBlock, g: nat, i: nat, node: nat, idBase: int, lat: int, lon: int)
    requires g < |b.groups| && ColumnsCover(b, g)
  {
    var st := DenseStarts(b, g);
    var d := Column(b, g);
    node <= |st| &&
    (st == [] ==> i == 0) &&
    (st != [] ==>
      node < |st| && i == st[node] &&
      lat == b.latOffset + Delta.Sum(d.lats, node + 1) &&
      lon == b.lonOffset + Delta.Sum(d.lons, node + 1)) &&
    idBase == Delta.Sum(d.ids, node)
  }

  /** A record-mode state of group g: `i` is at most one past the last
      record, and node/idBase still hold what the dense walk left. */
  predicate PlainState(b: Osmpbf.PrimitiveBlock, g: nat, i: nat, node: nat, idBase: int)
    requires g < |b.groups| && ColumnsCover(b, g)
  {
    i <= |b.groups[g].nodes| && node == LastNode(b, g) && idBase == Delta.Sum(Column(b, g).ids, node)
  }

  /** Entering a group: the iterator is in dense mode at node 0. */
  lemma EnterGroup(b: Osmpbf.PrimitiveBlock, g: nat, lat: int, lon: int)
    requires g < |b.groups| && ColumnsCover(b, g)
    requires DenseStarts(b, g) != [] ==>
      lat == b.latOffset + Delta.Sum(Column(b, g).lats, 1) &&
      lon == b.lonOffset + Delta.Sum(Column(b, g).lons, 1)
    ensures DenseState(b, g, 0, 0, 0, lat, lon)
  {
  }

  /** The scan past the current node's pairs stops at e; when a further list
      starts past the closing 0, the step moves to it: node + 1, the id of
      this node added to idBase, the next deltas added to lat and lon, and
      the current position dropped from what is left. */
  lemma DenseAdvance(b: Osmpbf.PrimitiveBlock, g: nat, i: nat, node: nat, idBase: int, lat: int, lon: int, e: nat)
    requires g < |b.groups| && ColumnsCover(b, g) && b.groups[g].dense.Some?
    requires DenseState(b, g, i, node, idBase, lat, lon)
    requires e == i + 2 * DenseTags.TagCount(Column(b, g).keysVals, i)
    requires e + 1 < |Column(b, g).keysVals|
    ensures node + 1 < |DenseStarts(b, g)| && node < |Column(b, g).ids| && i < |Column(b, g).keysVals|
    ensures DenseStarts(b, g)[node + 1] == e + 1
    ensures DenseState(b, g, e + 1, node + 1, idBase + Column(b, g).ids[node],
      lat + Column(b, g).lats[node + 1], lon + Column(b, g).lons[node + 1])
    ensures Walk(b, g, true, node) != []
    ensures Walk(b, g, true, node + 1) == Walk(b, g, true, node)[1..]
  {
    DenseTags.StepStart(Column(b, g).keysVals, 0, node);
  }

  /** When no list starts past the scan's stop, the step leaves dense mode
      at the last dense node, and what is left are the group's records and
      the later groups. */
  lemma DenseLeave(b: Osmpbf.PrimitiveBlock, g: nat, i: nat, node: nat, idBase: int, lat: int, lon: int, e: nat)
    requires g < |b.groups| && ColumnsCover(b, g) && b.groups[g].dense.Some?
    requires DenseState(b, g, i, node, idBase, lat, lon)
    requires e == i + 2 * DenseTags.TagCount(Column(b, g).keysVals, i)
    requires e + 1 >= |Column(b, g).keysVals|
    ensures PlainState(b, g, 0, node, idBase)
    ensures i < |Column(b, g).keysVals| ==> Walk(b, g, true, node) != []
    ensures i < |Column(b, g).keysVals| ==> Walk(b, g, false, 0) == Walk(b, g, true, node)[1..]
    ensures i >= |Column(b, g).keysVals| ==> Walk(b, g, false, 0) == Walk(b, g, true, node)
  {
    if DenseStarts(b, g) != [] {
      DenseTags.StepStart(Column(b, g).keysVals, 0, node);
    }
  }

  /** A record step inside the group: the current record's position is
      dropped from what is left. */
  lemma PlainAdvance(b: Osmpbf.PrimitiveBlock, g: nat, i: nat, node: nat, idBase: int)
    requires g < |b.groups| && ColumnsCover(b, g)
    requires PlainState(b, g, i, node, idBase) && i < |b.groups[g].nodes|
    ensures PlainState(b, g, i + 1, node, idBase)
    ensures Walk(b, g, false, i) != []
    ensures Walk(b, g, false, i + 1) == Walk(b, g, false, i)[1..]
  {
  }

  /** In a group without a dense part the first step leaves dense mode at
      record 0, and the record step that follows in the same pass moves past
      that record without handing it out. */
  lemma LeaveMissingDense(b: Osmpbf.PrimitiveBlock, g: nat, i: nat, node: nat, idBase: int, lat: int, lon: int)
    requires g < |b.groups| && ColumnsCover(b, g) && b.groups[g].dense.None?
    requires DenseState(b, g, i, node, idBase, lat, lon)
    ensures i == 0 && node == 0 && PlainState(b, g, 0, node, idBase)
    ensures 0 < |b.groups[g].nodes| ==>
      Walk(b, g, false, 0) != [] && Walk(b, g, false, 0)[1..] == Walk(b, g, true, node)
    ensures |b.groups[g].nodes| == 0 ==> Walk(b, g, false, 0) == Walk(b, g, true, node)
  {
  }

  /** Past the last record of group g the next group is entered in dense
      mode at node 0, and what is left is unchanged. */
  lemma NextGroup(b: Osmpbf.PrimitiveBlock, g: nat, i: nat, node: nat, idBase: int, lat: int, lon: int)
    requires g + 1 < |b.groups| && ColumnsCover(b, g) && ColumnsCover(b, g + 1)
    requires PlainState(b, g, i, node, idBase) && i >= |b.groups[g].nodes|
    requires DenseStarts(b, g + 1) != [] ==>
      lat == b.latOffset + Delta.Sum(Column(b, g + 1).lats, 1) &&
      lon == b.lonOffset + Delta.Sum(Column(b, g + 1).lons, 1)
    ensures DenseState(b, g + 1, 0, 0, 0, lat, lon)
    ensures Walk(b, g + 1, true, 0) == Walk(b, g, false, i)
  {
  }

  /** Past the last record of the last group nothing is left. */
  lemma LastGroup(b: Osmpbf.PrimitiveBlock, g: nat, i: nat, node: nat, idBase: int)
    requires g + 1 == |b.groups| && ColumnsCover(b, g)
    requires PlainState(b, g, i, node, idBase) && i >= |b.groups[g].nodes|
    ensures Walk(b, g, false, i) == []
  {
  }

  class NodeIterator {
    const block: Osmpbf.PrimitiveBlock
    var group: nat
    var i: nat
    var idBase: int
    var node: nat
    var lat: int
    var lon: int
    var dense: bool
    var end: bool

    /** The block has a group, its dense columns are long enough, and a
        non-end iterator is in a dense or record state of its group. */
    ghost predicate Inv()
      reads this
    {
      |block.groups| > 0 && NodesIndexable(block) && group < |block.groups| && ColumnsCover(block, group) &&
      (!end && dense ==> DenseState(block, group, i, node, idBase, lat, lon)) &&
      (!end && !dense ==> PlainState(block, group, i, node, idBase))
    }

    /** A state the constructor and next() leave: at the end or at a node. */
    ghost predicate Valid()
      reads this
    {
      Inv() && (end || HasData())
    }

    /** The positions still to visit, the current one first. */
    ghost function Rest(): seq<NodePos>
      reads this
    {
      if end then [] else Walk(block, group, dense, if dense then node else i)
    }

    /** hasData(): a record of the group in record mode, or a position inside
        the tag column of the group's dense part in dense mode. */
    function HasData(): bool
      reads this
    {
      group < |block.groups| &&
      ((!dense && i < |block.groups[group].nodes|) ||
       (dense && block.groups[group].dense.Some? && i < |Osmpbf.DenseOf(block.groups[group]).keysVals|))
    }

    /** Two end iterators are equal; otherwise end, i, group, dense, node and
        idBase must agree (lat and lon are not compared). */
    function Equals(other: NodeIterator): bool
      reads this, other
    {
      if end && other.end then true
      else (end == other.end && i == other.i && group == other.group &&
            dense == other.dense && node == other.node && idBase == other.idBase)
    }

    function NotEquals(other: NodeIterator): bool
      reads this, other
    {
      !Equals(other)
    }

    /** operator* and operator->: a dense view carrying the running totals,
        or a view of record i. */
    function Deref(): Views.BlockNode
      reads this
    {
      if dense then Views.DenseBlockNode(block, group, i, idBase, node, lat, lon)
      else Views.PlainBlockNode(block, group, i)
    }

    /** NodeIterator(b, end); nodesBegin() passes false, nodesEnd() true.
        Group 0 is read in both cases; lat and lon are only set when its tag
        column is not empty. */
    constructor (b: Osmpbf.PrimitiveBlock, end: bool)
      requires |b.groups| > 0 && NodesIndexable(b)
      ensures Valid() && block == b && (end ==> this.end)
      ensures !end ==> Rest() == NodePositions(b)
    {
      block := b;
      group := 0;
      i := 0;
      this.end := end;
      dense := true;
      idBase := 0;
      node := 0;
      var nodes := Osmpbf.DenseOf(b.groups[0]);
      if |nodes.keysVals| > 0 {
        assert ColumnsCover(b, 0);
        lat := b.latOffset + nodes.lats[0];
        lon := b.lonOffset + nodes.lons[0];
      }
      new;
      EnterGroup(block, 0, lat, lon);
      WalkIsNodeOrder(b);
      if !HasData() {
        Next();
      }
    }

    /** next(): nothing at the end; otherwise the do-while body once, then
        again while the iterator is neither at the end nor at a node. */
    method Next()
      requires Inv()
      modifies this
      ensures Valid()
      ensures old(end) ==> unchanged(this)
      ensures !old(end) ==> Rest() == if old(HasData()) then old(Rest())[1..] else old(Rest())
    {
      if end {
        return;
      }
      Step();
      while !end && !HasData()
        invariant Inv()
        invariant Rest() == if old(HasData()) then old(Rest())[1..] else old(Rest())
        decreases if end || HasData() then 0 else 1, |block.groups| - group,
          if dense then 1 else 0, if dense then 0 else |block.groups[group].nodes| - i
      {
        Step();
      }
    }

    /** The body of next()'s do-while: it first leaves dense mode in a group
        without a dense part, then takes a dense or a record step. What is
        left to hand out loses its first view exactly when the iterator was
        at a node, and a pass that reaches neither a node nor the end moves
        to a later group, from dense to record mode, or to a later record. */
    method Step()
      requires Inv() && !end
      modifies this
      ensures Inv()
      ensures old(HasData()) ==> Rest() == old(Rest())[1..]
      ensures !old(HasData()) ==> Rest() == old(Rest())
      ensures !end && !HasData() ==>
        group > old(group) ||
        (group == old(group) && old(dense) && !dense) ||
        (group == old(group) && !old(dense) && !dense && i > old(i))
    {
      if dense && block.groups[group].dense.None? {
        LeaveMissingDense(block, group, i, node, idBase, lat, lon);
        dense := false;
      }
      if dense {
        DenseStep();
      } else {
        PlainStep();
      }
    }

    /** A dense step: scan past the current node's pairs to the first 0 key
        (or the end of the column). If a list starts after that 0, move
        there: node + 1, this node's id delta added to idBase, the next
        node's deltas added to lat and lon. Otherwise leave dense mode at
        record 0, keeping node and idBase. */
    method DenseStep()
      requires Inv() && !end && dense && block.groups[group].dense.Some?
      modifies this
      ensures Inv() && !end && group == old(group)
      ensures old(HasData()) ==> Rest() == old(Rest())[1..]
      ensures !old(HasData()) ==> Rest() == old(Rest())
      ensures var kv := Column(block, group).keysVals;
        var e := old(i) + 2 * DenseTags.TagCount(kv, old(i));
        if e + 1 < |kv| then
          dense && HasData() && kv[e] == 0 && i == e + 1 && node == old(node) + 1
        else
          !dense && i == 0 && node == old(node) && idBase == old(idBase)
    {
      var nodes := block.groups[group].dense.value;
      assert nodes == Column(block, group);
      var j := i;
      while j < |nodes.keysVals| && nodes.keysVals[j] != 0
        invariant i + 2 * DenseTags.TagCount(nodes.keysVals, i) == j + 2 * DenseTags.TagCount(nodes.keysVals, j)
        decreases |nodes.keysVals| - j
      {
        j := j + 2;
      }
      if j < |nodes.keysVals| - 1 {
        DenseAdvance(block, group, i, node, idBase, lat, lon, j);
        idBase := idBase + nodes.ids[node];
        node := node + 1;
        // past the closing 0
        i := j + 1;
        lat := lat + nodes.lats[node];
        lon := lon + nodes.lons[node];
        assert DenseState(block, group, i, node, idBase, lat, lon);
      } else {
        DenseLeave(block, group, i, node, idBase, lat, lon, j);
        dense := false;
        i := 0;
        assert PlainState(block, group, i, node, idBase);
      }
    }

    /** A record step: the next record of the group, else the next group,
        entered in dense mode at node 0 with the coordinates of its first
        dense node when its tag column is not empty, else the end. */
    method PlainStep()
      requires Inv() && !end && !dense
      modifies this
      ensures Inv()
      ensures old(HasData()) ==> Rest() == old(Rest())[1..]
      ensures !old(HasData()) ==> Rest() == old(Rest())
      ensures !end && !HasData() ==> group > old(group) || (group == old(group) && !dense && i > old(i))
    {
      if i < |block.groups[group].nodes| {
        PlainAdvance(block, group, i, node, idBase);
        i := i + 1;
      } else if group < |block.groups| - 1 {
        ghost var g0, i0, node0, idBase0 := group, i, node, idBase;
        group := group + 1;
        i := 0;
        dense := true;
        node := 0;
        idBase := 0;
        var nextNodes := Osmpbf.DenseOf(block.groups[group]);
        if |nextNodes.keysVals| > 0 {
          assert ColumnsCover(block, group);
          lat := block.latOffset + nextNodes.lats[0];
          lon := block.lonOffset + nextNodes.lons[0];
        }
        NextGroup(block, g0, i0, node0, idBase0, lat, lon);
      } else {
        LastGroup(block, group, i, node, idBase);
        end := true;
      }
    }
  }

  /** At a node, the first position still to visit is the current one, and
      Deref() gives the view of that position. */
  lemma NodeCurrentIsFirst(it: NodeIterator)
    requires it.Valid() && !it.end
    ensures |it.Rest()| > 0
    ensures it.Rest()[0] == if it.dense then DensePos(it.group, it.node) else RecordPos(it.group, it.i)
    ensures InRange(it.block, it.Rest()[0]) && it.Deref() == View(it.block, it.Rest()[0])
  {
  }

  /** Two iterators over one block are equal exactly when they have the same
      positions still to visit. */
  lemma NodeEqualsIffSameRest(a: NodeIterator, c: NodeIterator)
    requires a.Valid() && c.Valid() && a.block == c.block
    ensures a.Equals(c) <==> a.Rest() == c.Rest()
    ensures a.NotEquals(c) <==> a.Rest() != c.Rest()
  {
    if !a.end {
      NodeCurrentIsFirst(a);
    }
    if !c.end {
      NodeCurrentIsFirst(c);
    }
  }

  /** views holds the view of each of the first |views| positions of ps. */
  ghost predicate ViewsOf(b: Osmpbf.PrimitiveBlock, ps: seq<NodePos>, views: seq<Views.BlockNode>)
  {
    |views| <= |ps| && forall k :: 0 <= k < |views| ==> InRange(b, ps[k]) && views[k] == View(b, ps[k])
  }

  /** Appending the view of the next position keeps ViewsOf. */
  lemma ViewsOfStep(b: Osmpbf.PrimitiveBlock, ps: seq<NodePos>, views: seq<Views.BlockNode>, v: Views.BlockNode)
    requires ViewsOf(b, ps, views) && |views| < |ps|
    requires InRange(b, ps[|views|]) && v == View(b, ps[|views|])
    ensures ViewsOf(b, ps, views + [v])
  {
  }

  /** for (it = nodesBegin(); it != nodesEnd(); it.next()) collects *it:
      one view per position of NodePositions, in that order. */
  method CollectNodes(b: Osmpbf.PrimitiveBlock) returns (views: seq<Views.BlockNode>)
    requires |b.groups| > 0 && NodesIndexable(b)
    ensures |views| == |NodePositions(b)|
    ensures forall k :: 0 <= k < |views| ==>
      InRange(b, NodePositions(b)[k]) && views[k] == View(b, NodePositions(b)[k])
  {
    var it := new NodeIterator(b, false);
    var last := new NodeIterator(b, true);
    views := Drain(it, last, NodePositions(b));
  }

  /** The loop of CollectNodes, from wherever `it` stands: the views of
      the positions it has still to visit, in order. */
  method Drain(it: NodeIterator, last: NodeIterator, ghost all: seq<NodePos>) returns (views: seq<Views.BlockNode>)
    requires it.Valid() && last.Valid() && it.block == last.block && last.end && it != last
    requires it.Rest() == all
    modifies it
    ensures ViewsOf(it.block, all, views) && |views| == |all|
  {
    views := [];
    while it.NotEquals(last)
      invariant it.Valid() && last.Valid() && it.block == last.block && last.end
      invariant |views| + |it.Rest()| == |all| && it.Rest() == all[|views|..]
      invariant ViewsOf(it.block, all, views)
      decreases |it.Rest()|
    {
      NodeEqualsIffSameRest(it, last);
      NodeCurrentIsFirst(it);
      ViewsOfStep(it.block, all, views, it.Deref());
      views := views + [it.Deref()];
      it.Next();
    }
    NodeEqualsIffSameRest(it, last);
  }
}
