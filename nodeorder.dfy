/** What a walk of NodeIterator from nodesBegin() to nodesEnd() hands out:
    which positions it visits, in what order, how many, and what the view at
    a dense position reads back when the group's columns were written by the
    reference encoders. */
module NodeOrder {
  import Osmpbf
  import Owned
  import Views
  import Delta
  import DenseTags
  import NodeIteration

  /** The positions a walk visits: a dense node of a group that has a dense
      part, any node record of a group with a dense part, and every node
      record but the first of a group without one. */
  predicate Visited(b: Osmpbf.PrimitiveBlock, p: NodeIteration.NodePos)
  {
    p.group < |b.groups| &&
    match p
    case DensePos(g, k) => b.groups[g].dense.Some? && k < |NodeIteration.DenseStarts(b, g)|
    case RecordPos(g, j) => j < |b.groups[g].nodes| && (b.groups[g].dense.Some? || j > 0)
  }

  lemma {:induction false} DenseFromMembers(b: Osmpbf.PrimitiveBlock, g: nat, k: nat, p: NodeIteration.NodePos)
    requires g < |b.groups|
    ensures p in NodeIteration.DenseFrom(b, g, k) <==>
      p.DensePos? && p.group == g && k <= p.k < |NodeIteration.DenseStarts(b, g)|
    decreases |NodeIteration.DenseStarts(b, g)| - k
  {
    if k < |NodeIteration.DenseStarts(b, g)| {
      DenseFromMembers(b, g, k + 1, p);
    }
  }

  lemma {:induction false} RecordsFromMembers(b: Osmpbf.PrimitiveBlock, g: nat, j: nat, p: NodeIteration.NodePos)
    requires g < |b.groups|
    ensures p in NodeIteration.RecordsFrom(b, g, j) <==>
      p.RecordPos? && p.group == g && j <= p.j < |b.groups[g].nodes|
    decreases |b.groups[g].nodes| - j
  {
    if j < |b.groups[g].nodes| {
      RecordsFromMembers(b, g, j + 1, p);
    }
  }

  lemma GroupMembers(b: Osmpbf.PrimitiveBlock, g: nat, p: NodeIteration.NodePos)
    requires g < |b.groups|
    ensures p in NodeIteration.GroupPositions(b, g) <==> p.group == g && Visited(b, p)
  {
    if b.groups[g].dense.Some? {
      DenseFromMembers(b, g, 0, p);
      RecordsFromMembers(b, g, 0, p);
    } else {
      RecordsFromMembers(b, g, 1, p);
    }
  }

  lemma {:induction false} PositionsFromMembers(b: Osmpbf.PrimitiveBlock, g: nat, p: NodeIteration.NodePos)
    ensures p in NodeIteration.PositionsFrom(b, g) <==> g <= p.group && Visited(b, p)
    decreases |b.groups| - g
  {
    if g < |b.groups| {
      var here := NodeIteration.GroupPositions(b, g);
      var later := NodeIteration.PositionsFrom(b, g + 1);
      assert NodeIteration.PositionsFrom(b, g) == here + later;
      PositionsFromMembers(b, g + 1, p);
      GroupMembers(b, g, p);
      assert p in here + later <==> p in here || p in later;
    }
  }

  /** A walk visits exactly the Visited positions: in a group with a dense
      part every dense node and every record, in a group without one every
      record except record 0. */
  lemma NodePositionsMembers(b: Osmpbf.PrimitiveBlock, p: NodeIteration.NodePos)
    ensures p in NodeIteration.NodePositions(b) <==> Visited(b, p)
  {
    PositionsFromMembers(b, 0, p);
  }

  /** A group with a dense part but an empty tag column contributes no dense
      node, however many ids it holds: the walk is driven by the tag
      column. */
  lemma EmptyTagColumnHidesDenseNodes(b: Osmpbf.PrimitiveBlock, g: nat, k: nat)
    requires g < |b.groups| && b.groups[g].dense.Some?
    requires b.groups[g].dense.value.keysVals == []
    ensures NodeIteration.DensePos(g, k) !in NodeIteration.NodePositions(b)
  {
    NodePositionsMembers(b, NodeIteration.DensePos(g, k));
  }

  /** In a group without a dense part the walk hands out every node record
      except the first: record 0 is never visited. */
  lemma MissingDenseSkipsFirstRecord(b: Osmpbf.PrimitiveBlock, g: nat, j: nat)
    requires g < |b.groups| && b.groups[g].dense.None?
    ensures NodeIteration.RecordPos(g, j) in NodeIteration.NodePositions(b) <==> 0 < j < |b.groups[g].nodes|
  {
    NodePositionsMembers(b, NodeIteration.RecordPos(g, j));
  }

  /** The order of a walk: by group, within a group the dense nodes before
      the records, and within each part by index. */
  predicate Before(p: NodeIteration.NodePos, q: NodeIteration.NodePos)
  {
    p.group < q.group ||
    (p.group == q.group &&
      match p
      case DensePos(_, k) => q.RecordPos? || (q.DensePos? && k < q.k)
      case RecordPos(_, j) => q.RecordPos? && j < q.j)
  }

  predicate Sorted(ps: seq<NodeIteration.NodePos>)
  {
    forall x, y :: 0 <= x < y < |ps| ==> Before(ps[x], ps[y])
  }

  /** Two sorted runs, all of the first before all of the second, make a
      sorted run. */
  lemma SortedConcat(a: seq<NodeIteration.NodePos>, c: seq<NodeIteration.NodePos>)
    requires Sorted(a) && Sorted(c)
    requires forall p, q :: p in a && q in c ==> Before(p, q)
    ensures Sorted(a + c)
  {
    forall x, y | 0 <= x < y < |a + c|
      ensures Before((a + c)[x], (a + c)[y])
    {
      if y < |a| {
        assert (a + c)[x] == a[x] && (a + c)[y] == a[y];
      } else if x >= |a| {
        assert (a + c)[x] == c[x - |a|] && (a + c)[y] == c[y - |a|];
      } else {
        assert (a + c)[x] == a[x] && (a + c)[y] == c[y - |a|];
        assert a[x] in a && c[y - |a|] in c;
      }
    }
  }

  lemma {:induction false} DenseFromSorted(b: Osmpbf.PrimitiveBlock, g: nat, k: nat)
    requires g < |b.groups|
    ensures Sorted(NodeIteration.DenseFrom(b, g, k))
    decreases |NodeIteration.DenseStarts(b, g)| - k
  {
    if k < |NodeIteration.DenseStarts(b, g)| {
      DenseFromSorted(b, g, k + 1);
      forall q | q in NodeIteration.DenseFrom(b, g, k + 1)
        ensures Before(NodeIteration.DensePos(g, k), q)
      {
        DenseFromMembers(b, g, k + 1, q);
      }
      SortedConcat([NodeIteration.DensePos(g, k)], NodeIteration.DenseFrom(b, g, k + 1));
    }
  }

  lemma {:induction false} RecordsFromSorted(b: Osmpbf.PrimitiveBlock, g: nat, j: nat)
    requires g < |b.groups|
    ensures Sorted(NodeIteration.RecordsFrom(b, g, j))
    decreases |b.groups[g].nodes| - j
  {
    if j < |b.groups[g].nodes| {
      RecordsFromSorted(b, g, j + 1);
      forall q | q in NodeIteration.RecordsFrom(b, g, j + 1)
        ensures Before(NodeIteration.RecordPos(g, j), q)
      {
        RecordsFromMembers(b, g, j + 1, q);
      }
      SortedConcat([NodeIteration.RecordPos(g, j)], NodeIteration.RecordsFrom(b, g, j + 1));
    }
  }

  lemma GroupSorted(b: Osmpbf.PrimitiveBlock, g: nat)
    requires g < |b.groups|
    ensures Sorted(NodeIteration.GroupPositions(b, g))
    ensures forall p :: p in NodeIteration.GroupPositions(b, g) ==> p.group == g
  {
    if b.groups[g].dense.Some? {
      DenseFromSorted(b, g, 0);
      RecordsFromSorted(b, g, 0);
      forall p, q | p in NodeIteration.DenseFrom(b, g, 0) && q in NodeIteration.RecordsFrom(b, g, 0)
        ensures Before(p, q)
      {
        DenseFromMembers(b, g, 0, p);
        RecordsFromMembers(b, g, 0, q);
      }
      SortedConcat(NodeIteration.DenseFrom(b, g, 0), NodeIteration.RecordsFrom(b, g, 0));
      forall p | p in NodeIteration.GroupPositions(b, g)
        ensures p.group == g
      {
        DenseFromMembers(b, g, 0, p);
        RecordsFromMembers(b, g, 0, p);
      }
    } else {
      RecordsFromSorted(b, g, 1);
      forall p | p in NodeIteration.GroupPositions(b, g)
        ensures p.group == g
      {
        RecordsFromMembers(b, g, 1, p);
      }
    }
  }

  lemma {:induction false} PositionsFromSorted(b: Osmpbf.PrimitiveBlock, g: nat)
    ensures Sorted(NodeIteration.PositionsFrom(b, g))
    decreases |b.groups| - g
  {
    if g < |b.groups| {
      PositionsFromSorted(b, g + 1);
      GroupSorted(b, g);
      forall p, q | p in NodeIteration.GroupPositions(b, g) && q in NodeIteration.PositionsFrom(b, g + 1)
        ensures Before(p, q)
      {
        PositionsFromMembers(b, g + 1, q);
      }
      SortedConcat(NodeIteration.GroupPositions(b, g), NodeIteration.PositionsFrom(b, g + 1));
    }
  }

  /** A walk visits its positions in strictly increasing order, so none of
      them twice. */
  lemma NodePositionsSorted(b: Osmpbf.PrimitiveBlock)
    ensures Sorted(NodeIteration.NodePositions(b))
    ensures forall x, y :: 0 <= x < y < |NodeIteration.NodePositions(b)| ==>
      NodeIteration.NodePositions(b)[x] != NodeIteration.NodePositions(b)[y]
  {
    PositionsFromSorted(b, 0);
  }

  /** The number of nodes a walk hands out for group g. */
  function GroupCount(b: Osmpbf.PrimitiveBlock, g: nat): nat
    requires g < |b.groups|
  {
    var records := |b.groups[g].nodes|;
    if b.groups[g].dense.Some? then |NodeIteration.DenseStarts(b, g)| + records
    else if records > 0 then records - 1
    else 0
  }

  function CountFrom(b: Osmpbf.PrimitiveBlock, g: nat): nat
    decreases |b.groups| - g
  {
    if g >= |b.groups| then 0 else GroupCount(b, g) + CountFrom(b, g + 1)
  }

  lemma {:induction false} DenseFromLength(b: Osmpbf.PrimitiveBlock, g: nat, k: nat)
    requires g < |b.groups| && k <= |NodeIteration.DenseStarts(b, g)|
    ensures |NodeIteration.DenseFrom(b, g, k)| == |NodeIteration.DenseStarts(b, g)| - k
    decreases |NodeIteration.DenseStarts(b, g)| - k
  {
    if k < |NodeIteration.DenseStarts(b, g)| {
      DenseFromLength(b, g, k + 1);
    }
  }

  lemma {:induction false} RecordsFromLength(b: Osmpbf.PrimitiveBlock, g: nat, j: nat)
    requires g < |b.groups|
    ensures |NodeIteration.RecordsFrom(b, g, j)| == if j < |b.groups[g].nodes| then |b.groups[g].nodes| - j else 0
    decreases |b.groups[g].nodes| - j
  {
    if j < |b.groups[g].nodes| {
      RecordsFromLength(b, g, j + 1);
    }
  }

  lemma {:induction false} PositionsFromLength(b: Osmpbf.PrimitiveBlock, g: nat)
    ensures |NodeIteration.PositionsFrom(b, g)| == CountFrom(b, g)
    decreases |b.groups| - g
  {
    if g < |b.groups| {
      PositionsFromLength(b, g + 1);
      if b.groups[g].dense.Some? {
        DenseFromLength(b, g, 0);
        RecordsFromLength(b, g, 0);
      } else {
        RecordsFromLength(b, g, 1);
      }
    }
  }

  /** A walk hands out, per group, the dense nodes plus the records, less
      one record for a group without a dense part that has any. */
  lemma NodePositionsCount(b: Osmpbf.PrimitiveBlock)
    ensures |NodeIteration.NodePositions(b)| == CountFrom(b, 0)
  {
    PositionsFromLength(b, 0);
  }

  /** When the dense columns are long enough, every visited position can be
      read. */
  lemma NodePositionsInRange(b: Osmpbf.PrimitiveBlock)
    requires NodeIteration.NodesIndexable(b)
    ensures forall x :: 0 <= x < |NodeIteration.NodePositions(b)| ==>
      NodeIteration.InRange(b, NodeIteration.NodePositions(b)[x])
  {
    var ps := NodeIteration.NodePositions(b);
    forall x | 0 <= x < |ps|
      ensures NodeIteration.InRange(b, ps[x])
    {
      NodePositionsMembers(b, ps[x]);
      assert NodeIteration.ColumnsCover(b, ps[x].group);
    }
  }

  /** The view of dense node k: its id is the k-th decoded id, its
      coordinates are the offsets plus the k-th decoded lat and lon, scaled
      by the granularity, and its tag count is that of the k-th tag list. */
  lemma DenseViewReads(b: Osmpbf.PrimitiveBlock, g: nat, k: nat)
    requires NodeIteration.InRange(b, NodeIteration.DensePos(g, k))
    ensures var v := NodeIteration.View(b, NodeIteration.DensePos(g, k));
      var d := NodeIteration.Column(b, g);
      v.AtRecord() && v.IdReadable() &&
      k < |d.ids| && k < |d.lats| && k < |d.lons| &&
      v.Id() == Delta.Decode(d.ids)[k] &&
      v.Coords() == Owned.ToCoords(b.latOffset + Delta.Decode(d.lats)[k], b.lonOffset + Delta.Decode(d.lons)[k], b.granularity) &&
      v.NumTags() == DenseTags.TagCount(d.keysVals, NodeIteration.DenseStarts(b, g)[k])
  {
  }

  /** The tags the string table gives for a list of index pairs. */
  function Resolve(st: seq<string>, tags: seq<DenseTags.KeyVal>): seq<Views.Tag>
    requires forall x :: 0 <= x < |tags| ==> tags[x].key < |st| && tags[x].val < |st|
  {
    seq(|tags|, x requires 0 <= x < |tags| => (st[tags[x].key], st[tags[x].val]))
  }

  /** Every index of every tag list names a string. */
  predicate ListsResolve(st: seq<string>, lists: seq<seq<DenseTags.KeyVal>>)
  {
    forall k, x :: 0 <= k < |lists| && 0 <= x < |lists[k]| ==>
      lists[k][x].key < |st| && lists[k][x].val < |st|
  }

  /** The dense part of group g was written by the reference encoders from
      absolute ids, lats and lons and per-node tag lists. */
  predicate EncodedFrom(b: Osmpbf.PrimitiveBlock, g: nat, ids: seq<int>, lats: seq<int>, lons: seq<int>,
                        lists: seq<seq<DenseTags.KeyVal>>)
  {
    g < |b.groups| &&
    b.groups[g].dense == Osmpbf.Some(Osmpbf.DenseNodes(Delta.Encode(ids), Delta.Encode(lats), Delta.Encode(lons), DenseTags.Encode(lists))) &&
    |ids| == |lists| && |lats| == |lists| && |lons| == |lists| &&
    (forall k :: 0 <= k < |lists| ==> DenseTags.KeysNonzero(lists[k])) &&
    ListsResolve(b.stringtable, lists)
  }

  /** A dense node whose tag list reads back as `tags` has exactly those
      tags, resolved through the string table. */
  lemma DenseTagsRead(b: Osmpbf.PrimitiveBlock, g: nat, k: nat, tags: seq<DenseTags.KeyVal>)
    requires NodeIteration.InRange(b, NodeIteration.DensePos(g, k))
    requires DenseTags.ListAt(NodeIteration.Column(b, g).keysVals, NodeIteration.DenseStarts(b, g)[k], tags)
    requires forall x :: 0 <= x < |tags| ==> tags[x].key < |b.stringtable| && tags[x].val < |b.stringtable|
    ensures var v := NodeIteration.View(b, NodeIteration.DensePos(g, k));
      v.AtRecord() && v.TagsReadable() && v.Tags() == Resolve(b.stringtable, tags)
  {
    var v := NodeIteration.View(b, NodeIteration.DensePos(g, k));
    var pairs := DenseTags.Pairs(NodeIteration.Column(b, g).keysVals, v.i);
    assert v.NumTags() == |tags|;
    forall x | 0 <= x < v.NumTags()
      ensures v.TagReadable(x) && v.Tag(x) == (b.stringtable[tags[x].key], b.stringtable[tags[x].val])
    {
      assert pairs[x] == tags[x];
    }
  }

  /** On a dense part written by the encoders, the walk has one dense node
      per encoded node, and the view of dense node k reads back the k-th id,
      coordinates and tags. */
  lemma DenseRoundTrip(b: Osmpbf.PrimitiveBlock, g: nat, ids: seq<int>, lats: seq<int>, lons: seq<int>,
                       lists: seq<seq<DenseTags.KeyVal>>, k: nat)
    requires EncodedFrom(b, g, ids, lats, lons, lists)
    ensures NodeIteration.ColumnsCover(b, g) && |NodeIteration.DenseStarts(b, g)| == |lists|
    ensures k < |lists| ==>
      var v := NodeIteration.View(b, NodeIteration.DensePos(g, k));
      v.AtRecord() && v.IdReadable() && v.TagsReadable() &&
      v.Id() == ids[k] &&
      v.Coords() == Owned.ToCoords(b.latOffset + lats[k], b.lonOffset + lons[k], b.granularity) &&
      v.Tags() == Resolve(b.stringtable, lists[k])
  {
    DenseTags.RoundTrip(lists);
    if k < |lists| {
      DenseViewReads(b, g, k);
      Delta.SumOfEncoded(ids, k);
      Delta.SumOfEncoded(lats, k);
      Delta.SumOfEncoded(lons, k);
      DenseTagsRead(b, g, k, lists[k]);
    }
  }
}
