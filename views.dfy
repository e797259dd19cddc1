/** Read-only views of one entity of a decoded block (BlockNode, BlockWay,
    BlockRelation): each holds the block and a position in it, resolves tags
    through the string table and rebuilds delta-coded ids on demand; Clone
    copies a view into an owned value. */
module Views {
  import Osmpbf
  import Owned
  import Delta
  import DenseTags

  /** A tag as a (key, value) pair of strings from the string table. */
  type Tag = (string, string)

  /** A node, either the `node`-th entry of its group's dense part, whose
      tags start at `i` in the flattened tag column and whose running totals
      are `idBase` (of the ids before it) and `lat`/`lon`, or (`dense` false)
      the `i`-th record of its group. */
  datatype BlockNode = BlockNode(
    block: Osmpbf.PrimitiveBlock,
    group: nat,
    i: nat,
    idBase: int,
    node: nat,
    lat: int,
    lon: int,
    dense: bool)
  {
    /** The group exists and, outside dense mode, so does the node record. */
    predicate AtRecord()
    {
      group < |block.groups| && (!dense ==> i < |block.groups[group].nodes|)
    }

    function Dense(): Osmpbf.DenseNodes
      requires group < |block.groups|
    {
      Osmpbf.DenseOf(block.groups[group])
    }

    function Record(): Osmpbf.Node
      requires AtRecord() && !dense
    {
      block.groups[group].nodes[i]
    }

    /** In dense mode the id column must reach this node. */
    predicate IdReadable()
    {
      AtRecord() && (dense ==> node < |Dense().ids|)
    }

    function Id(): int
      requires IdReadable()
    {
      if dense then idBase + Dense().ids[node] else Record().id
    }

    /** The number of tags tags() reports. */
    function NumTags(): nat
      requires AtRecord()
    {
      if dense then DenseTags.TagCount(Dense().keysVals, i) else |Record().keys|
    }

    /** tags(): in dense mode a scan of the tag column from `i`, two entries
        at a time, up to a 0 key or the end; otherwise the record's key
        count. */
    method TagCount() returns (count: nat)
      requires AtRecord()
      ensures count == NumTags()
      ensures dense ==> forall x :: 0 <= x < count ==> DenseTags.NonzeroKeyAt(Dense().keysVals, i, x)
      ensures dense ==> !DenseTags.NonzeroKeyAt(Dense().keysVals, i, count)
    {
      if dense {
        var kv := Dense().keysVals;
        DenseTags.TagCountSpec(kv, i);
        count := 0;
        var n := i;
        while n < |kv| && kv[n] != 0
          invariant n == i + 2 * count
          invariant DenseTags.TagCount(kv, i) == count + DenseTags.TagCount(kv, n)
          decreases |kv| - n
        {
          n, count := n + 2, count + 1;
        }
      } else {
        count := |Record().keys|;
      }
    }

    /** Tag x can be read: both its indices exist and name strings. */
    predicate TagReadable(x: nat)
      requires AtRecord()
    {
      var st := block.stringtable;
      if dense then
        var kv := Dense().keysVals;
        i + 2 * x + 1 < |kv| && kv[i + 2 * x] < |st| && kv[i + 2 * x + 1] < |st|
      else
        var n := Record();
        x < |n.keys| && x < |n.vals| && n.keys[x] < |st| && n.vals[x] < |st|
    }

    /** tags(x): the strings of the x-th key/value index pair. */
    function Tag(x: nat): Tag
      requires AtRecord() && TagReadable(x)
    {
      var st := block.stringtable;
      if dense then
        var kv := Dense().keysVals;
        (st[kv[i + 2 * x]], st[kv[i + 2 * x + 1]])
      else
        (st[Record().keys[x]], st[Record().vals[x]])
    }

    predicate TagsReadable()
      requires AtRecord()
    {
      forall x :: 0 <= x < NumTags() ==> TagReadable(x)
    }

    /** tags(0), ..., tags(tags() - 1). */
    function Tags(): seq<Tag>
      requires AtRecord() && TagsReadable()
    {
      seq(NumTags(), x requires 0 <= x < NumTags() => Tag(x))
    }

    /** coords(): the running totals in dense mode, the record's own values
        otherwise, scaled by the block's granularity. */
    function Coords(): Owned.Coords
      requires AtRecord()
    {
      if dense then Owned.ToCoords(lat, lon, block.granularity)
      else Owned.ToCoords(Record().lat, Record().lon, block.granularity)
    }

    /** Node(const BlockNode &) and clone(): copies the coordinates and the
        id, then assigns the tags through operator[] in index order, so that
        a repeated key keeps its last value. */
    method Clone() returns (n: Owned.Node)
      requires IdReadable() && TagsReadable()
      ensures n.id == Id() && n.coords == Coords()
      ensures n.tags == Owned.TagMap(Tags())
    {
      var coords := Coords();
      var id := Id();
      var count := TagCount();
      var tags: map<string, string> := map[];
      var x := 0;
      while x < count
        invariant x <= count
        invariant tags == Owned.TagMap(Tags()[..x])
      {
        var tag := Tag(x);
        assert Tags()[..x + 1][..x] == Tags()[..x];
        tags := tags[tag.0 := tag.1];
        x := x + 1;
      }
      assert Tags()[..count] == Tags();
      n := Owned.Node(id, coords, tags);
    }
  }

  /** The dense-mode BlockNode constructor. */
  function DenseBlockNode(b: Osmpbf.PrimitiveBlock, group: nat, i: nat, idBase: int, node: nat, lat: int, lon: int): BlockNode
  {
    BlockNode(b, group, i, idBase, node, lat, lon, true)
  }

  /** The record-mode BlockNode constructor; it sets no coordinates, which
      this mode never reads, so they are 0 here. */
  function PlainBlockNode(b: Osmpbf.PrimitiveBlock, group: nat, i: nat): BlockNode
  {
    BlockNode(b, group, i, 0, 0, 0, 0, false)
  }

  /** A view of one way record of the block. */
  datatype BlockWay = BlockWay(way: Osmpbf.Way, block: Osmpbf.PrimitiveBlock)
  {
    function Id(): int { way.id }

    function TagCount(): nat { |way.keys| }

    predicate TagReadable(x: nat)
    {
      x < |way.keys| && x < |way.vals| &&
      way.keys[x] < |block.stringtable| && way.vals[x] < |block.stringtable|
    }

    function Tag(x: nat): Tag
      requires TagReadable(x)
    {
      (block.stringtable[way.keys[x]], block.stringtable[way.vals[x]])
    }

    predicate TagsReadable()
    {
      forall x :: 0 <= x < TagCount() ==> TagReadable(x)
    }

    function Tags(): seq<Tag>
      requires TagsReadable()
    {
      seq(TagCount(), x requires 0 <= x < TagCount() => Tag(x))
    }

    function NodeCount(): nat { |way.refs| }

    /** nodes(i): the id of the way's i-th node, the sum of the reference
        deltas 0..i, recomputed from the start on every call. */
    method NodeRef(i: nat) returns (ref: int)
      requires i < |way.refs|
      ensures ref == Delta.Sum(way.refs, i + 1)
    {
      ref := 0;
      var n := 0;
      while n <= i
        invariant n <= i + 1
        invariant ref == Delta.Sum(way.refs, n)
      {
        ref := ref + way.refs[n];
        n := n + 1;
      }
    }

    /** Way(const BlockWay &) and clone(): copies the id, the node ids
        nodes(0), ..., nodes(n - 1) in order, and the tags in index order. */
    method Clone() returns (w: Owned.Way)
      requires TagsReadable()
      ensures w.id == Id()
      ensures w.nodeIds == Delta.Decode(way.refs)
      ensures w.tags == Owned.TagMap(Tags())
      ensures w.nodes == []
    {
      var nodeIds: seq<int> := [];
      var k := 0;
      while k < NodeCount()
        invariant k <= NodeCount()
        invariant nodeIds == Delta.Decode(way.refs)[..k]
      {
        var ref := NodeRef(k);
        nodeIds := nodeIds + [ref];
        k := k + 1;
      }
      var tags: map<string, string> := map[];
      var x := 0;
      while x < TagCount()
        invariant x <= TagCount()
        invariant tags == Owned.TagMap(Tags()[..x])
      {
        var tag := Tag(x);
        assert Tags()[..x + 1][..x] == Tags()[..x];
        tags := tags[tag.0 := tag.1];
        x := x + 1;
      }
      assert Tags()[..TagCount()] == Tags();
      w := Owned.Way(Id(), nodeIds, tags, []);
    }
  }

  /** A view of one relation record of the block. */
  datatype BlockRelation = BlockRelation(relation: Osmpbf.Relation, block: Osmpbf.PrimitiveBlock)
  {
    function Id(): int { relation.id }

    function TagCount(): nat { |relation.keys| }

    predicate TagReadable(x: nat)
    {
      x < |relation.keys| && x < |relation.vals| &&
      relation.keys[x] < |block.stringtable| && relation.vals[x] < |block.stringtable|
    }

    function Tag(x: nat): Tag
      requires TagReadable(x)
    {
      (block.stringtable[relation.keys[x]], block.stringtable[relation.vals[x]])
    }

    predicate TagsReadable()
    {
      forall x :: 0 <= x < TagCount() ==> TagReadable(x)
    }

    function Tags(): seq<Tag>
      requires TagsReadable()
    {
      seq(TagCount(), x requires 0 <= x < TagCount() => Tag(x))
    }

    function MemberCount(): nat { |relation.memids| }

    /** Member i can be read: its id delta and type exist and, for a known
        type, so does its role. */
    predicate MemberReadable(i: nat)
    {
      i < |relation.memids| && i < |relation.types| &&
      (Owned.KnownType(relation.types[i]) ==>
        i < |relation.rolesSid| && relation.rolesSid[i] < |block.stringtable|)
    }

    /** The member members(i) returns. */
    function DecodedMember(i: nat): Owned.Member
      requires MemberReadable(i)
    {
      var t := relation.types[i];
      if Owned.KnownType(t) then
        Owned.Member(Delta.Sum(relation.memids, i + 1), Owned.TypeOf(t), block.stringtable[relation.rolesSid[i]])
      else
        Owned.Member(0, Owned.MemberNode, "")
    }

    /** members(i): for a NODE, WAY or RELATION member, its id is the sum of
        the id deltas 0..i, its kind carries the same number as the raw type
        and its role is the string its role index names; for any other type
        it is the placeholder member (0, node, ""). */
    method MemberAt(i: nat) returns (m: Owned.Member)
      requires MemberReadable(i)
      ensures m == DecodedMember(i)
      ensures Owned.KnownType(relation.types[i]) ==>
        m.id == Delta.Sum(relation.memids, i + 1) &&
        m.memberType.Value() == relation.types[i] &&
        m.role == block.stringtable[relation.rolesSid[i]]
      ensures !Owned.KnownType(relation.types[i]) ==> m == Owned.Member(0, Owned.MemberNode, "")
    {
      var id := 0;
      var n := 0;
      while n <= i
        invariant n <= i + 1
        invariant id == Delta.Sum(relation.memids, n)
      {
        id := id + relation.memids[n];
        n := n + 1;
      }
      var t := relation.types[i];
      if t == 0 {
        m := Owned.Member(id, Owned.MemberNode, block.stringtable[relation.rolesSid[i]]);
      } else if t == 1 {
        m := Owned.Member(id, Owned.MemberWay, block.stringtable[relation.rolesSid[i]]);
      } else if t == 2 {
        m := Owned.Member(id, Owned.MemberRelation, block.stringtable[relation.rolesSid[i]]);
      } else {
        m := Owned.Member(0, Owned.MemberNode, "");
      }
    }

    predicate MembersReadable()
    {
      forall k :: 0 <= k < MemberCount() ==> MemberReadable(k)
    }

    /** members(0), ..., members(m - 1). */
    function Members(): seq<Owned.Member>
      requires MembersReadable()
    {
      seq(MemberCount(), k requires 0 <= k < MemberCount() => DecodedMember(k))
    }

    /** Relation(const BlockRelation &) and clone(): copies the id, the tags
        in index order, and the members in order. */
    method Clone() returns (r: Owned.Relation)
      requires TagsReadable() && MembersReadable()
      ensures r.id == Id()
      ensures r.tags == Owned.TagMap(Tags())
      ensures r.members == Members()
    {
      var tags: map<string, string> := map[];
      var x := 0;
      while x < TagCount()
        invariant x <= TagCount()
        invariant tags == Owned.TagMap(Tags()[..x])
      {
        var tag := Tag(x);
        assert Tags()[..x + 1][..x] == Tags()[..x];
        tags := tags[tag.0 := tag.1];
        x := x + 1;
      }
      assert Tags()[..TagCount()] == Tags();
      var members: seq<Owned.Member> := [];
      var k := 0;
      while k < MemberCount()
        invariant k <= MemberCount()
        invariant members == Members()[..k]
      {
        var m := MemberAt(k);
        members := members + [m];
        k := k + 1;
      }
      r := Owned.Relation(Id(), members, tags);
    }
  }
}
