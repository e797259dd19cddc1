/** The owned entity values that outlive the block they were copied from:
    Node, Way and Relation with their tag maps, relation members and
    coordinates. */
module Owned {

  /** A coordinate pair in nanodegrees: the stored integer times the block's
      granularity (the library divides that by 1e9 in floating point). */
  datatype Coords = Coords(lat: int, lon: int)

  /** Coords(lat, lon, granularity): conversion of stored integers. */
  function ToCoords(lat: int, lon: int, granularity: int): Coords
  {
    Coords(lat * granularity, lon * granularity)
  }

  /** The library's member kinds, with the numbers they are declared with. */
  datatype MemberType = MemberNode | MemberWay | MemberRelation
  {
    function Value(): nat
    {
      match this
      case MemberNode => 0
      case MemberWay => 1
      case MemberRelation => 2
    }
  }

  /** The raw member type numbers of the schema: NODE, WAY and RELATION. */
  predicate KnownType(t: int)
  {
    t == 0 || t == 1 || t == 2
  }

  /** The library's member kind for a schema member type. */
  function TypeOf(t: int): (m: MemberType)
    requires KnownType(t)
  {
    if t == 0 then MemberNode else if t == 1 then MemberWay else MemberRelation
  }

  /** The schema's numbers and the library's member kinds agree value for
      value, in both directions. */
  lemma MemberTypeNumbering(t: int, m: MemberType)
    ensures KnownType(t) ==> TypeOf(t).Value() == t
    ensures KnownType(m.Value()) && TypeOf(m.Value()) == m
  {
  }

  /** A relation member: its absolute id, its kind and its role string. */
  datatype Member = Member(id: int, memberType: MemberType, role: string)

  datatype Node = Node(id: int, coords: Coords, tags: map<string, string>)

  /** `nodes` exists in the library's Way but no code fills it. */
  datatype Way = Way(id: int, nodeIds: seq<int>, tags: map<string, string>, nodes: seq<Node>)

  datatype Relation = Relation(id: int, members: seq<Member>, tags: map<string, string>)

  /** The default constructors. */
  function EmptyNode(): Node { Node(0, Coords(0, 0), map[]) }
  function EmptyWay(): Way { Way(0, [], map[], []) }
  function EmptyRelation(): Relation { Relation(0, [], map[]) }

  /** The tag map that assigning `tags` one by one through operator[], in
      index order, builds. */
  function TagMap(tags: seq<(string, string)>): map<string, string>
  {
    if tags == [] then map[]
    else TagMap(tags[..|tags| - 1])[tags[|tags| - 1].0 := tags[|tags| - 1].1]
  }

  /** A key is in the map exactly when some tag has it. */
  lemma {:induction false} TagMapKeys(tags: seq<(string, string)>, key: string)
    ensures key in TagMap(tags) <==> exists x :: 0 <= x < |tags| && tags[x].0 == key
  {
    if tags != [] {
      var init := tags[..|tags| - 1];
      TagMapKeys(init, key);
      if key != tags[|tags| - 1].0 && key in TagMap(tags) {
        var x :| 0 <= x < |init| && init[x].0 == key;
        assert tags[x] == init[x];
      }
      if key != tags[|tags| - 1].0 && (exists x :: 0 <= x < |tags| && tags[x].0 == key) {
        var x :| 0 <= x < |tags| && tags[x].0 == key;
        assert init[x] == tags[x];
      }
    }
  }

  /** A repeated key keeps the value of its last occurrence, since each
      assignment through operator[] overwrites the one before. */
  lemma {:induction false} TagMapLastWins(tags: seq<(string, string)>, x: nat)
    requires x < |tags|
    requires forall y :: x < y < |tags| ==> tags[y].0 != tags[x].0
    ensures tags[x].0 in TagMap(tags) && TagMap(tags)[tags[x].0] == tags[x].1
  {
    if x < |tags| - 1 {
      var init := tags[..|tags| - 1];
      assert init[x] == tags[x];
      forall y | x < y < |init|
        ensures init[y].0 != init[x].0
      {
        assert init[y] == tags[y];
      }
      TagMapLastWins(init, x);
    }
  }
}
