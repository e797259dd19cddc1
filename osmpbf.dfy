/** The already-decoded PBF data block that the library reads: the message
    types of the OSMPBF schema as plain values. Repeated fields are sequences,
    string-table indices are naturals, 64-bit integers are unbounded. */
module Osmpbf {

  /** An optional sub-message (a protobuf `optional` field). */
  datatype Option<+T> = None | Some(value: T)

  /** DenseNodes: parallel delta columns plus one flattened key/value column
      in which a 0 closes each node's tag list. */
  datatype DenseNodes = DenseNodes(
    ids: seq<int>,
    lats: seq<int>,
    lons: seq<int>,
    keysVals: seq<nat>)

  /** A node stored as a record of its own. */
  datatype Node = Node(id: int, keys: seq<nat>, vals: seq<nat>, lat: int, lon: int)

  /** A way; `refs` holds the delta-encoded ids of its nodes. */
  datatype Way = Way(id: int, keys: seq<nat>, vals: seq<nat>, refs: seq<int>)

  /** A relation; `memids` are delta-encoded, `types` are the raw member type
      numbers (NODE = 0, WAY = 1, RELATION = 2) and `rolesSid` index the
      string table. */
  datatype Relation = Relation(
    id: int,
    keys: seq<nat>,
    vals: seq<nat>,
    memids: seq<int>,
    types: seq<int>,
    rolesSid: seq<nat>)

  datatype PrimitiveGroup = PrimitiveGroup(
    dense: Option<DenseNodes>,
    nodes: seq<Node>,
    ways: seq<Way>,
    relations: seq<Relation>)

  datatype PrimitiveBlock = PrimitiveBlock(
    stringtable: seq<string>,
    groups: seq<PrimitiveGroup>,
    granularity: int,
    latOffset: int,
    lonOffset: int)

  /** The message that `dense()` hands out: the group's dense part, or the
      default (all columns empty) instance when the group has none. */
  function DenseOf(g: PrimitiveGroup): DenseNodes
  {
    match g.dense
    case Some(d) => d
    case None => DenseNodes([], [], [], [])
  }
}
