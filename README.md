# libosmpbf: the block decoding layer, in Dafny

libosmpbf reads OpenStreetMap PBF files. Once a `PrimitiveBlock` has been
inflated and parsed, the library hands out its entities in two forms:

- light views tied to the block: `BlockNode`, `BlockWay` and `BlockRelation`;
- owned copies that outlive the block: `Node`, `Way` and `Relation`.

`PbfBlock` walks a block with three forward iterators:

- `NodeIterator` goes group by group. Within a group it visits the dense
  nodes first, keeping running totals of the delta-coded ids and coordinates,
  and then the node records.
- `WayIterator` and `RelationIterator` visit the ways and the relations of
  every group in order.

This project models that layer of `src/libosmpbf.cpp` and proves what the
layer hands out.

Structure:

- `osmpbf.dfy` (module `Osmpbf`): the parsed block as plain values. Repeated
  fields are sequences, string-table indices are naturals and integers are
  unbounded.
- `delta.dfy` (`Delta`): delta-coded columns decoded by running sums, a
  reference encoder, and the round trips in both directions.
- `densetags.dfy` (`DenseTags`): the flattened, 0-terminated `keys_vals`
  column of a dense group:
  - how many tags a list has and where each list starts;
  - a reference encoder, and a round trip through it.
- `owned.dfy` (`Owned`): the owned structs and their tag maps. A later
  duplicate key wins, as assignment through `operator[]` makes it.
- `views.dfy` (`Views`): the three views as datatypes. Their loops are
  methods proved against specification functions:
  - `BlockNode::tags()`, `BlockWay::nodes(i)` and `BlockRelation::members(i)`;
  - the copying constructors, i.e. `clone()`.
- `traversal.dfy` (`Traversal`): the (group, index) order of the way and
  relation iterators.
- `entityiterators.dfy` (`EntityIterators`): `WayIterator` and
  `RelationIterator` as classes, plus the loop `for (it = begin; it != end;
  it.next())` as a method.
- `nodeiterator.dfy` (`NodeIteration`): `NodeIterator` as a class.
  - Its ghost `Rest()` is the sequence of positions still to visit, given by
    one recursive function, `Walk`.
  - Every step of `next()` is proved to drop exactly the first of those
    positions.
  - A reference definition, `NodePositions`, is proved equal to the walk from
    `nodesBegin()`.
- `nodeorder.dfy` (`NodeOrder`): facts about what a whole node walk hands
  out:
  - which positions it visits, and that it visits them in order, each once;
  - how many positions it visits;
  - that a dense group written by the reference encoders reads back its ids,
    coordinates and tags.

Behaviour of the code that the model reproduces on purpose:

- `next()` visits dense nodes for as long as the `keys_vals` column has
  entries.
  - A group whose dense part has ids but an empty `keys_vals` hands out no
    dense node (`NodeOrder.EmptyTagColumnHidesDenseNodes`).
  - The id, lat and lon columns must reach as many nodes as the tag column
    starts (`NodeIteration.NodesIndexable`).
- In a group without a dense part, the pass that leaves dense mode also steps
  past record 0. That record is never handed out
  (`NodeOrder.MissingDenseSkipsFirstRecord`). A group with a dense part hands
  out all its records.
- Iterator equality ignores the coordinate totals.
- Both the begin and the end `NodeIterator` read group 0, so a node walk needs
  at least one group. The way and relation end iterators read no group.
- `BlockRelation::members(i)` returns the placeholder member `(0, node, "")`
  for a member type outside NODE/WAY/RELATION (src/libosmpbf.cpp:204-207). The
  code's `//TODO: Throw exception` (src/libosmpbf.cpp:205) shows an exception
  was planned; the model follows the code as written.
- `include/libosmpbf.h` declares a different dense `BlockNode` constructor and
  no `lat`/`lon` fields on `NodeIterator`. The model follows
  `src/libosmpbf.cpp`, which uses `lat` and `lon`.

## Model

| member | source | states |
|---|---|---|
| Delta.SumOfEncoded | src/libosmpbf.cpp:97-102 | the running sum of the first k+1 encoded deltas is the k-th absolute value |
| Delta.DecodeEncode | src/libosmpbf.cpp:97-102 | decoding a delta column written by the encoder gives back every absolute value |
| Delta.EncodeDecode | src/libosmpbf.cpp:97-102 | every delta column is the encoding of the ids it decodes to, so the decoding loses nothing |
| Owned.ToCoords | src/libosmpbf.cpp:17-20 | Coords(lat, lon, granularity): each stored integer times the granularity, kept exact in nanodegrees |
| Owned.EmptyNode | src/libosmpbf.cpp:22-24 | Node(): id 0 (and default coordinates 0, 0, no tags) |
| Owned.EmptyWay | src/libosmpbf.cpp:35-37 | Way(): id 0, no node ids, no tags, no nodes |
| Owned.EmptyRelation | src/libosmpbf.cpp:59-61 | Relation(): id 0, no members, no tags |
| DenseTags.TagCountSpec | src/libosmpbf.cpp:131-136 | the tag count of a dense node is exactly the run of nonzero keys at i, i+2, ..., stopping at the first 0 key or the end of the column |
| DenseTags.StartsBounds | src/libosmpbf.cpp:265-273 | every tag-list start the dense walk reaches lies inside the column |
| DenseTags.NextStart | src/libosmpbf.cpp:265-273 | consecutive dense nodes' lists are separated by exactly one 0, and the next list starts just past it |
| DenseTags.StartsSuffix | src/libosmpbf.cpp:265-273 | the list starts seen from the k-th node on are those of a walk begun at the k-th |
| DenseTags.StepStart | src/libosmpbf.cpp:265-281 | the dense step moves to a further node exactly when the position past the closing 0 is inside the column, and then to that list's start |
| DenseTags.FlattenAt | src/libosmpbf.cpp:142-147 | the reference writer puts the x-th key at 2x and its value at 2x+1 |
| DenseTags.ListRoundTrip | src/libosmpbf.cpp:131-147 | one encoded tag list, wherever it sits and whatever 0-led rest follows it, reads back with the same count and the same pairs |
| DenseTags.RoundTripFrom | src/libosmpbf.cpp:131-147 | an encoded column read from any offset starts one list per node, and each list reads back as that node's tags |
| DenseTags.RoundTrip | src/libosmpbf.cpp:131-147 | the whole encoded column holds exactly one list per node, and every node's tags read back |
| Owned.MemberTypeNumbering | include/libosmpbf.h:144-148 | the schema's member type numbers and the library's member kinds map one-to-one, in both directions |
| Owned.TagMapKeys | src/libosmpbf.cpp:29-32 | a key is in the copied tag map exactly when some tag of the view has it |
| Owned.TagMapLastWins | src/libosmpbf.cpp:29-32 | a key that occurs more than once keeps the value of its last occurrence |
| Views.DenseBlockNode | src/libosmpbf.cpp:104-112 | the dense-mode view: dense set, with the group, tag-list start, idBase, node index and running lat/lon it is given |
| Views.PlainBlockNode | src/libosmpbf.cpp:114-120 | the record-mode view of record i of a group, with idBase and node 0 |
| Views.BlockNode.Id | src/libosmpbf.cpp:122-130 | id(): idBase plus the id delta of the current dense node, or the record's own id |
| Views.BlockNode.NumTags | src/libosmpbf.cpp:131-141 | what tags() returns: the dense tag count from i, or the record's key count |
| Views.BlockNode.Tag | src/libosmpbf.cpp:142-154 | tags(x): the strings of key/value indices i+2x and i+2x+1 of the tag column, or of the record's x-th key and value |
| Views.BlockNode.Coords | src/libosmpbf.cpp:156-163 | coords(): the running lat/lon in dense mode, the record's lat/lon otherwise, scaled by the granularity |
| Views.BlockNode.TagCount | src/libosmpbf.cpp:131-141 | tags() counts the keys up to the first 0 key in dense mode, and the record's keys otherwise; in dense mode every counted key is nonzero and the one it stops at is not |
| Views.BlockNode.Clone | src/libosmpbf.cpp:26-33 | the owned node carries the view's id and coordinates, and the map built by assigning its tags in index order |
| Views.BlockWay.Id | src/libosmpbf.cpp:82 | id(): the way's own id |
| Views.BlockWay.TagCount | src/libosmpbf.cpp:84 | tags(): the number of keys |
| Views.BlockWay.Tag | src/libosmpbf.cpp:86-90 | tags(i): the strings the i-th key and value index name |
| Views.BlockWay.NodeCount | src/libosmpbf.cpp:92-95 | nodes(): the number of references |
| Views.BlockWay.NodeRef | src/libosmpbf.cpp:97-102 | nodes(i) is the sum of the reference deltas 0..i |
| Views.BlockWay.Clone | src/libosmpbf.cpp:39-51 | the owned way carries the id, the decoded references in order and the tag map, and its node list stays empty |
| Views.BlockRelation.Id | src/libosmpbf.cpp:169-171 | id(): the relation's own id |
| Views.BlockRelation.TagCount | src/libosmpbf.cpp:173-175 | tags(): the number of keys |
| Views.BlockRelation.Tag | src/libosmpbf.cpp:182-186 | tags(i): the strings the i-th key and value index name |
| Views.BlockRelation.MemberCount | src/libosmpbf.cpp:188-190 | members(): the number of member id deltas |
| Views.BlockRelation.DecodedMember | src/libosmpbf.cpp:192-208 | what members(i) returns: summed id, kind and role for NODE/WAY/RELATION, the placeholder (0, node, "") otherwise |
| Views.BlockRelation.MemberAt | src/libosmpbf.cpp:192-208 | a known member type gives the summed id, the kind with the same number and the role string; any other type gives the placeholder (0, node, "") |
| Views.BlockRelation.Clone | src/libosmpbf.cpp:63-76 | the owned relation carries the id, the tag map and members(0..n-1) in order |
| Traversal.LengthFrom | src/libosmpbf.cpp:349-368 | from (g, i), the rest of group g and every later group is visited, and nothing more |
| Traversal.OrderedFrom | src/libosmpbf.cpp:349-368 | every position visited from (g, i) exists and is not before (g, i), and the order is strictly increasing |
| Traversal.CompleteFrom | src/libosmpbf.cpp:349-368 | every existing position not before (g, i) is visited |
| Traversal.Visitation | src/libosmpbf.cpp:349-368 | a walk from the start visits every entity once, in (group, index) order, as many as the groups hold |
| EntityIterators.WayIterator.constructor | src/libosmpbf.cpp:325-332 | the begin iterator has every way of the block left to visit; the end iterator has none |
| EntityIterators.WayIterator.Next | src/libosmpbf.cpp:349-368 | at the end, nothing changes; at a way, exactly that way is dropped from what is left, and the iterator stops at the next way or at the end |
| EntityIterators.WayIterator.HasData | src/libosmpbf.cpp:334-337 | hasData(): the group exists and has more than i ways |
| EntityIterators.WayHasDataAt | src/libosmpbf.cpp:334-337 | hasData() holds exactly when (group, i) is an existing position of the way traversal |
| EntityIterators.WayIterator.Equals | src/libosmpbf.cpp:339-343 | ==: two end iterators are equal; otherwise end, i and group must agree |
| EntityIterators.WayIterator.NotEquals | src/libosmpbf.cpp:345-347 | !=: the negation of == |
| EntityIterators.WayIterator.Deref | src/libosmpbf.cpp:370-376 | operator* and operator->: the view of way i of the current group |
| EntityIterators.WayCurrentIsFirst | src/libosmpbf.cpp:370-376 | the way the iterator dereferences to is the first position it has left |
| EntityIterators.WayEqualsIffSameRest | src/libosmpbf.cpp:339-347 | == holds exactly when both iterators have the same ways left, and != exactly when not |
| EntityIterators.CollectWays | src/libosmpbf.cpp:457-463 | the loop from waysBegin() to waysEnd() hands out every way of the block once, in group then index order |
| EntityIterators.DrainWays | src/libosmpbf.cpp:345-368 | the loop from any iterator state hands out the ways at the positions it had left, in order |
| EntityIterators.RelationIterator.constructor | src/libosmpbf.cpp:378-385 | the begin iterator has every relation of the block left to visit; the end iterator has none |
| EntityIterators.RelationIterator.Next | src/libosmpbf.cpp:402-421 | at the end, nothing changes; at a relation, exactly that relation is dropped from what is left, and the iterator stops at the next relation or at the end |
| EntityIterators.RelationIterator.HasData | src/libosmpbf.cpp:387-390 | hasData(): the group exists and has more than i relations |
| EntityIterators.RelationHasDataAt | src/libosmpbf.cpp:387-390 | hasData() holds exactly when (group, i) is an existing position of the relation traversal |
| EntityIterators.RelationIterator.Equals | src/libosmpbf.cpp:392-396 | ==: two end iterators are equal; otherwise end, i and group must agree |
| EntityIterators.RelationIterator.NotEquals | src/libosmpbf.cpp:398-400 | !=: the negation of == |
| EntityIterators.RelationIterator.Deref | src/libosmpbf.cpp:423-429 | operator* and operator->: the view of relation i of the current group |
| EntityIterators.RelationCurrentIsFirst | src/libosmpbf.cpp:423-429 | the relation the iterator dereferences to is the first position it has left |
| EntityIterators.RelationEqualsIffSameRest | src/libosmpbf.cpp:392-400 | == holds exactly when both iterators have the same relations left, and != exactly when not |
| EntityIterators.CollectRelations | src/libosmpbf.cpp:469-475 | the loop from relationsBegin() to relationsEnd() hands out every relation of the block once, in group then index order |
| EntityIterators.DrainRelations | src/libosmpbf.cpp:398-421 | the loop from any iterator state hands out the relations at the positions it had left, in order |
| NodeIteration.DenseStarts | src/libosmpbf.cpp:230-237 | a group has dense nodes to visit exactly when its tag column is non-empty, and the first one's tags start at 0 |
| NodeIteration.WalkRecords | src/libosmpbf.cpp:283-302 | from record j, the walk visits the group's remaining records and then the later groups |
| NodeIteration.WalkDense | src/libosmpbf.cpp:261-282 | from dense node k, the walk visits the remaining dense nodes and then all the group's records |
| NodeIteration.WalkFrom | src/libosmpbf.cpp:252-307 | entering group g, the iterator's walk equals the reference order of groups g, g+1, ... |
| NodeIteration.WalkIsNodeOrder | src/libosmpbf.cpp:210-228 | the walk from nodesBegin()'s starting state is NodePositions |
| NodeIteration.EnterGroup | src/libosmpbf.cpp:216-224 | entering a group gives dense node 0, with no ids summed and the offsets plus the first deltas as coordinates |
| NodeIteration.DenseAdvance | src/libosmpbf.cpp:265-277 | moving to the next dense node adds this node's id delta to idBase and the next deltas to lat/lon, reaches the next list start, and drops one position |
| NodeIteration.DenseLeave | src/libosmpbf.cpp:278-281 | leaving dense mode lands at record 0 with node and idBase unchanged, dropping the current dense position if there was one |
| NodeIteration.PlainAdvance | src/libosmpbf.cpp:284-285 | a record step drops exactly the current record |
| NodeIteration.LeaveMissingDense | src/libosmpbf.cpp:258-259 | in a group without a dense part, the pass that leaves dense mode moves past record 0 without handing it out |
| NodeIteration.NextGroup | src/libosmpbf.cpp:286-297 | past a group's last record, the next group starts in dense mode at node 0 and nothing is dropped |
| NodeIteration.LastGroup | src/libosmpbf.cpp:299-301 | past the last record of the last group nothing is left |
| NodeIteration.NodeIterator.constructor | src/libosmpbf.cpp:210-228 | nodesBegin() has every position of NodePositions left to visit; nodesEnd() is at the end |
| NodeIteration.NodeIterator.Next | src/libosmpbf.cpp:252-307 | at the end, nothing changes; at a node, exactly that node is dropped from what is left, and the iterator stops at the next node or at the end |
| NodeIteration.NodeIterator.HasData | src/libosmpbf.cpp:230-238 | hasData(): in record mode i is below the group's record count; in dense mode the group has a dense part and i is inside its tag column |
| NodeIteration.NodeIterator.Equals | src/libosmpbf.cpp:240-246 | ==: two end iterators are equal; otherwise end, i, group, dense, node and idBase must agree, lat and lon are not compared |
| NodeIteration.NodeIterator.NotEquals | src/libosmpbf.cpp:248-250 | !=: the negation of == |
| NodeIteration.NodeIterator.Deref | src/libosmpbf.cpp:309-323 | operator* and operator->: a dense view carrying the running totals, or the view of record i |
| NodeIteration.NodeIterator.Step | src/libosmpbf.cpp:257-302 | one pass of the do-while drops the current node if the iterator was at one and nothing otherwise, and always makes progress |
| NodeIteration.NodeIterator.DenseStep | src/libosmpbf.cpp:261-282 | the scan stops after the node's pairs; the step then moves to the next node past its 0, or leaves dense mode at record 0 keeping node and idBase |
| NodeIteration.NodeIterator.PlainStep | src/libosmpbf.cpp:283-302 | the next record, else the next group in dense mode, else the end, dropping the current record if the iterator was at one |
| NodeIteration.NodeCurrentIsFirst | src/libosmpbf.cpp:317-323 | operator* gives the view of the first position left, a dense or a record position as the mode says |
| NodeIteration.NodeEqualsIffSameRest | src/libosmpbf.cpp:240-250 | == holds exactly when both iterators have the same nodes left, and != exactly when not |
| NodeIteration.CollectNodes | src/libosmpbf.cpp:445-451 | the loop from nodesBegin() to nodesEnd() hands out one view per position of NodePositions, in that order |
| NodeIteration.Drain | src/libosmpbf.cpp:248-307 | the loop from any iterator state hands out the views of the positions it had left, in order |
| NodeOrder.GroupMembers | src/libosmpbf.cpp:258-302 | a group's visited positions are its dense nodes and, with a dense part, all its records, or else every record but record 0 |
| NodeOrder.PositionsFromMembers | src/libosmpbf.cpp:252-307 | from group g on, a position is visited exactly when it is in a later-or-equal group and Visited |
| NodeOrder.NodePositionsMembers | src/libosmpbf.cpp:252-307 | a whole walk visits exactly the Visited positions |
| NodeOrder.EmptyTagColumnHidesDenseNodes | src/libosmpbf.cpp:230-237 | a dense part with an empty keys_vals column hands out no dense node, whatever its ids |
| NodeOrder.MissingDenseSkipsFirstRecord | src/libosmpbf.cpp:257-285 | in a group without a dense part, record j is handed out exactly when 0 < j < the record count |
| NodeOrder.PositionsFromSorted | src/libosmpbf.cpp:252-307 | from group g on, positions come by group, dense before records, then by index |
| NodeOrder.NodePositionsSorted | src/libosmpbf.cpp:252-307 | a whole walk is strictly ordered, so no node is handed out twice |
| NodeOrder.PositionsFromLength | src/libosmpbf.cpp:252-307 | from group g on, the walk hands out as many positions as the per-group counts add up to |
| NodeOrder.NodePositionsCount | src/libosmpbf.cpp:252-307 | a walk hands out, per group, the dense nodes plus the records, less one record for a group without a dense part |
| NodeOrder.NodePositionsInRange | src/libosmpbf.cpp:309-323 | when the dense columns are long enough, every visited position can be dereferenced |
| NodeOrder.DenseViewReads | src/libosmpbf.cpp:122-163 | dense node k reads back the k-th decoded id and the offset plus the k-th decoded lat/lon, and counts the k-th list's tags |
| NodeOrder.DenseTagsRead | src/libosmpbf.cpp:131-154 | a dense node whose list holds some index pairs has exactly those tags, resolved through the string table |
| NodeOrder.DenseRoundTrip | src/libosmpbf.cpp:252-323 | on a dense part written by the reference encoders there is one dense node per encoded node, and node k reads back the k-th id, coordinates and tags |

## Left out

- PbfStream is not modelled: file I/O, blob framing, zlib inflation and
  protobuf parsing (src/libosmpbf.cpp:489 onwards). The model starts from a
  parsed `PrimitiveBlock`.
- `PbfBlock::Nodes()`, `Ways()` and `Relations()` always return 0. They are
  stubs and are not modelled.
- Allocation and freeing of the block (`new`/`delete`) are not modelled, nor
  is `PbfBlock::granularity()`, which is one field read.
- Owned.ToCoords: the library divides by 1e9 in floating point. The model
  keeps the exact product with the granularity, in nanodegrees.
- Integers are unbounded. The uint64/int64 wrap-around of the id and
  coordinate sums is not modelled.
- Views.PlainBlockNode: the record-mode BlockNode leaves lat/lon
  uninitialised. The model sets them to 0, a value record mode never reads.
- NodeIteration.NodeIterator.constructor: when group 0's tag column is empty,
  lat/lon are left uninitialised, as in the code. Only the coordinates that
  are later read are constrained.
- NodeIteration.NodeIterator.constructor: it requires every group's dense
  columns to cover its tag lists (`NodesIndexable`), not just group 0's. It
  also requires at least one group, because the code reads group 0
  unconditionally.
- EntityIterators.WayIterator.constructor and
  EntityIterators.RelationIterator.constructor: the begin iterator requires at
  least one group (the code reads group 0 there). The end iterator does not.
- Reading out of range in the protobuf accessors is undefined in the code. The
  model rules it out with preconditions (`TagReadable`, `MemberReadable`,
  `NodesIndexable`) rather than modelling the undefined behaviour.
- The example program and error reporting to `std::cerr` are not modelled.
