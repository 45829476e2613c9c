# IoTDB query planning and cluster coordination, modelled in Dafny

This project models several sequential pieces of Apache IoTDB and proves properties about them:

- **Fragment instance dispatch.** `FragmentInstanceDispatcherImpl` and `SimpleFragInstanceDispatcher` hand the fragment instances of a distributed plan to the data nodes hosting them. An instance whose host is this node goes to the local consensus layer. Any other instance is sent over RPC. READ batches are dispatched one by one and stop at the first rejection. WRITE batches are all submitted first, and their outcomes are then drained in list order.
- **Cluster last query.** The last query of the cluster module (`ClusterLastQueryExecutor`) asks every global partition group for the last (time, value) pair of n series. It then merges the answers slot by slot.
- **Data node registry.** The config node's in-memory registry (`NodeInfo`) holds the online data nodes keyed by id, the data node id counter and the online config nodes.
- **Plan tree renderer.** `PlanNodeVisualizer` draws a plan tree as nested text boxes joined by connector lines.
- **Planner value objects.** `AggregationDescriptor`, `ResultColumn`, `FilterNode` and `LongLiteral` cover column naming, alias checks, equality, hashing and the serialised field layout.

The project has one module for each of these Java classes. Five support modules sit beside them:

- `Wrappers`: `Option` and `Result`.
- `JavaLang`: Java `int` and `long` ranges, 32-bit wrap-around, `String.hashCode`, `Objects.hash`, and `Long.toString`/`Long.parseLong`.
- `PlanTypes`: expressions, data types, aggregation steps, plan node ids and zone ids.
- `Buffers` and `DispatchTypes`: the byte buffer, and the types the two dispatchers share.

Where the Java code changes state, the model is imperative:

- `NodeInfo`, `AggregationDescriptor`, `ResultColumn`, `FilterNode` and `ByteBuffer` are classes with `modifies` clauses.
- Loops stay loops, with invariants.
- Each method is proved equal to a specification function. The lemmas state the source's promises about that function.

Consensus, RPC, schema validation, the local last-value lookup, `Expression` internals and element hashes are not modelled. They are parameters (oracles) of the functions that use them. Futures are modelled as "every task runs, then the results are drained in list order".

Serialised data is a sequence of typed tokens. Each `ReadWriteIOUtils` primitive, and each `serialize` of an `Expression`, `AggregationStep`, `TSDataType`, `PlanNodeType` or `PlanNodeId`, puts one token. The matching read takes one token back. Reading a token of the wrong kind, or reading past the end, is an exception.

## Model

| member | source | states |
|---|---|---|
| FragmentInstanceDispatcher.Dispatch | server/src/main/java/org/apache/iotdb/db/mpp/plan/scheduler/FragmentInstanceDispatcherImpl.java:82-88 | A READ dispatcher takes the sequential read path and a WRITE dispatcher takes the write path, with the result and dispatch count each path specifies; the caller's thread is left interrupted exactly when a WRITE drain was interrupted, and every borrowed client is released. |
| FragmentInstanceDispatcher.IsDispatchedToLocal | server/src/main/java/org/apache/iotdb/db/mpp/plan/scheduler/FragmentInstanceDispatcherImpl.java:142-144 | An instance is dispatched locally exactly when its endpoint equals this node's (internal ip, internal port). |
| FragmentInstanceDispatcher.DispatchLocally | server/src/main/java/org/apache/iotdb/db/mpp/plan/scheduler/FragmentInstanceDispatcherImpl.java:165-189 | A local READ is accepted iff the consensus read's state is not failed. A local WRITE fails with a dispatch exception exactly when its root is an insert that fails schema validation. |
| FragmentInstanceDispatcher.LocalWriteAcceptedIff | server/src/main/java/org/apache/iotdb/db/mpp/plan/scheduler/FragmentInstanceDispatcherImpl.java:175-185 | A local WRITE is accepted iff it passes validation (or is not an insert) and the consensus write's status code is SUCCESS (200). |
| FragmentInstanceDispatcher.SchemaRejectionSkipsConsensusWrite | server/src/main/java/org/apache/iotdb/db/mpp/plan/scheduler/FragmentInstanceDispatcherImpl.java:177-183 | An insert rejected by the schema validator fails with the wrapped SemanticException, whatever the consensus write would answer, so that write is never reached. |
| FragmentInstanceDispatcher.DispatchRemote | server/src/main/java/org/apache/iotdb/db/mpp/plan/scheduler/FragmentInstanceDispatcherImpl.java:146-163 | The remote outcome is the response's accepted flag. A client or RPC failure becomes a dispatch exception with an IO cause. The borrowed client is closed on every path. |
| FragmentInstanceDispatcher.DispatchOneInstance | server/src/main/java/org/apache/iotdb/db/mpp/plan/scheduler/FragmentInstanceDispatcherImpl.java:132-140 | An instance hosted on this node is dispatched locally, with no client borrowed; any other goes to its host's endpoint remotely. |
| FragmentInstanceDispatcher.Outcomes | server/src/main/java/org/apache/iotdb/db/mpp/plan/scheduler/FragmentInstanceDispatcherImpl.java:96-97 | The outcome of dispatching each instance, in list order. |
| FragmentInstanceDispatcher.ReadAcceptedIffAllAccepted | server/src/main/java/org/apache/iotdb/db/mpp/plan/scheduler/FragmentInstanceDispatcherImpl.java:96-102 | READ dispatch is accepted iff every instance is accepted; an empty batch is accepted. |
| FragmentInstanceDispatcher.ReadStopsAtFirstRejection | server/src/main/java/org/apache/iotdb/db/mpp/plan/scheduler/FragmentInstanceDispatcherImpl.java:96-101 | After the first rejected instance the result is false, exactly k+1 instances have been dispatched, and later instances do not change the outcome. |
| FragmentInstanceDispatcher.ReadFirstRejectedDispatchesOne | server/src/main/java/org/apache/iotdb/db/mpp/plan/scheduler/FragmentInstanceDispatcherImpl.java:96-101 | When the first of three instances is rejected, only that instance is dispatched and the result is false. |
| FragmentInstanceDispatcher.DispatchRead | server/src/main/java/org/apache/iotdb/db/mpp/plan/scheduler/FragmentInstanceDispatcherImpl.java:93-104 | The loop with early return computes the READ result and dispatch count of the specification, and releases every client it borrows. |
| FragmentInstanceDispatcher.WriteAcceptedIffAllAccepted | server/src/main/java/org/apache/iotdb/db/mpp/plan/scheduler/FragmentInstanceDispatcherImpl.java:113-128 | WRITE dispatch is accepted iff every wait completes uninterrupted and every instance is accepted. |
| FragmentInstanceDispatcher.WriteFailureWrapsCause | server/src/main/java/org/apache/iotdb/db/mpp/plan/scheduler/FragmentInstanceDispatcherImpl.java:120-124 | A failed WRITE always surfaces as the settable future's ExecutionException, whose cause is an InterruptedException exactly when draining was interrupted; with no interrupt, WRITE decides as READ does, with one more ExecutionException around a task failure. |
| FragmentInstanceDispatcher.WriteRejectionFailsBatch | server/src/main/java/org/apache/iotdb/db/mpp/plan/scheduler/FragmentInstanceDispatcherImpl.java:115-118 | One rejected instance, anywhere in the list, makes the batch not accepted. |
| FragmentInstanceDispatcher.WriteSecondOfThreeRejected | server/src/main/java/org/apache/iotdb/db/mpp/plan/scheduler/FragmentInstanceDispatcherImpl.java:113-128 | Three instances with the second rejected give "not accepted". |
| FragmentInstanceDispatcher.DispatchWrite | server/src/main/java/org/apache/iotdb/db/mpp/plan/scheduler/FragmentInstanceDispatcherImpl.java:107-130 | Every instance is submitted before any outcome is inspected. During draining, the first rejection, exception or interrupt decides the future, an exception or interrupt reaching it through `setException`, so `get()` throws an ExecutionException around it; the interrupt flag is set exactly on an interrupt; the trailing set(true) counts only if nothing was set. |
| SimpleFragInstanceDispatcher.Replies | server/src/main/java/org/apache/iotdb/db/mpp/plan/scheduler/SimpleFragInstanceDispatcher.java:60-78 | Each instance is sent to its host's endpoint remotely, in list order, whatever the endpoint. |
| DispatchTypes.RequestFor | server/src/main/java/org/apache/iotdb/db/mpp/plan/scheduler/SimpleFragInstanceDispatcher.java:69-72 | The request carries the instance's serialised bytes, its region's consensus group id and its type string. |
| DispatchTypes.SendVia | server/src/main/java/org/apache/iotdb/db/mpp/plan/scheduler/SimpleFragInstanceDispatcher.java:63-78 | A send borrows a client and closes it again; the reply is the response's accepted flag, or the RPC fault. |
| SimpleFragInstanceDispatcher.AcceptedIffNonEmptyAndAllAccepted | server/src/main/java/org/apache/iotdb/db/mpp/plan/scheduler/SimpleFragInstanceDispatcher.java:59-83 | The result is true iff the list is non-empty and every instance is accepted. |
| SimpleFragInstanceDispatcher.EmptyBatchNotAccepted | server/src/main/java/org/apache/iotdb/db/mpp/plan/scheduler/SimpleFragInstanceDispatcher.java:59-83 | An empty batch yields the initial response's false and sends nothing. |
| SimpleFragInstanceDispatcher.ResultIsLastResponse | server/src/main/java/org/apache/iotdb/db/mpp/plan/scheduler/SimpleFragInstanceDispatcher.java:79-83 | Without faults the result is the flag of the last response received, and every earlier response was an acceptance. |
| SimpleFragInstanceDispatcher.Dispatch | server/src/main/java/org/apache/iotdb/db/mpp/plan/scheduler/SimpleFragInstanceDispatcher.java:56-85 | The send loop computes the specified result and number of sends: a fault is rethrown with no further send, and the loop stops right after the first rejection. |
| ClusterLastQuery.Nulls | cluster/src/main/java/org/apache/iotdb/cluster/query/last/ClusterLastQueryExecutor.java:102-105 | The result list starts as exactly n nulls. |
| ClusterLastQuery.GroupReplies | cluster/src/main/java/org/apache/iotdb/cluster/query/last/ClusterLastQueryExecutor.java:204-211 | Each node of a group answers in the group's order. |
| ClusterLastQuery.FirstAnswering | cluster/src/main/java/org/apache/iotdb/cluster/query/last/ClusterLastQueryExecutor.java:204-214 | Locates the first node that does not stay silent (no client or a null buffer). |
| ClusterLastQuery.RemoteFirstAnswerDecides | cluster/src/main/java/org/apache/iotdb/cluster/query/last/ClusterLastQueryExecutor.java:204-235 | Nodes are tried in order and the first non-silent one decides. Its buffer yields its first n pairs in order (a buffer with too few pairs is assumed to underflow, see Left out); an RPC error or interrupt yields the empty list. All silent gives the empty list. Later nodes are never asked. |
| ClusterLastQuery.RemoteLastLength | cluster/src/main/java/org/apache/iotdb/cluster/query/last/ClusterLastQueryExecutor.java:216-228 | A remote group yields exactly n pairs or none. |
| ClusterLastQuery.CalculateSeriesLastRemotely | cluster/src/main/java/org/apache/iotdb/cluster/query/last/ClusterLastQueryExecutor.java:202-236 | The node loop with continue and return computes the specified remote result. |
| ClusterLastQuery.LocalLast | cluster/src/main/java/org/apache/iotdb/cluster/query/last/ClusterLastQueryExecutor.java:188-200 | A failed consistency sync of the local group becomes a query failure; otherwise the result is that of the local lookup. |
| ClusterLastQuery.GroupLast | cluster/src/main/java/org/apache/iotdb/cluster/query/last/ClusterLastQueryExecutor.java:178-186 | A group holding this node is answered locally; any other group is answered remotely. |
| ClusterLastQuery.CalculateSeriesLast | cluster/src/main/java/org/apache/iotdb/cluster/query/last/ClusterLastQueryExecutor.java:178-186 | The method computes the group result of the specification. |
| ClusterLastQuery.GroupOutcomes | cluster/src/main/java/org/apache/iotdb/cluster/query/last/ClusterLastQueryExecutor.java:112-123 | One task per global partition group, in the groups' order. |
| ClusterLastQuery.InsertAt | cluster/src/main/java/org/apache/iotdb/cluster/query/last/ClusterLastQueryExecutor.java:133 | `results.add(i, x)` grows the list by one, puts x at i and shifts the old entries from i on right by one. |
| ClusterLastQuery.MergeStep | cluster/src/main/java/org/apache/iotdb/cluster/query/last/ClusterLastQueryExecutor.java:129-134 | An index past the end of results throws. An empty slot takes the candidate by insertion. A null candidate never beats a pair. A pair is inserted only when strictly newer, so ties keep the current value. |
| ClusterLastQuery.CalculateLastPairsForSeries | cluster/src/main/java/org/apache/iotdb/cluster/query/last/ClusterLastQueryExecutor.java:89-144 | The executor computes the specified outcome: the meta-group consistency failure first, then n nulls, one task per group (none after that failure), then the merge as written in group order. |
| ClusterLastQuery.MetaSyncFailureFirst | cluster/src/main/java/org/apache/iotdb/cluster/query/last/ClusterLastQueryExecutor.java:97-101 | A consistency-check failure is reported as an IOException before any group is queried. |
| ClusterLastQuery.InterruptedWaitSkipsGroup | cluster/src/main/java/org/apache/iotdb/cluster/query/last/ClusterLastQueryExecutor.java:136-138 | An interrupted wait is skipped and draining continues with the next group. |
| ClusterLastQuery.EmptyGroupContributesNothing | cluster/src/main/java/org/apache/iotdb/cluster/query/last/ClusterLastQueryExecutor.java:127-128 | A group answering with the empty list leaves results unchanged. |
| ClusterLastQuery.LastSync | cluster/src/main/java/org/apache/iotdb/cluster/query/last/ClusterLastQueryExecutor.java:261-294 | A client that was obtained is returned on every path, last; it is closed first exactly when the RPC fails; the reply is the RPC's buffer or fault. |
| ClusterLastQuery.IntendedLength | cluster/src/main/java/org/apache/iotdb/cluster/query/last/ClusterLastQueryExecutor.java:102-105 | The intended merge keeps exactly n slots. |
| ClusterLastQuery.IntendedSlot | cluster/src/main/java/org/apache/iotdb/cluster/query/last/ClusterLastQueryExecutor.java:129-133 | Under the intended replace, slot i is null iff no group has a pair there. Otherwise it is the newest pair any group has there, taken from the first group that reaches that time. |
| ClusterLastQuery.IntendedOrderIndependent | cluster/src/main/java/org/apache/iotdb/cluster/query/last/ClusterLastQueryExecutor.java:124-135 | The intended merge does not depend on the order of groups: emptiness and timestamp per slot are the same for every order, and so is the value when groups agree on ties. |
| ClusterLastQuery.IntendedSingleGroup | cluster/src/main/java/org/apache/iotdb/cluster/query/last/ClusterLastQueryExecutor.java:128-134 | With one group of n pairs, the intended merge is that group's list. |
| ClusterLastQuery.IntendedNewestWins | cluster/src/main/java/org/apache/iotdb/cluster/query/last/ClusterLastQueryExecutor.java:131-133 | Pairs (5, x) and (7, y) for one series give (7, y) in either order. |
| ClusterLastQuery.SingleGroupAsWrittenVsIntended | cluster/src/main/java/org/apache/iotdb/cluster/query/last/ClusterLastQueryExecutor.java:128-134 | As written, one group turns n nulls into its n pairs followed by all n nulls: n entries too many. |
| ClusterLastQuery.TwoGroupsAsWrittenDiffers | cluster/src/main/java/org/apache/iotdb/cluster/query/last/ClusterLastQueryExecutor.java:124-135 | A concrete two-group, two-series input where the list as written has five entries and differs from the intended result in slot 1. |
| NodeInfo.RegisterMessage | confignode/src/main/java/org/apache/iotdb/confignode/persistence/NodeInfo.java:145-153 | No message iff the counter is above minimumDataNode; the "could provide data service" message iff equal; below, "register k more" with k = minimumDataNode - next. |
| NodeInfo.RegisterMessageCountsMissing | confignode/src/main/java/org/apache/iotdb/confignode/persistence/NodeInfo.java:146-150 | The number written in the "register k more" message reads back as minimumDataNode - next. |
| NodeInfo.SortedKeysSpec | confignode/src/main/java/org/apache/iotdb/confignode/persistence/NodeInfo.java:91-92 | The skip list's iteration order lists every key exactly once, in ascending order. |
| NodeInfo.NodeInfo.constructor | confignode/src/main/java/org/apache/iotdb/confignode/persistence/NodeInfo.java:79-105 | A new registry has counter 0, no data nodes, no draining nodes and the configured config nodes; minimumDataNode is the larger replication factor. |
| NodeInfo.LocationArgument.Value | confignode/src/main/java/org/apache/iotdb/confignode/persistence/NodeInfo.java:114-115 | The location the argument currently denotes: its id and its endpoints. |
| NodeInfo.NodeInfo.IsOnlineDataNode | confignode/src/main/java/org/apache/iotdb/confignode/persistence/NodeInfo.java:108-125 | True iff some entry's location equals the argument carrying that entry's key. A match leaves the first matching key in the argument. No match leaves the last key. An empty map leaves the argument unchanged. |
| NodeInfo.NodeInfo.OnlineIffEndpointsRegistered | confignode/src/main/java/org/apache/iotdb/confignode/persistence/NodeInfo.java:108-125 | With every entry stored under its own id, the check holds iff some registered data node has the argument's endpoints. |
| NodeInfo.NodeInfo.RegisterDataNode | confignode/src/main/java/org/apache/iotdb/confignode/persistence/NodeInfo.java:133-163 | The info is stored under its location's id, overwriting any earlier entry. The counter grows by exactly one iff it was below that id. The status is SUCCESS with the specified message. Nothing else changes, and entries stay keyed by their own ids. |
| NodeInfo.RegisterCount | confignode/src/main/java/org/apache/iotdb/confignode/persistence/NodeInfo.java:138 | Registering a new id adds one data node; re-registering an id keeps the count. |
| NodeInfo.NodeInfo.GetDataNodeInfo | confignode/src/main/java/org/apache/iotdb/confignode/persistence/NodeInfo.java:172-190 | Id -1 returns every entry; any other id returns a single entry under that id, null iff the id is absent. |
| NodeInfo.NodeInfo.Lookup | confignode/src/main/java/org/apache/iotdb/confignode/persistence/NodeInfo.java:217 | `onlineDataNodes.get(id)`: the stored info, or null iff absent (the same lookup as `getDataNodeInfo` at line 183). |
| NodeInfo.NodeInfo.GetOnlineDataNodes | confignode/src/main/java/org/apache/iotdb/confignode/persistence/NodeInfo.java:210-223 | Id -1 gives every value in key order; any other id gives the singleton lookup. |
| NodeInfo.NodeInfo.OnlineInKeyOrderIsComplete | confignode/src/main/java/org/apache/iotdb/confignode/persistence/NodeInfo.java:214-215 | The list for -1 holds every data node once, none null, strictly ordered by id. |
| NodeInfo.NodeInfo.GetOnlineDataNodeCount | confignode/src/main/java/org/apache/iotdb/confignode/persistence/NodeInfo.java:192-201 | The count is the number of map entries. |
| NodeInfo.NodeInfo.GenerateNextDataNodeId | confignode/src/main/java/org/apache/iotdb/confignode/persistence/NodeInfo.java:274-276 | Returns the counter and leaves it one larger (wrapping at 2^31), changing nothing else. |
| NodeInfo.NodeInfo.UpdateConfigNodeList | confignode/src/main/java/org/apache/iotdb/confignode/persistence/NodeInfo.java:231-251 | The location is added to the config node set, and stays added when storing fails. The status is SUCCESS, or APPLY_CONFIGNODE_FAILED with its message when storing fails. |
| NodeInfo.NodeInfo.Clear | confignode/src/main/java/org/apache/iotdb/confignode/persistence/NodeInfo.java:409-414 | The counter is 0 and the online, draining and config node collections are empty. |
| JavaLang.Wrap32 | confignode/src/main/java/org/apache/iotdb/confignode/persistence/NodeInfo.java:275 | The Java int that a wider result becomes: congruent modulo 2^32 and unchanged when in range. |
| PlanNodeVisualizer.PrintIndent | server/src/main/java/org/apache/iotdb/db/mpp/sql/planner/plan/node/PlanNodeVisualizer.java:232-238 | printIndent(n) is n spaces. |
| PlanNodeVisualizer.LongestLineIsLongest | server/src/main/java/org/apache/iotdb/db/mpp/sql/planner/plan/node/PlanNodeVisualizer.java:56-60 | The longest box-string line is at least as long as every line and is one of them; it is 0 for none. |
| PlanNodeVisualizer.GetSelfWidth | server/src/main/java/org/apache/iotdb/db/mpp/sql/planner/plan/node/PlanNodeVisualizer.java:55-62 | The self width is the longest line's length plus 2. |
| PlanNodeVisualizer.BuildBoxTree | server/src/main/java/org/apache/iotdb/db/mpp/sql/planner/plan/node/PlanNodeVisualizer.java:101-107 | Builds one box per plan node with the same tree shape and self widths. |
| PlanNodeVisualizer.CalculateBoxMaxWidth | server/src/main/java/org/apache/iotdb/db/mpp/sql/planner/plan/node/PlanNodeVisualizer.java:109-119 | The recursive pass computes the specified layout: children first, then maxWidth, leftIndent and lastCharPosition. |
| PlanNodeVisualizer.LayoutOfTreeIsLaidOut | server/src/main/java/org/apache/iotdb/db/mpp/sql/planner/plan/node/PlanNodeVisualizer.java:109-119 | Every box tree laid out has maxWidth = max(width, sum of children's maxWidth + (k-1 when k>1)), leftIndent = (maxWidth - width)/2 and lastCharPosition = leftIndent + width - 1, at every depth. |
| PlanNodeVisualizer.Centred | server/src/main/java/org/apache/iotdb/db/mpp/sql/planner/plan/node/PlanNodeVisualizer.java:116-118 | A laid-out box is centred: the space on the right equals the left indent, or is one more; both borders lie inside maxWidth. |
| PlanNodeVisualizer.GetChildMidPosition | server/src/main/java/org/apache/iotdb/db/mpp/sql/planner/plan/node/PlanNodeVisualizer.java:222-230 | The loop computes the sum over earlier children of maxWidth + 1, plus half the child's own maxWidth. |
| PlanNodeVisualizer.MidPositionsIncrease | server/src/main/java/org/apache/iotdb/db/mpp/sql/planner/plan/node/PlanNodeVisualizer.java:222-230 | Child mid-positions are strictly increasing. |
| PlanNodeVisualizer.MidPositionInsideRow | server/src/main/java/org/apache/iotdb/db/mpp/sql/planner/plan/node/PlanNodeVisualizer.java:222-230 | With every child at least one column wide, each mid-position lies inside the children's row. |
| PlanNodeVisualizer.PrintBoxEdge | server/src/main/java/org/apache/iotdb/db/mpp/sql/planner/plan/node/PlanNodeVisualizer.java:240-265 | The loop builds the specified edge line. |
| PlanNodeVisualizer.EdgeShape | server/src/main/java/org/apache/iotdb/db/mpp/sql/planner/plan/node/PlanNodeVisualizer.java:240-265 | An edge line has length maxWidth, the corner at leftIndent and at lastCharPosition, the rule strictly between and spaces outside. |
| PlanNodeVisualizer.PrintValueLine | server/src/main/java/org/apache/iotdb/db/mpp/sql/planner/plan/node/PlanNodeVisualizer.java:124-146 | The loop builds the specified value line. |
| PlanNodeVisualizer.ValueLineShape | server/src/main/java/org/apache/iotdb/db/mpp/sql/planner/plan/node/PlanNodeVisualizer.java:124-146 | A value line has length maxWidth, a bar at both borders and text character k at leftIndent+1+k; the rest is spaces. |
| PlanNodeVisualizer.PrintSingleConnector | server/src/main/java/org/apache/iotdb/db/mpp/sql/planner/plan/node/PlanNodeVisualizer.java:157-166 | The loop builds the single-child connector line. |
| PlanNodeVisualizer.SingleConnectorShape | server/src/main/java/org/apache/iotdb/db/mpp/sql/planner/plan/node/PlanNodeVisualizer.java:155-167 | A single child hangs from two identical lines of length maxWidth with a bar only at maxWidth/2 - 1. |
| PlanNodeVisualizer.BuildSymbolMap | server/src/main/java/org/apache/iotdb/db/mpp/sql/planner/plan/node/PlanNodeVisualizer.java:169-173 | The loop builds the specified symbol map. |
| PlanNodeVisualizer.SymbolMapContents | server/src/main/java/org/apache/iotdb/db/mpp/sql/planner/plan/node/PlanNodeVisualizer.java:169-173 | The map holds each child's corner or tee at its mid, and the upward tee at shangPosition unless a mid falls there; it holds nothing else. |
| PlanNodeVisualizer.PrintConnectorLine1 | server/src/main/java/org/apache/iotdb/db/mpp/sql/planner/plan/node/PlanNodeVisualizer.java:174-187 | The loop builds the first connector line. |
| PlanNodeVisualizer.PrintConnectorLine2 | server/src/main/java/org/apache/iotdb/db/mpp/sql/planner/plan/node/PlanNodeVisualizer.java:189-205 | The loop builds the second connector line. |
| PlanNodeVisualizer.ConnectorShape | server/src/main/java/org/apache/iotdb/db/mpp/sql/planner/plan/node/PlanNodeVisualizer.java:168-206 | Under several children, both lines have length maxWidth. Line 1 has the left corner, tees and right corner at the child mids, the upward tee at shangPosition when no mid is there, and rule elsewhere between the outer mids. Line 2 has a bar at each mid except one on shangPosition. Both are blank outside the outer mids. |
| PlanNodeVisualizer.LineOr | server/src/main/java/org/apache/iotdb/db/mpp/sql/planner/plan/node/PlanNodeVisualizer.java:64-69 | getLine returns the stored line, or maxWidth spaces past the end. |
| PlanNodeVisualizer.GetLine | server/src/main/java/org/apache/iotdb/db/mpp/sql/planner/plan/node/PlanNodeVisualizer.java:64-69 | The method returns the specified line. |
| PlanNodeVisualizer.GetChildrenLineCount | server/src/main/java/org/apache/iotdb/db/mpp/sql/planner/plan/node/PlanNodeVisualizer.java:71-77 | The loop computes the most lines any child has: no child has more lines, and with at least one child some child has exactly that many. |
| PlanNodeVisualizer.MaxLineCountIsMax | server/src/main/java/org/apache/iotdb/db/mpp/sql/planner/plan/node/PlanNodeVisualizer.java:71-77 | The specified line count is an upper bound on every child's line count, attained by some child when there is one. |
| PlanNodeVisualizer.PrintChildRow | server/src/main/java/org/apache/iotdb/db/mpp/sql/planner/plan/node/PlanNodeVisualizer.java:213-218 | Row i is each child's getLine(i) followed by one space, in child order. |
| PlanNodeVisualizer.RowLength | server/src/main/java/org/apache/iotdb/db/mpp/sql/planner/plan/node/PlanNodeVisualizer.java:213-218 | A child row's length is the sum, over the children, of their line's length plus one. |
| PlanNodeVisualizer.PrintBoxHead | server/src/main/java/org/apache/iotdb/db/mpp/sql/planner/plan/node/PlanNodeVisualizer.java:122-147 | The top edge, one value line per box-string line, then the bottom edge. |
| PlanNodeVisualizer.PrintConnectors | server/src/main/java/org/apache/iotdb/db/mpp/sql/planner/plan/node/PlanNodeVisualizer.java:155-206 | The two connector lines for one child or for several. |
| PlanNodeVisualizer.PrintChildRows | server/src/main/java/org/apache/iotdb/db/mpp/sql/planner/plan/node/PlanNodeVisualizer.java:212-219 | One row per line of the tallest child. |
| PlanNodeVisualizer.BuildBoxLines | server/src/main/java/org/apache/iotdb/db/mpp/sql/planner/plan/node/PlanNodeVisualizer.java:121-220 | The recursive method produces the box's specified lines: head, connectors, then the child rows built from the children's own lines. |
| PlanNodeVisualizer.BuildChildrenLines | server/src/main/java/org/apache/iotdb/db/mpp/sql/planner/plan/node/PlanNodeVisualizer.java:208-210 | Each child's lines, built recursively, in order. |
| PlanNodeVisualizer.GetBoxLines | server/src/main/java/org/apache/iotdb/db/mpp/sql/planner/plan/node/PlanNodeVisualizer.java:88-93 | Build the tree, lay it out, draw it. |
| PlanNodeVisualizer.LeafLines | server/src/main/java/org/apache/iotdb/db/mpp/sql/planner/plan/node/PlanNodeVisualizer.java:121-152 | A leaf's lines are exactly its top edge, one line per box-string line, and its bottom edge, each maxWidth wide. |
| PlanNodeVisualizer.LineCount | server/src/main/java/org/apache/iotdb/db/mpp/sql/planner/plan/node/PlanNodeVisualizer.java:121-219 | A box with children has its head, two connector lines, and one row per line of its tallest child. |
| PlanNodeVisualizer.HeadWidth | server/src/main/java/org/apache/iotdb/db/mpp/sql/planner/plan/node/PlanNodeVisualizer.java:121-206 | A box's head lines and connector lines are maxWidth wide. |
| PlanNodeVisualizer.ChildRowsOneTooWide | server/src/main/java/org/apache/iotdb/db/mpp/sql/planner/plan/node/PlanNodeVisualizer.java:208-219 | As written, when the leaf children fill the box, every child row is maxWidth + 1 wide while the head lines are maxWidth. |
| PlanNodeVisualizer.NarrowOverWideMisdrawn | server/src/main/java/org/apache/iotdb/db/mpp/sql/planner/plan/node/PlanNodeVisualizer.java:208-219 | A two-character node over a four-character leaf is drawn with 6-column head lines and a 7-column child row. |
| PlanNodeVisualizer.PadTo | server/src/main/java/org/apache/iotdb/db/mpp/sql/planner/plan/node/PlanNodeVisualizer.java:64-69 | Right-pads a line with spaces to a width, keeping its prefix. |
| PlanNodeVisualizer.PaddedLinesUniform | server/src/main/java/org/apache/iotdb/db/mpp/sql/planner/plan/node/PlanNodeVisualizer.java:208-219 | With separators only between children and rows padded, every line of a laid-out box is maxWidth wide, at every depth. |
| PlanNodeVisualizer.PaddingKeepsLeaves | server/src/main/java/org/apache/iotdb/db/mpp/sql/planner/plan/node/PlanNodeVisualizer.java:121-152 | Leaves are drawn the same with or without the padding. |
| AggregationDescriptors.Ordinal | server/src/main/java/org/apache/iotdb/db/mpp/plan/planner/plan/parameter/AggregationDescriptor.java:126-136 | ordinal() indexes values() at the type itself. |
| AggregationDescriptors.OrdinalInjective | server/src/main/java/org/apache/iotdb/db/mpp/plan/planner/plan/parameter/AggregationDescriptor.java:126-136 | Distinct types have distinct ordinals. |
| AggregationDescriptors.JoinParametersLength | server/src/main/java/org/apache/iotdb/db/mpp/plan/planner/plan/parameter/AggregationDescriptor.java:97-104 | The parameter string holds every input's text and two characters per separator. |
| AggregationDescriptors.JoinAppend | server/src/main/java/org/apache/iotdb/db/mpp/plan/planner/plan/parameter/AggregationDescriptor.java:100-102 | One more input appends ", " and its text. |
| AggregationDescriptors.JoinParametersSmall | server/src/main/java/org/apache/iotdb/db/mpp/plan/planner/plan/parameter/AggregationDescriptor.java:98-99 | With no inputs the parameter string is empty; with one input it is that input's string. |
| AggregationDescriptors.ColumnNamesByStep | server/src/main/java/org/apache/iotdb/db/mpp/plan/planner/plan/parameter/AggregationDescriptor.java:56-84 | A non-partial step outputs one column, for the type itself. A partial step outputs COUNT and SUM for AVG, FIRST_VALUE and MIN_TIME for FIRST_VALUE, LAST_VALUE and MAX_TIME for LAST_VALUE, and the type itself otherwise. |
| AggregationDescriptors.PartialAvgColumns | server/src/main/java/org/apache/iotdb/db/mpp/plan/planner/plan/parameter/AggregationDescriptor.java:60-83 | A partial AVG outputs "count(p)" and "sum(p)". |
| AggregationDescriptors.PartialFirstValueColumns | server/src/main/java/org/apache/iotdb/db/mpp/plan/planner/plan/parameter/AggregationDescriptor.java:64-83 | A partial FIRST_VALUE outputs "first_value(p)" and "min_time(p)". |
| AggregationDescriptors.PartialLastValueColumns | server/src/main/java/org/apache/iotdb/db/mpp/plan/planner/plan/parameter/AggregationDescriptor.java:68-83 | A partial LAST_VALUE outputs "last_value(p)" and "max_time(p)". |
| AggregationDescriptors.ParseColumnNameInverts | server/src/main/java/org/apache/iotdb/db/mpp/plan/planner/plan/parameter/AggregationDescriptor.java:80-81 | Each column name splits back, at its first parenthesis, into the lower-case type name and the exact parameter string. |
| AggregationDescriptors.LowerNamesDistinct | server/src/main/java/org/apache/iotdb/db/mpp/plan/planner/plan/parameter/AggregationDescriptor.java:81 | Distinct types have distinct lower-case names. |
| AggregationDescriptors.ColumnNamesDistinct | server/src/main/java/org/apache/iotdb/db/mpp/plan/planner/plan/parameter/AggregationDescriptor.java:56-84 | The output column names of one descriptor are pairwise distinct. |
| JavaLang.ToLowerAscii | server/src/main/java/org/apache/iotdb/db/mpp/plan/planner/plan/parameter/AggregationDescriptor.java:81 | Lowering keeps the length and maps exactly the letters A-Z to a-z. |
| AggregationDescriptors.AggregationDescriptor.constructor | server/src/main/java/org/apache/iotdb/db/mpp/plan/planner/plan/parameter/AggregationDescriptor.java:49-54 | The three fields as given, and no cached parameter string. |
| AggregationDescriptors.AggregationDescriptor.GetParametersString | server/src/main/java/org/apache/iotdb/db/mpp/plan/planner/plan/parameter/AggregationDescriptor.java:95-107 | The inputs' strings joined by ", " are computed on the first call and stored. Once stored, the same string is returned and the step is unchanged. |
| AggregationDescriptors.AggregationDescriptor.GetOutputColumnNames | server/src/main/java/org/apache/iotdb/db/mpp/plan/planner/plan/parameter/AggregationDescriptor.java:56-84 | The output names, in output order, for this type, step and parameter string; afterwards the parameter string is cached. |
| AggregationDescriptors.AggregationDescriptor.SetStep | server/src/main/java/org/apache/iotdb/db/mpp/plan/planner/plan/parameter/AggregationDescriptor.java:121-123 | Sets the step and keeps the cache. |
| AggregationDescriptors.AggregationDescriptor.Serialize | server/src/main/java/org/apache/iotdb/db/mpp/plan/planner/plan/parameter/AggregationDescriptor.java:125-132 | Appends the type ordinal, the step, the input count and the inputs, in that order, and nothing else. |
| AggregationDescriptors.DecodeEncode | server/src/main/java/org/apache/iotdb/db/mpp/plan/planner/plan/parameter/AggregationDescriptor.java:125-145 | deserialize reads back exactly the type, step and inputs that serialize wrote, and nothing after them. |
| AggregationDescriptors.DecodeTruncated | server/src/main/java/org/apache/iotdb/db/mpp/plan/planner/plan/parameter/AggregationDescriptor.java:134-143 | Every strict prefix of a serialised descriptor fails with a buffer underflow. |
| AggregationDescriptors.DecodeRejects | server/src/main/java/org/apache/iotdb/db/mpp/plan/planner/plan/parameter/AggregationDescriptor.java:135-139 | An ordinal outside values() throws ArrayIndexOutOfBounds before anything else is read. A negative count throws IllegalArgument. |
| AggregationDescriptors.Deserialize | server/src/main/java/org/apache/iotdb/db/mpp/plan/planner/plan/parameter/AggregationDescriptor.java:134-145 | The method reads the specified fields or throws the specified exception. |
| AggregationDescriptors.HashConsistentWithEquals | server/src/main/java/org/apache/iotdb/db/mpp/plan/planner/plan/parameter/AggregationDescriptor.java:147-164 | Equal descriptors have equal hash codes, whatever the element hashes. |
| AggregationDescriptors.AggregationDescriptor.Equals | server/src/main/java/org/apache/iotdb/db/mpp/plan/planner/plan/parameter/AggregationDescriptor.java:147-159 | A descriptor equals itself, and equal descriptors name the same output columns. |
| AggregationDescriptors.AggregationDescriptor.HashCode | server/src/main/java/org/apache/iotdb/db/mpp/plan/planner/plan/parameter/AggregationDescriptor.java:161-164 | The hash is `Objects.hash` of type, step and input list in closed form: 31^3 + 31^2 typeHash + 31 stepHash + listHash, wrapped to an int. |
| AggregationDescriptors.SerializeRoundTrip | server/src/main/java/org/apache/iotdb/db/mpp/plan/planner/plan/parameter/AggregationDescriptor.java:125-145 | A descriptor serialised and read back equals the original. |
| Buffers.ReadHead | server/src/main/java/org/apache/iotdb/db/mpp/plan/planner/plan/parameter/AggregationDescriptor.java:136-141 | A read succeeds exactly when the next token has the expected kind, and returns that token. |
| Buffers.ByteBuffer.Put | server/src/main/java/org/apache/iotdb/db/mpp/plan/planner/plan/parameter/AggregationDescriptor.java:126-131 | A write appends exactly one token. |
| Buffers.ByteBuffer.Read | server/src/main/java/org/apache/iotdb/db/mpp/plan/planner/plan/parameter/AggregationDescriptor.java:136-141 | A read returns the next token, advancing by one only on success. |
| Buffers.ExpressionTokens | server/src/main/java/org/apache/iotdb/db/mpp/plan/planner/plan/node/process/FilterNode.java:71-73 | One token per expression, in order. |
| Buffers.DecodeExpressionTokens | server/src/main/java/org/apache/iotdb/db/mpp/plan/planner/plan/node/process/FilterNode.java:82-84 | Reading a run of serialised expressions gives them back in order and leaves what follows. |
| Buffers.DecodeExpressionsTruncated | server/src/main/java/org/apache/iotdb/db/mpp/plan/planner/plan/parameter/AggregationDescriptor.java:140-143 | A run of expressions cut short fails with a buffer underflow. |
| ResultColumns.AliasCheckSpec | server/src/main/java/org/apache/iotdb/db/query/expression/ResultColumn.java:108-111 | The alias check fails exactly when it is requested and the column expands to more than one expression; otherwise the expansion passes through (`removeWildcards` repeats the check at lines 130-133). |
| ResultColumns.AliasErrorNamesAlias | server/src/main/java/org/apache/iotdb/db/query/expression/ResultColumn.java:109-110 | The message quotes the alias, or "null" when there is none. |
| ResultColumns.ResultColumn.constructor | server/src/main/java/org/apache/iotdb/db/query/expression/ResultColumn.java:80-88 | The expression and alias as given, with no data type and no cached paths. |
| ResultColumns.ResultColumn.Name | server/src/main/java/org/apache/iotdb/db/query/expression/ResultColumn.java:152-162 | The result column name is the alias when there is one, otherwise the expression string. |
| ResultColumns.ResultColumn.HashCode | server/src/main/java/org/apache/iotdb/db/query/expression/ResultColumn.java:181-184 | The hash is the hash of the result column name. |
| ResultColumns.EqualsIsEquivalence | server/src/main/java/org/apache/iotdb/db/query/expression/ResultColumn.java:181-196 | equals is reflexive, symmetric and transitive, and equal columns hash alike. |
| ResultColumns.ResultColumn.HasAlias | server/src/main/java/org/apache/iotdb/db/query/expression/ResultColumn.java:152-154 | A column has an alias exactly when one was given; then the alias is its name and decides its hash, otherwise the expression string is its name. |
| ResultColumns.ResultColumn.Equals | server/src/main/java/org/apache/iotdb/db/query/expression/ResultColumn.java:186-196 | A column equals itself, and equal columns have equal hash codes. |
| ResultColumns.AliasedEquality | server/src/main/java/org/apache/iotdb/db/query/expression/ResultColumn.java:187-196 | An aliased column equals exactly the columns whose name is its alias. |
| ResultColumns.ResultColumn.SetDataType | server/src/main/java/org/apache/iotdb/db/query/expression/ResultColumn.java:168-170 | Sets the data type and keeps the path cache. |
| ResultColumns.ResultColumn.CollectPaths | server/src/main/java/org/apache/iotdb/db/query/expression/ResultColumn.java:139-146 | The expression's paths without repetition, computed once and then returned as stored. |
| ResultColumns.ResultColumn.AppendColumns | server/src/main/java/org/apache/iotdb/db/query/expression/ResultColumn.java:112-114 | Appends one new column per expression, in order, each with this alias, and leaves the earlier entries untouched (the same loop ends `removeWildcards` at lines 134-136). |
| ResultColumns.ResultColumn.Concat | server/src/main/java/org/apache/iotdb/db/query/expression/ResultColumn.java:103-115 | An expansion that fails the alias check throws and appends nothing; otherwise every expanded expression is appended. |
| ResultColumns.ResultColumn.RemoveWildcards | server/src/main/java/org/apache/iotdb/db/query/expression/ResultColumn.java:125-137 | An exception from the wildcard remover, or a failed alias check, throws and appends nothing; otherwise every expanded expression is appended. |
| ResultColumns.ResultColumn.Serialize | server/src/main/java/org/apache/iotdb/db/query/expression/ResultColumn.java:198-202 | Writes the expression, alias and data type in that order. A column with no data type throws a NullPointer after the first two fields. |
| ResultColumns.DecodeEncode | server/src/main/java/org/apache/iotdb/db/query/expression/ResultColumn.java:198-202 | Reading back a serialised column, as the constructor at lines 90-94 does, gives the same three fields, with or without an alias. |
| ResultColumns.Deserialize | server/src/main/java/org/apache/iotdb/db/query/expression/ResultColumn.java:204-206 | The method reads the specified fields or throws the specified exception. |
| FilterNodes.FilterNode.WithChild | server/src/main/java/org/apache/iotdb/db/mpp/plan/planner/plan/node/process/FilterNode.java:36-45 | The fields as given, with the child. |
| FilterNodes.FilterNode.constructor | server/src/main/java/org/apache/iotdb/db/mpp/plan/planner/plan/node/process/FilterNode.java:47-55 | The fields as given, with no child. |
| FilterNodes.FilterNode.Clone | server/src/main/java/org/apache/iotdb/db/mpp/plan/planner/plan/node/process/FilterNode.java:62-65 | A new node with the same id, the same output array, predicate, keepNull and zone id, and no child. |
| FilterNodes.FilterNode.SerializeAttributes | server/src/main/java/org/apache/iotdb/db/mpp/plan/planner/plan/node/process/FilterNode.java:68-77 | Appends the FILTER tag, the count, the outputs in order, the predicate, keepNull and the zone id string. |
| FilterNodes.DecodeEncode | server/src/main/java/org/apache/iotdb/db/mpp/plan/planner/plan/node/process/FilterNode.java:68-90 | With the tag taken by the caller and a plan node id after the attributes, deserialize recovers the outputs in order, the predicate, keepNull, the zone and the id, and leaves the rest. |
| FilterNodes.TagIsNotRead | server/src/main/java/org/apache/iotdb/db/mpp/plan/planner/plan/node/process/FilterNode.java:68-80 | The first token written is the FILTER tag, and the model's typed read rejects a buffer that still starts with it (Java would reinterpret those bytes, see Left out). |
| FilterNodes.DecodeRejects | server/src/main/java/org/apache/iotdb/db/mpp/plan/planner/plan/node/process/FilterNode.java:81-87 | A negative count throws NegativeArraySize; a null zone id string throws a NullPointer. |
| FilterNodes.ReadOutputExpressions | server/src/main/java/org/apache/iotdb/db/mpp/plan/planner/plan/node/process/FilterNode.java:81-84 | Fills a new array by index with the expressions read in order, or fails as the specified decode does. |
| FilterNodes.Deserialize | server/src/main/java/org/apache/iotdb/db/mpp/plan/planner/plan/node/process/FilterNode.java:79-90 | The method reads the specified fields or throws the specified exception. |
| FilterNodes.EqualsClone | server/src/main/java/org/apache/iotdb/db/mpp/plan/planner/plan/node/process/FilterNode.java:97-109 | A node equals itself; a clone with the same predicate equals it once the transform-node check holds; without that check only the node itself is equal. |
| FilterNodes.FilterNode.Equals | server/src/main/java/org/apache/iotdb/db/mpp/plan/planner/plan/node/process/FilterNode.java:96-109 | A node equals itself; without the transform-node check only itself; equal nodes have the same predicate and, for the same transform-node hash, the same hash code. |
| FilterNodes.FilterNode.HashCode | server/src/main/java/org/apache/iotdb/db/mpp/plan/planner/plan/node/process/FilterNode.java:111-114 | The hash is `Objects.hash(superHash, predicate)` in closed form: 31^2 + 31 superHash + predicateHash, wrapped to an int. |
| LongLiterals.FromString | server/src/main/java/org/apache/iotdb/db/mpp/plan/statement/literal/LongLiteral.java:31-33 | The value Long.parseLong gives, or its NumberFormatException. |
| LongLiterals.FromStringOfToString | server/src/main/java/org/apache/iotdb/db/mpp/plan/statement/literal/LongLiteral.java:31-37 | A literal built from the decimal string of a long has that long as its value. |
| LongLiterals.FromStringRejects | server/src/main/java/org/apache/iotdb/db/mpp/plan/statement/literal/LongLiteral.java:31-33 | "", "-" and "+" are not long literals. |
| JavaLang.ParseLongOfToString | server/src/main/java/org/apache/iotdb/db/mpp/plan/statement/literal/LongLiteral.java:32 | parseLong inverts toString on every long. |
| LongLiterals.ConsistentTypes | server/src/main/java/org/apache/iotdb/db/mpp/plan/statement/literal/LongLiteral.java:49-52 | A long literal is consistent with exactly INT32 and INT64. |
| LongLiterals.EqualsSpec | server/src/main/java/org/apache/iotdb/db/mpp/plan/statement/literal/LongLiteral.java:54-69 | equals holds iff the values are equal; it is symmetric and transitive, and equal literals hash alike. |
| LongLiterals.LongLiteral.IsDataTypeConsistency | server/src/main/java/org/apache/iotdb/db/mpp/plan/statement/literal/LongLiteral.java:49-52 | A long constant is consistent with a data type exactly when it is INT32 or INT64. |
| LongLiterals.LongLiteral.Equals | server/src/main/java/org/apache/iotdb/db/mpp/plan/statement/literal/LongLiteral.java:54-64 | Two long literals are equal exactly when they are the same value, and then they hash alike. |
| LongLiterals.LongLiteral.HashCode | server/src/main/java/org/apache/iotdb/db/mpp/plan/statement/literal/LongLiteral.java:66-69 | The hash is `Objects.hash(value)` in closed form: 31 + Long.hashCode(value), wrapped to an int. |
| LongLiterals.Serialize | server/src/main/java/org/apache/iotdb/db/mpp/plan/statement/literal/LongLiteral.java:43-47 | Appends the LONG literal-type ordinal, then the value, and nothing else. |
| LongLiterals.DecodeEncode | server/src/main/java/org/apache/iotdb/db/mpp/plan/statement/literal/LongLiteral.java:44-47 | The two tokens written read back as the same literal and nothing more. |

## Left out

- Thread pools, `Future.get`, `SettableFuture` and interrupt flags are concurrency. Each task is modelled as run to completion, with results drained in list order. Whether a wait is interrupted is a parameter.
- The async/sync client choice of the last query and of dispatching is configuration. A node's reply, or a send's response, is one oracle both kinds share; `lastAsync` is not modelled separately.
- ConsensusImpl read/write, SchemaValidator, the Thrift clients and IClientManager borrowing are foreign services. They are oracles.
- The 1 MiB buffer of `serializeRequest` and its overflow: the request bytes are an opaque field of the instance.
- SerializeUtils pair and filter (de)serialisation are not part of this model. A reply buffer is the list of pairs it holds.
- ClusterLastQuery.RemoteLast: a reply buffer holding fewer than n pairs is assumed to make `deserializeTVPair` throw a buffer underflow, which fails the whole query. That function is not part of this model, so this outcome is an assumption; if it returned null on an exhausted buffer, the short slots would be null and the query would go on.
- `calculateLastPairForSeriesLocally` lives in the superclass, which is not part of this model. It is an oracle.
- `lastSync`: a null client from the getter would throw a NullPointerException at `syncDataClient.getNode()`. It is modelled as a client that cannot be had, which makes that group contribute nothing. In Java the exception is not one of those `calculateSeriesLastRemotely` catches, so the group's future fails and the whole query fails with a QueryProcessException; the model does not capture that failure.
- NodeInfo snapshots, `storeConfigNode` file I/O, Thrift protocols and the read/write locks are I/O and concurrency. Only the outcome of `storeConfigNode` is a parameter.
- `getOnlineConfigNodes` copies a HashSet in its own iteration order, which is not modelled.
- `printAsBox` only writes to standard output.
- Box objects are values. `box.lines` is returned by `BuildBoxLines` rather than appended to a shared list.
- Java int overflow of the visualizer's width sums is not modelled: widths are unbounded.
- `Expression` internals (concat, wildcard removal, collectPaths, codec), AggregationStep, PlanNodeId, the TransformNode base serialisation, and the ReadWriteIOUtils byte layouts are abstract. Each field is one token whose round trip holds by construction.
- TransformNode `equals` and `hashCode` are parameters of `FilterNodes.FilterNode.Equals` and `HashCode`.
- Enum and expression hash codes are parameters (enum hashes are identity hashes in Java).
- `equals` on distinct objects by reference: the model compares fields.
- FilterNodes.TagIsNotRead: the model's buffer holds typed tokens, and a read of the wrong kind throws. Java's buffer holds bytes: `readInt` after a misplaced FILTER tag would read the tag's two bytes and two more as one int and carry on with that length. The model does not capture that reinterpretation.
- `ZoneId.of` validation of the zone string is not modelled: any non-null string is accepted.
- JavaLang.ToLowerAscii: `String.toLowerCase()` in `getOutputColumnNames` follows the JVM's default locale. The model assumes a locale that lowers A-Z to a-z. Under a Turkish or Azerbaijani locale 'I' lowers to a dotless 'ı', so the names of FIRST_VALUE, MIN_TIME, MAX_TIME and MIN_VALUE would differ from the model's; the locale is not a parameter of this model.
- `Long.parseLong` accepts ASCII digits only here; non-ASCII Unicode digits are not modelled. Strings are sequences of characters, with no UTF-16 encoding.
- AggregationType values() order is assumed to be COUNT, AVG, SUM, FIRST_VALUE, LAST_VALUE, MAX_TIME, MIN_TIME, MAX_VALUE, MIN_VALUE, EXTREME; the enum source is not part of this model.
- The LiteralType order is assumed to be BOOLEAN, DOUBLE, LONG, so LONG has ordinal 2; the enum source is not part of this model.
- LongLiterals.Decode: only the LONG branch of `Literal.deserialize` is modelled; the dispatch on the other literal types is not part of this model.
- ResultColumns.ResultColumn.CollectPaths: a HashSet's iteration order is not modelled. The contract fixes the set of paths, without repeats; the body keeps first-occurrence order.
- A list of more than INT_MAX elements cannot be serialised with an int count, so the serialisers require at most INT_MAX elements.
- AggregationDescriptors.AggregationDescriptor.GetParametersString: the input expressions are an immutable sequence in the model. In Java the list belongs to the caller; if the caller changes it after the first call, the cached parameter string goes stale. The model does not capture that aliasing, so the cache always equals the join of the current inputs.
- AggregationDescriptors.SerializeRoundTrip is a property stated as a method (write, then read back). The source has no such method.
- UDTFValueDifference and TsBlockInputDataSet delegate to classes that are not part of this model.
- The topological READ dispatch in the TODO is not implemented in the source.

## Findings

| source | as written | input that shows it | evidently intended | confidence | as-written member | corrected member |
|---|---|---|---|---|---|---|
| cluster/src/main/java/org/apache/iotdb/cluster/query/last/ClusterLastQueryExecutor.java:133 | `results.add(i, newResult)` inserts at slot i, so the list grows and older entries shift right | two series; group A answers (1,"a"),(5,"b") and group B (2,"c"),(0,"d"): the list becomes (2,"c"),(1,"a"),(5,"b"),null,null | replace slot i (`results.set(i, newResult)`), so each slot keeps the newest pair: (2,"c"),(5,"b") | not executed | ClusterLastQuery.TwoGroupsAsWrittenDiffers | ClusterLastQuery.IntendedSlot |
| server/src/main/java/org/apache/iotdb/db/mpp/sql/planner/plan/node/PlanNodeVisualizer.java:212-219 | every child line is followed by a space, the last one included, and rows are not padded to the box's width | a node with text "ab" over a leaf with text "abcd": the head lines are 6 columns but the child row is 7 | join child lines with one space between them and pad each row to maxWidth, so every line of a box is maxWidth wide | not executed | PlanNodeVisualizer.NarrowOverWideMisdrawn | PlanNodeVisualizer.PaddedLinesUniform |
