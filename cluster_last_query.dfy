/**
 * `ClusterLastQueryExecutor`: the last (time, value) pair of each of n series is
 * asked of every global partition group, and the replies are merged slot by slot
 * by timestamp.
 *
 * The merge is modelled twice. `MergeAsWritten` and the executor follow the code,
 * whose `results.add(i, newResult)` inserts into the list rather than replacing
 * slot i. `IntendedLast` is the max-by-timestamp replacement the surrounding code
 * evidently means; the lemmas at the end relate the two.
 */
module ClusterLastQuery {
  import opened Wrappers
  import opened JavaLang
  import DispatchTypes

  /** `TimeValuePair`; the value is kept opaque as its string form. */
  datatype TimeValuePair = TimeValuePair(timestamp: Long, value: string)

  /** A slot of the result list: `null` or a pair. */
  type Slot = Option<TimeValuePair>

  datatype Node = Node(id: int)

  /** A `PartitionGroup`: the nodes of one data group, in the order they are tried. */
  datatype PartitionGroup = PartitionGroup(nodes: seq<Node>)

  /**
   * What asking one node gives, whatever client kind is used: no client or a null
   * buffer, a buffer holding serialised pairs, an RPC exception, or an interrupt.
   */
  datatype LastReply = NoAnswer | Answer(pairs: seq<Slot>) | Failed(fault: DispatchTypes.IoFault) | Interrupted

  /** Why a group task fails (its `ExecutionException` cause). */
  datatype TaskFailure = LocalSyncFailed | LocalLookupFailed | BufferUnderflow

  /** What `calculateLastPairsForSeries` throws. */
  datatype LastQueryError =
    | MetaSyncIOException                     // the consistency check, wrapped in `IOException`
    | QueryProcessException(cause: TaskFailure)
    | IndexOutOfBounds(index: nat)             // `results.get(i)` past the end

  /**
   * The cluster as seen from this node, as oracles: whether the meta group's
   * consistency check fails, this node, the global groups, whether a local data
   * group's consistency check fails, the local lookup (`None` when it throws), and
   * each node's reply.
   */
  datatype Cluster = Cluster(
    metaSyncFails: bool,
    thisNode: Node,
    globalGroups: seq<PartitionGroup>,
    localSyncFails: PartitionGroup -> bool,
    localLast: PartitionGroup -> Option<seq<Slot>>,
    reply: (PartitionGroup, Node) -> LastReply)

  /** A result with the thread's interrupt flag at the end of the call. */
  datatype LastQueryOutcome = LastQueryOutcome(result: Result<seq<Slot>, LastQueryError>, interruptFlag: bool)

  function Nulls(n: nat): (s: seq<Slot>)
    ensures |s| == n && forall i :: 0 <= i < n ==> s[i] == None
  {
    seq(n, _ => None)
  }

  // ---------------------------------------------------------------------------
  // One group: `calculateSeriesLast`

  function GroupReplies(c: Cluster, g: PartitionGroup): (rs: seq<LastReply>)
    ensures |rs| == |g.nodes|
    ensures forall k :: 0 <= k < |g.nodes| ==> rs[k] == c.reply(g, g.nodes[k])
  {
    seq(|g.nodes|, k requires 0 <= k < |g.nodes| => c.reply(g, g.nodes[k]))
  }

  /** `calculateSeriesLastRemotely` on the replies of the group's nodes, in order. */
  function RemoteLast(replies: seq<LastReply>, n: nat): Result<seq<Slot>, TaskFailure>
    decreases |replies|
  {
    if replies == [] then Ok([])
    else match replies[0]
      case NoAnswer => RemoteLast(replies[1..], n)
      case Answer(pairs) => if |pairs| < n then Err(BufferUnderflow) else Ok(pairs[..n])
      case Failed(_) => Ok([])
      case Interrupted => Ok([])
  }

  /** The index of the first node that gives anything but `NoAnswer`. */
  function FirstAnswering(replies: seq<LastReply>): (k: nat)
    ensures k <= |replies|
    ensures forall j :: 0 <= j < k ==> replies[j].NoAnswer?
    ensures k < |replies| ==> !replies[k].NoAnswer?
  {
    if replies == [] || !replies[0].NoAnswer? then 0 else 1 + FirstAnswering(replies[1..])
  }

  /**
   * Nodes are tried in order and the first one that does not stay silent decides:
   * its buffer yields the first n pairs in order (too few is taken to underflow), and an
   * error or interrupt yields the empty list. When all are silent the list is empty.
   * Later nodes are never asked.
   */
  lemma {:induction false} RemoteFirstAnswerDecides(replies: seq<LastReply>, n: nat, later: seq<LastReply>)
    ensures var k := FirstAnswering(replies);
      && (k == |replies| ==> RemoteLast(replies, n) == Ok([]))
      && (k < |replies| && replies[k].Answer? ==>
            RemoteLast(replies, n) ==
              if |replies[k].pairs| < n then Err(BufferUnderflow) else Ok(replies[k].pairs[..n]))
      && (k < |replies| && !replies[k].Answer? ==> RemoteLast(replies, n) == Ok([]))
      && (k < |replies| ==> RemoteLast(replies[..k + 1] + later, n) == RemoteLast(replies, n))
    decreases |replies|
  {
    if replies != [] && replies[0].NoAnswer? {
      RemoteFirstAnswerDecides(replies[1..], n, later);
      var k := FirstAnswering(replies);
      if k < |replies| {
        assert (replies[..k + 1] + later)[1..] == replies[1..][..k] + later;
      }
    } else if replies != [] {
      assert (replies[..1] + later)[0] == replies[0];
    }
  }

  /** A remote group yields exactly n pairs, or nothing. */
  lemma {:induction false} RemoteLastLength(replies: seq<LastReply>, n: nat)
    ensures RemoteLast(replies, n).Ok? ==> |RemoteLast(replies, n).value| in {0, n}
    decreases |replies|
  {
    if replies != [] && replies[0].NoAnswer? {
      RemoteLastLength(replies[1..], n);
    }
  }

  /** `calculateSeriesLastRemotely`: the node loop with `continue` and `return`. */
  method CalculateSeriesLastRemotely(c: Cluster, g: PartitionGroup, n: nat)
    returns (r: Result<seq<Slot>, TaskFailure>)
    ensures r == RemoteLast(GroupReplies(c, g), n)
  {
    ghost var replies := GroupReplies(c, g);
    var k := 0;
    while k < |g.nodes|
      invariant 0 <= k <= |g.nodes|
      invariant RemoteLast(replies[k..], n) == RemoteLast(replies, n)
    {
      var reply := c.reply(g, g.nodes[k]);
      assert replies[k..][0] == reply;
      if reply.NoAnswer? {
        assert replies[k..][1..] == replies[k + 1..];
        k := k + 1;
        continue;
      }
      if !reply.Answer? {
        return Ok([]);
      }
      var buffer := reply.pairs;
      var timeValuePairs: seq<Slot> := [];
      for i := 0 to n
        invariant i <= |buffer| && timeValuePairs == buffer[..i]
      {
        if i >= |buffer| {
          return Err(BufferUnderflow);
        }
        timeValuePairs := timeValuePairs + [buffer[i]];
      }
      var results: seq<Slot> := [];
      for i := 0 to n
        invariant results == timeValuePairs[..i]
      {
        results := results + [timeValuePairs[i]];
      }
      assert results == buffer[..n];
      return Ok(results);
    }
    return Ok([]);
  }

  /** `calculateSeriesLastLocally`: the group's consistency sync, then the local lookup. */
  function LocalLast(c: Cluster, g: PartitionGroup): (r: Result<seq<Slot>, TaskFailure>)
    ensures c.localSyncFails(g) ==> r == Err(LocalSyncFailed)
    ensures !c.localSyncFails(g) ==> (r.Ok? <==> c.localLast(g).Some?)
    ensures r.Ok? ==> r.value == c.localLast(g).value
  {
    if c.localSyncFails(g) then Err(LocalSyncFailed)
    else match c.localLast(g)
      case None => Err(LocalLookupFailed)
      case Some(pairs) => Ok(pairs)
  }

  /** `calculateSeriesLast`: a group holding this node is answered locally, any other remotely. */
  function GroupLast(c: Cluster, g: PartitionGroup, n: nat): (r: Result<seq<Slot>, TaskFailure>)
    ensures c.thisNode in g.nodes ==> r == LocalLast(c, g)
    ensures c.thisNode !in g.nodes ==> r == RemoteLast(GroupReplies(c, g), n)
  {
    if c.thisNode in g.nodes then LocalLast(c, g) else RemoteLast(GroupReplies(c, g), n)
  }

  method CalculateSeriesLast(c: Cluster, g: PartitionGroup, n: nat) returns (r: Result<seq<Slot>, TaskFailure>)
    ensures r == GroupLast(c, g, n)
  {
    if c.thisNode in g.nodes {
      r := LocalLast(c, g);
    } else {
      r := CalculateSeriesLastRemotely(c, g, n);
    }
  }

  /** The outcome of every group's task, in the order of the global groups. */
  function GroupOutcomes(c: Cluster, n: nat): (outs: seq<Result<seq<Slot>, TaskFailure>>)
    ensures |outs| == |c.globalGroups|
    ensures forall k :: 0 <= k < |outs| ==> outs[k] == GroupLast(c, c.globalGroups[k], n)
  {
    seq(|c.globalGroups|, k requires 0 <= k < |c.globalGroups| => GroupLast(c, c.globalGroups[k], n))
  }

  // ---------------------------------------------------------------------------
  // The merge as written

  /** The merge condition: an empty slot always takes the candidate; otherwise only a strictly newer pair. */
  predicate Takes(current: Slot, candidate: Slot)
  {
    current.None? || (candidate.Some? && candidate.value.timestamp > current.value.timestamp)
  }

  /** `results.add(i, x)`: the list grows by one and the entries from i on move right. */
  function InsertAt(results: seq<Slot>, i: nat, x: Slot): (r: seq<Slot>)
    requires i <= |results|
    ensures |r| == |results| + 1
    ensures r[i] == x
    ensures r[..i] == results[..i] && r[i + 1..] == results[i..]
  {
    results[..i] + [x] + results[i..]
  }

  /** One iteration of the inner merge loop, at index i. */
  function MergeStep(results: seq<Slot>, tvs: seq<Slot>, i: nat): (r: Result<seq<Slot>, LastQueryError>)
    requires i < |tvs|
    ensures r.Err? <==> i >= |results|
    ensures r.Err? ==> r.error == IndexOutOfBounds(i)
    ensures r.Ok? && results[i].None? ==> r.value == InsertAt(results, i, tvs[i])
    ensures r.Ok? && results[i].Some? && tvs[i].None? ==> r.value == results
    ensures r.Ok? && results[i].Some? && tvs[i].Some? ==>
      r.value == if tvs[i].value.timestamp > results[i].value.timestamp then InsertAt(results, i, tvs[i]) else results
  {
    if i >= |results| then Err(IndexOutOfBounds(i))
    else if Takes(results[i], tvs[i]) then Ok(InsertAt(results, i, tvs[i]))
    else Ok(results)
  }

  /** The inner merge loop from index i on, for one group's pairs `tvs`. */
  function MergeAsWritten(results: seq<Slot>, tvs: seq<Slot>, i: nat): Result<seq<Slot>, LastQueryError>
    requires i <= |tvs|
    decreases |tvs| - i
  {
    if i == |tvs| then Ok(results)
    else match MergeStep(results, tvs, i)
      case Err(e) => Err(e)
      case Ok(next) => MergeAsWritten(next, tvs, i + 1)
  }

  /** Draining the group futures from index k on: an interrupt skips that group, a failure stops. */
  function DrainAsWritten(results: seq<Slot>, outs: seq<Result<seq<Slot>, TaskFailure>>,
                          interrupted: nat -> bool, k: nat): LastQueryOutcome
    requires k <= |outs|
    decreases |outs| - k
  {
    if k == |outs| then LastQueryOutcome(Ok(results), false)
    else if interrupted(k) then
      LastQueryOutcome(DrainAsWritten(results, outs, interrupted, k + 1).result, true)
    else match outs[k]
      case Err(cause) => LastQueryOutcome(Err(QueryProcessException(cause)), false)
      case Ok(tvs) =>
        match MergeAsWritten(results, tvs, 0)
        case Err(e) => LastQueryOutcome(Err(e), false)
        case Ok(merged) => DrainAsWritten(merged, outs, interrupted, k + 1)
  }

  /** What `calculateLastPairsForSeries` returns or throws. */
  function LastPairs(c: Cluster, n: nat, interrupted: nat -> bool): LastQueryOutcome
  {
    if c.metaSyncFails then LastQueryOutcome(Err(MetaSyncIOException), false)
    else DrainAsWritten(Nulls(n), GroupOutcomes(c, n), interrupted, 0)
  }

  function WithFlag(o: LastQueryOutcome, flag: bool): LastQueryOutcome
  {
    LastQueryOutcome(o.result, o.interruptFlag || flag)
  }

  /**
   * `calculateLastPairsForSeries`: fill n nulls, submit one task per group, then
   * drain the futures in order, merging each group's pairs into `results`.
   */
  method CalculateLastPairsForSeries(c: Cluster, n: nat, interrupted: nat -> bool)
    returns (o: LastQueryOutcome, tasks: nat)
    ensures o == LastPairs(c, n, interrupted)
    ensures tasks == if c.metaSyncFails then 0 else |c.globalGroups|
  {
    if c.metaSyncFails {
      return LastQueryOutcome(Err(MetaSyncIOException), false), 0;
    }
    var results: seq<Slot> := [];
    for i := 0 to n
      invariant results == Nulls(i)
    {
      results := results + [None];
    }
    ghost var outs := GroupOutcomes(c, n);
    var groupFutures: seq<Result<seq<Slot>, TaskFailure>> := [];
    tasks := 0;
    for k := 0 to |c.globalGroups|
      invariant groupFutures == outs[..k] && tasks == k
    {
      var future := CalculateSeriesLast(c, c.globalGroups[k], n);
      groupFutures := groupFutures + [future];
      tasks := tasks + 1;
    }
    assert groupFutures == outs;
    var flag := false;
    var k := 0;
    while k < |groupFutures|
      invariant 0 <= k <= |groupFutures|
      invariant WithFlag(DrainAsWritten(results, outs, interrupted, k), flag) == LastPairs(c, n, interrupted)
    {
      if interrupted(k) {
        flag := true;
        k := k + 1;
        continue;
      }
      match groupFutures[k] {
        case Err(cause) =>
          return LastQueryOutcome(Err(QueryProcessException(cause)), flag), tasks;
        case Ok(timeValuePairs) =>
          ghost var before := results;
          var i := 0;
          while i < |timeValuePairs|
            invariant 0 <= i <= |timeValuePairs|
            invariant MergeAsWritten(results, timeValuePairs, i) == MergeAsWritten(before, timeValuePairs, 0)
          {
            if i >= |results| {
              return LastQueryOutcome(Err(IndexOutOfBounds(i)), flag), tasks;
            }
            var currentResult := results[i];
            var newResult := timeValuePairs[i];
            if currentResult == None
               || (newResult != None && newResult.value.timestamp > currentResult.value.timestamp) {
              results := results[..i] + [newResult] + results[i..];
            }
            i := i + 1;
          }
      }
      k := k + 1;
    }
    o := LastQueryOutcome(Ok(results), flag);
  }

  /** A consistency-check failure is reported before any group is queried. */
  lemma MetaSyncFailureFirst(c: Cluster, n: nat, interrupted: nat -> bool)
    requires c.metaSyncFails
    ensures LastPairs(c, n, interrupted) == LastQueryOutcome(Err(MetaSyncIOException), false)
  {
  }

  /** An interrupted wait restores the flag and draining goes on with the next group. */
  lemma InterruptedWaitSkipsGroup(results: seq<Slot>, outs: seq<Result<seq<Slot>, TaskFailure>>,
                                  interrupted: nat -> bool, k: nat)
    requires k < |outs| && interrupted(k)
    ensures DrainAsWritten(results, outs, interrupted, k)
            == WithFlag(DrainAsWritten(results, outs, interrupted, k + 1), true)
  {
  }

  /** A group that answers with the empty list leaves `results` as it is. */
  lemma EmptyGroupContributesNothing(results: seq<Slot>, outs: seq<Result<seq<Slot>, TaskFailure>>,
                                     interrupted: nat -> bool, k: nat)
    requires k < |outs| && !interrupted(k) && outs[k] == Ok([])
    ensures DrainAsWritten(results, outs, interrupted, k) == DrainAsWritten(results, outs, interrupted, k + 1)
  {
  }

  // ---------------------------------------------------------------------------
  // `lastSync`: the client discipline

  datatype SyncClientEvent = ClientClosed | ClientReturned

  /** The synchronous call to a node: no client (the getter throws), or the `last` RPC's outcome. */
  datatype SyncCall =
    | ClientUnavailable(fault: DispatchTypes.IoFault)
    | Called(response: Result<Option<seq<Slot>>, DispatchTypes.IoFault>)

  datatype SyncResult = SyncResult(reply: LastReply, events: seq<SyncClientEvent>)

  /**
   * `lastSync`: a client that was obtained is returned to its pool on every path,
   * and after an RPC error it is closed first so that the broken connection is
   * not reused. What the call gives is the reply the node loop sees.
   */
  function LastSync(call: SyncCall): (r: SyncResult)
    ensures call.ClientUnavailable? ==> r == SyncResult(Failed(call.fault), [])
    ensures call.Called? ==> |r.events| > 0 && r.events[|r.events| - 1] == ClientReturned
    ensures call.Called? ==> (ClientClosed in r.events <==> call.response.Err?)
    ensures call.Called? && call.response.Err? ==>
      r.events == [ClientClosed, ClientReturned] && r.reply == Failed(call.response.error)
    ensures call.Called? && call.response.Ok? ==>
      r.reply == (if call.response.value.None? then NoAnswer else Answer(call.response.value.value))
  {
    match call
    case ClientUnavailable(f) => SyncResult(Failed(f), [])
    case Called(Err(f)) => SyncResult(Failed(f), [ClientClosed, ClientReturned])
    case Called(Ok(None)) => SyncResult(NoAnswer, [ClientReturned])
    case Called(Ok(Some(pairs))) => SyncResult(Answer(pairs), [ClientReturned])
  }

  // ---------------------------------------------------------------------------
  // The intended merge: replace slot i by the newer pair

  /** Slot i of a group's list, `null` past its end. */
  function At(tvs: seq<Slot>, i: nat): Slot
  {
    if i < |tvs| then tvs[i] else None
  }

  /** The merge loop with `results.set(i, newResult)`: slot by slot, the length stays. */
  function ReplaceMerge(results: seq<Slot>, tvs: seq<Slot>): seq<Slot>
  {
    seq(|results|, i requires 0 <= i < |results| =>
      if i < |tvs| && Takes(results[i], tvs[i]) then tvs[i] else results[i])
  }

  /** The intended `calculateLastPairsForSeries` on the groups' lists, merged in order. */
  function IntendedLast(n: nat, groups: seq<seq<Slot>>): seq<Slot>
    decreases |groups|
  {
    if groups == [] then Nulls(n)
    else ReplaceMerge(IntendedLast(n, groups[..|groups| - 1]), groups[|groups| - 1])
  }

  /** No group has a pair for slot i. */
  ghost predicate NoneAt(groups: seq<seq<Slot>>, i: nat)
  {
    forall j :: 0 <= j < |groups| ==> At(groups[j], i).None?
  }

  /** No group has a pair for slot i newer than `p`. */
  ghost predicate NewestAt(groups: seq<seq<Slot>>, i: nat, p: TimeValuePair)
  {
    forall j :: 0 <= j < |groups| && At(groups[j], i).Some? ==> At(groups[j], i).value.timestamp <= p.timestamp
  }

  /** Group j has `p` at slot i and every earlier group has nothing there or something strictly older. */
  ghost predicate FirstToReach(groups: seq<seq<Slot>>, i: nat, j: nat, p: TimeValuePair)
  {
    && j < |groups| && At(groups[j], i) == Some(p)
    && forall j' :: 0 <= j' < j ==> At(groups[j'], i).None? || At(groups[j'], i).value.timestamp < p.timestamp
  }

  lemma {:induction false} IntendedLength(n: nat, groups: seq<seq<Slot>>)
    ensures |IntendedLast(n, groups)| == n
    decreases |groups|
  {
    if groups != [] {
      IntendedLength(n, groups[..|groups| - 1]);
    }
  }

  /**
   * Slot i of the intended merge is `null` iff no group has a pair there, and
   * otherwise it is the newest pair any group has there, taken from the first
   * group that has a pair that new: a tie keeps the earlier value and a `null`
   * never overwrites.
   */
  lemma {:induction false} IntendedSlot(n: nat, groups: seq<seq<Slot>>, i: nat)
    requires i < n
    ensures |IntendedLast(n, groups)| == n
    ensures IntendedLast(n, groups)[i].None? <==> NoneAt(groups, i)
    ensures IntendedLast(n, groups)[i].Some? ==>
      var p := IntendedLast(n, groups)[i].value;
      NewestAt(groups, i, p) && exists j :: FirstToReach(groups, i, j, p)
    decreases |groups|
  {
    IntendedLength(n, groups);
    if groups != [] {
      var init := groups[..|groups| - 1];
      var last := groups[|groups| - 1];
      IntendedSlot(n, init, i);
      IntendedLength(n, init);
      var r0 := IntendedLast(n, init)[i];
      assert forall j :: 0 <= j < |init| ==> groups[j] == init[j];
      assert IntendedLast(n, groups)[i] == if i < |last| && Takes(r0, last[i]) then last[i] else r0;
      if r0.Some? {
        var p := r0.value;
        var j: nat :| FirstToReach(init, i, j, p);
        assert FirstToReach(groups, i, j, p);
      }
      if IntendedLast(n, groups)[i] != r0 {
        assert FirstToReach(groups, i, |groups| - 1, At(last, i).value);
      }
    }
  }

  /**
   * The intended merge does not depend on the order in which groups answer: a
   * slot is empty, and a filled slot carries its timestamp, whatever the order;
   * when no two groups disagree on a pair with the same timestamp the value is
   * the same too.
   */
  lemma IntendedOrderIndependent(n: nat, groups: seq<seq<Slot>>, reordered: seq<seq<Slot>>, i: nat)
    requires multiset(groups) == multiset(reordered) && i < n
    ensures |IntendedLast(n, groups)| == |IntendedLast(n, reordered)| == n
    ensures IntendedLast(n, groups)[i].None? <==> IntendedLast(n, reordered)[i].None?
    ensures IntendedLast(n, groups)[i].Some? ==>
      IntendedLast(n, groups)[i].value.timestamp == IntendedLast(n, reordered)[i].value.timestamp
    ensures TiesAgree(groups, i) ==> IntendedLast(n, groups)[i] == IntendedLast(n, reordered)[i]
  {
    IntendedLength(n, groups);
    IntendedLength(n, reordered);
    var r, r' := IntendedLast(n, groups)[i], IntendedLast(n, reordered)[i];
    if r.Some? {
      NewestSurvivesReordering(n, groups, reordered, i);
    }
    if r'.Some? {
      NewestSurvivesReordering(n, reordered, groups, i);
    }
    if r.Some? && TiesAgree(groups, i) {
      SameNewest(n, groups, reordered, i);
    }
  }

  /** No two groups hold different pairs with the same timestamp at slot i. */
  ghost predicate TiesAgree(groups: seq<seq<Slot>>, i: nat)
  {
    forall j, j' :: 0 <= j < |groups| && 0 <= j' < |groups|
      && At(groups[j], i).Some? && At(groups[j'], i).Some?
      && At(groups[j], i).value.timestamp == At(groups[j'], i).value.timestamp
      ==> At(groups[j], i) == At(groups[j'], i)
  }

  lemma SameNewest(n: nat, groups: seq<seq<Slot>>, reordered: seq<seq<Slot>>, i: nat)
    requires multiset(groups) == multiset(reordered) && i < n && TiesAgree(groups, i)
    requires |IntendedLast(n, groups)| == |IntendedLast(n, reordered)| == n
    requires IntendedLast(n, groups)[i].Some? && IntendedLast(n, reordered)[i].Some?
    requires IntendedLast(n, groups)[i].value.timestamp == IntendedLast(n, reordered)[i].value.timestamp
    ensures IntendedLast(n, groups)[i] == IntendedLast(n, reordered)[i]
  {
    var r, r' := IntendedLast(n, groups)[i], IntendedLast(n, reordered)[i];
    IntendedSlot(n, reordered, i);
    var k: nat :| FirstToReach(reordered, i, k, r'.value);
    var k2 := IndexOf(reordered[k], groups);
    IntendedSlot(n, groups, i);
    var j: nat :| FirstToReach(groups, i, j, r.value);
    assert At(groups[k2], i) == r' && At(groups[j], i) == r;
  }

  /** Where an element of a sequence sits. */
  lemma IndexOf(x: seq<Slot>, s: seq<seq<Slot>>) returns (j: nat)
    requires x in multiset(s)
    ensures j < |s| && s[j] == x
  {
    assert x in s;
    j :| 0 <= j < |s| && s[j] == x;
  }

  /** A pair newest in one order is matched or beaten in any other order. */
  lemma NewestSurvivesReordering(n: nat, groups: seq<seq<Slot>>, reordered: seq<seq<Slot>>, i: nat)
    requires multiset(groups) == multiset(reordered) && i < n
    requires |IntendedLast(n, groups)| == n && IntendedLast(n, groups)[i].Some?
    ensures |IntendedLast(n, reordered)| == n && IntendedLast(n, reordered)[i].Some?
    ensures IntendedLast(n, groups)[i].value.timestamp <= IntendedLast(n, reordered)[i].value.timestamp
  {
    var p := IntendedLast(n, groups)[i].value;
    IntendedSlot(n, groups, i);
    var j: nat :| FirstToReach(groups, i, j, p);
    var j2 := IndexOf(groups[j], reordered);
    IntendedSlot(n, reordered, i);
    assert At(reordered[j2], i) == Some(p);
  }

  /** With a single group of n pairs the intended merge is that group's list. */
  lemma IntendedSingleGroup(n: nat, tvs: seq<Slot>)
    requires |tvs| == n
    ensures IntendedLast(n, [tvs]) == tvs
  {
    assert [tvs][..0] == [];
    var r := ReplaceMerge(Nulls(n), tvs);
    assert forall i :: 0 <= i < n ==> r[i] == tvs[i];
  }

  /** The documented case: pairs (5, "x") and (7, "y") for one series give (7, "y"), in either order. */
  lemma IntendedNewestWins()
    ensures IntendedLast(1, [[Some(TimeValuePair(5, "x"))], [Some(TimeValuePair(7, "y"))]])
            == [Some(TimeValuePair(7, "y"))]
    ensures IntendedLast(1, [[Some(TimeValuePair(7, "y"))], [Some(TimeValuePair(5, "x"))]])
            == [Some(TimeValuePair(7, "y"))]
  {
    var a, b := [Some(TimeValuePair(5, "x"))], [Some(TimeValuePair(7, "y"))];
    assert [a, b][..1] == [a] && [a][..0] == [];
    assert [b, a][..1] == [b] && [b][..0] == [];
  }

  // ---------------------------------------------------------------------------
  // As written against intended

  lemma {:induction false} InsertIntoNulls(n: nat, tvs: seq<Slot>, i: nat)
    requires n > 0 && i <= |tvs|
    ensures MergeAsWritten(tvs[..i] + Nulls(n), tvs, i) == Ok(tvs + Nulls(n))
    decreases |tvs| - i
  {
    if i == |tvs| {
      assert tvs[..i] == tvs;
    } else {
      var results := tvs[..i] + Nulls(n);
      assert results[i] == None;
      assert InsertAt(results, i, tvs[i]) == tvs[..i + 1] + Nulls(n) by {
        assert results[..i] == tvs[..i] && results[i..] == Nulls(n);
        assert tvs[..i + 1] == tvs[..i] + [tvs[i]];
      }
      InsertIntoNulls(n, tvs, i + 1);
    }
  }

  /**
   * With one group the list as written ends up as that group's pairs followed by
   * all n original nulls: n too long, though its first n slots are what the
   * intended merge gives.
   */
  lemma SingleGroupAsWrittenVsIntended(n: nat, tvs: seq<Slot>)
    requires |tvs| == n > 0
    ensures MergeAsWritten(Nulls(n), tvs, 0) == Ok(IntendedLast(n, [tvs]) + Nulls(n))
    ensures IntendedLast(n, [tvs]) == tvs
  {
    InsertIntoNulls(n, tvs, 0);
    assert tvs[..0] + Nulls(n) == Nulls(n);
    IntendedSingleGroup(n, tvs);
  }

  /**
   * Two groups, two series: group A answers (1, "a"), (5, "b") and group B
   * (2, "c"), (0, "d"). As written the list grows to five entries and slot 1
   * holds (1, "a"); the intended merge gives (2, "c"), (5, "b").
   */
  lemma TwoGroupsAsWrittenDiffers()
    ensures var a := [Some(TimeValuePair(1, "a")), Some(TimeValuePair(5, "b"))];
            var b := [Some(TimeValuePair(2, "c")), Some(TimeValuePair(0, "d"))];
            && DrainAsWritten(Nulls(2), [Ok(a), Ok(b)], _ => false, 0)
               == LastQueryOutcome(Ok([b[0], a[0], a[1], None, None]), false)
            && IntendedLast(2, [a, b]) == [b[0], a[1]]
  {
    var a := [Some(TimeValuePair(1, "a")), Some(TimeValuePair(5, "b"))];
    var b := [Some(TimeValuePair(2, "c")), Some(TimeValuePair(0, "d"))];
    var outs: seq<Result<seq<Slot>, TaskFailure>> := [Ok(a), Ok(b)];
    InsertIntoNulls(2, a, 0);
    assert a[..0] + Nulls(2) == Nulls(2);
    var afterA := a + Nulls(2);
    assert MergeAsWritten(Nulls(2), a, 0) == Ok(afterA);
    var afterB0 := InsertAt(afterA, 0, b[0]);
    assert afterB0 == [b[0], a[0], a[1], None, None];
    assert MergeStep(afterA, b, 0) == Ok(afterB0);
    assert MergeStep(afterB0, b, 1) == Ok(afterB0);
    assert MergeAsWritten(afterA, b, 0) == Ok(afterB0);
    assert DrainAsWritten(afterA, outs, _ => false, 1) == LastQueryOutcome(Ok(afterB0), false);
    assert [a, b][..1] == [a];
    IntendedSingleGroup(2, a);
    var r := ReplaceMerge(a, b);
    assert r[0] == b[0] && r[1] == a[1];
  }
}
