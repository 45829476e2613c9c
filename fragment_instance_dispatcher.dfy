/**
 * `FragmentInstanceDispatcherImpl`: routes each fragment instance to the local
 * consensus layer or to the peer hosting it, dispatching READ batches one by
 * one and WRITE batches all at once.
 */
module FragmentInstanceDispatcher {
  import opened Wrappers
  import opened DispatchTypes

  /** `TSStatusCode.SUCCESS_STATUS.getStatusCode()`. */
  const SUCCESS_STATUS: int := 200

  /**
   * The local consensus layer and schema validator, as oracles:
   * `ConsensusImpl.read(..).getDataset().getState().isFailed()`,
   * whether `SchemaValidator.validate` returns normally, and the status code of
   * `ConsensusImpl.write(..)`.
   */
  datatype LocalServices = LocalServices(
    readStateFailed: (ConsensusGroupId, FragmentInstance) -> bool,
    schemaValid: FragmentInstance -> bool,
    writeStatusCode: (ConsensusGroupId, FragmentInstance) -> int)

  /** A dispatcher: the query type it was built for, this node's internal endpoint, its collaborators. */
  datatype Dispatcher = Dispatcher(
    queryType: QueryType,
    localhostIpAddr: string,
    localhostInternalPort: int,
    local: LocalServices,
    remote: RemoteService)

  /** `isDispatchedToLocal`: routing compares endpoints by value, local exactly for this node's own (ip, port). */
  function IsDispatchedToLocal(d: Dispatcher, endpoint: Endpoint): (local: bool)
    ensures local <==> endpoint == Endpoint(d.localhostIpAddr, d.localhostInternalPort)
  {
    d.localhostIpAddr == endpoint.ip && d.localhostInternalPort == endpoint.port
  }

  /** `dispatchLocally`. */
  function DispatchLocally(d: Dispatcher, instance: FragmentInstance): (r: Result<bool, TaskError>)
    ensures instance.kind == READ ==> r == Ok(!d.local.readStateFailed(instance.regionId, instance))
    ensures instance.kind == WRITE ==>
      (r.Err? <==> instance.rootIsInsert && !d.local.schemaValid(instance))
    ensures r.Err? ==> r.error == FragmentInstanceDispatchException(SemanticException)
  {
    var groupId := instance.regionId;
    match instance.kind
    case READ => Ok(!d.local.readStateFailed(groupId, instance))
    case WRITE =>
      if instance.rootIsInsert && !d.local.schemaValid(instance) then
        Err(FragmentInstanceDispatchException(SemanticException))
      else
        Ok(d.local.writeStatusCode(groupId, instance) == SUCCESS_STATUS)
  }

  /** A local WRITE is accepted exactly when it passes validation and the consensus write reports SUCCESS. */
  lemma LocalWriteAcceptedIff(d: Dispatcher, instance: FragmentInstance)
    requires instance.kind == WRITE
    ensures DispatchLocally(d, instance) == Ok(true) <==>
      (!instance.rootIsInsert || d.local.schemaValid(instance))
      && d.local.writeStatusCode(instance.regionId, instance) == SUCCESS_STATUS
  {
  }

  /**
   * An insert that fails schema validation never reaches the consensus write:
   * the outcome is the same whatever that write would have answered.
   */
  lemma SchemaRejectionSkipsConsensusWrite(d: Dispatcher, instance: FragmentInstance,
                                           otherWrite: (ConsensusGroupId, FragmentInstance) -> int)
    requires instance.kind == WRITE && instance.rootIsInsert && !d.local.schemaValid(instance)
    ensures DispatchLocally(d, instance) == Err(FragmentInstanceDispatchException(SemanticException))
    ensures DispatchLocally(d.(local := d.local.(writeStatusCode := otherWrite)), instance)
            == DispatchLocally(d, instance)
  {
  }

  /** Dispatching one instance: its outcome and the client events it caused. */
  datatype Attempt = Attempt(reply: Result<bool, TaskError>, clientLog: seq<ClientEvent>)

  /** `dispatchRemote`: an RPC exception is wrapped into a dispatch exception. */
  function DispatchRemote(d: Dispatcher, instance: FragmentInstance, endpoint: Endpoint): (a: Attempt)
    ensures ClientsReleased(a.clientLog)
    ensures a.reply.Ok? <==> d.remote.canBorrow(endpoint) && d.remote.send(endpoint, RequestFor(instance)).Response?
    ensures a.reply.Ok? ==> a.reply.value == d.remote.send(endpoint, RequestFor(instance)).accepted
    ensures a.reply.Err? ==> a.reply.error.FragmentInstanceDispatchException? && a.reply.error.cause.Io?
  {
    var sent := SendVia(d.remote, endpoint, RequestFor(instance));
    match sent.reply
    case Ok(accepted) => Attempt(Ok(accepted), sent.clientLog)
    case Err(f) => Attempt(Err(FragmentInstanceDispatchException(Io(f))), sent.clientLog)
  }

  /** `dispatchOneInstance`. */
  function DispatchOneInstance(d: Dispatcher, instance: FragmentInstance): (a: Attempt)
    ensures ClientsReleased(a.clientLog)
    ensures IsDispatchedToLocal(d, instance.hostEndpoint) ==>
      a.reply == DispatchLocally(d, instance) && a.clientLog == []
    ensures !IsDispatchedToLocal(d, instance.hostEndpoint) ==>
      a == DispatchRemote(d, instance, instance.hostEndpoint)
  {
    var endpoint := instance.hostEndpoint;
    if IsDispatchedToLocal(d, endpoint) then Attempt(DispatchLocally(d, instance), [])
    else DispatchRemote(d, instance, endpoint)
  }

  /** What `dispatchOneInstance` gives for each instance, in list order. */
  function Outcomes(d: Dispatcher, instances: seq<FragmentInstance>): (outs: seq<Result<bool, TaskError>>)
    ensures |outs| == |instances|
    ensures forall i :: 0 <= i < |instances| ==> outs[i] == DispatchOneInstance(d, instances[i]).reply
  {
    seq(|instances|, i requires 0 <= i < |instances| => DispatchOneInstance(d, instances[i]).reply)
  }

  /** The instances whose outcome stops a sequential READ dispatch: every one not accepted. */
  function Unaccepted(outs: seq<Result<bool, TaskError>>): (flags: seq<bool>)
    ensures |flags| == |outs|
    ensures forall i :: 0 <= i < |outs| ==> flags[i] == (outs[i] != Ok(true))
  {
    seq(|outs|, i requires 0 <= i < |outs| => outs[i] != Ok(true))
  }

  // ---------------------------------------------------------------------------
  // READ: sequential, stop at the first instance not accepted

  /** The future `dispatchRead` completes with, given each instance's outcome. */
  function ReadResult(outs: seq<Result<bool, TaskError>>): FutureValue
  {
    var k := FirstTrue(Unaccepted(outs));
    if k == |outs| then Done(FragInstanceDispatchResult(true))
    else match outs[k]
      case Ok(_) => Done(FragInstanceDispatchResult(false))
      case Err(e) => Failed(ExecutionException(e))
  }

  /** How many instances `dispatchRead` dispatches. */
  function ReadAttempted(outs: seq<Result<bool, TaskError>>): nat
  {
    var k := FirstTrue(Unaccepted(outs));
    if k == |outs| then k else k + 1
  }

  /** READ is accepted iff every instance is accepted; an empty batch is accepted. */
  lemma ReadAcceptedIffAllAccepted(outs: seq<Result<bool, TaskError>>)
    ensures ReadResult(outs) == Done(FragInstanceDispatchResult(true)) <==>
            forall i :: 0 <= i < |outs| ==> outs[i] == Ok(true)
    ensures outs == [] ==> ReadResult(outs) == Done(FragInstanceDispatchResult(true))
  {
    var k := FirstTrue(Unaccepted(outs));
    if k < |outs| {
      assert outs[k] != Ok(true);
    }
  }

  /**
   * The first rejected instance ends a READ dispatch: the result is `false`, it is
   * the last instance dispatched, and no later outcome has any bearing.
   */
  lemma {:induction false} ReadStopsAtFirstRejection(outs: seq<Result<bool, TaskError>>, k: nat,
                                                     later: seq<Result<bool, TaskError>>)
    requires k < |outs| && outs[k] == Ok(false)
    requires forall j :: 0 <= j < k ==> outs[j] == Ok(true)
    ensures ReadResult(outs) == Done(FragInstanceDispatchResult(false))
    ensures ReadAttempted(outs) == k + 1
    ensures ReadResult(outs[..k + 1] + later) == ReadResult(outs)
    ensures ReadAttempted(outs[..k + 1] + later) == k + 1
  {
    FirstUnacceptedAt(outs, k);
    var outs' := outs[..k + 1] + later;
    assert forall j :: 0 <= j <= k ==> outs'[j] == outs[j];
    FirstUnacceptedAt(outs', k);
  }

  lemma FirstUnacceptedAt(outs: seq<Result<bool, TaskError>>, k: nat)
    requires k < |outs| && outs[k] != Ok(true)
    requires forall j :: 0 <= j < k ==> outs[j] == Ok(true)
    ensures FirstTrue(Unaccepted(outs)) == k
  {
    assert Unaccepted(outs)[k];
  }

  /** The test case of a rejected first READ: only that instance is dispatched. */
  lemma ReadFirstRejectedDispatchesOne(a: Result<bool, TaskError>, b: Result<bool, TaskError>)
    ensures ReadResult([Ok(false), a, b]) == Done(FragInstanceDispatchResult(false))
    ensures ReadAttempted([Ok(false), a, b]) == 1
  {
    ReadStopsAtFirstRejection([Ok(false), a, b], 0, []);
  }

  /** `dispatchRead`: the loop of the submitted task, with early return. */
  method DispatchRead(d: Dispatcher, instances: seq<FragmentInstance>)
    returns (r: FutureValue, attempted: nat, clientLog: seq<ClientEvent>)
    ensures r == ReadResult(Outcomes(d, instances))
    ensures attempted == ReadAttempted(Outcomes(d, instances))
    ensures ClientsReleased(clientLog)
  {
    ghost var outs := Outcomes(d, instances);
    attempted, clientLog := 0, [];
    var i := 0;
    while i < |instances|
      invariant 0 <= i <= |instances| && attempted == i
      invariant forall j :: 0 <= j < i ==> outs[j] == Ok(true)
      invariant ClientsReleased(clientLog)
    {
      var a := DispatchOneInstance(d, instances[i]);
      attempted := attempted + 1;
      ClientsReleasedAppend(clientLog, a.clientLog);
      clientLog := clientLog + a.clientLog;
      match a.reply {
        case Err(e) =>
          FirstUnacceptedAt(outs, i);
          return Failed(ExecutionException(e)), attempted, clientLog;
        case Ok(accepted) =>
          if !accepted {
            FirstUnacceptedAt(outs, i);
            return Done(FragInstanceDispatchResult(false)), attempted, clientLog;
          }
      }
      i := i + 1;
    }
    r := Done(FragInstanceDispatchResult(true));
  }

  // ---------------------------------------------------------------------------
  // WRITE: submit everything, then drain the futures in list order

  /** Where draining stops: an interrupted wait, or an outcome that is not acceptance. */
  function DrainStops(outs: seq<Result<bool, TaskError>>, interrupted: nat -> bool): (flags: seq<bool>)
    ensures |flags| == |outs|
    ensures forall i :: 0 <= i < |outs| ==> flags[i] == (interrupted(i) || outs[i] != Ok(true))
  {
    seq(|outs|, i requires 0 <= i < |outs| => interrupted(i) || outs[i] != Ok(true))
  }

  /**
   * The future `dispatchWrite` returns, given each task's outcome and whether the
   * wait on future i is interrupted. The first outcome drained that is not an
   * acceptance decides; the trailing `set(true)` counts only when nothing did.
   * An exception caught while draining goes to `setException`, so `get()` on the
   * result wraps it in one more `ExecutionException`.
   */
  function WriteResult(outs: seq<Result<bool, TaskError>>, interrupted: nat -> bool): FutureValue
  {
    var k := FirstTrue(DrainStops(outs, interrupted));
    if k == |outs| then Done(FragInstanceDispatchResult(true))
    else if interrupted(k) then Failed(ExecutionExceptionOf(InterruptedException))
    else match outs[k]
      case Ok(_) => Done(FragInstanceDispatchResult(false))
      case Err(e) => Failed(ExecutionExceptionOf(ExecutionException(e)))
  }

  /** Whether draining restores the thread's interrupt flag. */
  function WriteInterrupts(outs: seq<Result<bool, TaskError>>, interrupted: nat -> bool): bool
  {
    var k := FirstTrue(DrainStops(outs, interrupted));
    k < |outs| && interrupted(k)
  }

  /** WRITE is accepted iff every wait completes and every instance is accepted. */
  lemma WriteAcceptedIffAllAccepted(outs: seq<Result<bool, TaskError>>, interrupted: nat -> bool)
    ensures WriteResult(outs, interrupted) == Done(FragInstanceDispatchResult(true)) <==>
            forall i :: 0 <= i < |outs| ==> !interrupted(i) && outs[i] == Ok(true)
  {
    var k := FirstTrue(DrainStops(outs, interrupted));
    if k < |outs| {
      assert DrainStops(outs, interrupted)[k];
    }
  }

  /**
   * A WRITE failure is always the settable future's `ExecutionException`, whose
   * cause is an `InterruptedException` exactly when draining was interrupted.
   * With no interrupted wait, WRITE decides as READ does, one wrapping deeper on failure.
   */
  lemma WriteFailureWrapsCause(outs: seq<Result<bool, TaskError>>, interrupted: nat -> bool)
    ensures WriteResult(outs, interrupted).Failed? ==>
      && WriteResult(outs, interrupted).failure.ExecutionExceptionOf?
      && (WriteResult(outs, interrupted).failure.cause == InterruptedException <==> WriteInterrupts(outs, interrupted))
    ensures (forall i: nat :: !interrupted(i)) ==>
      WriteResult(outs, interrupted) ==
        match ReadResult(outs)
        case Failed(f) => Failed(ExecutionExceptionOf(f))
        case Done(res) => Done(res)
  {
    if forall i: nat :: !interrupted(i) {
      assert DrainStops(outs, interrupted) == Unaccepted(outs);
    }
  }

  /** One rejection makes the WRITE batch not accepted, wherever it is in the list. */
  lemma WriteRejectionFailsBatch(outs: seq<Result<bool, TaskError>>, interrupted: nat -> bool, k: nat)
    requires k < |outs| && outs[k] == Ok(false)
    ensures WriteResult(outs, interrupted) != Done(FragInstanceDispatchResult(true))
  {
    WriteAcceptedIffAllAccepted(outs, interrupted);
  }

  /** The test case: three fragments, the second rejected, gives "not accepted". */
  lemma WriteSecondOfThreeRejected()
    ensures WriteResult([Ok(true), Ok(false), Ok(true)], _ => false) == Done(FragInstanceDispatchResult(false))
  {
    var outs: seq<Result<bool, TaskError>> := [Ok(true), Ok(false), Ok(true)];
    var flags := DrainStops(outs, _ => false);
    assert !flags[0] && flags[1];
    assert FirstTrue(flags) == 1 by {
      assert flags[1..][0];
    }
  }

  /** `dispatchWrite`. Every instance runs before any outcome is looked at. */
  method DispatchWrite(d: Dispatcher, instances: seq<FragmentInstance>, interrupted: nat -> bool)
    returns (r: FutureValue, submitted: nat, interruptFlag: bool, clientLog: seq<ClientEvent>)
    ensures submitted == |instances|
    ensures r == WriteResult(Outcomes(d, instances), interrupted)
    ensures interruptFlag == WriteInterrupts(Outcomes(d, instances), interrupted)
    ensures ClientsReleased(clientLog)
  {
    ghost var outs := Outcomes(d, instances);
    var futures: seq<Result<bool, TaskError>> := [];
    submitted, clientLog := 0, [];
    for i := 0 to |instances|
      invariant futures == outs[..i] && submitted == i
      invariant ClientsReleased(clientLog)
    {
      var a := DispatchOneInstance(d, instances[i]);
      ClientsReleasedAppend(clientLog, a.clientLog);
      futures, clientLog := futures + [a.reply], clientLog + a.clientLog;
      submitted := submitted + 1;
    }
    assert futures == outs;
    var resultFuture: Option<FutureValue> := None;
    interruptFlag := false;
    var i := 0;
    while i < |futures|
      invariant 0 <= i <= |futures|
      invariant forall j :: 0 <= j < i ==> !DrainStops(outs, interrupted)[j]
      invariant resultFuture == None && !interruptFlag
    {
      if interrupted(i) {
        interruptFlag := true;
        resultFuture := Some(Failed(ExecutionExceptionOf(InterruptedException)));
        break;
      }
      match futures[i] {
        case Err(e) =>
          resultFuture := Some(Failed(ExecutionExceptionOf(ExecutionException(e))));
          break;
        case Ok(success) =>
          if !success {
            resultFuture := Some(Done(FragInstanceDispatchResult(false)));
            break;
          }
      }
      i := i + 1;
    }
    // `resultFuture.set(true)` takes effect only on a future nothing has set yet.
    if resultFuture == None {
      resultFuture := Some(Done(FragInstanceDispatchResult(true)));
    }
    ghost var k := FirstTrue(DrainStops(outs, interrupted));
    assert i < |outs| ==> DrainStops(outs, interrupted)[i];
    r := resultFuture.value;
  }

  /** `dispatch`: the READ path exactly for a READ dispatcher, the WRITE path otherwise. */
  method Dispatch(d: Dispatcher, instances: seq<FragmentInstance>, interrupted: nat -> bool)
    returns (r: FutureValue, dispatched: nat, interruptFlag: bool, clientLog: seq<ClientEvent>)
    ensures d.queryType == READ ==>
      r == ReadResult(Outcomes(d, instances)) && dispatched == ReadAttempted(Outcomes(d, instances))
    ensures d.queryType == WRITE ==>
      r == WriteResult(Outcomes(d, instances), interrupted) && dispatched == |instances|
    ensures interruptFlag == (d.queryType == WRITE && WriteInterrupts(Outcomes(d, instances), interrupted))
    ensures ClientsReleased(clientLog)
  {
    if d.queryType == READ {
      r, dispatched, clientLog := DispatchRead(d, instances);
      interruptFlag := false;
    } else {
      r, dispatched, interruptFlag, clientLog := DispatchWrite(d, instances, interrupted);
    }
  }
}
