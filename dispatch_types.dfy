/**
 * What both fragment-instance dispatchers share: fragment instances, the
 * "send fragment instance" RPC and its client, dispatch results and futures.
 */
module DispatchTypes {
  import opened Wrappers

  /** `QueryType`. */
  datatype QueryType = READ | WRITE

  /** `QueryType.toString()`, the kind string a remote request carries. */
  function QueryTypeName(t: QueryType): string
  {
    match t
    case READ => "READ"
    case WRITE => "WRITE"
  }

  /** `TEndPoint`: compared by value. */
  datatype Endpoint = Endpoint(ip: string, port: int)

  /** `TConsensusGroupId` of a region replica set. */
  datatype ConsensusGroupId = ConsensusGroupId(groupType: int, id: int)

  /**
   * A `FragmentInstance`, reduced to what dispatching reads from it: its id, the
   * internal endpoint of its host data node, the region it targets, its kind,
   * whether the root of its fragment is an `InsertNode`, and the bytes that
   * `serializeRequest` writes for it.
   */
  datatype FragmentInstance = FragmentInstance(
    id: string,
    hostEndpoint: Endpoint,
    regionId: ConsensusGroupId,
    kind: QueryType,
    rootIsInsert: bool,
    serialized: seq<bv8>)

  /** `TSendFragmentInstanceReq`. */
  datatype SendFragmentInstanceReq = SendFragmentInstanceReq(
    fragment: seq<bv8>, consensusGroupId: ConsensusGroupId, queryType: string)

  /** The request both dispatchers build for an instance. */
  function RequestFor(instance: FragmentInstance): (req: SendFragmentInstanceReq)
    ensures req.consensusGroupId == instance.regionId
    ensures req.queryType == QueryTypeName(instance.kind)
    ensures req.fragment == instance.serialized
  {
    SendFragmentInstanceReq(instance.serialized, instance.regionId, QueryTypeName(instance.kind))
  }

  /** The two checked exceptions of the RPC path. */
  datatype IoFault = IOException | TException

  /** What a peer's `sendFragmentInstance` gives: a response, or an exception. */
  datatype SendReply = Response(accepted: bool) | Fault(fault: IoFault)

  /**
   * The peer side, an oracle: whether `borrowClient` hands out a client for an
   * endpoint (otherwise it throws `IOException`), and what the call returns.
   */
  datatype RemoteService = RemoteService(
    canBorrow: Endpoint -> bool,
    send: (Endpoint, SendFragmentInstanceReq) -> SendReply)

  /** Borrowing and closing pooled clients. */
  datatype ClientEvent = Borrowed(endpoint: Endpoint) | Closed(endpoint: Endpoint)

  /** Every client borrowed is closed again, before the next one is borrowed. */
  predicate ClientsReleased(log: seq<ClientEvent>)
  {
    && |log| % 2 == 0
    && forall i :: 0 <= i < |log| / 2 ==>
         log[2 * i].Borrowed? && log[2 * i + 1] == Closed(log[2 * i].endpoint)
  }

  lemma ClientsReleasedAppend(log: seq<ClientEvent>, more: seq<ClientEvent>)
    requires ClientsReleased(log) && ClientsReleased(more)
    ensures ClientsReleased(log + more)
  {
    var all := log + more;
    forall i | 0 <= i < |all| / 2
      ensures all[2 * i].Borrowed? && all[2 * i + 1] == Closed(all[2 * i].endpoint)
    {
      if i >= |log| / 2 {
        var j := i - |log| / 2;
        assert all[2 * i] == more[2 * j] && all[2 * i + 1] == more[2 * j + 1];
      }
    }
  }

  /** One send in a try-with-resources block: the outcome and the client events. */
  datatype SendAttempt = SendAttempt(reply: Result<bool, IoFault>, clientLog: seq<ClientEvent>)

  /**
   * Borrow a client for `endpoint`, send `req`, close the client. A client that
   * was borrowed is closed on every path; a failed borrow leaves nothing to close.
   */
  function SendVia(remote: RemoteService, endpoint: Endpoint, req: SendFragmentInstanceReq): (a: SendAttempt)
    ensures ClientsReleased(a.clientLog)
    ensures a.clientLog == (if remote.canBorrow(endpoint) then [Borrowed(endpoint), Closed(endpoint)] else [])
    ensures a.reply.Ok? <==> remote.canBorrow(endpoint) && remote.send(endpoint, req).Response?
    ensures a.reply.Ok? ==> a.reply.value == remote.send(endpoint, req).accepted
  {
    if !remote.canBorrow(endpoint) then
      SendAttempt(Err(IOException), [])
    else
      var log := [Borrowed(endpoint), Closed(endpoint)];
      match remote.send(endpoint, req)
      case Response(accepted) => SendAttempt(Ok(accepted), log)
      case Fault(f) => SendAttempt(Err(f), log)
  }

  /** `FragInstanceDispatchResult`. */
  datatype FragInstanceDispatchResult = FragInstanceDispatchResult(accepted: bool)

  /** Why dispatching one instance failed. */
  datatype Cause = SemanticException | Io(fault: IoFault)

  /** What the task that dispatches instances throws. */
  datatype TaskError =
    | FragmentInstanceDispatchException(cause: Cause)  // the wrapping exception
    | Rethrown(fault: IoFault)                         // the RPC exception itself

  /**
   * What `get()` throws on a future holding a dispatch result: the task's own
   * exception wrapped in an `ExecutionException`, an `InterruptedException`, or,
   * for a `SettableFuture` given `setException(cause)`, an `ExecutionException`
   * whose cause is that exception.
   */
  datatype FutureFailure =
    | ExecutionException(error: TaskError)
    | InterruptedException
    | ExecutionExceptionOf(cause: FutureFailure)

  /** A completed `Future<FragInstanceDispatchResult>`. */
  datatype FutureValue = Done(result: FragInstanceDispatchResult) | Failed(failure: FutureFailure)

  /** The first index at which `flags` holds, or `|flags|` when it never does. */
  function FirstTrue(flags: seq<bool>): (k: nat)
    ensures k <= |flags|
    ensures forall j :: 0 <= j < k ==> !flags[j]
    ensures k < |flags| ==> flags[k]
  {
    if flags == [] then 0 else if flags[0] then 0 else 1 + FirstTrue(flags[1..])
  }
}
