/**
 * `SimpleFragInstanceDispatcher`: sends every fragment instance over RPC, one
 * after another, and reports the acceptance flag of the last response.
 */
module SimpleFragInstanceDispatcher {
  import opened Wrappers
  import opened DispatchTypes

  /** The reply of each instance's send, in list order; every instance goes to its host's peer. */
  function Replies(remote: RemoteService, instances: seq<FragmentInstance>): (rs: seq<Result<bool, IoFault>>)
    ensures |rs| == |instances|
    ensures forall i :: 0 <= i < |instances| ==>
      rs[i] == SendVia(remote, instances[i].hostEndpoint, RequestFor(instances[i])).reply
  {
    seq(|instances|, i requires 0 <= i < |instances| =>
      SendVia(remote, instances[i].hostEndpoint, RequestFor(instances[i])).reply)
  }

  /** Where the loop ends early: a fault, or a response that is not an acceptance. */
  function Stops(rs: seq<Result<bool, IoFault>>): (flags: seq<bool>)
    ensures |flags| == |rs|
    ensures forall i :: 0 <= i < |rs| ==> flags[i] == (rs[i] != Ok(true))
  {
    seq(|rs|, i requires 0 <= i < |rs| => rs[i] != Ok(true))
  }

  /**
   * The future `dispatch` completes with. With no early end it is the flag of the
   * last response, or of the initial `TSendFragmentInstanceResp(false)` when the
   * list is empty.
   */
  function DispatchResult(rs: seq<Result<bool, IoFault>>): FutureValue
  {
    var k := FirstTrue(Stops(rs));
    if k == |rs| then Done(FragInstanceDispatchResult(|rs| > 0))
    else match rs[k]
      case Ok(_) => Done(FragInstanceDispatchResult(false))
      case Err(f) => Failed(ExecutionException(Rethrown(f)))
  }

  /** How many instances are sent. */
  function Sent(rs: seq<Result<bool, IoFault>>): nat
  {
    var k := FirstTrue(Stops(rs));
    if k == |rs| then k else k + 1
  }

  /** Accepted iff there is at least one instance and every one is accepted. */
  lemma AcceptedIffNonEmptyAndAllAccepted(rs: seq<Result<bool, IoFault>>)
    ensures DispatchResult(rs) == Done(FragInstanceDispatchResult(true)) <==>
            |rs| > 0 && forall i :: 0 <= i < |rs| ==> rs[i] == Ok(true)
  {
    var k := FirstTrue(Stops(rs));
    if k < |rs| {
      assert rs[k] != Ok(true);
    }
  }

  /** An empty batch: the initial response, which is not an acceptance. */
  lemma EmptyBatchNotAccepted()
    ensures DispatchResult([]) == Done(FragInstanceDispatchResult(false))
    ensures Sent([]) == 0
  {
  }

  /**
   * Without a fault the result is the flag of the last response received: the loop
   * breaks right after the first rejection, so nothing later is sent.
   */
  lemma {:induction false} ResultIsLastResponse(rs: seq<Result<bool, IoFault>>)
    requires forall i :: 0 <= i < |rs| ==> rs[i].Ok?
    requires |rs| > 0
    ensures 0 < Sent(rs) <= |rs|
    ensures DispatchResult(rs) == Done(FragInstanceDispatchResult(rs[Sent(rs) - 1].value))
    ensures forall j :: 0 <= j < Sent(rs) - 1 ==> rs[j] == Ok(true)
  {
    var k := FirstTrue(Stops(rs));
    if k == |rs| {
      assert rs[|rs| - 1] == Ok(true) by { assert !Stops(rs)[|rs| - 1]; }
    } else {
      assert Stops(rs)[k];
    }
  }

  /** `dispatch`: one send per instance, each with its own client, stopping at the first rejection. */
  method Dispatch(remote: RemoteService, instances: seq<FragmentInstance>)
    returns (r: FutureValue, sent: nat, clientLog: seq<ClientEvent>)
    ensures r == DispatchResult(Replies(remote, instances))
    ensures sent == Sent(Replies(remote, instances))
    ensures ClientsReleased(clientLog)
  {
    ghost var rs := Replies(remote, instances);
    var accepted := false;
    sent, clientLog := 0, [];
    var i := 0;
    while i < |instances|
      invariant 0 <= i <= |instances| && sent == i
      invariant forall j :: 0 <= j < i ==> !Stops(rs)[j]
      invariant accepted == (i > 0)
      invariant ClientsReleased(clientLog)
    {
      var instance := instances[i];
      var a := SendVia(remote, instance.hostEndpoint, RequestFor(instance));
      sent := sent + 1;
      ClientsReleasedAppend(clientLog, a.clientLog);
      clientLog := clientLog + a.clientLog;
      match a.reply {
        case Err(f) =>
          assert Stops(rs)[i];
          return Failed(ExecutionException(Rethrown(f))), sent, clientLog;
        case Ok(flag) =>
          accepted := flag;
      }
      if !accepted {
        assert Stops(rs)[i];
        break;
      }
      i := i + 1;
    }
    assert i < |rs| ==> Stops(rs)[i];
    r := Done(FragInstanceDispatchResult(accepted));
  }
}
