/** The batched remote-call object the client builds with `remote.batch()`: an ordered list of
    named calls, an `abandoned` flag and a `sent` flag. What the transport answers is not
    modelled: a `Replies` value says, for one batch, whether the send raises, which result
    slots hold a fault and what `check` raises. */
module JsonRpcBatch {
  import opened PyModel

  /** One queued call: the name its result is stored under, the remote method, the keyword arguments. */
  datatype Call = Call(resultName: string, rpcMethod: string, args: map<string, Value>)

  /** No two calls of a batch store their result under the same name. */
  predicate DistinctNames(calls: seq<Call>) {
    forall i, j :: 0 <= i < j < |calls| ==> calls[i].resultName != calls[j].resultName
  }

  /** The transport's behaviour for one batch, supplied from outside:
      - `sendFault`: what the send on leaving the `with` scope raises, if anything;
      - `resultFaults`: the result names for which `get_result` raises, and what it raises;
      - `checkFault`: what `check` on the four metadata result names raises, if anything. */
  datatype Replies = Replies(sendFault: Option<Exc>, resultFaults: map<string, Exc>, checkFault: Option<Exc>)

  /** `batch.get_result(name)` on a sent batch, reduced to whether it raises: it raises exactly
      the fault the transport recorded for that name, and returns normally otherwise. */
  function GetResult(rp: Replies, name: string): Status {
    if name in rp.resultFaults then Raised(rp.resultFaults[name]) else Done
  }

  /** The outcome of leaving the `with` scope of a batch that was not abandoned. */
  function SendStatus(rp: Replies): Status {
    if rp.sendFault.Some? then Raised(rp.sendFault.value) else Done
  }

  /** What one batch holds, as a value. */
  datatype BatchView = BatchView(calls: seq<Call>, abandoned: bool, sent: bool)

  /** Groups of batch contents laid end to end. */
  function Concat(groups: seq<seq<BatchView>>): seq<BatchView>
    decreases |groups|
  {
    if groups == [] then [] else groups[0] + Concat(groups[1..])
  }

  /** One more group goes at the end. */
  lemma {:induction false} ConcatSnoc(groups: seq<seq<BatchView>>, g: seq<BatchView>)
    ensures Concat(groups + [g]) == Concat(groups) + g
    decreases |groups|
  {
    if groups != [] {
      assert (groups + [g])[1..] == groups[1..] + [g];
      ConcatSnoc(groups[1..], g);
    } else {
      assert [] + [g] == [g];
    }
  }

  class Batch {
    var calls: seq<Call>
    var abandoned: bool
    var sent: bool

    /** What the batch holds, as a value. */
    function View(): BatchView
      reads this
    {
      BatchView(calls, abandoned, sent)
    }

    /** `remote.batch()`: an empty batch, neither abandoned nor sent. */
    constructor ()
      ensures calls == [] && !abandoned && !sent
    {
      calls, abandoned, sent := [], false, false;
    }

    /** `batch.call_with_id(name, method, **args)`: appends one call, in order. */
    method CallWithId(name: string, rpcMethod: string, args: map<string, Value>)
      modifies this
      ensures calls == old(calls) + [Call(name, rpcMethod, args)]
      ensures abandoned == old(abandoned) && sent == old(sent)
    {
      calls := calls + [Call(name, rpcMethod, args)];
    }

    /** `batch.abandon()`: marks the batch as not to be sent; nothing else changes. */
    method Abandon()
      modifies this
      ensures abandoned
      ensures calls == old(calls) && sent == old(sent)
    {
      abandoned := true;
    }

    /** Normal exit of the `with` scope: an abandoned batch is not sent and nothing is raised;
        any other batch is sent once, and `sent` is set only if the send did not raise. */
    method ExitScope(rp: Replies) returns (s: Status)
      requires !sent
      modifies this
      ensures calls == old(calls) && abandoned == old(abandoned)
      ensures sent <==> !abandoned && rp.sendFault.None?
      ensures s == if abandoned then Done else SendStatus(rp)
    {
      if abandoned {
        s := Done;
      } else {
        s := SendStatus(rp);
        sent := s == Done;
      }
    }
  }
}
