/**
 * `KrpcController`: the status of one call, a failed flag and an error text,
 * with reset, set-failed and read operations and cancellation stubs.
 */
module Controller {

  /** The two fields `m_failed` and `m_errText`. */
  datatype Status = Status(failed: bool, errText: string)

  /** The state after construction and after `Reaset`. */
  const Initial: Status := Status(false, "")

  /** One call on a controller. */
  datatype Op =
    | CallReaset
    | CallSetFailed(reason: string)
    | CallFailed
    | CallErrorText
    | CallStartChannel
    | CallIsCanceled
    | CallNotifyOnCancel

  /** The status after one call. */
  function Apply(s: Status, op: Op): Status
  {
    match op
    case CallReaset => Initial
    case CallSetFailed(r) => Status(true, r)
    case _ => s
  }

  /** The status after a sequence of calls, in order. */
  function Run(s: Status, ops: seq<Op>): Status
  {
    if ops == [] then s else Apply(Run(s, ops[..|ops| - 1]), ops[|ops| - 1])
  }

  /** Once failed, a controller stays failed until `Reaset`: nothing else clears `m_failed`. */
  lemma {:induction false} StaysFailedUntilReaset(s: Status, ops: seq<Op>)
    requires s.failed
    requires forall i :: 0 <= i < |ops| ==> ops[i] != CallReaset
    ensures Run(s, ops).failed
  {
    if ops != [] {
      StaysFailedUntilReaset(s, ops[..|ops| - 1]);
    }
  }

  /** After `Reaset`, whatever came before, the state is the initial one until the next `SetFailed`. */
  lemma {:induction false} ReasetForgets(s: Status, ops: seq<Op>)
    requires forall i :: 0 <= i < |ops| ==> !ops[i].CallSetFailed?
    ensures Run(s, [CallReaset] + ops) == Initial
  {
    if ops != [] {
      assert ([CallReaset] + ops)[..|ops|] == [CallReaset] + ops[..|ops| - 1];
      ReasetForgets(s, ops[..|ops| - 1]);
    }
  }

  /**
   * The last `SetFailed` decides the error text: after it, with no `Reaset`
   * and no other `SetFailed`, the controller is failed with that reason.
   */
  lemma {:induction false} LastReasonWins(s: Status, ops: seq<Op>, k: nat)
    requires k < |ops| && ops[k].CallSetFailed?
    requires forall i :: k < i < |ops| ==> ops[i] != CallReaset && !ops[i].CallSetFailed?
    ensures Run(s, ops) == Status(true, ops[k].reason)
  {
    if k < |ops| - 1 {
      LastReasonWins(s, ops[..|ops| - 1], k);
    }
  }

  /** The reads and the cancellation stubs change nothing, however many are made. */
  lemma {:induction false} ReadsChangeNothing(s: Status, ops: seq<Op>)
    requires forall i :: 0 <= i < |ops| ==> ops[i] != CallReaset && !ops[i].CallSetFailed?
    ensures Run(s, ops) == s
  {
    if ops != [] {
      ReadsChangeNothing(s, ops[..|ops| - 1]);
    }
  }

  /** A callback (`google::protobuf::Closure`), counting how often it has been run. */
  class Closure {
    var runs: nat

    constructor ()
      ensures runs == 0
    {
      runs := 0;
    }
  }

  class KrpcController {
    var failed: bool
    var errText: string

    /** The controller's fields as a value. */
    function State(): Status
      reads this
    {
      Status(failed, errText)
    }

    constructor ()
      ensures State() == Initial
    {
      failed := false;
      errText := "";
    }

    /** `Reaset`: back to the initial state, whatever came before. */
    method Reaset()
      modifies this
      ensures State() == Initial
      ensures State() == Apply(old(State()), CallReaset)
    {
      failed := false;
      errText := "";
    }

    /** `Failed`: reads the flag. */
    method Failed() returns (f: bool)
      ensures f == failed
    {
      f := failed;
    }

    /** `ErrorText`: reads the reason. */
    method ErrorText() returns (text: string)
      ensures text == errText
    {
      text := errText;
    }

    /** `SetFailed`: failed, with `reason` replacing any earlier reason. */
    method SetFailed(reason: string)
      modifies this
      ensures failed && errText == reason
      ensures State() == Apply(old(State()), CallSetFailed(reason))
    {
      failed := true;
      errText := reason;
    }

    /** `StartChannel`: an empty stub. */
    method StartChannel()
      ensures unchanged(this)
    {
    }

    /** `IsCanceled`: cancellation is not implemented, so never. */
    method IsCanceled() returns (canceled: bool)
      ensures !canceled
    {
      canceled := false;
    }

    /** `NotifyOnCancel`: accepts the callback and neither keeps nor runs it. */
    method NotifyOnCancel(callback: Closure)
      ensures unchanged(this, callback)
    {
    }
  }
}
