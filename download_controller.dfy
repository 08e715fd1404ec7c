/**
  * Transfer control of one download: a three-state machine RUNNING /
  * PAUSED / CANCELLED in which CANCELLED is absorbing.
  */
module DownloadControl {

  datatype ControlState = RUNNING | PAUSED | CANCELLED

  /** The operations other coroutines may apply to a controller. */
  datatype ControlOp = PauseOp | ResumeOp | CancelOp

  /** The state after one operation. */
  function Step(s: ControlState, op: ControlOp): (r: ControlState)
    ensures s == CANCELLED ==> r == CANCELLED
    ensures op == CancelOp ==> r == CANCELLED
    ensures s != CANCELLED && op == PauseOp ==> r == PAUSED
    ensures s != CANCELLED && op == ResumeOp ==> r == RUNNING
  {
    match op
    case PauseOp => if s != CANCELLED then PAUSED else s
    case ResumeOp => if s != CANCELLED then RUNNING else s
    case CancelOp => CANCELLED
  }

  /** The state after a sequence of operations, applied left to right. */
  function Run(s: ControlState, ops: seq<ControlOp>): ControlState
    decreases |ops|
  {
    if ops == [] then s else Run(Step(s, ops[0]), ops[1..])
  }

  lemma RunAppend(s: ControlState, ops: seq<ControlOp>, op: ControlOp)
    ensures Run(s, ops + [op]) == Step(Run(s, ops), op)
    decreases |ops|
  {
    if ops != [] {
      assert (ops + [op])[1..] == ops[1..] + [op];
      RunAppend(Step(s, ops[0]), ops[1..], op);
    }
  }

  /** Once CANCELLED, no sequence of operations leaves it. */
  lemma {:induction false} CancelledIsAbsorbing(ops: seq<ControlOp>)
    ensures Run(CANCELLED, ops) == CANCELLED
    decreases |ops|
  {
    if ops != [] {
      CancelledIsAbsorbing(ops[1..]);
    }
  }

  /** A sequence ends CANCELLED exactly when it starts there or contains a cancel. */
  lemma {:induction false} CancelledIff(s: ControlState, ops: seq<ControlOp>)
    ensures Run(s, ops) == CANCELLED <==> s == CANCELLED || CancelOp in ops
    decreases |ops|
  {
    if ops == [] {
    } else {
      CancelledIff(Step(s, ops[0]), ops[1..]);
      assert ops == [ops[0]] + ops[1..];
    }
  }

  /** The controller of one transfer; its single field is the control state. */
  class DownloadController {
    var state: ControlState

    constructor ()
      ensures state == RUNNING
    {
      state := RUNNING;
    }

    method Pause()
      modifies this
      ensures state == Step(old(state), PauseOp)
      ensures old(state) == CANCELLED ==> state == CANCELLED
    {
      if state != CANCELLED {
        state := PAUSED;
      }
    }

    method Resume()
      modifies this
      ensures state == Step(old(state), ResumeOp)
      ensures old(state) == CANCELLED ==> state == CANCELLED
    {
      if state != CANCELLED {
        state := RUNNING;
      }
    }

    method Cancel()
      modifies this
      ensures state == CANCELLED
    {
      state := CANCELLED;
    }

    function IsCancelled(): (r: bool)
      reads this
      ensures r <==> state == CANCELLED
    {
      state == CANCELLED
    }

    /** Apply one operation, as another coroutine calling the matching method. */
    method Apply(op: ControlOp)
      modifies this
      ensures state == Step(old(state), op)
    {
      match op
      case PauseOp => Pause();
      case ResumeOp => Resume();
      case CancelOp => Cancel();
    }

    /**
      * `awaitIfPaused`: returns at once unless PAUSED; otherwise suspends
      * until the state leaves PAUSED. `others` are the operations other
      * coroutines perform meanwhile, in order; `consumed` of them ran before
      * this call returned, and `released` is false when they all ran and the
      * state is still PAUSED (the call is then still suspended).
      */
    method AwaitIfPaused(others: seq<ControlOp>) returns (released: bool, consumed: nat)
      modifies this
      ensures consumed <= |others|
      ensures state == Run(old(state), others[..consumed])
      ensures old(state) != PAUSED ==> released && consumed == 0
      ensures released <==> state != PAUSED
      ensures !released ==> consumed == |others|
      ensures forall k :: 0 <= k < consumed ==> Run(old(state), others[..k]) == PAUSED
    {
      consumed := 0;
      if state == PAUSED {
        while state == PAUSED && consumed < |others|
          invariant consumed <= |others|
          invariant state == Run(old(state), others[..consumed])
          invariant forall k :: 0 <= k < consumed ==> Run(old(state), others[..k]) == PAUSED
        {
          RunAppend(old(state), others[..consumed], others[consumed]);
          assert others[..consumed + 1] == others[..consumed] + [others[consumed]];
          Apply(others[consumed]);
          consumed := consumed + 1;
        }
      }
      released := state != PAUSED;
    }
  }
}
