/** The reset fields of the adapter, changed in place, against the steps of ResetTimer. */
module ResetDevice {
  import opened ResetTimer

  class ResetDevice {
    const ndis60: bool
    const limit: nat            // RESET_TIMEOUT
    var resetState: Phase
    var nResetTimerCount: nat
    var resetInProgress: bool   // fMP_RESET_IN_PROGRESS
    var resetTimer: bool

    ghost var record: Record

    ghost function View(): State
      reads this
    {
      State(Reset(resetState, nResetTimerCount, resetInProgress, resetTimer), record)
    }

    function Setup(): Config { Config(ndis60, limit) }

    /** Every reset answered with Pending was completed, or is the one the timer is set for, or joined it. */
    ghost predicate Valid()
      reads this
    {
      Balanced(View())
    }

    constructor (ndis60: bool, limit: nat)
      ensures Valid() && Idle(View()) && !resetInProgress && Setup() == Config(ndis60, limit)
    {
      this.ndis60, this.limit := ndis60, limit;
      resetState, nResetTimerCount, resetInProgress, resetTimer := Complete, 0, false, false;
      record := Record(0, [], 0);
    }

    /** A pending reply is one that a set timer will complete; any other reply needs no completion. */
    method MiniportReset(emptyAtOnce: bool, queuesEmpty: bool) returns (reply: Reply)
      requires Valid()
      modifies this
      ensures Valid() && View() == Step(Setup(), old(View()), Start(emptyAtOnce, queuesEmpty))
      ensures record.pended == old(record.pended) + (if reply == Pending then 1 else 0)
      ensures reply == Pending ==>
                resetTimer && record.merged == old(record.merged) + (if old(resetTimer) then 1 else 0)
      ensures reply != Pending ==> resetTimer == old(resetTimer) && record == old(record)
      ensures reply == InProgress <==> old(resetInProgress)
      ensures reply == Done <==> !old(resetInProgress) && ndis60 && emptyAtOnce
      ensures reply == Pending && !queuesEmpty ==>
                resetState == StartCleanup && nResetTimerCount == 0 && resetInProgress == old(resetInProgress)
      ensures reply == Pending && queuesEmpty ==>
                resetState == QueuesEmpty && nResetTimerCount == old(nResetTimerCount) && resetInProgress
    {
      if resetInProgress {
        return InProgress;
      }
      if ndis60 && emptyAtOnce {
        resetState := Complete;
        return Done;
      }
      record := Record(record.pended + 1, record.completed, record.merged + if resetTimer then 1 else 0);
      if !queuesEmpty {
        resetState := StartCleanup;
        nResetTimerCount := 0;
        resetTimer := true;
        return Pending;
      }
      resetInProgress := true;
      resetState := QueuesEmpty;
      resetTimer := true;
      return Pending;
    }

    /** The timer has fired: the routine sets it again or reports one outcome, and comes closer to the end. */
    method ResetCompleteTimerDpc(seen: Seen) returns (outcome: seq<bool>)
      requires Valid() && resetTimer
      modifies this
      ensures Valid() && |outcome| == (if resetTimer then 0 else 1)
      ensures record == old(record).(completed := old(record).completed + outcome)
      ensures Rank(Setup(), View().r) < Rank(Setup(), old(View()).r)
      ensures View() == Step(Setup(), old(View()), Fire(seen))
    {
      outcome := RunPhase(seen);
      record := record.(completed := record.completed + outcome);
      DpcLowersRank(Setup(), old(View()).r, seen);
    }

    /** The switch of ResetCompleteTimerDpc. */
    method RunPhase(seen: Seen) returns (outcome: seq<bool>)
      requires resetTimer
      modifies this`resetState, this`nResetTimerCount, this`resetInProgress, this`resetTimer
      ensures (View().r, outcome) == Dpc(Setup(), old(View()).r, seen)
    {
      outcome := [];
      resetTimer := false;
      match resetState
      case StartCleanup =>
        resetInProgress := true;
        resetState := WaitForEmpty;
        resetTimer := true;
      case WaitForEmpty =>
        if seen.queuesEmpty {
          resetState := QueuesEmpty;
        } else {
          nResetTimerCount := nResetTimerCount + 1;
          if nResetTimerCount > limit {
            resetState := Timeout;
          }
        }
        resetTimer := true;
      case QueuesEmpty =>
        resetInProgress := false;
        if ndis60 {
          resetState := Complete;
        } else {
          nResetTimerCount := nResetTimerCount + 1;
          if nResetTimerCount <= limit {
            if seen.scheduled {
              resetState := WaitUsb;
            }
          } else {
            resetState := Timeout;
          }
        }
        resetTimer := true;
      case Timeout =>
        resetInProgress := false;
        outcome := [false];
      case WaitUsb =>
        nResetTimerCount := nResetTimerCount + 1;
        if nResetTimerCount <= limit {
          if seen.readsPosted {
            resetState := Complete;
          }
        } else {
          resetState := Timeout;
        }
        resetTimer := true;
      case Complete =>
        outcome := [true];
    }
  }
}
