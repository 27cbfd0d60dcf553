/** The device context of the pipe drain as the driver changes it in place. Every method is a routine of
    QDBRD.c that runs without interference, proved to be the matching steps of `DrainModel`. */
module DrainDevice {
  import opened DrainModel
  import opened DrainSafety
  import opened Machine

  /** The decrement, and the signal of the one that reached zero. */
  function LeaveAndSignal(s: Drain, k: nat): Drain
    requires At(s, k, Leaving)
  {
    var t := Step(s, Leave(k));
    if s.drainingRx == 1 then Step(t, Signal) else t
  }

  function DecisionSteps(s: Drain, k: nat): Drain
    requires k < |s.tokens| && s.tokens[k].stage.Entered?
  {
    Step(Step(Step(s, Judge(k)), Gate(k)), Rearm(k))
  }

  /** The steps of one completion routine, in the order of the source. */
  function CompletionSteps(s: Drain, k: nat, formatted: bool): Drain
    requires k < |s.tokens| && s.tokens[k].stage.Entered?
  {
    LeaveAndSignal(Step(DecisionSteps(s, k), Resend(k, formatted)), k)
  }

  lemma {:induction false} LeavingIsARun(s: Drain, t: Drain, k: nat)
    requires Reaches(s, t) && At(t, k, Leaving)
    ensures Reaches(s, LeaveAndSignal(t, k))
  {
    var u := Step(t, Leave(k));
    ReachStep(s, t, Leave(k), u);
    if t.drainingRx == 1 {
      ReachStep(s, u, Signal, Step(u, Signal));
    }
  }

  /** A completion routine that nobody interrupts is a run of the model, so whatever holds over every run holds
      after it: the counter still counts what is outstanding, and no request is in flight twice. */
  lemma {:induction false} WholeCompletionIsARun(s: Drain, k: nat, formatted: bool)
    requires k < |s.tokens| && s.tokens[k].stage.Entered?
    ensures Reaches(s, CompletionSteps(s, k, formatted))
  {
    assert Runs(s, []) && Exec(s, []) == s;
    var judged := Step(s, Judge(k));
    var gated := Step(judged, Gate(k));
    var rearmed := Step(gated, Rearm(k));
    var resent := Step(rearmed, Resend(k, formatted));
    ReachStep(s, s, Judge(k), judged);
    ReachStep(s, judged, Gate(k), gated);
    ReachStep(s, gated, Rearm(k), rearmed);
    ReachStep(s, rearmed, Resend(k, formatted), resent);
    LeavingIsARun(s, resent, k);
  }

  lemma {:induction false} DecisionKeepsInv(s: Drain, k: nat)
    requires Inv(s) && k < |s.tokens| && s.tokens[k].stage.Entered?
    ensures Inv(DecisionSteps(s, k))
  {
    var judged := Step(s, Judge(k));
    var gated := Step(judged, Gate(k));
    StepKeepsInv(s, Judge(k));
    StepKeepsInv(judged, Gate(k));
    StepKeepsInv(gated, Rearm(k));
  }

  lemma {:induction false} SendAndLeaveKeepsInv(s: Drain, k: nat, formatted: bool)
    requires Inv(s) && Enabled(s, Resend(k, formatted))
    ensures Inv(LeaveAndSignal(Step(s, Resend(k, formatted)), k))
  {
    var t := Step(s, Resend(k, formatted));
    StepKeepsInv(s, Resend(k, formatted));
    StepKeepsInv(t, Leave(k));
    if t.drainingRx == 1 { StepKeepsInv(Step(t, Leave(k)), Signal); }
  }

  class DeviceContext {
    const numOfRxReqs: nat
    const ioFailureThreshold: nat
    var pipeDrain: bool
    var deviceRemoval: bool
    var drainingRx: int
    var ioFailureCount: nat
    var isPending: set<nat>
    var drainStoppedEvent: bool
    ghost var starters: seq<nat>
    ghost var tokens: seq<Token>
    ghost var signalling: nat
    ghost var cleanup: Cleanup
    ghost var sends: nat

    ghost function State(): Drain
      reads this
    {
      Drain(numOfRxReqs, ioFailureThreshold, pipeDrain, deviceRemoval, drainingRx, ioFailureCount, isPending,
            drainStoppedEvent, starters, tokens, signalling, cleanup, sends)
    }

    constructor (requests: nat, threshold: nat)
      requires threshold < ULONG_SIZE
      ensures Fresh(State()) && numOfRxReqs == requests && ioFailureThreshold == threshold
    {
      numOfRxReqs, ioFailureThreshold := requests, threshold;
      pipeDrain, deviceRemoval, drainStoppedEvent := false, false, false;
      drainingRx, ioFailureCount, isPending := 0, 0, {};
      starters, tokens, signalling, cleanup, sends := [], [], 0, NotBegun, 0;
    }

    /** `formatted` tells whether the request could be formatted for the pipe. */
    method SendIOBlock(request: nat, formatted: bool)
      modifies this`isPending, this`drainingRx, this`tokens, this`sends
      ensures State() == DrainModel.SendIOBlock(old(State()), request, formatted)
      ensures sends == old(sends) + (if formatted && request !in old(isPending) then 1 else 0)
    {
      if request in isPending {
        return;
      }
      if !formatted {
        return;
      }
      isPending := isPending + {request};
      drainingRx := drainingRx + 1;
      tokens := tokens + [Token(request, Sending)];
      sends := sends + 1;
    }

    method PipeDrainStart(formatted: seq<bool>)
      requires |formatted| == numOfRxReqs
      modifies this`pipeDrain, this`isPending, this`drainingRx, this`tokens, this`sends
      ensures pipeDrain
      ensures old(pipeDrain) ==> State() == old(State())
      ensures !old(pipeDrain) ==> State() == SendFrom(old(State()).(pipeDrain := true), 0, formatted)
      ensures !old(pipeDrain) && old(isPending) == {} && (forall i :: 0 <= i < numOfRxReqs ==> formatted[i]) ==>
                && tokens == old(tokens) + Sendings(0, numOfRxReqs) && drainingRx == old(drainingRx) + numOfRxReqs
                && sends == old(sends) + numOfRxReqs && forall i :: 0 <= i < numOfRxReqs ==> i in isPending
    {
      if pipeDrain {
        return;
      }
      pipeDrain := true;
      if isPending == {} && forall i :: 0 <= i < numOfRxReqs ==> formatted[i] {
        SendFromSendsAll(State(), 0, formatted);
      }
      var i := 0;
      while i < numOfRxReqs
        invariant i <= numOfRxReqs && pipeDrain
        invariant SendFrom(State(), i, formatted) == SendFrom(old(State()).(pipeDrain := true), 0, formatted)
      {
        SendIOBlock(i, formatted[i]);
        i := i + 1;
      }
    }

    method AccountStatus(ghost k: nat, status: Status) returns (sendAgain: bool)
      requires k < |tokens| && tokens[k].stage == Entered(status)
      modifies this`ioFailureCount, this`tokens
      ensures State() == Step(old(State()), Judge(k)) && tokens[k].stage == Judged(sendAgain)
      ensures status.Ok? ==> sendAgain && ioFailureCount == 0
      ensures status.Fatal? ==> !sendAgain && ioFailureCount == old(ioFailureCount)
      ensures status.Retryable? ==>
                && ioFailureCount == (old(ioFailureCount) + 1) % 0x1_0000_0000
                && (sendAgain <==> ioFailureCount <= ioFailureThreshold)
    {
      sendAgain := true;
      if status.Ok? {
        ioFailureCount := 0;
      } else if status.Fatal? {
        sendAgain := false;
      } else {
        ioFailureCount := (ioFailureCount + 1) % ULONG_SIZE;
        if ioFailureCount > ioFailureThreshold {
          sendAgain := false;
        }
      }
      tokens := tokens[k := tokens[k].(stage := Judged(sendAgain))];
    }

    method StopIfTold(ghost k: nat, again: bool) returns (sendAgain: bool)
      requires k < |tokens| && tokens[k].stage == Judged(again)
      modifies this`tokens
      ensures State() == Step(old(State()), Gate(k)) && tokens[k].stage == Gated(sendAgain)
      ensures sendAgain <==> again && pipeDrain && !deviceRemoval
    {
      sendAgain := again;
      if pipeDrain == false || deviceRemoval == true {
        sendAgain := false;
      }
      tokens := tokens[k := tokens[k].(stage := Gated(sendAgain))];
    }

    method Recycle(ghost k: nat, request: nat, again: bool)
      requires k < |tokens| && tokens[k] == Token(request, Gated(again))
      modifies this`isPending, this`tokens
      ensures State() == Step(old(State()), Rearm(k)) && tokens[k] == Token(request, Rearmed(again))
      ensures request !in isPending
    {
      isPending := isPending - {request};
      tokens := tokens[k := Token(request, Rearmed(again))];
    }

    /** From the entry of the completion routine to the clearing of IsPending. */
    method Decide(ghost k: nat, request: nat, status: Status) returns (sendAgain: bool)
      requires k < |tokens| && tokens[k] == Token(request, Entered(status))
      modifies this`ioFailureCount, this`isPending, this`tokens
      ensures State() == DecisionSteps(old(State()), k) && tokens[k] == Token(request, Rearmed(sendAgain))
      ensures old(Inv(State())) ==> Inv(State())
      ensures request !in isPending
      ensures ioFailureCount == if status.Ok? then 0
                                else if status.Retryable? then (old(ioFailureCount) + 1) % 0x1_0000_0000
                                else old(ioFailureCount)
      ensures sendAgain <==>
                && (status.Ok? || (status.Retryable? && ioFailureCount <= ioFailureThreshold))
                && pipeDrain && !deviceRemoval
    {
      if Inv(State()) { DecisionKeepsInv(State(), k); }
      sendAgain := AccountStatus(k, status);
      sendAgain := StopIfTold(k, sendAgain);
      Recycle(k, request, sendAgain);
    }

    method SendAgain(ghost k: nat, request: nat, again: bool, formatted: bool)
      requires k < |tokens| && tokens[k] == Token(request, Rearmed(again))
      modifies this`isPending, this`drainingRx, this`tokens, this`sends
      ensures State() == Step(old(State()), Resend(k, formatted))
      ensures At(State(), k, Leaving) && drainingRx >= old(drainingRx)
      ensures sends == old(sends) + (if again && formatted && request !in old(isPending) then 1 else 0)
      ensures drainingRx - old(drainingRx) == sends - old(sends)
    {
      tokens := tokens[k := Token(request, Leaving)];
      if again {
        SendIOBlock(request, formatted);
      }
    }

    /** The decrement, and the signal of the one that reached zero. */
    method LeaveDrain(ghost k: nat)
      requires At(State(), k, Leaving)
      modifies this`drainingRx, this`tokens, this`drainStoppedEvent
      ensures State() == LeaveAndSignal(old(State()), k)
      ensures drainingRx == old(drainingRx) - 1
      ensures drainStoppedEvent <==> old(drainStoppedEvent) || (drainingRx == 0 && deviceRemoval)
    {
      drainingRx := drainingRx - 1;
      tokens := Remove(tokens, k);
      if drainingRx == 0 {
        if deviceRemoval == true {
          drainStoppedEvent := true;
        }
      }
    }

    method SendAndLeave(ghost k: nat, request: nat, again: bool, formatted: bool)
      requires k < |tokens| && tokens[k] == Token(request, Rearmed(again)) && request !in isPending
      modifies this`isPending, this`drainingRx, this`tokens, this`sends, this`drainStoppedEvent
      ensures State() == LeaveAndSignal(Step(old(State()), Resend(k, formatted)), k)
      ensures old(Inv(State())) ==> Inv(State())
      ensures sends == old(sends) + (if again && formatted then 1 else 0)
      ensures drainingRx == old(drainingRx) - 1 + (sends - old(sends))
      ensures drainStoppedEvent <==> old(drainStoppedEvent) || (drainingRx == 0 && deviceRemoval)
    {
      if Inv(State()) { SendAndLeaveKeepsInv(State(), k, formatted); }
      SendAgain(k, request, again, formatted);
      LeaveDrain(k);
    }

    method PipeDrainCompletion(ghost k: nat, request: nat, status: Status, formatted: bool)
      requires k < |tokens| && tokens[k] == Token(request, Entered(status))
      modifies this`ioFailureCount, this`isPending, this`drainingRx, this`tokens, this`sends, this`drainStoppedEvent
      ensures State() == CompletionSteps(old(State()), k, formatted)
      ensures old(Inv(State())) ==> Inv(State())
      ensures ioFailureCount == if status.Ok? then 0
                                else if status.Retryable? then (old(ioFailureCount) + 1) % 0x1_0000_0000
                                else old(ioFailureCount)
      ensures var again := status.Ok? || (status.Retryable? && ioFailureCount <= ioFailureThreshold);
              sends == old(sends) + (if again && pipeDrain && !deviceRemoval && formatted then 1 else 0)
      ensures drainingRx == old(drainingRx) - 1 + (sends - old(sends))
      ensures drainStoppedEvent <==> old(drainStoppedEvent) || (drainingRx == 0 && deviceRemoval)
    {
      var sendAgain := Decide(k, request, status);
      SendAndLeave(k, request, sendAgain, formatted);
    }
  }
}
