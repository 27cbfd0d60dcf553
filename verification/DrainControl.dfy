/** What a stop, a removal and successful reads do to the drain. A drain that was stopped or whose device is
    being removed comes to rest whatever its completions report, and the removal goes on to free the buffers;
    a drain whose reads succeed goes on until then. */
module DrainControl {
  import opened DrainModel
  import DrainSafety
  import opened DrainTermination
  import opened Machine

  // ---------------------------------------------------------------------------------------------
  // Stopping

  /** Nobody is starting the drain, and it was stopped or the device is being removed. */
  ghost predicate Stopped(s: Drain) { Inv(s) && s.starters == [] && (!s.pipeDrain || s.deviceRemoval) }

  predicate StoppedEvent(e: Event) { !e.Start? && !e.StartSends? }

  /** A completion routine that read PipeDrain and DeviceRemoval before, and will resend. */
  function Decided(stage: Stage): nat {
    match stage
    case Gated(again) => if again then 1 else 0
    case Rearmed(again) => if again then 1 else 0
    case _ => 0
  }

  /** The steps left for a token when nothing more is decided, a resend counted with the steps of the request. */
  function QuietSteps(stage: Stage): nat {
    match stage
    case Sending => 7
    case InFlight => 6
    case Entered(_) => 5
    case Judged(_) => 4
    case Gated(again) => if again then 10 else 3
    case Rearmed(again) => if again then 9 else 2
    case Leaving => 1
  }

  function Left(s: Drain): nat { Sum(s.tokens, QuietSteps) + s.signalling + if s.tokens == [] then 0 else 1 }

  function Promised(s: Drain): nat { Sum(s.tokens, Decided) }

  /** One step uses up what is left and what is promised, and the drain stays stopped. */
  ghost predicate Settles(s: Drain, t: Drain, steps: nat) {
    Left(t) + steps <= Left(s) && t.sends + Promised(t) <= s.sends + Promised(s)
  }

  lemma {:induction false} AdvanceSettles(s: Drain, k: nat, stage: Stage, t: Drain)
    requires k < |s.tokens| && QuietSteps(stage) < QuietSteps(s.tokens[k].stage)
    requires Decided(stage) <= Decided(s.tokens[k].stage)
    requires t.tokens == Advance(s, k, stage).tokens && t.signalling == s.signalling && t.sends == s.sends
    ensures Settles(s, t, 1)
  {
    var token := s.tokens[k].(stage := stage);
    SumSplit(s.tokens, k, token, QuietSteps);
    SumSplit(s.tokens, k, token, Decided);
  }

  lemma {:induction false} RemoveSettles(s: Drain, k: nat, t: Drain)
    requires k < |s.tokens| && t.tokens == Remove(s.tokens, k) && t.sends == s.sends
    requires t.signalling == s.signalling + (if t.tokens == [] && s.tokens[k].stage.Leaving? then 1 else 0)
    ensures Settles(s, t, 1)
  {
    SumSplit(s.tokens, k, s.tokens[k], QuietSteps);
    SumSplit(s.tokens, k, s.tokens[k], Decided);
  }

  lemma {:induction false} SendSettles(s: Drain, request: nat, formatted: bool)
    requires s.tokens != []
    ensures var t := SendIOBlock(s, request, formatted);
            Left(t) <= Left(s) + 7 && t.sends <= s.sends + 1 && Promised(t) == Promised(s)
  {
    var sent := [Token(request, Sending)];
    SumConcat(s.tokens, sent, QuietSteps);
    SumConcat(s.tokens, sent, Decided);
  }

  lemma {:induction false} ResendSettles(s: Drain, k: nat, formatted: bool)
    requires Enabled(s, Resend(k, formatted))
    ensures Settles(s, Step(s, Resend(k, formatted)), 1)
  {
    var left := Advance(s, k, Leaving);
    var token := s.tokens[k].(stage := Leaving);
    SumSplit(s.tokens, k, token, QuietSteps);
    SumSplit(s.tokens, k, token, Decided);
    SendSettles(left, s.tokens[k].request, formatted);
  }

  lemma {:induction false} GateSettles(s: Drain, k: nat)
    requires Stopped(s) && Enabled(s, Gate(k))
    ensures Settles(s, Step(s, Gate(k)), 1)
  {
    AdvanceSettles(s, k, Gated(false), Step(s, Gate(k)));
  }

  lemma {:induction false} MovedTokenSettles(s: Drain, e: Event)
    requires Enabled(s, e) && (e.Complete? || e.Judge? || e.Rearm? || (e.SendOutcome? && e.accepted))
    ensures Settles(s, Step(s, e), 1)
  {
    AdvanceSettles(s, e.token, Step(s, e).tokens[e.token].stage, Step(s, e));
  }

  lemma {:induction false} LeavingTokenSettles(s: Drain, e: Event)
    requires Inv(s) && Enabled(s, e) && (e.Leave? || (e.SendOutcome? && !e.accepted))
    ensures Settles(s, Step(s, e), 1)
  {
    RemoveSettles(s, e.token, Step(s, e));
  }

  lemma {:induction false} StoppedStepSettles(s: Drain, e: Event)
    requires Stopped(s) && Enabled(s, e) && StoppedEvent(e)
    ensures Settles(s, Step(s, e), Bit(DrainStep(e)))
  {
    match e
    case SendOutcome(_, accepted) => if accepted { MovedTokenSettles(s, e); } else { LeavingTokenSettles(s, e); }
    case Complete(_, _) => MovedTokenSettles(s, e);
    case Judge(_) => MovedTokenSettles(s, e);
    case Gate(k) => GateSettles(s, k);
    case Rearm(_) => MovedTokenSettles(s, e);
    case Resend(k, formatted) => ResendSettles(s, k, formatted);
    case Leave(_) => LeavingTokenSettles(s, e);
    case _ =>
  }

  lemma {:induction false} StaysStopped(s: Drain, e: Event)
    requires Stopped(s) && Enabled(s, e) && StoppedEvent(e)
    ensures Stopped(Step(s, e))
  {
    DrainSafety.StepKeepsInv(s, e);
  }

  /** However long the run and whatever the completions report: a stopped drain takes at most `Left(s)` more steps,
      and sends at most the requests whose routines had read the flags before the stop. */
  lemma {:induction false} StoppedDrainIsBounded(s: Drain, es: seq<Event>)
    requires Stopped(s) && Runs(s, es)
    requires forall i :: 0 <= i < |es| ==> StoppedEvent(es[i])
    ensures Stopped(Exec(s, es)) && DrainSteps(es) + Left(Exec(s, es)) <= Left(s)
    ensures Exec(s, es).sends - s.sends <= Promised(s)
    decreases |es|
  {
    if es != [] {
      StaysStopped(s, es[0]);
      StoppedStepSettles(s, es[0]);
      StoppedDrainIsBounded(Step(s, es[0]), es[1..]);
    }
  }

  lemma {:induction false} StoppedDrainReachesZero(s: Drain) returns (es: seq<Event>)
    requires Stopped(s)
    ensures Runs(s, es) && |es| <= Left(s) && Stopped(Exec(s, es))
    ensures forall i :: 0 <= i < |es| ==> StoppedEvent(es[i]) && DrainStep(es[i])
    ensures Exec(s, es).drainingRx == 0 && AtRest(Exec(s, es))
    ensures Exec(s, es).cleanup == s.cleanup && Exec(s, es).deviceRemoval == s.deviceRemoval
    decreases Left(s)
  {
    es := [];
    if s.drainingRx != 0 || s.signalling != 0 {
      var e := OutstandingDrainCanStep(s);
      StaysStopped(s, e);
      StoppedStepSettles(s, e);
      var more := StoppedDrainReachesZero(Step(s, e));
      es := [e] + more;
      assert es[1..] == more;
    }
  }

  /** Every run of a stopped drain, however it went, extends to rest within the bound. */
  lemma {:induction false} StoppedRunExtendsToZero(s: Drain, es: seq<Event>) returns (more: seq<Event>)
    requires Stopped(s) && Runs(s, es)
    requires forall i :: 0 <= i < |es| ==> StoppedEvent(es[i])
    ensures Runs(s, es + more) && DrainSteps(es) + |more| <= Left(s)
    ensures Exec(s, es + more).drainingRx == 0 && AtRest(Exec(s, es + more))
  {
    StoppedDrainIsBounded(s, es);
    more := StoppedDrainReachesZero(Exec(s, es));
    DrainSafety.RunConcat(s, es, more);
  }

  // ---------------------------------------------------------------------------------------------
  // Removal

  ghost predicate Removing(s: Drain) { Inv(s) && s.deviceRemoval }

  /** Nobody can start the drain once the device is being removed. */
  lemma {:induction false} RemovedRunsAreStopped(s: Drain, es: seq<Event>)
    requires Removing(s) && Runs(s, es)
    ensures forall i :: 0 <= i < |es| ==> StoppedEvent(es[i])
    ensures Removing(Exec(s, es))
    decreases |es|
  {
    if es != [] {
      DrainSafety.StepKeepsInv(s, es[0]);
      RemovedRunsAreStopped(Step(s, es[0]), es[1..]);
    }
  }

  function CleanupLeft(c: Cleanup): nat {
    match c
    case RemovalFlagged => 4
    case FirstWait => 3
    case Polling => 2
    case ReadyToFree => 1
    case _ => 0
  }

  /** With the counter at zero the cleanup goes on to free the buffers, signalled or not. */
  lemma {:induction false} CleanupFrees(s: Drain) returns (es: seq<Event>)
    requires Removing(s) && s.drainingRx == 0
    ensures Runs(s, es) && |es| <= CleanupLeft(s.cleanup)
    ensures Exec(s, es).cleanup.Freed? && Exec(s, es).tokens == [] && !Exec(s, es).pipeDrain
    decreases CleanupLeft(s.cleanup)
  {
    es := [];
    if !s.cleanup.Freed? {
      var e := match s.cleanup
               case RemovalFlagged => StopForRemoval
               case FirstWait => WaitReturns(false)
               case Polling => Poll(false)
               case _ => Free;
      DrainSafety.StepKeepsInv(s, e);
      var more := CleanupFrees(Step(s, e));
      es := [e] + more;
      assert es[1..] == more;
    }
  }

  /** A removal never gets stuck: every run after it was flagged, whatever the completions report, extends to one
      that frees the buffers, in at most four steps more than the drain has left. */
  lemma {:induction false} RemovalCompletes(s: Drain, es: seq<Event>) returns (more: seq<Event>)
    requires Removing(s) && Runs(s, es)
    ensures Runs(s, es + more) && DrainSteps(es) + |more| <= Left(s) + 4
    ensures var t := Exec(s, es + more);
            t.cleanup.Freed? && t.tokens == [] && !t.pipeDrain && t.deviceRemoval
  {
    RemovedRunsAreStopped(s, es);
    StoppedDrainIsBounded(s, es);
    var t := Exec(s, es);
    var rest := StoppedDrainReachesZero(t);
    RemovedRunsAreStopped(t, rest);
    var last := CleanupFrees(Exec(t, rest));
    DrainSafety.RunConcat(t, rest, last);
    more := rest + last;
    DrainSafety.RunConcat(s, es, more);
    RemovedRunsAreStopped(t, more);
  }

  function Signals(es: seq<Event>): nat { if es == [] then 0 else Bit(es[0].Signal?) + Signals(es[1..]) }

  /** Waits of the cleanup that ended on the event. */
  ghost function SignalledWaits(s: Drain, es: seq<Event>): nat
    requires Runs(s, es)
    decreases |es|
  {
    if es == [] then 0
    else
      Bit(es[0] == WaitReturns(true) || (es[0] == Poll(true) && s.drainingRx != 0))
      + SignalledWaits(Step(s, es[0]), es[1..])
  }

  /** A wait uses the signal up that ends it: no signal ends two waits. */
  lemma {:induction false} SignalsEndWaits(s: Drain, es: seq<Event>)
    requires Runs(s, es)
    ensures SignalledWaits(s, es) + Bit(Exec(s, es).drainStoppedEvent) <= Bit(s.drainStoppedEvent) + Signals(es)
    decreases |es|
  {
    if es != [] {
      OneSignalOneWait(s, es[0]);
      SignalsEndWaits(Step(s, es[0]), es[1..]);
    }
  }

  lemma {:induction false} OneSignalOneWait(s: Drain, e: Event)
    requires Enabled(s, e)
    ensures Bit(e == WaitReturns(true) || (e == Poll(true) && s.drainingRx != 0)) + Bit(Step(s, e).drainStoppedEvent)
         <= Bit(s.drainStoppedEvent) + Bit(e.Signal?)
  {
  }

  // ---------------------------------------------------------------------------------------------
  // Success

  lemma {:induction false} GoOn(s: Drain, t: Drain, e: Event) returns (u: Drain)
    requires DrainSafety.Reaches(s, t) && Inv(t) && Enabled(t, e)
    ensures u == Step(t, e) && DrainSafety.Reaches(s, u) && Inv(u)
  {
    u := Step(t, e);
    DrainSafety.StepKeepsInv(t, e);
    DrainSafety.ReachStep(s, t, e, u);
  }

  /** A read succeeds: the failures so far are forgotten, and its routine decides to send the request again. */
  lemma {:induction false} SuccessIsDecided(s: Drain, t: Drain, k: nat) returns (u: Drain)
    requires DrainSafety.Reaches(s, t) && Running(t, k)
    ensures DrainSafety.Reaches(s, u) && Inv(u) && At(u, k, Gated(true)) && u.pipeDrain && !u.deviceRemoval
    ensures u.sends == t.sends && u.ioFailureCount == 0
  {
    u := GoOn(s, t, SendOutcome(k, true));
    u := GoOn(s, u, Complete(k, Ok));
    u := GoOn(s, u, Judge(k));
    u := GoOn(s, u, Gate(k));
  }

  lemma {:induction false} SuccessIsSent(s: Drain, t: Drain, k: nat) returns (u: Drain)
    requires DrainSafety.Reaches(s, t) && Inv(t) && At(t, k, Gated(true)) && t.pipeDrain && !t.deviceRemoval
    ensures DrainSafety.Reaches(s, u) && u.tokens != [] && Running(u, |u.tokens| - 1)
    ensures u.sends == t.sends + 1 && u.ioFailureCount == t.ioFailureCount
  {
    u := GoOn(s, t, Rearm(k));
    u := GoOn(s, u, Resend(k, true));
    u := GoOn(s, u, Leave(k));
  }

  /** A running drain whose reads succeed can go on for any number of reads, whatever the threshold and the
      failures so far, and each success clears the count. */
  lemma {:induction false} SuccessGoesOn(s: Drain, k: nat, n: nat) returns (t: Drain, j: nat)
    requires Running(s, k)
    ensures DrainSafety.Reaches(s, t) && Running(t, j) && t.sends == s.sends + n
    ensures n > 0 ==> t.ioFailureCount == 0
  {
    if n == 0 {
      assert Runs(s, []) && Exec(s, []) == s;
      t, j := s, k;
    } else {
      t, j := SuccessGoesOn(s, k, n - 1);
      t := SuccessIsDecided(s, t, j);
      t := SuccessIsSent(s, t, j);
      j := |t.tokens| - 1;
    }
  }
}
