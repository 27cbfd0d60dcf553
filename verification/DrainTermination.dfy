/** If from some state on every drain completion fails and nobody starts the drain again, the drain
    resends a bounded number of requests and comes to rest. */
module DrainTermination {
  import opened DrainModel
  import DrainSafety
  import opened Machine

  // ---------------------------------------------------------------------------------------------
  // Sums over tokens

  function Sum(tokens: seq<Token>, w: Stage -> nat): nat {
    if tokens == [] then 0 else w(tokens[0].stage) + Sum(tokens[1..], w)
  }

  lemma {:induction false} SumConcat(a: seq<Token>, b: seq<Token>, w: Stage -> nat)
    ensures Sum(a + b, w) == Sum(a, w) + Sum(b, w)
  {
    if a == [] {
      assert a + b == b;
    } else {
      assert (a + b)[1..] == a[1..] + b;
      SumConcat(a[1..], b, w);
    }
  }

  lemma {:induction false} SumSplit(tokens: seq<Token>, k: nat, t: Token, w: Stage -> nat)
    requires k < |tokens|
    ensures Sum(tokens, w) == Sum(Remove(tokens, k), w) + w(tokens[k].stage)
    ensures Sum(tokens[k := t], w) == Sum(Remove(tokens, k), w) + w(t.stage)
  {
    assert tokens == tokens[..k] + ([tokens[k]] + tokens[k + 1..]);
    assert tokens[k := t] == tokens[..k] + ([t] + tokens[k + 1..]);
    SumConcat(tokens[..k], [tokens[k]] + tokens[k + 1..], w);
    SumConcat(tokens[..k], [t] + tokens[k + 1..], w);
    SumConcat(tokens[..k], tokens[k + 1..], w);
  }

  // ---------------------------------------------------------------------------------------------
  // Measures

  function Max(a: int, b: int): int { if a < b then b else a }

  /** Some value of the counter is above the threshold. */
  predicate CanStop(s: Drain) { s.ioFailureThreshold < ULONG_SIZE - 1 }

  /** A completion routine that has decided to resend. */
  function Carries(stage: Stage): nat {
    match stage
    case Judged(again) => if again then 1 else 0
    case Gated(again) => if again then 1 else 0
    case Rearmed(again) => if again then 1 else 0
    case _ => 0
  }

  /** A token that can still lead to another failed completion. */
  function Unsettled(stage: Stage): nat {
    if stage.Sending? || stage.InFlight? || stage.Entered? then 1 else Carries(stage)
  }

  /** What `stops` further stops let through again, when every `gap` of them make the counter wrap around and
      allow `amount` more resends. */
  function Refilled(stops: nat, gap: nat, amount: nat): nat
    requires gap > 0
    decreases stops
  {
    if stops < gap then 0 else amount + Refilled(stops - gap, gap, amount)
  }

  lemma {:induction false} RefilledGrows(stops: nat, more: nat, gap: nat, amount: nat)
    requires gap > 0 && stops <= more
    ensures Refilled(stops, gap, amount) <= Refilled(more, gap, amount)
    decreases more
  {
    if gap <= stops { RefilledGrows(stops - gap, more - gap, gap, amount); }
  }

  /** The failures that may still be answered with a resend when `alive` tokens can fail. Those above the
      threshold stop a token each; after the largest ULONG the counter starts again at 0, if a token is left. */
  function CreditOf(count: nat, threshold: nat, alive: nat): nat
    requires threshold < ULONG_SIZE - 1
  {
    Max(0, threshold - count)
    + if alive == 0 then 0
      else Refilled(alive - 1 + Max(0, count - threshold), ULONG_SIZE - 1 - threshold, threshold + 1)
  }

  lemma {:induction false} CreditGrows(count: nat, threshold: nat, alive: nat, more: nat)
    requires threshold < ULONG_SIZE - 1 && alive <= more
    ensures CreditOf(count, threshold, alive) <= CreditOf(count, threshold, more)
  {
    if alive > 0 {
      var used := Max(0, count - threshold);
      RefilledGrows(alive - 1 + used, more - 1 + used, ULONG_SIZE - 1 - threshold, threshold + 1);
    }
  }

  /** A retryable failure uses up one resend, or stops its token. */
  lemma {:induction false} CreditAfterFailure(count: nat, threshold: nat, alive: nat)
    requires threshold < ULONG_SIZE - 1 && count < ULONG_SIZE && alive > 0
    ensures var next := (count + 1) % ULONG_SIZE;
            if next <= threshold then CreditOf(next, threshold, alive) + 1 == CreditOf(count, threshold, alive)
            else CreditOf(next, threshold, alive - 1) <= CreditOf(count, threshold, alive)
  {
    var gap := ULONG_SIZE - 1 - threshold;
    if count == ULONG_SIZE - 1 {
      assert Refilled(alive - 1 + gap, gap, threshold + 1) == threshold + 1 + Refilled(alive - 1, gap, threshold + 1);
    }
  }

  function Credit(s: Drain): nat
    requires CanStop(s)
  {
    CreditOf(s.ioFailureCount, s.ioFailureThreshold, Sum(s.tokens, Unsettled))
  }

  /** The steps that are left for a token, a resend counted with the seven steps of the new request. */
  function StepsLeft(stage: Stage): nat {
    match stage
    case Sending => 7
    case InFlight => 6
    case Entered(_) => 5
    case Judged(again) => if again then 11 else 4
    case Gated(again) => if again then 10 else 3
    case Rearmed(again) => if again then 9 else 2
    case Leaving => 1
  }

  /** The last token to leave also has to signal. */
  function Measure(s: Drain): nat
    requires CanStop(s)
  {
    7 * Credit(s) + Sum(s.tokens, StepsLeft) + s.signalling + if s.tokens == [] then 0 else 1
  }

  /** Steps of the drain itself, as opposed to those of its controllers. */
  predicate DrainStep(e: Event) {
    e.SendOutcome? || e.Complete? || e.Judge? || e.Gate? || e.Rearm? || e.Resend? || e.Leave? || e.Signal?
  }

  predicate FailingEvent(e: Event) {
    !e.Start? && !e.StartSends? && (e.Complete? ==> !e.status.Ok?)
  }

  /** Nobody is starting the drain, and no successful completion is left to be judged. */
  ghost predicate Quiet(s: Drain) {
    Inv(s) && s.starters == [] && forall k :: 0 <= k < |s.tokens| ==> s.tokens[k].stage != Entered(Ok)
  }

  ghost predicate Failing(s: Drain) { Quiet(s) && CanStop(s) }

  /** One failing step uses up the measure and the promised resends. */
  ghost predicate UsesUp(s: Drain, t: Drain, steps: nat)
    requires CanStop(s) && CanStop(t)
  {
    && Measure(t) + steps <= Measure(s)
    && t.sends + Credit(t) + Sum(t.tokens, Carries) <= s.sends + Credit(s) + Sum(s.tokens, Carries)
  }

  lemma {:induction false} AliveGrows(s: Drain, t: Drain)
    requires CanStop(s) && s.ioFailureThreshold == t.ioFailureThreshold && s.ioFailureCount == t.ioFailureCount
    requires Sum(s.tokens, Unsettled) <= Sum(t.tokens, Unsettled)
    ensures Credit(s) <= Credit(t)
  {
    CreditGrows(s.ioFailureCount, s.ioFailureThreshold, Sum(s.tokens, Unsettled), Sum(t.tokens, Unsettled));
  }

  lemma {:induction false} UnsettledBelow(tokens: seq<Token>, k: nat)
    requires k < |tokens|
    ensures Unsettled(tokens[k].stage) <= Sum(tokens, Unsettled)
  {
    SumSplit(tokens, k, tokens[k], Unsettled);
  }

  lemma {:induction false} AdvanceSums(s: Drain, k: nat, stage: Stage)
    requires k < |s.tokens|
    ensures var t := Advance(s, k, stage);
            && Sum(t.tokens, StepsLeft) == Sum(s.tokens, StepsLeft) - StepsLeft(s.tokens[k].stage) + StepsLeft(stage)
            && Sum(t.tokens, Carries) == Sum(s.tokens, Carries) - Carries(s.tokens[k].stage) + Carries(stage)
            && Sum(t.tokens, Unsettled) == Sum(s.tokens, Unsettled) - Unsettled(s.tokens[k].stage) + Unsettled(stage)
  {
    var t := s.tokens[k].(stage := stage);
    SumSplit(s.tokens, k, t, StepsLeft);
    SumSplit(s.tokens, k, t, Carries);
    SumSplit(s.tokens, k, t, Unsettled);
  }

  lemma {:induction false} RemoveSums(tokens: seq<Token>, k: nat)
    requires k < |tokens|
    ensures Sum(Remove(tokens, k), StepsLeft) == Sum(tokens, StepsLeft) - StepsLeft(tokens[k].stage)
    ensures Sum(Remove(tokens, k), Carries) == Sum(tokens, Carries) - Carries(tokens[k].stage)
    ensures Sum(Remove(tokens, k), Unsettled) == Sum(tokens, Unsettled) - Unsettled(tokens[k].stage)
  {
    SumSplit(tokens, k, tokens[k], StepsLeft);
    SumSplit(tokens, k, tokens[k], Carries);
    SumSplit(tokens, k, tokens[k], Unsettled);
  }

  lemma {:induction false} SendSums(s: Drain, request: nat, formatted: bool)
    ensures var t := SendIOBlock(s, request, formatted);
            && t.sends - s.sends == Sum(t.tokens, Unsettled) - Sum(s.tokens, Unsettled) == |t.tokens| - |s.tokens|
            && Sum(t.tokens, StepsLeft) == Sum(s.tokens, StepsLeft) + 7 * (t.sends - s.sends)
            && Sum(t.tokens, Carries) == Sum(s.tokens, Carries)
            && s.sends <= t.sends <= s.sends + 1
            && forall k :: 0 <= k < |t.tokens| ==> t.tokens[k] == Token(request, Sending) || t.tokens[k] in s.tokens
  {
    var sent := [Token(request, Sending)];
    SumConcat(s.tokens, sent, StepsLeft);
    SumConcat(s.tokens, sent, Carries);
    SumConcat(s.tokens, sent, Unsettled);
  }

  lemma {:induction false} JudgeKeepsFailing(s: Drain, k: nat)
    requires Failing(s) && Enabled(s, Judge(k))
    ensures Failing(Step(s, Judge(k)))
  {
    DrainSafety.StepKeepsInv(s, Judge(k));
  }

  lemma {:induction false} JudgeSums(s: Drain, k: nat)
    requires Failing(s) && Enabled(s, Judge(k))
    ensures var t, alive := Step(s, Judge(k)), Sum(s.tokens, Unsettled);
            alive > 0 && Sum(t.tokens, Unsettled) == alive - 1 + Bit(Again(s, s.tokens[k].stage.status))
  {
    AdvanceSums(s, k, Judged(Again(s, s.tokens[k].stage.status)));
    UnsettledBelow(s.tokens, k);
  }

  /** A failure that is answered with a resend takes it from the credit. */
  lemma {:induction false} CreditAfterJudging(s: Drain, status: Status, alive: nat)
    requires CanStop(s) && s.ioFailureCount < ULONG_SIZE && !status.Ok? && alive > 0
    ensures CreditOf(CountAfter(s, status), s.ioFailureThreshold, alive - 1 + Bit(Again(s, status)))
            + Bit(Again(s, status)) <= CreditOf(s.ioFailureCount, s.ioFailureThreshold, alive)
  {
    if status.Retryable? {
      CreditAfterFailure(s.ioFailureCount, s.ioFailureThreshold, alive);
    } else {
      CreditGrows(s.ioFailureCount, s.ioFailureThreshold, alive - 1, alive);
    }
  }

  lemma {:induction false} JudgeTakesCredit(s: Drain, k: nat)
    requires Failing(s) && Enabled(s, Judge(k))
    ensures Credit(Step(s, Judge(k))) + Bit(Again(s, s.tokens[k].stage.status)) <= Credit(s)
  {
    JudgeSums(s, k);
    CreditAfterJudging(s, s.tokens[k].stage.status, Sum(s.tokens, Unsettled));
  }

  lemma {:induction false} JudgeUsesUp(s: Drain, k: nat)
    requires Failing(s) && Enabled(s, Judge(k))
    ensures UsesUp(s, Step(s, Judge(k)), 1)
  {
    JudgeTakesCredit(s, k);
    AdvanceSums(s, k, Judged(Again(s, s.tokens[k].stage.status)));
  }

  lemma {:induction false} ResendKeepsFailing(s: Drain, k: nat, formatted: bool)
    requires Failing(s) && Enabled(s, Resend(k, formatted))
    ensures Failing(Step(s, Resend(k, formatted)))
  {
    DrainSafety.StepKeepsInv(s, Resend(k, formatted));
  }

  lemma {:induction false} ResendUsesUp(s: Drain, k: nat, formatted: bool)
    requires Failing(s) && Enabled(s, Resend(k, formatted))
    ensures UsesUp(s, Step(s, Resend(k, formatted)), 1)
  {
    AdvanceSums(s, k, Leaving);
    SendSums(Advance(s, k, Leaving), s.tokens[k].request, formatted);
    AliveGrows(Step(s, Resend(k, formatted)), s);
  }

  predicate Advances(e: Event) { e.Complete? || e.Gate? || e.Rearm? || (e.SendOutcome? && e.accepted) }

  lemma {:induction false} AdvanceKeepsFailing(s: Drain, e: Event)
    requires Failing(s) && Enabled(s, e) && FailingEvent(e) && Advances(e)
    ensures Failing(Step(s, e))
  {
    DrainSafety.StepKeepsInv(s, e);
  }

  lemma {:induction false} AdvanceUsesUp(s: Drain, e: Event)
    requires Failing(s) && Enabled(s, e) && FailingEvent(e) && Advances(e)
    ensures UsesUp(s, Step(s, e), 1)
  {
    AdvanceSums(s, e.token, Step(s, e).tokens[e.token].stage);
    AliveGrows(Step(s, e), s);
  }

  predicate Removes(e: Event) { e.Leave? || (e.SendOutcome? && !e.accepted) }

  lemma {:induction false} RemoveKeepsFailing(s: Drain, e: Event)
    requires Failing(s) && Enabled(s, e) && Removes(e)
    ensures Failing(Step(s, e))
  {
    DrainSafety.StepKeepsInv(s, e);
  }

  lemma {:induction false} RemoveUsesUp(s: Drain, e: Event)
    requires Failing(s) && Enabled(s, e) && Removes(e)
    ensures UsesUp(s, Step(s, e), 1)
  {
    RemoveSums(s.tokens, e.token);
    AliveGrows(Step(s, e), s);
  }

  lemma {:induction false} StepKeepsFailing(s: Drain, e: Event)
    requires Failing(s) && Enabled(s, e) && FailingEvent(e)
    ensures Failing(Step(s, e))
  {
    if Advances(e) { AdvanceKeepsFailing(s, e); }
    else if Removes(e) { RemoveKeepsFailing(s, e); }
    else if e.Judge? { JudgeKeepsFailing(s, e.token); }
    else if e.Resend? { ResendKeepsFailing(s, e.token, e.formatted); }
    else { DrainSafety.StepKeepsInv(s, e); }
  }

  lemma {:induction false} StepUsesUp(s: Drain, e: Event)
    requires Failing(s) && Enabled(s, e) && FailingEvent(e)
    ensures UsesUp(s, Step(s, e), if DrainStep(e) then 1 else 0)
  {
    if Advances(e) { AdvanceUsesUp(s, e); }
    else if Removes(e) { RemoveUsesUp(s, e); }
    else if e.Judge? { JudgeUsesUp(s, e.token); }
    else if e.Resend? { ResendUsesUp(s, e.token, e.formatted); }
  }

  function DrainSteps(es: seq<Event>): nat {
    if es == [] then 0 else (if DrainStep(es[0]) then 1 else 0) + DrainSteps(es[1..])
  }

  /** However long the run, the drain takes at most `Measure(s)` steps in it, and hands at most the
      remaining credit plus the resends already decided to the USB stack, whatever the counter holds. */
  lemma {:induction false} FailingDrainIsBounded(s: Drain, es: seq<Event>)
    requires Failing(s) && Runs(s, es)
    requires forall i :: 0 <= i < |es| ==> FailingEvent(es[i])
    ensures Failing(Exec(s, es))
    ensures DrainSteps(es) + Measure(Exec(s, es)) <= Measure(s)
    ensures Exec(s, es).sends - s.sends <= Credit(s) + Sum(s.tokens, Carries)
    decreases |es|
  {
    if es != [] {
      StepKeepsFailing(s, es[0]);
      StepUsesUp(s, es[0]);
      FailingDrainIsBounded(Step(s, es[0]), es[1..]);
    }
  }

  /** With no more tokens than there are values above the threshold the counter cannot wrap around in time: the
      credit is what is left below the threshold. */
  lemma {:induction false} CreditWithoutWrap(s: Drain)
    requires CanStop(s) && Max(s.ioFailureCount, s.ioFailureThreshold) + Sum(s.tokens, Unsettled) < ULONG_SIZE
    ensures Credit(s) == Max(0, s.ioFailureThreshold - s.ioFailureCount)
  {
  }

  /** Work in progress always has a next step: the drain never gets stuck with the counter above zero. */
  lemma {:induction false} OutstandingDrainCanStep(s: Drain) returns (e: Event)
    requires Inv(s) && (s.drainingRx != 0 || s.signalling != 0)
    ensures DrainStep(e) && FailingEvent(e) && Enabled(s, e)
  {
    if s.tokens == [] {
      e := Signal;
    } else {
      match s.tokens[0].stage
      case Sending => e := SendOutcome(0, true);
      case InFlight => e := Complete(0, Fatal);
      case Entered(_) => e := Judge(0);
      case Judged(_) => e := Gate(0);
      case Gated(_) => e := Rearm(0);
      case Rearmed(_) => e := Resend(0, true);
      case Leaving => e := Leave(0);
    }
  }

  ghost predicate AtRest(s: Drain) { forall e :: DrainStep(e) && FailingEvent(e) ==> !Enabled(s, e) }

  /** Where a run can go no further, the counter is zero and nothing is in flight; and the drain is at rest
      nowhere else. */
  lemma {:induction false} RestsExactlyWhenZero(s: Drain, es: seq<Event>)
    requires Inv(s) && Runs(s, es)
    ensures AtRest(Exec(s, es)) <==> Exec(s, es).drainingRx == 0 && Exec(s, es).signalling == 0
    ensures AtRest(Exec(s, es)) ==> Exec(s, es).tokens == []
  {
    DrainSafety.RunKeepsInv(s, es);
    var t := Exec(s, es);
    if t.drainingRx != 0 || t.signalling != 0 {
      var e := OutstandingDrainCanStep(t);
      assert !AtRest(t);
    }
  }

  /** From any failing state, with any number of requests and any credit, the drain can go on to zero, in at
      most as many steps as the measure says. */
  lemma {:induction false} FailingDrainReachesZero(s: Drain) returns (es: seq<Event>)
    requires Failing(s)
    ensures Runs(s, es) && |es| <= Measure(s)
    ensures forall i :: 0 <= i < |es| ==> FailingEvent(es[i]) && DrainStep(es[i])
    ensures Exec(s, es).drainingRx == 0 && AtRest(Exec(s, es))
    decreases Measure(s)
  {
    es := [];
    if s.drainingRx != 0 || s.signalling != 0 {
      var e := OutstandingDrainCanStep(s);
      StepKeepsFailing(s, e);
      StepUsesUp(s, e);
      var more := FailingDrainReachesZero(Step(s, e));
      es := [e] + more;
      assert es[1..] == more;
    }
  }

  /** And every failing run, however it went, extends to such an end within the same bound. */
  lemma {:induction false} FailingRunExtendsToZero(s: Drain, es: seq<Event>) returns (more: seq<Event>)
    requires Failing(s) && Runs(s, es)
    requires forall i :: 0 <= i < |es| ==> FailingEvent(es[i])
    ensures Runs(s, es + more) && DrainSteps(es) + |more| <= Measure(s)
    ensures forall i :: 0 <= i < |more| ==> FailingEvent(more[i]) && DrainStep(more[i])
    ensures Exec(s, es + more).drainingRx == 0 && AtRest(Exec(s, es + more))
  {
    FailingDrainIsBounded(s, es);
    more := FailingDrainReachesZero(Exec(s, es));
    DrainSafety.RunConcat(s, es, more);
  }

  // ---------------------------------------------------------------------------------------------
  // The largest threshold

  ghost predicate FailsTo(s: Drain, t: Drain) {
    exists es :: Runs(s, es) && (forall i :: 0 <= i < |es| ==> FailingEvent(es[i])) && Exec(s, es) == t
  }

  /** One more step of a failing drain. */
  lemma {:induction false} FailOn(s: Drain, t: Drain, e: Event) returns (u: Drain)
    requires FailsTo(s, t) && Inv(t) && Enabled(t, e) && FailingEvent(e)
    ensures u == Step(t, e) && FailsTo(s, u) && Inv(u)
  {
    u := Step(t, e);
    var es :| Runs(s, es) && (forall i :: 0 <= i < |es| ==> FailingEvent(es[i])) && Exec(s, es) == t;
    DrainSafety.StepKeepsInv(t, e);
    DrainSafety.RunOfOne(t, e);
    DrainSafety.RunConcat(s, es, [e]);
  }

  /** A drain that runs, with a request on its way. */
  ghost predicate Running(s: Drain, k: nat) {
    Inv(s) && At(s, k, Sending) && s.pipeDrain && !s.deviceRemoval
  }

  lemma {:induction false} RetryFails(s: Drain, t: Drain, k: nat) returns (u: Drain)
    requires FailsTo(s, t) && Running(t, k)
    ensures FailsTo(s, u) && Inv(u) && At(u, k, Entered(Retryable)) && u.pipeDrain && !u.deviceRemoval
    ensures u.ioFailureThreshold == t.ioFailureThreshold && u.sends == t.sends && u.ioFailureCount == t.ioFailureCount
  {
    u := FailOn(s, t, SendOutcome(k, true));
    u := FailOn(s, u, Complete(k, Retryable));
  }

  lemma {:induction false} RetryIsJudged(s: Drain, t: Drain, k: nat) returns (u: Drain)
    requires FailsTo(s, t) && Inv(t) && At(t, k, Entered(Retryable)) && Again(t, Retryable)
    ensures FailsTo(s, u) && Inv(u) && At(u, k, Judged(true))
    ensures u.pipeDrain == t.pipeDrain && u.deviceRemoval == t.deviceRemoval && u.sends == t.sends
    ensures u.ioFailureThreshold == t.ioFailureThreshold && u.ioFailureCount == CountAfter(t, Retryable)
  {
    u := FailOn(s, t, Judge(k));
  }

  lemma {:induction false} RetryIsGated(s: Drain, t: Drain, k: nat) returns (u: Drain)
    requires FailsTo(s, t) && Inv(t) && At(t, k, Judged(true)) && t.pipeDrain && !t.deviceRemoval
    ensures FailsTo(s, u) && Inv(u) && At(u, k, Gated(true)) && u.pipeDrain && !u.deviceRemoval
    ensures u.ioFailureThreshold == t.ioFailureThreshold && u.ioFailureCount == t.ioFailureCount && u.sends == t.sends
  {
    u := FailOn(s, t, Gate(k));
  }

  lemma {:induction false} RetryPassesGate(s: Drain, t: Drain, k: nat) returns (u: Drain)
    requires FailsTo(s, t) && Inv(t) && At(t, k, Entered(Retryable)) && Again(t, Retryable)
    requires t.pipeDrain && !t.deviceRemoval
    ensures FailsTo(s, u) && Inv(u) && At(u, k, Gated(true)) && u.pipeDrain && !u.deviceRemoval
    ensures u.ioFailureThreshold == t.ioFailureThreshold && u.sends == t.sends
    ensures u.ioFailureCount == CountAfter(t, Retryable)
  {
    u := RetryIsJudged(s, t, k);
    u := RetryIsGated(s, u, k);
  }

  /** The request fails in a way that allows a retry, and its routine decides to send it again. */
  lemma {:induction false} RetryIsDecided(s: Drain, t: Drain, k: nat) returns (u: Drain)
    requires FailsTo(s, t) && Running(t, k) && Again(t, Retryable)
    ensures FailsTo(s, u) && Inv(u) && At(u, k, Gated(true)) && u.pipeDrain && !u.deviceRemoval
    ensures u.ioFailureThreshold == t.ioFailureThreshold && u.sends == t.sends
    ensures u.ioFailureCount == CountAfter(t, Retryable)
  {
    var failed := RetryFails(s, t, k);
    SameCount(t, failed);
    u := RetryPassesGate(s, failed, k);
  }

  lemma {:induction false} SameCount(t: Drain, u: Drain)
    requires u.ioFailureCount == t.ioFailureCount && u.ioFailureThreshold == t.ioFailureThreshold
    ensures CountAfter(u, Retryable) == CountAfter(t, Retryable) && Again(u, Retryable) == Again(t, Retryable)
  {
  }

  /** It is sent again, and the routine leaves. */
  lemma {:induction false} RetryIsSent(s: Drain, t: Drain, k: nat) returns (u: Drain)
    requires FailsTo(s, t) && Inv(t) && At(t, k, Gated(true)) && t.pipeDrain && !t.deviceRemoval
    ensures FailsTo(s, u) && u.tokens != [] && Running(u, |u.tokens| - 1)
    ensures u.ioFailureThreshold == t.ioFailureThreshold && u.sends == t.sends + 1
    ensures u.ioFailureCount == t.ioFailureCount
  {
    u := FailOn(s, t, Rearm(k));
    u := FailOn(s, u, Resend(k, true));
    u := FailOn(s, u, Leave(k));
  }

  lemma {:induction false} RetryRound(s: Drain, t: Drain, k: nat) returns (u: Drain, j: nat)
    requires FailsTo(s, t) && Running(t, k) && Again(t, Retryable)
    ensures FailsTo(s, u) && Running(u, j) && u.ioFailureThreshold == t.ioFailureThreshold
    ensures u.sends == t.sends + 1 && u.ioFailureCount == CountAfter(t, Retryable)
  {
    u := RetryIsDecided(s, t, k);
    u := RetryIsSent(s, u, k);
    j := |u.tokens| - 1;
  }

  lemma {:induction false} CountBelowThreshold(s: Drain)
    requires Inv(s) && (s.ioFailureThreshold == ULONG_SIZE - 1 || s.ioFailureCount < s.ioFailureThreshold)
    ensures Again(s, Retryable)
    ensures s.ioFailureCount < ULONG_SIZE - 1 ==> CountAfter(s, Retryable) == s.ioFailureCount + 1
  {
  }

  /** A drain that runs with a request on its way answers as many failures with a resend as the threshold is above
      the count, and any number at the largest ULONG, where the test of the threshold can never fail. */
  lemma {:induction false} RetriesGoOn(s: Drain, k: nat, n: nat) returns (t: Drain, j: nat)
    requires Running(s, k) && (s.ioFailureThreshold == ULONG_SIZE - 1 || s.ioFailureCount + n <= s.ioFailureThreshold)
    ensures FailsTo(s, t) && Running(t, j) && t.ioFailureThreshold == s.ioFailureThreshold
    ensures t.sends == s.sends + n
    ensures s.ioFailureThreshold == ULONG_SIZE - 1 || t.ioFailureCount == s.ioFailureCount + n
  {
    if n == 0 {
      assert Runs(s, []) && Exec(s, []) == s;
      t, j := s, k;
    } else {
      t, j := RetriesGoOn(s, k, n - 1);
      CountBelowThreshold(t);
      t, j := RetryRound(s, t, j);
    }
  }

  ghost predicate CanSend(s: Drain, n: nat) { exists t :: FailsTo(s, t) && t.sends >= s.sends + n }

  lemma {:induction false} SmallerThresholdStops(s: Drain)
    requires Failing(s)
    ensures !CanSend(s, Credit(s) + Sum(s.tokens, Carries) + 1)
  {
    forall t | FailsTo(s, t) ensures t.sends <= s.sends + Credit(s) + Sum(s.tokens, Carries) {
      var es :| Runs(s, es) && (forall i :: 0 <= i < |es| ==> FailingEvent(es[i])) && Exec(s, es) == t;
      FailingDrainIsBounded(s, es);
    }
  }

  /** Resends of a failing drain are unlimited exactly for the largest ULONG as threshold, from every state in
      which the drain runs with a request on its way, whatever else is under way and whatever the counter holds. */
  lemma {:induction false} ResendsUnlimitedExactlyWhen(s: Drain, k: nat)
    requires Quiet(s) && Running(s, k)
    ensures (forall n: nat :: CanSend(s, n)) <==> s.ioFailureThreshold == ULONG_SIZE - 1
  {
    if s.ioFailureThreshold == ULONG_SIZE - 1 {
      forall n: nat ensures CanSend(s, n) {
        var t, j := RetriesGoOn(s, k, n);
      }
    } else {
      SmallerThresholdStops(s);
    }
  }
}
