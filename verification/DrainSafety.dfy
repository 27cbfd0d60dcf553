/** What every run of the pipe drain keeps, and exactly when its removal handshake is safe. */
module DrainSafety {
  import opened DrainModel

  // ---------------------------------------------------------------------------------------------
  // The counter and the requests

  lemma {:induction false} AdvanceKeepsExclusive(s: Drain, k: nat, stage: Stage)
    requires Exclusive(s.tokens, s.isPending) && k < |s.tokens|
    requires Holds(stage) ==> Holds(s.tokens[k].stage)
    ensures Exclusive(Advance(s, k, stage).tokens, s.isPending)
    ensures Holds(s.tokens[k].stage) && !Holds(stage) ==>
              Exclusive(Advance(s, k, stage).tokens, s.isPending - {s.tokens[k].request})
  {
  }

  lemma {:induction false} RemoveKeepsExclusive(tokens: seq<Token>, isPending: set<nat>, k: nat)
    requires Exclusive(tokens, isPending) && k < |tokens|
    ensures Exclusive(Remove(tokens, k), isPending)
  {
  }

  lemma {:induction false} SendKeepsInv(s: Drain, request: nat, formatted: bool)
    requires Inv(s)
    ensures Inv(SendIOBlock(s, request, formatted))
  {
  }

  lemma {:induction false} TokenEventKeepsInv(s: Drain, e: Event)
    requires Inv(s) && Enabled(s, e)
    requires e.SendOutcome? || e.Complete? || e.Judge? || e.Gate? || e.Rearm? || e.Leave?
    ensures Inv(Step(s, e))
  {
    match e
    case SendOutcome(k, accepted) =>
      AdvanceKeepsExclusive(s, k, InFlight); RemoveKeepsExclusive(s.tokens, s.isPending, k);
    case Complete(k, status) => AdvanceKeepsExclusive(s, k, Entered(status));
    case Judge(k) => AdvanceKeepsExclusive(s, k, Judged(Again(s, s.tokens[k].stage.status)));
    case Gate(k) => AdvanceKeepsExclusive(s, k, Step(s, e).tokens[k].stage);
    case Rearm(k) => AdvanceKeepsExclusive(s, k, Rearmed(s.tokens[k].stage.again));
    case Leave(k) => RemoveKeepsExclusive(s.tokens, s.isPending, k);
  }

  lemma {:induction false} ResendKeepsInv(s: Drain, k: nat, formatted: bool)
    requires Inv(s) && Enabled(s, Resend(k, formatted))
    ensures Inv(Step(s, Resend(k, formatted)))
  {
    AdvanceKeepsExclusive(s, k, Leaving);
    SendKeepsInv(Advance(s, k, Leaving), s.tokens[k].request, formatted);
  }

  lemma {:induction false} StepKeepsInv(s: Drain, e: Event)
    requires Inv(s) && Enabled(s, e)
    ensures Inv(Step(s, e))
  {
    match e
    case StartSends(i, formatted) => SendKeepsInv(s, s.starters[i], formatted);
    case Resend(k, formatted) => ResendKeepsInv(s, k, formatted);
    case SendOutcome(_, _) => TokenEventKeepsInv(s, e);
    case Complete(_, _) => TokenEventKeepsInv(s, e);
    case Judge(_) => TokenEventKeepsInv(s, e);
    case Gate(_) => TokenEventKeepsInv(s, e);
    case Rearm(_) => TokenEventKeepsInv(s, e);
    case Leave(_) => TokenEventKeepsInv(s, e);
    case _ =>
  }

  lemma {:induction false} RunKeepsInv(s: Drain, es: seq<Event>)
    requires Inv(s) && Runs(s, es)
    ensures Inv(Exec(s, es))
    decreases |es|
  {
    if es != [] {
      StepKeepsInv(s, es[0]);
      RunKeepsInv(Step(s, es[0]), es[1..]);
    }
  }

  /** Over every run DrainingRx counts exactly the requests on their way or in flight and the completion
      routines before their decrement, and no request is in flight twice. */
  lemma {:induction false} CounterCountsOutstandingWork(s: Drain, es: seq<Event>)
    requires Fresh(s) && Runs(s, es)
    ensures Exec(s, es).drainingRx == |Exec(s, es).tokens|
    ensures forall j, k :: 0 <= j < k < |Exec(s, es).tokens|
              && Exec(s, es).tokens[j].stage.InFlight? && Exec(s, es).tokens[k].stage.InFlight?
              ==> Exec(s, es).tokens[j].request != Exec(s, es).tokens[k].request
  {
    RunKeepsInv(s, es);
  }

  // ---------------------------------------------------------------------------------------------
  // The removal handshake

  /** After removal was flagged in a good state: a signal, pending or given, means that all is quiet. */
  ghost predicate Calm(s: Drain) {
    && Inv(s) && s.deviceRemoval
    && (s.drainStoppedEvent || s.signalling > 0 || s.cleanup.ReadyToFree? || s.cleanup.Freed? ==> s.drainingRx == 0)
  }

  lemma {:induction false} StepKeepsCalm(s: Drain, e: Event)
    requires Calm(s) && Enabled(s, e)
    ensures Calm(Step(s, e))
  {
    StepKeepsInv(s, e);
  }

  lemma {:induction false} RunKeepsCalm(s: Drain, es: seq<Event>)
    requires Calm(s) && Runs(s, es)
    ensures Calm(Exec(s, es)) && FreesSafely(Exec(s, es))
    decreases |es|
  {
    if es != [] {
      StepKeepsCalm(s, es[0]);
      RunKeepsCalm(Step(s, es[0]), es[1..]);
    }
  }

  /** A completion routine that saw the counter reach zero before further requests were sent, and reads
      DeviceRemoval only after the removal, wakes the cleanup while those requests are in flight. */
  lemma {:induction false} StaleSignalFreesEarly(s: Drain)
    requires Inv(s) && Enabled(s, FlagRemoval) && s.signalling > 0 && s.drainingRx > 0
    ensures var es := [FlagRemoval, Signal, StopForRemoval, WaitReturns(true), Free];
            Runs(s, es) && Exec(s, es).cleanup.Freed? && Exec(s, es).tokens == s.tokens
  {
    var s1 := Step(s, FlagRemoval);
    var s2 := Step(s1, Signal);
    var s3 := Step(s2, StopForRemoval);
    var s4 := Step(s3, WaitReturns(true));
    var s5 := Step(s4, Free);
    assert Runs(s5, []) && Exec(s5, []) == s5;
    assert Runs(s4, [Free]) && Exec(s4, [Free]) == s5;
    assert Runs(s3, [WaitReturns(true), Free]) && Exec(s3, [WaitReturns(true), Free]) == s5;
    var last3 := [StopForRemoval, WaitReturns(true), Free];
    assert last3[1..] == [WaitReturns(true), Free];
    assert Runs(s2, last3) && Exec(s2, last3) == s5;
    assert Runs(s1, [Signal, StopForRemoval, WaitReturns(true), Free]);
  }

  /** Exactly when the handshake is safe. In any reachable state where the cleanup may flag removal, every
      continuation frees the buffers only when nothing is in flight and nothing can be sent again, if
      and only if no completion routine is still on its way to the event or the counter is zero. */
  lemma {:induction false} RemovalIsSafeExactlyWhen(s0: Drain, before: seq<Event>)
    requires Fresh(s0) && Runs(s0, before) && Enabled(Exec(s0, before), FlagRemoval)
    ensures var s := Exec(s0, before);
            (forall es :: Runs(Step(s, FlagRemoval), es) ==> FreesSafely(Exec(Step(s, FlagRemoval), es)))
            <==> (s.signalling == 0 || s.drainingRx == 0)
  {
    RunKeepsInv(s0, before);
    var s := Exec(s0, before);
    var t := Step(s, FlagRemoval);
    if s.signalling == 0 || s.drainingRx == 0 {
      StepKeepsInv(s, FlagRemoval);
      forall es | Runs(t, es) ensures FreesSafely(Exec(t, es)) {
        RunKeepsCalm(t, es);
      }
    } else {
      StaleSignalFreesEarly(s);
      var es := [Signal, StopForRemoval, WaitReturns(true), Free];
      assert [FlagRemoval, Signal, StopForRemoval, WaitReturns(true), Free][1..] == es;
      assert Runs(t, es) && !FreesSafely(Exec(t, es));
    }
  }

  lemma {:induction false} RunConcat(s: Drain, es: seq<Event>, more: seq<Event>)
    requires Runs(s, es) && Runs(Exec(s, es), more)
    ensures Runs(s, es + more) && Exec(s, es + more) == Exec(Exec(s, es), more)
    decreases |es|
  {
    if es == [] {
      assert es + more == more;
    } else {
      RunConcat(Step(s, es[0]), es[1..], more);
      assert (es + more)[0] == es[0] && (es + more)[1..] == es[1..] + more;
    }
  }

  lemma {:induction false} RunOfOne(s: Drain, e: Event)
    requires Enabled(s, e)
    ensures Runs(s, [e]) && Exec(s, [e]) == Step(s, e)
  {
    assert [e][1..] == [] && Runs(Step(s, e), []);
  }

  ghost predicate Reaches(s: Drain, t: Drain) {
    exists es :: Runs(s, es) && Exec(s, es) == t
  }

  lemma {:induction false} ReachStep(s: Drain, t: Drain, e: Event, u: Drain)
    requires Reaches(s, t) && Enabled(t, e) && u == Step(t, e)
    ensures Reaches(s, u)
  {
    var es :| Runs(s, es) && Exec(s, es) == t;
    RunOfOne(t, e);
    RunConcat(s, es, [e]);
  }

  /** A request on its way fails, is not sent again and leaves; its routine is yet to signal. */
  lemma {:induction false} FailOne(s: Drain, t: Drain)
    requires Reaches(s, t) && t.tokens == [Token(0, Sending)]
    ensures Reaches(s, t.(tokens := [Token(0, Gated(false))]))
  {
    var t1 := t.(tokens := [Token(0, InFlight)]);
    var t2 := t.(tokens := [Token(0, Entered(Fatal))]);
    var t3 := t.(tokens := [Token(0, Judged(false))]);
    ReachStep(s, t, SendOutcome(0, true), t1);
    ReachStep(s, t1, Complete(0, Fatal), t2);
    ReachStep(s, t2, Judge(0), t3);
    ReachStep(s, t3, Gate(0), t.(tokens := [Token(0, Gated(false))]));
  }

  lemma {:induction false} LeaveOne(s: Drain, t: Drain)
    requires Reaches(s, t) && t.tokens == [Token(0, Gated(false))] && t.drainingRx == 1 && t.isPending == {0}
    ensures Reaches(s, t.(drainingRx := 0, isPending := {}, tokens := [], signalling := t.signalling + 1))
  {
    var t1 := t.(tokens := [Token(0, Rearmed(false))], isPending := {});
    var t2 := t1.(tokens := [Token(0, Leaving)]);
    ReachStep(s, t, Rearm(0), t1);
    ReachStep(s, t1, Resend(0, true), t2);
    ReachStep(s, t2, Leave(0), t2.(drainingRx := 0, tokens := [], signalling := t.signalling + 1));
  }

  /** The start sends what is left to send, and returns. */
  lemma {:induction false} FinishStart(s: Drain, t: Drain, k: nat) returns (u: Drain)
    requires Reaches(s, t) && t.starters == [k] && k <= t.numOfRxReqs && t.cleanup.NotBegun?
    ensures Reaches(s, u) && u.starters == [] && u.cleanup.NotBegun?
    ensures u.signalling == t.signalling && u.drainingRx >= t.drainingRx
    decreases t.numOfRxReqs - k
  {
    if k == t.numOfRxReqs {
      u := Step(t, StartReturns(0));
      ReachStep(s, t, StartReturns(0), u);
    } else {
      var v := Step(t, StartSends(0, true));
      ReachStep(s, t, StartSends(0, true), v);
      u := FinishStart(s, v, k + 1);
    }
  }

  /** A start in a device with nothing in flight sends its first request. */
  lemma {:induction false} StartOne(s: Drain, t: Drain)
    requires Reaches(s, t) && t.numOfRxReqs >= 1 && t.cleanup.NotBegun?
    requires !t.pipeDrain && t.starters == [] && t.isPending == {} && t.tokens == []
    ensures Reaches(s, t.(pipeDrain := true, starters := [1], isPending := {0}, drainingRx := t.drainingRx + 1,
                          tokens := [Token(0, Sending)], sends := t.sends + 1))
  {
    var t1 := t.(pipeDrain := true, starters := [0]);
    ReachStep(s, t, Start, t1);
    ReachStep(s, t1, StartSends(0, true),
              t1.(starters := [1], isPending := {0}, drainingRx := t.drainingRx + 1,
                  tokens := [Token(0, Sending)], sends := t.sends + 1));
  }

  /** The unsafe case happens, whatever the number of requests: the first request fails, and its completion
      routine is delayed between its decrement and its look at DeviceRemoval while the start goes on to the
      next request. With a single request it takes a second start. */
  lemma {:induction false} StaleSignalHappens(s: Drain) returns (u: Drain)
    requires Fresh(s) && s.numOfRxReqs >= 1
    ensures Reaches(s, u) && Enabled(u, FlagRemoval) && u.signalling > 0 && u.drainingRx > 0
  {
    assert Runs(s, []) && Exec(s, []) == s;
    StartOne(s, s);
    var t := s.(pipeDrain := true, starters := [1], isPending := {0}, drainingRx := 1, tokens := [Token(0, Sending)],
                sends := 1);
    FailOne(s, t);
    LeaveOne(s, t.(tokens := [Token(0, Gated(false))]));
    var stale := s.(pipeDrain := true, starters := [1], sends := 1, signalling := 1);
    if s.numOfRxReqs >= 2 {
      var v := Step(stale, StartSends(0, true));
      ReachStep(s, stale, StartSends(0, true), v);
      u := FinishStart(s, v, 2);
    } else {
      u := RestartOne(s, stale);
    }
  }

  lemma {:induction false} RestartOne(s: Drain, t: Drain) returns (u: Drain)
    requires Reaches(s, t) && t.numOfRxReqs == 1 && t.starters == [1] && t.cleanup.NotBegun? && t.drainingRx == 0
    requires t.isPending == {} && t.tokens == []
    ensures Reaches(s, u) && u.starters == [] && u.cleanup.NotBegun?
    ensures u.signalling == t.signalling && u.drainingRx > 0
  {
    var t1 := t.(starters := []);
    var t2 := t1.(pipeDrain := false);
    ReachStep(s, t, StartReturns(0), t1);
    ReachStep(s, t1, Stop, t2);
    StartOne(s, t2);
    u := FinishStart(s, t2.(pipeDrain := true, starters := [1], isPending := {0}, drainingRx := 1,
                            tokens := [Token(0, Sending)], sends := t.sends + 1), 1);
  }

  /** So every device with at least one request has a run that frees the buffers with requests in flight. */
  lemma {:induction false} BuffersCanBeFreedEarly(s: Drain) returns (t: Drain)
    requires Fresh(s) && s.numOfRxReqs >= 1
    ensures Reaches(s, t) && t.cleanup.Freed? && t.tokens != []
  {
    var u := StaleSignalHappens(s);
    var es :| Runs(s, es) && Exec(s, es) == u;
    RunKeepsInv(s, es);
    StaleSignalFreesEarly(u);
    var more := [FlagRemoval, Signal, StopForRemoval, WaitReturns(true), Free];
    RunConcat(s, es, more);
    t := Exec(s, es + more);
  }

  // ---------------------------------------------------------------------------------------------
  // A whole start

  /** What a start sends when nobody else interferes, request by request. */
  function SendFrom(s: Drain, i: nat, formatted: seq<bool>): Drain
    requires |formatted| == s.numOfRxReqs
    decreases s.numOfRxReqs - i
  {
    if i >= s.numOfRxReqs then s else SendFrom(SendIOBlock(s, i, formatted[i]), i + 1, formatted)
  }

  /** The requests from `i` on, on their way in order. */
  function Sendings(i: nat, n: nat): seq<Token>
    decreases n - i
  {
    if i >= n then [] else [Token(i, Sending)] + Sendings(i + 1, n)
  }

  /** With nothing pending and every request formatted, a start sends each of them once, in order. */
  lemma {:induction false} SendFromSendsAll(s: Drain, i: nat, formatted: seq<bool>)
    requires |formatted| == s.numOfRxReqs && i <= s.numOfRxReqs
    requires forall j :: i <= j < s.numOfRxReqs ==> formatted[j] && j !in s.isPending
    ensures var t := SendFrom(s, i, formatted);
            && t.tokens == s.tokens + Sendings(i, s.numOfRxReqs) && t.pipeDrain == s.pipeDrain
            && t.drainingRx == s.drainingRx + s.numOfRxReqs - i && t.sends == s.sends + s.numOfRxReqs - i
            && forall j :: i <= j < s.numOfRxReqs ==> j in t.isPending
    ensures forall j :: j in s.isPending ==> j in SendFrom(s, i, formatted).isPending
    decreases s.numOfRxReqs - i
  {
    if i < s.numOfRxReqs {
      var t := SendIOBlock(s, i, formatted[i]);
      SendFromSendsAll(t, i + 1, formatted);
      assert s.tokens + [Token(i, Sending)] + Sendings(i + 1, s.numOfRxReqs)
          == s.tokens + Sendings(i, s.numOfRxReqs);
    }
  }

  lemma {:induction false} SendsAreEvents(s: Drain, t: Drain, k: nat, i: nat, formatted: seq<bool>)
    requires Reaches(s, t) && |formatted| == t.numOfRxReqs && i <= t.numOfRxReqs
    requires k < |t.starters| && t.starters[k] == i
    ensures var u := SendFrom(t.(starters := Remove(t.starters, k)), i, formatted);
            Reaches(s, u)
    decreases t.numOfRxReqs - i
  {
    var rest := Remove(t.starters, k);
    if i == t.numOfRxReqs {
      ReachStep(s, t, StartReturns(k), t.(starters := rest));
    } else {
      var u := Step(t, StartSends(k, formatted[i]));
      ReachStep(s, t, StartSends(k, formatted[i]), u);
      assert Remove(u.starters, k) == rest;
      assert u.(starters := rest) == SendIOBlock(t.(starters := rest), i, formatted[i]);
      SendsAreEvents(s, u, k, i + 1, formatted);
    }
  }

  /** A start of a drain that is stopped is a run of the model: the locked part, one send for each request
      in order, and the return. */
  lemma {:induction false} WholeStartIsARun(s: Drain, formatted: seq<bool>)
    requires Enabled(s, Start) && !s.pipeDrain && |formatted| == s.numOfRxReqs
    ensures Reaches(s, SendFrom(s.(pipeDrain := true), 0, formatted))
  {
    assert Runs(s, []) && Exec(s, []) == s;
    var t, k := Step(s, Start), |s.starters|;
    ReachStep(s, s, Start, t);
    assert Remove(t.starters, k) == s.starters;
    SendsAreEvents(s, t, k, 0, formatted);
  }
}
