/** The reset of the miniport (MPMain.c): MiniportReset starts it and returns, a timer carries it through
    its phases, and the last timer routine reports completion to NDIS. `limit` is RESET_TIMEOUT; `ndis60`
    tells which of the two builds is meant. A timer routine runs as a whole when the timer fires; what it
    finds in the queues is an observation. */
module ResetTimer {
  datatype Phase = StartCleanup | WaitForEmpty | QueuesEmpty | Timeout | WaitUsb | Complete

  datatype Reply = Pending | Done | InProgress

  /** `armed` is the timer: set and not yet fired. */
  datatype Reset = Reset(phase: Phase, count: nat, inProgress: bool, armed: bool)

  /** Resets that were answered with Pending; the outcomes reported, true for success; pending resets that
      found the timer already set. */
  datatype Record = Record(pended: nat, completed: seq<bool>, merged: nat)

  datatype State = State(r: Reset, record: Record)

  datatype Seen = Seen(queuesEmpty: bool, scheduled: bool, readsPosted: bool)

  datatype Event =
    | Start(emptyAtOnce: bool, queuesEmpty: bool)   // the two tests of the queues in MiniportReset
    | Fire(seen: Seen)

  datatype Config = Config(ndis60: bool, limit: nat)

  function Answer(c: Config, r: Reset, emptyAtOnce: bool): Reply {
    if r.inProgress then InProgress else if c.ndis60 && emptyAtOnce then Done else Pending
  }

  function StartReset(c: Config, r: Reset, emptyAtOnce: bool, queuesEmpty: bool): Reset {
    match Answer(c, r, emptyAtOnce)
    case InProgress => r
    case Done => r.(phase := Complete)
    case Pending =>
      if !queuesEmpty then Reset(StartCleanup, 0, r.inProgress, true)
      else Reset(QueuesEmpty, r.count, true, true)
  }

  /** ResetCompleteTimerDpc: the reset afterwards, and the outcome if it reports one. */
  function Dpc(c: Config, r: Reset, seen: Seen): (Reset, seq<bool>) {
    match r.phase
    case StartCleanup => (Reset(WaitForEmpty, r.count, true, true), [])
    case WaitForEmpty =>
      if seen.queuesEmpty then (Reset(QueuesEmpty, r.count, r.inProgress, true), [])
      else (Reset(if r.count + 1 <= c.limit then WaitForEmpty else Timeout, r.count + 1, r.inProgress, true), [])
    case QueuesEmpty =>
      if c.ndis60 then (Reset(Complete, r.count, false, true), [])
      else if r.count + 1 <= c.limit then
        (Reset(if seen.scheduled then WaitUsb else QueuesEmpty, r.count + 1, false, true), [])
      else (Reset(Timeout, r.count + 1, false, true), [])
    case Timeout => (Reset(Timeout, r.count, false, false), [false])
    case WaitUsb =>
      if r.count + 1 <= c.limit then
        (Reset(if seen.readsPosted then Complete else WaitUsb, r.count + 1, r.inProgress, true), [])
      else (Reset(Timeout, r.count + 1, r.inProgress, true), [])
    case Complete => (Reset(Complete, r.count, r.inProgress, false), [true])
  }

  predicate Enabled(s: State, e: Event) { e.Fire? ==> s.r.armed }

  function Step(c: Config, s: State, e: Event): State {
    match e
    case Start(emptyAtOnce, queuesEmpty) =>
      var pends := Answer(c, s.r, emptyAtOnce) == Pending;
      State(StartReset(c, s.r, emptyAtOnce, queuesEmpty),
            Record(s.record.pended + if pends then 1 else 0, s.record.completed,
                   s.record.merged + if pends && s.r.armed then 1 else 0))
    case Fire(seen) =>
      var (r, outcome) := Dpc(c, s.r, seen);
      State(r, s.record.(completed := s.record.completed + outcome))
  }

  predicate Runs(c: Config, s: State, es: seq<Event>)
    decreases |es|
  {
    es == [] || (Enabled(s, es[0]) && Runs(c, Step(c, s, es[0]), es[1..]))
  }

  function Exec(c: Config, s: State, es: seq<Event>): State
    decreases |es|
  {
    if es == [] then s else Exec(c, Step(c, s, es[0]), es[1..])
  }

  predicate Idle(s: State) { !s.r.armed && s.record == Record(0, [], 0) }

  // ---------------------------------------------------------------------------------------------
  // Exactly one completion for each pending reset

  /** A timer routine sets the timer again or reports an outcome, never both and never neither. */
  lemma {:induction false} DpcArmsOrCompletes(c: Config, r: Reset, seen: Seen)
    ensures Dpc(c, r, seen).0.armed <==> Dpc(c, r, seen).1 == []
    ensures |Dpc(c, r, seen).1| <= 1
  {
  }

  ghost predicate Balanced(s: State) {
    s.record.pended == |s.record.completed| + s.record.merged + if s.r.armed then 1 else 0
  }

  /** In every run, each reset answered with Pending is either completed, or the one the timer is set for, or
      was accepted while the timer was set for another. NDIS does not start a reset while one is pending, so
      the last kind does not occur and each pending reset is completed exactly once. */
  lemma {:induction false} RunIsBalanced(c: Config, s: State, es: seq<Event>)
    requires Balanced(s) && Runs(c, s, es)
    ensures Balanced(Exec(c, s, es))
    decreases |es|
  {
    if es != [] {
      if es[0].Fire? { DpcArmsOrCompletes(c, s.r, es[0].seen); }
      RunIsBalanced(c, Step(c, s, es[0]), es[1..]);
    }
  }

  /** How the assumption on NDIS is used: resets start only when none is pending. */
  predicate Serial(c: Config, s: State, es: seq<Event>)
    decreases |es|
  {
    es == [] || ((es[0].Start? ==> !s.r.armed) && Serial(c, Step(c, s, es[0]), es[1..]))
  }

  lemma {:induction false} SerialResetsCompleteOnce(c: Config, s: State, es: seq<Event>)
    requires Idle(s) && Runs(c, s, es) && Serial(c, s, es)
    ensures var t := Exec(c, s, es);
            t.record.pended == |t.record.completed| + if t.r.armed then 1 else 0
  {
    RunIsBalanced(c, s, es);
    SerialNeverMerges(c, s, es);
  }

  lemma {:induction false} SerialNeverMerges(c: Config, s: State, es: seq<Event>)
    requires Serial(c, s, es)
    ensures Exec(c, s, es).record.merged == s.record.merged
    decreases |es|
  {
    if es != [] {
      SerialNeverMerges(c, Step(c, s, es[0]), es[1..]);
    }
  }

  // ---------------------------------------------------------------------------------------------
  // Termination

  function Left(c: Config, r: Reset): nat { if r.count <= c.limit then c.limit + 1 - r.count else 1 }

  /** The most timer routines that a reset can still need. */
  function Rank(c: Config, r: Reset): nat {
    if !r.armed then 0
    else
      match r.phase
      case Complete => 1
      case Timeout => 1
      case WaitUsb => Left(c, r) + 1
      case QueuesEmpty => Left(c, r) + 1
      case WaitForEmpty => Left(c, r) + 2
      case StartCleanup => Left(c, r) + 3
  }

  predicate Fires(es: seq<Event>) { forall e :: e in es ==> e.Fire? }

  lemma {:induction false} DpcLowersRank(c: Config, r: Reset, seen: Seen)
    requires r.armed
    ensures Rank(c, Dpc(c, r, seen).0) < Rank(c, r)
  {
  }

  /** Whatever the timer routines find, no more than `Rank` of them run before the outcome is reported. */
  lemma {:induction false} RankBoundsFires(c: Config, s: State, es: seq<Event>)
    requires Runs(c, s, es) && Fires(es)
    ensures |es| + Rank(c, Exec(c, s, es).r) <= Rank(c, s.r)
    decreases |es|
  {
    if es != [] {
      assert es[0] in es;
      DpcLowersRank(c, s.r, es[0].seen);
      RankBoundsFires(c, Step(c, s, es[0]), es[1..]);
    }
  }

  /** A reset that begins with busy queues is reported within RESET_TIMEOUT + 4 timer routines. */
  lemma {:induction false} BusyResetIsBounded(c: Config, s: State, es: seq<Event>)
    requires s.r.armed && s.r.phase == StartCleanup && s.r.count == 0
    requires Runs(c, s, es) && Fires(es)
    ensures |es| <= c.limit + 4
    ensures |es| == c.limit + 4 ==> !Exec(c, s, es).r.armed
  {
    RankBoundsFires(c, s, es);
    if Exec(c, s, es).r.armed { assert Rank(c, Exec(c, s, es).r) >= 1; }
  }

  function Busy(n: nat): (es: seq<Event>)
    ensures |es| == n && Fires(es)
  {
    if n == 0 then [] else [Fire(Seen(false, false, false))] + Busy(n - 1)
  }

  const ALL_SET := Fire(Seen(true, true, true))

  /** The bound is reached in both builds: the queues become empty at the last moment. */
  lemma {:induction false} BoundIsReached(c: Config, s: State)
    requires s.r.armed && s.r.phase == StartCleanup && s.r.count == 0
    ensures exists es :: Runs(c, s, es) && Fires(es) && |es| == c.limit + 4
  {
    var t := Step(c, s, ALL_SET);
    var es := Busy(c.limit) + [ALL_SET, ALL_SET, ALL_SET];
    WaitsOut(c, t, c.limit);
    assert [ALL_SET] + es == [ALL_SET] + Busy(c.limit) + [ALL_SET, ALL_SET, ALL_SET];
    assert Runs(c, s, [ALL_SET] + es) by { assert ([ALL_SET] + es)[1..] == es; }
  }

  lemma {:induction false} WaitsOut(c: Config, s: State, n: nat)
    requires s.r.armed && s.r.phase == WaitForEmpty && s.r.count + n == c.limit
    ensures Runs(c, s, Busy(n) + [ALL_SET, ALL_SET, ALL_SET])
    decreases n
  {
    var last := [ALL_SET, ALL_SET, ALL_SET];
    if n == 0 {
      assert Busy(0) + last == last && last[1..] == [ALL_SET, ALL_SET] && last[1..][1..] == [ALL_SET];
      assert [ALL_SET][1..] == [];
      var t := Step(c, s, ALL_SET);
      var u := Step(c, t, ALL_SET);
      assert u.r.armed && Runs(c, u, [ALL_SET]);
      assert Runs(c, t, last[1..]);
    } else {
      WaitsOut(c, Step(c, s, Busy(n)[0]), n - 1);
      assert (Busy(n) + last)[1..] == Busy(n - 1) + last;
    }
  }

  // ---------------------------------------------------------------------------------------------
  // What the outcome means

  /** The reset has given up exactly if its count is above RESET_TIMEOUT. */
  ghost predicate GaveUpByCount(c: Config, r: Reset) { r.phase == Timeout <==> r.count > c.limit }

  lemma {:induction false} StoppedRunEnds(c: Config, s: State, es: seq<Event>)
    requires !s.r.armed && Runs(c, s, es) && Fires(es)
    ensures es == []
  {
  }

  lemma {:induction false} OutcomeFollowsCount(c: Config, s: State, es: seq<Event>)
    requires s.r.armed && GaveUpByCount(c, s.r) && Runs(c, s, es) && Fires(es) && !Exec(c, s, es).r.armed
    ensures var t := Exec(c, s, es);
            && t.record.completed == s.record.completed + [t.r.count <= c.limit]
            && t.r.phase == if t.r.count <= c.limit then Complete else Timeout
    decreases |es|
  {
    assert es[0] in es;
    var t := Step(c, s, es[0]);
    assert GaveUpByCount(c, t.r);
    if t.r.armed {
      OutcomeFollowsCount(c, t, es[1..]);
    } else {
      StoppedRunEnds(c, t, es[1..]);
    }
  }

  predicate Draining(r: Reset) { r.phase.StartCleanup? || r.phase.WaitForEmpty? || r.phase.Timeout? }

  lemma {:induction false} SuccessSawEmptyQueues(c: Config, s: State, es: seq<Event>)
    requires s.r.armed && Draining(s.r) && Runs(c, s, es) && Fires(es)
    requires forall e :: e in es ==> !e.seen.queuesEmpty
    ensures Draining(Exec(c, s, es).r)
    decreases |es|
  {
    if es != [] {
      assert es[0] in es;
      var t := Step(c, s, es[0]);
      if t.r.armed {
        SuccessSawEmptyQueues(c, t, es[1..]);
      } else {
        StoppedRunEnds(c, t, es[1..]);
      }
    }
  }

  /** A reset that began with busy queues reports success exactly if the count stayed within RESET_TIMEOUT,
      and only after some timer routine found the queues empty. */
  lemma {:induction false} BusyResetOutcome(c: Config, s: State, es: seq<Event>)
    requires s.r.armed && s.r.phase == StartCleanup && s.r.count == 0
    requires Runs(c, s, es) && Fires(es) && !Exec(c, s, es).r.armed
    ensures var t := Exec(c, s, es);
            && t.record.completed == s.record.completed + [t.r.count <= c.limit]
            && (t.r.count <= c.limit ==> exists e :: e in es && e.seen.queuesEmpty)
  {
    OutcomeFollowsCount(c, s, es);
    if forall e :: e in es ==> !e.seen.queuesEmpty {
      SuccessSawEmptyQueues(c, s, es);
    }
  }

  // ---------------------------------------------------------------------------------------------
  // What a success has seen

  /** The reset under way is reported as a success by the last of these timer routines. */
  ghost predicate Succeeds(c: Config, s: State, es: seq<Event>) {
    && s.r.armed && Runs(c, s, es) && Fires(es)
    && !Exec(c, s, es).r.armed && Exec(c, s, es).record.completed == s.record.completed + [true]
  }

  lemma {:induction false} OutcomesDiffer(completed: seq<bool>)
    ensures completed + [false] != completed + [true]
  {
    assert (completed + [true])[|completed|] && !(completed + [false])[|completed|];
  }

  lemma {:induction false} SuccessGoesOn(c: Config, s: State, es: seq<Event>)
    requires Succeeds(c, s, es) && s.r.phase != Complete
    ensures es != [] && es[0].Fire? && s.r.phase != Timeout && Succeeds(c, Step(c, s, es[0]), es[1..])
  {
    assert es[0] in es && forall e :: e in es[1..] ==> e in es;
    var t := Step(c, s, es[0]);
    OutcomesDiffer(s.record.completed);
    if !t.r.armed {
      StoppedRunEnds(c, t, es[1..]);
      assert false;
    }
  }

  lemma {:induction false} SuccessSawReads(c: Config, s: State, es: seq<Event>) returns (k: nat)
    requires Succeeds(c, s, es) && s.r.phase == WaitUsb
    ensures k < |es| && es[k].Fire? && es[k].seen.readsPosted
    decreases |es|
  {
    SuccessGoesOn(c, s, es);
    k := 0;
    if !es[0].seen.readsPosted {
      var t := Step(c, s, es[0]);
      if t.r.phase == Timeout { SuccessGoesOn(c, t, es[1..]); }
      k := SuccessSawReads(c, t, es[1..]);
      k := k + 1;
    }
  }

  lemma {:induction false} SuccessSawWork(c: Config, s: State, es: seq<Event>) returns (j: nat, k: nat)
    requires Succeeds(c, s, es) && s.r.phase == QueuesEmpty && !c.ndis60
    ensures j < k < |es| && es[j].Fire? && es[j].seen.scheduled && es[k].Fire? && es[k].seen.readsPosted
    decreases |es|
  {
    SuccessGoesOn(c, s, es);
    var t := Step(c, s, es[0]);
    if t.r.phase == Timeout { SuccessGoesOn(c, t, es[1..]); }
    if es[0].seen.scheduled {
      j := 0;
      k := SuccessSawReads(c, t, es[1..]);
    } else {
      j, k := SuccessSawWork(c, t, es[1..]);
      j := j + 1;
    }
    k := k + 1;
  }

  lemma {:induction false} SuccessSawEmpty(c: Config, s: State, es: seq<Event>) returns (i: nat)
    requires Succeeds(c, s, es) && (s.r.phase == StartCleanup || s.r.phase == WaitForEmpty)
    ensures i < |es| && es[i].Fire? && es[i].seen.queuesEmpty
    ensures Succeeds(c, Exec(c, s, es[..i + 1]), es[i + 1..]) && Exec(c, s, es[..i + 1]).r.phase == QueuesEmpty
    decreases |es|
  {
    SuccessGoesOn(c, s, es);
    var t := Step(c, s, es[0]);
    if s.r.phase == WaitForEmpty && es[0].seen.queuesEmpty {
      i := 0;
      assert es[..1] == [es[0]] && [es[0]][1..] == [] && Exec(c, s, es[..1]) == Exec(c, t, []);
    } else {
      if t.r.phase == Timeout { SuccessGoesOn(c, t, es[1..]); }
      var k := SuccessSawEmpty(c, t, es[1..]);
      i := k + 1;
      assert es[..i + 1][1..] == es[1..][..k + 1] && es[i + 1..] == es[1..][k + 1..];
    }
  }

  /** In the older build, a reset that begins with busy queues and is reported as a success has, in this order,
      found the queues empty, had its work item scheduled, and found all reads posted. */
  lemma {:induction false} BusySuccessSawInOrder(c: Config, s: State, es: seq<Event>) returns (i: nat, j: nat, k: nat)
    requires Succeeds(c, s, es) && s.r.phase == StartCleanup && !c.ndis60
    ensures i < j < k < |es| && es[i].Fire? && es[i].seen.queuesEmpty
    ensures es[j].Fire? && es[j].seen.scheduled && es[k].Fire? && es[k].seen.readsPosted
  {
    i := SuccessSawEmpty(c, s, es);
    j, k := SuccessSawWork(c, Exec(c, s, es[..i + 1]), es[i + 1..]);
    j, k := i + 1 + j, i + 1 + k;
  }

  function AllSet(n: nat): (es: seq<Event>)
    ensures |es| == n && Fires(es)
  {
    if n == 0 then [] else [ALL_SET] + AllSet(n - 1)
  }

  lemma {:induction false} AllSetStep(c: Config, s: State, n: nat)
    requires s.r.armed
    ensures Runs(c, s, AllSet(n + 1)) <==> Runs(c, Step(c, s, ALL_SET), AllSet(n))
    ensures Exec(c, s, AllSet(n + 1)) == Exec(c, Step(c, s, ALL_SET), AllSet(n))
  {
    assert AllSet(n + 1)[1..] == AllSet(n);
  }

  lemma {:induction false} AllSetCompletes(c: Config, s: State)
    requires s.r.armed && s.r.phase == Complete
    ensures Succeeds(c, s, AllSet(1))
  {
    AllSetStep(c, s, 0);
  }

  /** With two counts left from the empty queues on, three routines that find everything set report success. */
  lemma {:induction false} AllSetFromEmpty(c: Config, s: State)
    requires s.r.armed && s.r.phase == QueuesEmpty && !c.ndis60 && s.r.count + 2 <= c.limit
    ensures Succeeds(c, s, AllSet(3))
  {
    var t := Step(c, s, ALL_SET);
    var u := Step(c, t, ALL_SET);
    AllSetStep(c, s, 2);
    AllSetStep(c, t, 1);
    AllSetCompletes(c, u);
  }

  lemma {:induction false} AllSetTooLate(c: Config, s: State)
    requires s.r.armed && s.r.phase == QueuesEmpty && !c.ndis60 && s.r.count + 2 > c.limit
    ensures !Succeeds(c, s, AllSet(3))
  {
    if Succeeds(c, s, AllSet(3)) {
      SuccessGoesOn(c, s, AllSet(3));
      var t := Step(c, s, ALL_SET);
      SuccessGoesOn(c, t, AllSet(2));
      SuccessGoesOn(c, Step(c, t, ALL_SET), AllSet(1));
    }
  }

  lemma {:induction false} AllSetReachesEmpty(c: Config, s: State, n: nat)
    requires s.r.armed && s.r.phase == StartCleanup
    ensures var t := Step(c, Step(c, s, ALL_SET), ALL_SET);
            && t.r == Reset(QueuesEmpty, s.r.count, true, true) && t.record == s.record
            && (Succeeds(c, s, AllSet(n + 2)) <==> Succeeds(c, t, AllSet(n)))
  {
    AllSetStep(c, s, n + 1);
    AllSetStep(c, Step(c, s, ALL_SET), n);
  }

  /** A busy reset whose timer routines find everything set is reported as a success by the fifth, or by the fourth
      in the newer build, exactly when RESET_TIMEOUT leaves time for two counts. */
  lemma {:induction false} AllSetSucceedsExactlyWhen(c: Config, s: State)
    requires s.r.armed && s.r.phase == StartCleanup && s.r.count == 0
    ensures Succeeds(c, s, AllSet(if c.ndis60 then 4 else 5)) <==> c.ndis60 || c.limit >= 2
  {
    var t := Step(c, Step(c, s, ALL_SET), ALL_SET);
    if c.ndis60 {
      AllSetReachesEmpty(c, s, 2);
      AllSetStep(c, t, 1);
      AllSetCompletes(c, Step(c, t, ALL_SET));
    } else {
      AllSetReachesEmpty(c, s, 3);
      if c.limit >= 2 { AllSetFromEmpty(c, t); } else { AllSetTooLate(c, t); }
    }
  }

  // ---------------------------------------------------------------------------------------------
  // Resets that are refused

  /** fMP_RESET_IN_PROGRESS is clear before the clean-up, after the queues were found empty, and at rest. */
  ghost predicate FlagFollows(r: Reset) {
    if !r.armed then !r.inProgress
    else match r.phase
         case StartCleanup => !r.inProgress
         case WaitForEmpty => r.inProgress
         case WaitUsb => !r.inProgress
         case Complete => !r.inProgress
         case _ => true
  }

  lemma {:induction false} FlagFollowsPhase(c: Config, s: State, es: seq<Event>)
    requires FlagFollows(s.r) && Runs(c, s, es) && Serial(c, s, es)
    ensures FlagFollows(Exec(c, s, es).r)
    decreases |es|
  {
    if es != [] {
      FlagFollowsPhase(c, Step(c, s, es[0]), es[1..]);
    }
  }

  /** With resets one after the other, none is refused as in progress once the earlier one was reported; while the
      queues drain, every reset is. */
  lemma {:induction false} RefusedWhileDraining(c: Config, s: State, es: seq<Event>, emptyAtOnce: bool)
    requires FlagFollows(s.r) && Runs(c, s, es) && Serial(c, s, es)
    ensures !Exec(c, s, es).r.armed ==> Answer(c, Exec(c, s, es).r, emptyAtOnce) != InProgress
    ensures Exec(c, s, es).r.armed && Exec(c, s, es).r.phase == WaitForEmpty ==>
              Answer(c, Exec(c, s, es).r, emptyAtOnce) == InProgress
  {
    FlagFollowsPhase(c, s, es);
  }

  // ---------------------------------------------------------------------------------------------
  // The count left over

  /** In the older build, a reset that finds the queues empty does not clear the count. It has then no time
      left exactly when earlier resets used it up: its first timer routine gives up, whatever it finds. */
  lemma {:induction false} EmptyResetGivesUpExactlyWhen(c: Config, s: State, emptyAtOnce: bool)
    requires !c.ndis60 && !s.r.armed && !s.r.inProgress
    ensures var t := Step(c, s, Start(emptyAtOnce, true));
            && t.r.armed && t.r.phase == QueuesEmpty
            && forall seen :: Step(c, t, Fire(seen)).r.phase == Timeout <==> s.r.count >= c.limit
  {
  }

  /** The adapter has no time left: a reset that finds the queues empty is under way or could start. */
  ghost predicate Spent(c: Config, r: Reset) {
    && r.count >= c.limit
    && (!r.armed ==> !r.inProgress)
    && (r.armed ==> r.phase == QueuesEmpty || (r.phase == Timeout && r.count > c.limit))
  }

  /** Every reset in the run finds the queues empty. */
  predicate StartsEmpty(es: seq<Event>) { forall e :: e in es && e.Start? ==> e.queuesEmpty }

  /** And so it stays, for any number of resets one after the other and whatever the timer routines find: each
      is answered with Pending and fails, until one with busy queues clears the count. */
  lemma {:induction false} EmptyResetsKeepFailing(c: Config, s: State, es: seq<Event>)
    requires !c.ndis60 && Spent(c, s.r) && Runs(c, s, es) && Serial(c, s, es) && StartsEmpty(es)
    ensures var t := Exec(c, s, es);
            && Spent(c, t.r) && s.record.completed <= t.record.completed
            && forall k :: |s.record.completed| <= k < |t.record.completed| ==> !t.record.completed[k]
    decreases |es|
  {
    if es != [] {
      assert es[0] in es && forall e :: e in es[1..] ==> e in es;
      var t := Step(c, s, es[0]);
      assert s.record.completed <= t.record.completed;
      EmptyResetsKeepFailing(c, t, es[1..]);
    }
  }

  /** Such a reset takes two timer routines, whatever they find. */
  lemma {:induction false} SpentResetIsShort(c: Config, s: State, emptyAtOnce: bool, a: Seen, b: Seen)
    requires !c.ndis60 && Spent(c, s.r) && !s.r.armed
    ensures var t := Step(c, Step(c, Step(c, s, Start(emptyAtOnce, true)), Fire(a)), Fire(b));
            !t.r.armed && t.record.completed == s.record.completed + [false]
  {
  }

  lemma {:induction false} RunOfOne(c: Config, s: State, e: Event)
    requires Enabled(s, e)
    ensures Runs(c, s, [e]) && Exec(c, s, [e]) == Step(c, s, e)
  {
    var t := Step(c, s, e);
    assert [e][1..] == [] && Exec(c, t, []) == t;
    assert Exec(c, s, [e]) == Exec(c, t, [e][1..]);
  }

  lemma {:induction false} DrainsInVain(c: Config, s: State, n: nat)
    requires s.r.armed && s.r.phase == WaitForEmpty && s.r.count + n == c.limit
    ensures var es := Busy(n) + [Busy(1)[0], ALL_SET];
            var t := Exec(c, s, es);
            Runs(c, s, es) && !t.r.armed && !t.r.inProgress && t.r.count == c.limit + 1
    decreases n
  {
    var last := [Busy(1)[0], ALL_SET];
    if n == 0 {
      assert Busy(0) + last == last && last[1..] == [ALL_SET] && [ALL_SET][1..] == [];
      var t := Step(c, s, Busy(1)[0]);
      RunOfOne(c, t, ALL_SET);
    } else {
      DrainsInVain(c, Step(c, s, Busy(n)[0]), n - 1);
      assert (Busy(n) + last)[1..] == Busy(n - 1) + last;
    }
  }

  /** An idle adapter gets there: one reset whose queues never empty uses up the count. */
  lemma {:induction false} OneTimeoutSpendsTheCount(c: Config, s: State) returns (es: seq<Event>)
    requires !c.ndis60 && Idle(s) && !s.r.inProgress
    ensures Runs(c, s, es) && Serial(c, s, es)
    ensures Spent(c, Exec(c, s, es).r) && !Exec(c, s, es).r.armed
  {
    var fires := Busy(c.limit) + [Busy(1)[0], ALL_SET];
    var t := Step(c, s, Start(false, false));
    var u := Step(c, t, ALL_SET);
    DrainsInVain(c, u, c.limit);
    FiresAreSerial(c, u, fires);
    es := [Start(false, false)] + ([ALL_SET] + fires);
    assert es[1..] == [ALL_SET] + fires && es[1..][1..] == fires;
    assert Runs(c, t, es[1..]) && Serial(c, t, es[1..]) && Exec(c, t, es[1..]) == Exec(c, u, fires);
  }

  lemma {:induction false} FiresAreSerial(c: Config, s: State, es: seq<Event>)
    requires Fires(es)
    ensures Serial(c, s, es)
    decreases |es|
  {
    if es != [] {
      assert es[0] in es;
      FiresAreSerial(c, Step(c, s, es[0]), es[1..]);
    }
  }
}
