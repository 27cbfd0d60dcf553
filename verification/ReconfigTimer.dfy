/** The reconfiguration timer (MPIP.c, MPMain.c): each arming takes the remove lock once, and either the
    timer routine or the canceller gives it back. One thread handles indications: it cancels, then may arm
    again. The timer routine runs on its own; several started routines may overlap. */
module ReconfigTimer {
  import opened Machine

  /** Where the thread that handles indications stands. */
  datatype Pc =
    | Outside
    | Releasing      // it cancelled the timer and still holds the lock of that arming
    | Waiting        // the timer had expired; it waits for the timer routine
    | Clearing       // the wait has ended
    | SettingIdle    // before the write of ReconfigTimerState outside QMICTLLock
    | Cancelled
    | Acquired       // it has the remove lock for a new arming

  /** The timer object, the queued routine, and routines started: before and after their locked section. */
  datatype Timer = Timer(isSet: bool, queued: bool, started: nat, signalled: nat)

  /** ReconfigTimerState and ReconfigCompletionEvent. */
  datatype Flags = Flags(armed: bool, completion: bool)

  /** Remove lock traffic, and armings whose routine will never run: a set timer was set once more, or a
      timer expired while its routine was still queued. */
  datatype Books = Books(acquired: nat, byRoutine: nat, byCanceller: nat, overwritten: nat, coalesced: nat)

  datatype State = State(pc: Pc, timer: Timer, flags: Flags, books: Books)

  datatype Event =
    | Indication             // the locked part of MPIP_CancelReconfigTimer
    | Release
    | WaitEnds(byEvent: bool)
    | Clear
    | SetIdle
    | Acquire(ok: bool)
    | Arm
    | Skip                   // the indication does not ask for a reconfiguration
    | Expire
    | StartRoutine
    | Signal                 // the locked part of ReconfigTimerDpc
    | Finish

  function CancelStep(t: Timer, armed: bool): (Timer, Pc) {
    if !armed then (t, Cancelled) else (t.(isSet := false), if t.isSet then Releasing else Waiting)
  }

  predicate Enabled(s: State, e: Event) {
    match e
    case Indication => s.pc.Outside?
    case Release => s.pc.Releasing?
    case WaitEnds(byEvent) => s.pc.Waiting? && (byEvent ==> s.flags.completion)
    case Clear => s.pc.Clearing?
    case SetIdle => s.pc.SettingIdle?
    case Acquire(_) => s.pc.Cancelled?
    case Skip => s.pc.Cancelled?
    case Arm => s.pc.Acquired?
    case Expire => s.timer.isSet
    case StartRoutine => s.timer.queued
    case Signal => s.timer.started > 0
    case Finish => s.timer.signalled > 0
  }

  function Step(s: State, e: Event): State
    requires Enabled(s, e)
  {
    var t, f, b := s.timer, s.flags, s.books;
    match e
    case Indication => s.(timer := CancelStep(t, f.armed).0, pc := CancelStep(t, f.armed).1)
    case Release => s.(pc := SettingIdle, books := b.(byCanceller := b.byCanceller + 1))
    case WaitEnds(_) => s.(pc := Clearing)
    case Clear => s.(pc := SettingIdle, flags := f.(completion := false))
    case SetIdle => s.(pc := Cancelled, flags := f.(armed := false))
    case Acquire(ok) =>
      if ok then s.(pc := Acquired, books := b.(acquired := b.acquired + 1)) else s.(pc := Outside)
    case Skip => s.(pc := Outside)
    case Arm =>
      State(Outside, t.(isSet := true), Flags(true, false),
            if t.isSet then b.(overwritten := b.overwritten + 1) else b)
    case Expire =>
      s.(timer := t.(isSet := false, queued := true),
         books := if t.queued then b.(coalesced := b.coalesced + 1) else b)
    case StartRoutine => s.(timer := t.(queued := false, started := t.started + 1))
    case Signal =>
      s.(timer := t.(started := t.started - 1, signalled := t.signalled + 1), flags := Flags(false, true))
    case Finish =>
      s.(timer := t.(signalled := t.signalled - 1), books := b.(byRoutine := b.byRoutine + 1))
  }

  const START := State(Outside, Timer(false, false, 0, 0), Flags(false, false), Books(0, 0, 0, 0, 0))

  predicate Runs(s: State, es: seq<Event>)
    decreases |es|
  {
    es == [] || (Enabled(s, es[0]) && Runs(Step(s, es[0]), es[1..]))
  }

  function Exec(s: State, es: seq<Event>): State
    requires Runs(s, es)
    decreases |es|
  {
    if es == [] then s else Exec(Step(s, es[0]), es[1..])
  }

  // ---------------------------------------------------------------------------------------------
  // Every acquisition is accounted for

  /** Armings whose routine has not released the lock yet. */
  function Unfinished(t: Timer): nat { Bit(t.isSet) + Bit(t.queued) + t.started + t.signalled }

  ghost predicate Balanced(s: State) {
    s.books.acquired == s.books.byRoutine + s.books.byCanceller + Unfinished(s.timer)
                        + Bit(s.pc.Acquired?) + Bit(s.pc.Releasing?)
                        + s.books.overwritten + s.books.coalesced
  }

  /** In every run, with any outcome of the waits: an acquisition is released by the routine or by the
      canceller, is still to be released, or belongs to an arming whose routine will never run. */
  lemma {:induction false} RunIsBalanced(s: State, es: seq<Event>)
    requires Balanced(s) && Runs(s, es)
    ensures Balanced(Exec(s, es))
    decreases |es|
  {
    if es != [] {
      StepIsBalanced(s, es[0]);
      RunIsBalanced(Step(s, es[0]), es[1..]);
    }
  }

  lemma {:induction false} StepIsBalanced(s: State, e: Event)
    requires Balanced(s) && Enabled(s, e)
    ensures Balanced(Step(s, e))
  {
  }

  /** No acquisition is outstanding beyond the steps under way: each arming was released once, or will be. */
  ghost predicate Released(s: State) {
    s.books.acquired - (s.books.byRoutine + s.books.byCanceller)
    == Unfinished(s.timer) + Bit(s.pc.Acquired?) + Bit(s.pc.Releasing?)
  }

  /** The timer is never set while it is set, and never expires while its routine is still queued. */
  predicate CleanStep(s: State, e: Event) {
    !(e.Arm? && s.timer.isSet) && !(e.Expire? && s.timer.queued)
  }

  predicate Clean(s: State, es: seq<Event>)
    requires Runs(s, es)
    decreases |es|
  {
    es == [] || (CleanStep(s, es[0]) && Clean(Step(s, es[0]), es[1..]))
  }

  function Wasted(b: Books): nat { b.overwritten + b.coalesced }

  lemma {:induction false} WasteGrows(s: State, es: seq<Event>)
    requires Runs(s, es)
    ensures Wasted(Exec(s, es).books) >= Wasted(s.books)
    ensures Wasted(Exec(s, es).books) == Wasted(s.books) <==> Clean(s, es)
    decreases |es|
  {
    if es != [] {
      StepWastes(s, es[0]);
      WasteGrows(Step(s, es[0]), es[1..]);
    }
  }

  lemma {:induction false} StepWastes(s: State, e: Event)
    requires Enabled(s, e)
    ensures Wasted(Step(s, e).books) == Wasted(s.books) + Bit(!CleanStep(s, e))
  {
  }

  lemma {:induction false} ReleasedUnlessWasted(s: State)
    requires Balanced(s)
    ensures Released(s) <==> Wasted(s.books) == 0
  {
  }

  /** Each arming is released exactly once, by the routine or by the canceller, or is still to be released,
      exactly when the run is clean; how its waits end does not matter otherwise. */
  lemma {:induction false} EachArmingReleasedExactlyWhen(s: State, es: seq<Event>)
    requires Balanced(s) && Wasted(s.books) == 0 && Runs(s, es)
    ensures Released(Exec(s, es)) <==> Clean(s, es)
  {
    RunIsBalanced(s, es);
    WasteGrows(s, es);
    ReleasedUnlessWasted(Exec(s, es));
  }

  // ---------------------------------------------------------------------------------------------
  // When the waits end on the event

  /** Armings whose routine has not been through its locked section. */
  function Live(t: Timer): nat { Bit(t.isSet) + Bit(t.queued) + t.started }

  ghost predicate Orderly(s: State) {
    && Live(s.timer) <= 1 && s.books.overwritten == 0 && s.books.coalesced == 0
    && (Live(s.timer) == 1 ==> s.flags.armed && !s.flags.completion)
    && (!(s.pc.Outside? || s.pc.Waiting?) ==> Live(s.timer) == 0)
    && (s.flags.armed && (s.pc.Outside? || s.pc.Waiting?) ==> Live(s.timer) == 1)
    && (s.pc.Cancelled? || s.pc.Acquired? ==> !s.flags.armed)
    && (s.pc.Releasing? || s.pc.SettingIdle? ==> !s.flags.completion)
    && (s.pc.Waiting? ==> !s.timer.isSet && (s.flags.completion || Live(s.timer) == 1))
  }

  predicate EndsOnEvent(es: seq<Event>) { WaitEnds(false) !in es }

  lemma {:induction false} StepIsOrderly(s: State, e: Event)
    requires Orderly(s) && Enabled(s, e) && e != WaitEnds(false)
    ensures Orderly(Step(s, e))
  {
  }

  lemma {:induction false} RunIsOrderly(s: State, es: seq<Event>)
    requires Orderly(s) && Runs(s, es) && EndsOnEvent(es)
    ensures Orderly(Exec(s, es))
    decreases |es|
  {
    if es != [] {
      assert es[0] in es && forall e :: e in es[1..] ==> e in es;
      StepIsOrderly(s, es[0]);
      RunIsOrderly(Step(s, es[0]), es[1..]);
    }
  }

  /** If every wait ends on the event, from the start or any orderly state on, the run is clean, so each
      arming is released exactly once; and at no time can two routines race. */
  lemma {:induction false} EachArmingReleasedOnce(s: State, es: seq<Event>)
    requires Orderly(s) && Balanced(s) && Runs(s, es) && EndsOnEvent(es)
    ensures Released(Exec(s, es)) && Live(Exec(s, es).timer) <= 1
  {
    RunIsOrderly(s, es);
    OrderlyRunIsClean(s, es);
    EachArmingReleasedExactlyWhen(s, es);
  }

  lemma {:induction false} OrderlyRunIsClean(s: State, es: seq<Event>)
    requires Orderly(s) && Runs(s, es) && EndsOnEvent(es)
    ensures Clean(s, es)
    decreases |es|
  {
    if es != [] {
      assert es[0] in es && forall e :: e in es[1..] ==> e in es;
      StepIsOrderly(s, es[0]);
      OrderlyRunIsClean(Step(s, es[0]), es[1..]);
    }
  }

  lemma {:induction false} StartIsOrderly()
    ensures Orderly(START) && Balanced(START) && IdleBeforeArming(START)
  {
  }

  /** The event is not lost: a waiting canceller either can go on or a routine will still signal it. */
  lemma {:induction false} WaitIsAnswered(s: State, es: seq<Event>)
    requires Orderly(s) && Runs(s, es) && EndsOnEvent(es) && Exec(s, es).pc.Waiting?
    ensures var t := Exec(s, es); t.flags.completion || t.timer.queued || t.timer.started > 0
  {
    RunIsOrderly(s, es);
  }

  // ---------------------------------------------------------------------------------------------
  // When a wait times out

  ghost predicate Reaches(s: State, t: State) { exists es :: Runs(s, es) && Exec(s, es) == t }

  lemma {:induction false} RunExtends(s: State, es: seq<Event>, e: Event)
    requires Runs(s, es) && Enabled(Exec(s, es), e)
    ensures Runs(s, es + [e]) && Exec(s, es + [e]) == Step(Exec(s, es), e)
    decreases |es|
  {
    if es == [] {
      assert es + [e] == [e] && [e][1..] == [];
      assert Runs(Step(s, e), []);
    } else {
      assert (es + [e])[0] == es[0] && (es + [e])[1..] == es[1..] + [e];
      RunExtends(Step(s, es[0]), es[1..], e);
    }
  }

  lemma {:induction false} Reach(s: State, t: State, e: Event) returns (u: State)
    requires Reaches(s, t) && Enabled(t, e)
    ensures u == Step(t, e) && Reaches(s, u)
  {
    u := Step(t, e);
    var es :| Runs(s, es) && Exec(s, es) == t;
    RunExtends(s, es, e);
  }

  /** A lock that is lost stays lost: no continuation gives it back. */
  ghost predicate LockLost(s: State) {
    forall more :: Runs(s, more) ==>
      var t := Exec(s, more);
      t.books.acquired - (t.books.byRoutine + t.books.byCanceller)
      > Unfinished(t.timer) + Bit(t.pc.Acquired?) + Bit(t.pc.Releasing?)
  }

  lemma {:induction false} WasteIsForGood(s: State)
    requires Balanced(s) && Wasted(s.books) > 0
    ensures LockLost(s)
  {
    forall more | Runs(s, more) ensures Wasted(Exec(s, more).books) > 0 && Balanced(Exec(s, more)) {
      RunIsBalanced(s, more);
      WasteGrows(s, more);
    }
  }

  lemma {:induction false} OverwritingLosesALock(s: State, t: State)
    requires Balanced(s) && Reaches(s, t) && t.books.overwritten > 0
    ensures LockLost(t)
  {
    var es :| Runs(s, es) && Exec(s, es) == t;
    RunIsBalanced(s, es);
    WasteIsForGood(t);
  }

  /** A wait times out, and the timer is armed again while the routine of the earlier arming is queued. */
  lemma {:induction false} ArmedBesideARoutine(start: State) returns (s: State)
    requires start == START
    ensures Reaches(start, s) && s.pc.Outside? && s.timer == Timer(true, true, 0, 0) && s.books == Books(2, 0, 0, 0, 0)
  {
    assert Runs(start, []) && Exec(start, []) == start;
    s := Reach(start, start, Indication);
    s := Reach(start, s, Acquire(true));
    s := Reach(start, s, Arm);
    s := Reach(start, s, Expire);
    s := Reach(start, s, Indication);
    s := Reach(start, s, WaitEnds(false));
    s := Reach(start, s, Clear);
    s := Reach(start, s, SetIdle);
    s := Reach(start, s, Acquire(true));
    s := Reach(start, s, Arm);
  }

  /** That routine then writes "idle" over the new arming, and the next indication does not cancel it but
      arms again. */
  lemma {:induction false} ArmedOverATimer(start: State) returns (s: State)
    requires start == START
    ensures Reaches(start, s) && s.books.overwritten == 1
  {
    s := ArmedBesideARoutine(start);
    s := Reach(start, s, StartRoutine);
    s := Reach(start, s, Signal);
    s := Reach(start, s, Indication);
    s := Reach(start, s, Acquire(true));
    s := Reach(start, s, Arm);
  }

  /** From then on, whatever follows, one lock too many is held. */
  lemma {:induction false} TimedOutWaitLosesARelease(start: State) returns (s: State)
    requires start == START
    ensures Reaches(start, s) && LockLost(s)
  {
    s := ArmedOverATimer(start);
    StartIsOrderly();
    OverwritingLosesALock(start, s);
  }

  /** A wait times out, but the routine comes before the timer is armed again. */
  lemma {:induction false} RoutineInTime(start: State) returns (s: State)
    requires start == START
    ensures Reaches(start, s) && s.pc.Cancelled? && s.timer == Timer(false, false, 0, 0)
    ensures s.books == Books(1, 1, 0, 0, 0)
  {
    assert Runs(start, []) && Exec(start, []) == start;
    s := Reach(start, start, Indication);
    s := Reach(start, s, Acquire(true));
    s := Reach(start, s, Arm);
    s := Reach(start, s, Expire);
    s := Reach(start, s, Indication);
    s := Reach(start, s, WaitEnds(false));
    s := Reach(start, s, Clear);
    s := Reach(start, s, StartRoutine);
    s := Reach(start, s, Signal);
    s := Reach(start, s, Finish);
    s := Reach(start, s, SetIdle);
  }

  /** So a timed-out wait alone loses nothing. */
  lemma {:induction false} TimedOutWaitCanBeHarmless(start: State) returns (s: State)
    requires start == START
    ensures Reaches(start, s) && s.timer == Timer(false, false, 0, 0) && s.books == Books(2, 2, 0, 0, 0)
  {
    s := RoutineInTime(start);
    s := Reach(start, s, Acquire(true));
    s := Reach(start, s, Arm);
    s := Reach(start, s, Expire);
    s := Reach(start, s, StartRoutine);
    s := Reach(start, s, Signal);
    s := Reach(start, s, Finish);
  }

  // ---------------------------------------------------------------------------------------------
  // The state in which arming is safe

  /** Before an arming the state is idle, in every run. */
  ghost predicate IdleBeforeArming(s: State) { s.pc.Cancelled? || s.pc.Acquired? ==> !s.flags.armed }

  lemma {:induction false} RunIdlesBeforeArming(s: State, es: seq<Event>)
    requires IdleBeforeArming(s) && Runs(s, es)
    ensures IdleBeforeArming(Exec(s, es))
    decreases |es|
  {
    if es != [] {
      RunIdlesBeforeArming(Step(s, es[0]), es[1..]);
    }
  }

  /** Nothing is lost any more if from now on the waits end on the event. */
  ghost predicate ReleasesFromNowOn(s: State) {
    forall more :: Runs(s, more) && EndsOnEvent(more) ==> Released(Exec(s, more))
  }

  lemma {:induction false} UncleanRunLoses(s: State, more: seq<Event>)
    requires Balanced(s) && Wasted(s.books) == 0 && Runs(s, more) && EndsOnEvent(more) && !Clean(s, more)
    ensures !ReleasesFromNowOn(s)
  {
    EachArmingReleasedExactlyWhen(s, more);
  }

  /** Another arming is alive: this one is set over it, or expires while its routine is queued, or is set over
      after its routine has written "idle". */
  lemma {:induction false} ArmingBesideAnother(s: State) returns (more: seq<Event>)
    requires s.pc.Acquired? && Live(s.timer) > 0
    ensures Runs(s, more) && EndsOnEvent(more) && !Clean(s, more)
  {
    var t := Step(s, Arm);
    if s.timer.isSet {
      more := [Arm];
      assert more[1..] == [] && Runs(t, []);
    } else if s.timer.queued {
      more := [Arm, Expire];
      UncleanAt(t, Expire);
      assert more[1..] == [Expire];
    } else {
      var again := ArmedTwice(t);
      more := [Arm] + again;
      assert more[1..] == again;
    }
  }

  lemma {:induction false} UncleanAt(s: State, e: Event)
    requires Enabled(s, e) && !CleanStep(s, e)
    ensures Runs(s, [e]) && !Clean(s, [e])
  {
    assert [e][1..] == [] && Runs(Step(s, e), []);
  }

  lemma {:induction false} UncleanLater(s: State, e: Event, more: seq<Event>)
    requires Enabled(s, e) && Runs(Step(s, e), more) && !Clean(Step(s, e), more)
    ensures Runs(s, [e] + more) && !Clean(s, [e] + more)
  {
    assert ([e] + more)[1..] == more;
  }

  lemma {:induction false} ArmedTwice(s: State) returns (more: seq<Event>)
    requires s.pc.Outside? && s.timer.isSet && s.timer.started > 0
    ensures Runs(s, more) && EndsOnEvent(more) && !Clean(s, more)
  {
    var s1 := Step(s, Signal);
    var s2 := Step(s1, Indication);
    var s3 := Step(s2, Acquire(true));
    UncleanAt(s3, Arm);
    UncleanLater(s2, Acquire(true), [Arm]);
    UncleanLater(s1, Indication, [Acquire(true)] + [Arm]);
    more := [Signal] + ([Indication] + ([Acquire(true)] + [Arm]));
    UncleanLater(s, Signal, [Indication] + ([Acquire(true)] + [Arm]));
  }

  lemma {:induction false} LoneArmingIsOrderly(s: State)
    requires s.pc.Acquired? && IdleBeforeArming(s) && Wasted(s.books) == 0 && Live(s.timer) == 0
    ensures Orderly(s)
  {
  }

  lemma {:induction false} LoneArmingIsSafe(s: State)
    requires Orderly(s) && Balanced(s)
    ensures ReleasesFromNowOn(s)
  {
    forall more | Runs(s, more) && EndsOnEvent(more) ensures Released(Exec(s, more)) {
      EachArmingReleasedOnce(s, more);
    }
  }

  lemma {:induction false} WhatHoldsBeforeArming(start: State, es: seq<Event>, s: State)
    requires Balanced(start) && IdleBeforeArming(start) && Runs(start, es) && s == Exec(start, es)
    ensures Balanced(s) && IdleBeforeArming(s)
  {
    RunIsBalanced(start, es);
    RunIdlesBeforeArming(start, es);
  }

  /** Exactly when it is safe to arm. After any run from `START`, or another balanced state that idles before an
      arming, that has lost nothing so far, when the timer is about to be armed: every continuation whose waits
      end on the event releases each arming once if and only if no earlier arming is alive, however the waits
      before ended. */
  lemma {:induction false} ArmingIsSafeExactlyWhen(start: State, es: seq<Event>, s: State)
    requires Balanced(start) && IdleBeforeArming(start) && Runs(start, es) && s == Exec(start, es)
    requires s.pc.Acquired? && Released(s)
    ensures ReleasesFromNowOn(s) <==> Live(s.timer) == 0
  {
    WhatHoldsBeforeArming(start, es, s);
    ReleasedUnlessWasted(s);
    if Live(s.timer) > 0 {
      var more := ArmingBesideAnother(s);
      UncleanRunLoses(s, more);
    } else {
      LoneArmingIsOrderly(s);
      LoneArmingIsSafe(s);
    }
  }

  // ---------------------------------------------------------------------------------------------
  // The locked sections, on the fields of the adapter and the timer object

  class ReconfigDevice {
    var reconfigTimerArmed: bool        // ReconfigTimerState
    var reconfigCompletionEvent: bool
    var timerSet: bool
    ghost var queued: bool
    ghost var started: nat
    ghost var signalled: nat
    ghost var pc: Pc
    ghost var books: Books

    ghost function View(): State
      reads this
    {
      State(pc, Timer(timerSet, queued, started, signalled),
            Flags(reconfigTimerArmed, reconfigCompletionEvent), books)
    }

    constructor ()
      ensures View() == START && Orderly(View())
    {
      reconfigTimerArmed, reconfigCompletionEvent, timerSet := false, false, false;
      queued, started, signalled := false, 0, 0;
      pc, books := Outside, Books(0, 0, 0, 0, 0);
    }

    /** MPIP_CancelReconfigTimer up to the end of its locked section: what is left to do. In an orderly
        device, no earlier arming can reach its locked section any more unless the caller has to wait, and
        then the wait will be answered. */
    method BeginCancel() returns (next: Pc)
      requires pc.Outside?
      modifies this`timerSet, this`pc
      ensures next == pc && View() == Step(old(View()), Indication)
      ensures old(Orderly(View())) ==>
                && Orderly(View()) && (next != Waiting ==> Live(View().timer) == 0)
                && (next == Waiting ==> reconfigCompletionEvent || Live(View().timer) == 1)
      ensures next == Cancelled <==> !reconfigTimerArmed
    {
      if reconfigTimerArmed {
        var cancelled := timerSet;
        timerSet := false;
        next := if cancelled then Releasing else Waiting;
      } else {
        next := Cancelled;
      }
      pc := next;
    }

    /** The locked section that arms the timer. In an orderly device nothing is set over, and this arming is
        the only one alive. */
    method ArmTimer()
      requires pc.Acquired?
      modifies this`timerSet, this`reconfigTimerArmed, this`reconfigCompletionEvent, this`pc, this`books
      ensures View() == Step(old(View()), Arm)
      ensures old(Orderly(View())) ==> Orderly(View()) && books == old(books) && Live(View().timer) == 1 && timerSet
    {
      books := if timerSet then books.(overwritten := books.overwritten + 1) else books;
      reconfigTimerArmed := true;
      reconfigCompletionEvent := false;
      timerSet := true;
      pc := Outside;
    }

    /** The locked section of ReconfigTimerDpc. In an orderly device no other arming is alive, and a waiting
        canceller can go on. */
    method SignalCompletion()
      requires started > 0
      modifies this`started, this`signalled, this`reconfigTimerArmed, this`reconfigCompletionEvent
      ensures View() == Step(old(View()), Signal)
      ensures old(Orderly(View())) ==>
                Orderly(View()) && Live(View().timer) == 0 && (pc.Waiting? ==> Enabled(View(), WaitEnds(true)))
    {
      reconfigCompletionEvent := true;
      reconfigTimerArmed := false;
      started, signalled := started - 1, signalled + 1;
    }
  }
}
