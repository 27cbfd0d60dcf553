/** Creates and closes of one device of the control-channel client (MPIOC.c): DeviceOpenCount is raised,
    tested and taken back by concurrent creates, and lowered by closes. */
module ExclusiveOpen {

  datatype Pc =
    | Entering      // a create that has not raised the count
    | Testing       // counted, not tested
    | Starting      // a create that passed; the write thread is being started
    | Open
    | Closing       // a close that has not lowered the count
    | Failing       // a create that failed and has not taken its count back
    | Gone

  datatype State = State(openCount: int, handles: seq<Pc>)

  datatype Event =
    | Enter
    | Raise(i: nat)
    | Refuse(i: nat)                       // the miniport is not initialised
    | Test(i: nat, acquired: bool)
    | Started(i: nat, ok: bool)
    | Rollback(i: nat)
    | BeginClose(i: nat)
    | Lower(i: nat)

  predicate Enabled(s: State, e: Event) {
    match e
    case Enter => true
    case _ =>
      && e.i < |s.handles|
      && s.handles[e.i] == match e
                           case Raise(_) => Entering
                           case Refuse(_) => Testing
                           case Test(_, _) => Testing
                           case Started(_, _) => Starting
                           case Rollback(_) => Failing
                           case BeginClose(_) => Open
                           case _ => Closing
  }

  /** The test of a create: only a client device is exclusive. */
  function TestStep(openCount: int, client: bool, acquired: bool): Pc {
    if !client then Open else if acquired && openCount == 1 then Starting else Failing
  }

  function LowerStep(openCount: int): int { if openCount > 0 then openCount - 1 else openCount }

  function Step(client: bool, s: State, e: Event): State
    requires Enabled(s, e)
  {
    var State(n, hs) := s;
    match e
    case Enter => State(n, hs + [Entering])
    case Raise(i) => State(n + 1, hs[i := Testing])
    case Refuse(i) => State(n, hs[i := Failing])
    case Test(i, acquired) => State(n, hs[i := TestStep(n, client, acquired)])
    case Started(i, ok) => State(n, hs[i := if ok then Open else Failing])
    case Rollback(i) => State(n - 1, hs[i := Gone])
    case BeginClose(i) => State(n, hs[i := Closing])
    case Lower(i) => State(LowerStep(n), hs[i := Gone])
  }

  const START := State(0, [])

  predicate Runs(client: bool, s: State, es: seq<Event>)
    decreases |es|
  {
    es == [] || (Enabled(s, es[0]) && Runs(client, Step(client, s, es[0]), es[1..]))
  }

  function Exec(client: bool, s: State, es: seq<Event>): State
    requires Runs(client, s, es)
    decreases |es|
  {
    if es == [] then s else Exec(client, Step(client, s, es[0]), es[1..])
  }

  predicate Counted(pc: Pc) { !pc.Entering? && !pc.Gone? }

  /** A successful open from its test to its close. */
  predicate Holds(pc: Pc) { pc.Starting? || pc.Open? || pc.Closing? }

  function Counting(handles: seq<Pc>): set<nat> { set i: nat | i < |handles| && Counted(handles[i]) }

  ghost predicate Exclusive(s: State) {
    forall i, j :: 0 <= i < |s.handles| && 0 <= j < |s.handles| && Holds(s.handles[i]) && Holds(s.handles[j]) ==> i == j
  }

  ghost predicate Inv(client: bool, s: State) {
    s.openCount == |Counting(s.handles)| && (client ==> Exclusive(s))
  }

  lemma {:induction false} CountAfterMove(handles: seq<Pc>, i: nat, pc: Pc)
    requires i < |handles|
    ensures |Counting(handles[i := pc])|
         == |Counting(handles)| + (if Counted(pc) then 1 else 0) - (if Counted(handles[i]) then 1 else 0)
  {
    assert Counting(handles[i := pc]) == if Counted(pc) then Counting(handles) + {i} else Counting(handles) - {i};
  }

  /** A count of 1 means that nobody else is counted. */
  lemma {:induction false} CountOneIsAlone(handles: seq<Pc>, i: nat)
    requires i < |handles| && Counted(handles[i])
    ensures |Counting(handles)| == 1 <==> forall j :: 0 <= j < |handles| && j != i ==> !Counted(handles[j])
  {
    var all := Counting(handles);
    assert i in all;
    assert |all| == 1 + |all - {i}|;
    forall j | 0 <= j < |handles| && j != i && Counted(handles[j]) ensures |all| != 1 {
      assert j in all - {i};
    }
    if forall j :: 0 <= j < |handles| && j != i ==> !Counted(handles[j]) { assert all == {i}; }
  }

  lemma {:induction false} StepKeepsInv(client: bool, s: State, e: Event)
    requires Inv(client, s) && Enabled(s, e)
    ensures Inv(client, Step(client, s, e))
  {
    if e.Enter? {
      assert Counting(Step(client, s, e).handles) == Counting(s.handles);
    } else {
      var t := Step(client, s, e);
      CountAfterMove(s.handles, e.i, t.handles[e.i]);
      if Counted(s.handles[e.i]) { CountOneIsAlone(s.handles, e.i); }
      if e.Lower? { assert e.i in Counting(s.handles); }
    }
  }

  lemma {:induction false} RunKeepsInv(client: bool, s: State, es: seq<Event>)
    requires Inv(client, s) && Runs(client, s, es)
    ensures Inv(client, Exec(client, s, es))
    decreases |es|
  {
    if es != [] {
      StepKeepsInv(client, s, es[0]);
      RunKeepsInv(client, Step(client, s, es[0]), es[1..]);
    }
  }

  /** In every run DeviceOpenCount is the number of open handles and creates in progress, and a client device
      has at most one successful open at a time. */
  lemma {:induction false} CountIsExactAndClientsExclusive(client: bool, es: seq<Event>, s: State)
    requires Runs(client, START, es) && s == Exec(client, START, es)
    ensures s.openCount == |Counting(s.handles)|
    ensures client ==> Exclusive(s)
  {
    RunKeepsInv(client, START, es);
  }

  /** The create that is tested succeeds exactly when the device is acquired and no other handle or create is
      counted; so concurrent creates may all fail, but never two succeed. */
  lemma {:induction false} CreateSucceedsExactlyWhenAlone(es: seq<Event>, s: State, i: nat, acquired: bool)
    requires Runs(true, START, es) && s == Exec(true, START, es) && Enabled(s, Test(i, acquired))
    ensures Step(true, s, Test(i, acquired)).handles[i].Starting? <==>
              acquired && forall j :: 0 <= j < |s.handles| && j != i ==> !Counted(s.handles[j])
  {
    RunKeepsInv(true, START, es);
    CountOneIsAlone(s.handles, i);
  }

  /** A close never finds the count at zero: its guard does not hide a lost count. */
  lemma {:induction false} CloseAlwaysLowers(client: bool, es: seq<Event>, s: State, i: nat)
    requires Runs(client, START, es) && s == Exec(client, START, es) && Enabled(s, Lower(i))
    ensures LowerStep(s.openCount) == s.openCount - 1
  {
    RunKeepsInv(client, START, es);
    assert i in Counting(s.handles);
  }

  // ---------------------------------------------------------------------------------------------
  // The field, changed in place

  class DeviceOpens {
    const client: bool
    var deviceOpenCount: int
    ghost var handles: seq<Pc>

    ghost function View(): State
      reads this
    {
      State(deviceOpenCount, handles)
    }

    ghost predicate Valid()
      reads this
    {
      Inv(client, View())
    }

    ghost predicate Stands(i: nat, pc: Pc)
      reads this
    {
      i < |handles| && handles[i] == pc
    }

    ghost predicate Alone(i: nat)
      reads this
    {
      forall j :: 0 <= j < |handles| && j != i ==> !Counted(handles[j])
    }

    constructor (client: bool)
      ensures this.client == client && Valid() && View() == START
    {
      this.client, deviceOpenCount, handles := client, 0, [];
    }

    /** The locked increment of a create. */
    method RaiseCount(ghost i: nat)
      requires Valid() && Stands(i, Entering)
      modifies this`deviceOpenCount, this`handles
      ensures Valid() && View() == Step(client, old(View()), Raise(i))
    {
      StepKeepsInv(client, View(), Raise(i));
      deviceOpenCount := deviceOpenCount + 1;
      handles := handles[i := Testing];
    }

    /** The test of a create. On a client device it passes exactly when the device is acquired and nobody else
        is counted, so a create that passed is the only one that holds the device. */
    method TestCreate(ghost i: nat, acquired: bool) returns (passed: bool)
      requires Valid() && Stands(i, Testing)
      modifies this`handles
      ensures Valid() && View() == Step(client, old(View()), Test(i, acquired))
      ensures client ==> (passed <==> acquired && Alone(i))
      ensures passed <==> Holds(handles[i])
    {
      ghost var before := handles;
      StepKeepsInv(client, View(), Test(i, acquired));
      CountOneIsAlone(handles, i);
      passed := true;
      if client {
        passed := false;
        if acquired {
          if deviceOpenCount == 1 {
            passed := true;
          }
        }
      }
      handles := handles[i := if !passed then Failing else if client then Starting else Open];
      assert forall j :: 0 <= j < |handles| && j != i ==> handles[j] == before[j];
    }

    /** The end of the dispatch routine for a create that failed. */
    method RollBack(ghost i: nat)
      requires Valid() && Stands(i, Failing)
      modifies this`deviceOpenCount, this`handles
      ensures Valid() && View() == Step(client, old(View()), Rollback(i))
    {
      StepKeepsInv(client, View(), Rollback(i));
      deviceOpenCount := deviceOpenCount - 1;
      handles := handles[i := Gone];
    }

    /** The decrement of a close, with its guard. */
    method LowerCount(ghost i: nat)
      requires Valid() && Stands(i, Closing)
      modifies this`deviceOpenCount, this`handles
      ensures Valid() && View() == Step(client, old(View()), Lower(i))
      ensures deviceOpenCount == old(deviceOpenCount) - 1
    {
      StepKeepsInv(client, View(), Lower(i));
      assert i in Counting(handles);
      if deviceOpenCount > 0 {
        deviceOpenCount := deviceOpenCount - 1;
      }
      handles := handles[i := Gone];
    }

    /** A whole create with nobody in between: it opens the device exactly when it may, and a failed one
        leaves no count behind. */
    method Create(initialised: bool, acquired: bool, threadStarts: bool) returns (success: bool, ghost i: nat)
      requires Valid()
      modifies this`deviceOpenCount, this`handles
      ensures Valid() && i == |old(handles)|
      ensures handles == old(handles) + [if success then Open else Gone]
      ensures deviceOpenCount == old(deviceOpenCount) + (if success then 1 else 0)
      ensures success <==> initialised && (client ==> acquired && threadStarts && Alone(i))
    {
      i := |handles|;
      StepKeepsInv(client, View(), Enter);
      handles := handles + [Entering];
      RaiseCount(i);
      success := initialised;
      if !initialised {
        StepKeepsInv(client, View(), Refuse(i));
        handles := handles[i := Failing];
      } else {
        success := TestCreate(i, acquired);
        if client && success {
          StepKeepsInv(client, View(), Started(i, threadStarts));
          success := threadStarts;
          handles := handles[i := if threadStarts then Open else Failing];
        }
      }
      if !success {
        RollBack(i);
      }
    }

    /** A whole close: the handle is gone and its count with it. */
    method Close(ghost i: nat)
      requires Valid() && Stands(i, Open)
      modifies this`deviceOpenCount, this`handles
      ensures Valid() && handles == old(handles)[i := Gone] && deviceOpenCount == old(deviceOpenCount) - 1
    {
      StepKeepsInv(client, View(), BeginClose(i));
      handles := handles[i := Closing];
      LowerCount(i);
    }
  }
}
