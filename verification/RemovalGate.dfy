/** MPMAIN_PnpEventWithRemoval with any number of concurrent callers: an interlocked counter lets one caller
    at a time into the body, which sends PnP requests to the USB device object and at most one removal. */
module RemovalGate {

  datatype Kind = Removed | SurpriseRemoved | QueryRemoved | Other

  datatype Pc =
    | Retrying        // before the interlocked increment
    | BackingOff      // it saw more than one caller and has not taken its increment back
    | Checking        // in the body, before the test of UsbRemoved
    | Sending         // the test is passed, the request not sent
    | Deciding        // the request is sent
    | SendingRemoval  // UsbRemoved is set, the removal not sent
    | Leaving
    | Gone

  datatype Call = Call(kind: Kind, remove: bool, pc: Pc)

  datatype Gate = Gate(removalInProgress: int, usbRemoved: bool, sent: seq<Kind>)

  datatype State = State(g: Gate, calls: seq<Call>)

  datatype Event =
    | Enter(kind: Kind, remove: bool)   // a new call
    | Try(i: nat)
    | BackOff(i: nat)
    | Check(i: nat, usbDo: bool)        // whether the USB device object exists
    | GiveUp(i: nat)                    // no memory for the request, or it cannot be set up
    | Send(i: nat)
    | Decide(i: nat, setUp: bool)
    | SendRemoval(i: nat)
    | Leave(i: nat)
    | RemovedElsewhere                  // UsbRemoved is also set when the adapter is freed

  // What each step does to the shared fields, and where it leaves the caller.

  function TryGate(g: Gate): (Gate, Pc) {
    (g.(removalInProgress := g.removalInProgress + 1), if g.removalInProgress + 1 > 1 then BackingOff else Checking)
  }

  function BackOffGate(g: Gate): Gate { g.(removalInProgress := g.removalInProgress - 1) }

  function CheckGate(g: Gate, kind: Kind, usbDo: bool): Pc {
    if g.usbRemoved || kind == Removed || !usbDo then Leaving else Sending
  }

  function SendGate(g: Gate, kind: Kind): Gate { g.(sent := g.sent + [kind]) }

  function DecideGate(g: Gate, remove: bool, setUp: bool): (Gate, Pc) {
    if remove && !g.usbRemoved && setUp then (g.(usbRemoved := true), SendingRemoval) else (g, Leaving)
  }

  function At(s: State, e: Event): Pc
    requires !e.Enter? && !e.RemovedElsewhere? && e.i < |s.calls|
  {
    s.calls[e.i].pc
  }

  predicate Enabled(s: State, e: Event) {
    match e
    case Enter(_, _) => true
    case RemovedElsewhere => true
    case _ =>
      && e.i < |s.calls|
      && At(s, e) == match e
                     case Try(_) => Retrying
                     case BackOff(_) => BackingOff
                     case Check(_, _) => Checking
                     case GiveUp(_) => Sending
                     case Send(_) => Sending
                     case Decide(_, _) => Deciding
                     case SendRemoval(_) => SendingRemoval
                     case _ => Leaving
  }

  function Moved(calls: seq<Call>, i: nat, pc: Pc): seq<Call>
    requires i < |calls|
  {
    calls[i := calls[i].(pc := pc)]
  }

  function Step(s: State, e: Event): State
    requires Enabled(s, e)
  {
    match e
    case Enter(kind, remove) => s.(calls := s.calls + [Call(kind, remove, Retrying)])
    case Try(i) => State(TryGate(s.g).0, Moved(s.calls, i, TryGate(s.g).1))
    case BackOff(i) => State(BackOffGate(s.g), Moved(s.calls, i, Retrying))
    case Check(i, usbDo) => State(s.g, Moved(s.calls, i, CheckGate(s.g, s.calls[i].kind, usbDo)))
    case GiveUp(i) => State(s.g, Moved(s.calls, i, Leaving))
    case Send(i) => State(SendGate(s.g, s.calls[i].kind), Moved(s.calls, i, Deciding))
    case Decide(i, setUp) =>
      State(DecideGate(s.g, s.calls[i].remove, setUp).0,
            Moved(s.calls, i, DecideGate(s.g, s.calls[i].remove, setUp).1))
    case SendRemoval(i) => State(SendGate(s.g, Removed), Moved(s.calls, i, Leaving))
    case Leave(i) => State(BackOffGate(s.g), Moved(s.calls, i, Gone))
    case RemovedElsewhere => s.(g := s.g.(usbRemoved := true))
  }

  const START := State(Gate(0, false, []), [])

  predicate Runs(es: seq<Event>)
    decreases |es|, 0
  {
    es == [] || (Runs(es[..|es| - 1]) && Enabled(Exec(es[..|es| - 1]), es[|es| - 1]))
  }

  function Exec(es: seq<Event>): State
    requires Runs(es)
    decreases |es|, 1
  {
    if es == [] then START else Step(Exec(es[..|es| - 1]), es[|es| - 1])
  }

  // ---------------------------------------------------------------------------------------------
  // One caller in the body

  predicate InBody(pc: Pc) {
    pc.Checking? || pc.Sending? || pc.Deciding? || pc.SendingRemoval? || pc.Leaving?
  }

  predicate Counted(pc: Pc) { pc.BackingOff? || InBody(pc) }

  function Counting(calls: seq<Call>): set<nat> { set i: nat | i < |calls| && Counted(calls[i].pc) }

  ghost predicate OneInBody(s: State) {
    forall i, j :: 0 <= i < |s.calls| && 0 <= j < |s.calls| && InBody(s.calls[i].pc) && InBody(s.calls[j].pc) ==> i == j
  }

  /** Whoever may still send has found the device not removed. */
  predicate MaySend(pc: Pc) { pc.Sending? || pc.Deciding? || pc.SendingRemoval? }

  ghost predicate RemovalIsLast(s: State) {
    && (forall k :: 0 <= k < |s.g.sent| && s.g.sent[k] == Removed ==> k == |s.g.sent| - 1)
    && (Removed in s.g.sent ==> s.g.usbRemoved && forall i :: 0 <= i < |s.calls| ==> !MaySend(s.calls[i].pc))
    && (forall i :: 0 <= i < |s.calls| ==>
          && (s.calls[i].pc.Sending? ==> s.calls[i].kind != Removed)
          && (s.calls[i].pc.SendingRemoval? ==> s.g.usbRemoved))
  }

  ghost predicate Inv(s: State) {
    s.g.removalInProgress == |Counting(s.calls)| && OneInBody(s) && RemovalIsLast(s)
  }

  lemma {:induction false} CountingMoves(calls: seq<Call>, i: nat, pc: Pc)
    requires i < |calls|
    ensures Counting(Moved(calls, i, pc)) == if Counted(pc) then Counting(calls) + {i} else Counting(calls) - {i}
  {
  }

  lemma {:induction false} CountAfterMove(calls: seq<Call>, i: nat, pc: Pc)
    requires i < |calls|
    ensures |Counting(Moved(calls, i, pc))|
         == |Counting(calls)| + (if Counted(pc) then 1 else 0) - (if Counted(calls[i].pc) then 1 else 0)
  {
    CountingMoves(calls, i, pc);
    var s := Counting(calls);
    assert i in s <==> Counted(calls[i].pc);
    assert |s + {i}| == (if i in s then |s| else |s| + 1) && |s - {i}| == (if i in s then |s| - 1 else |s|);
  }

  lemma {:induction false} EnterKeepsInv(s: State, kind: Kind, remove: bool)
    requires Inv(s)
    ensures Inv(Step(s, Enter(kind, remove)))
  {
    assert Counting(Step(s, Enter(kind, remove)).calls) == Counting(s.calls);
  }

  /** Nobody is in the body when the increment gives 1. */
  lemma {:induction false} TryKeepsInv(s: State, i: nat)
    requires Inv(s) && Enabled(s, Try(i))
    ensures Inv(Step(s, Try(i)))
  {
    CountAfterMove(s.calls, i, TryGate(s.g).1);
    if s.g.removalInProgress == 0 {
      forall j | 0 <= j < |s.calls| ensures !InBody(s.calls[j].pc) {
        assert j in Counting(s.calls) <==> Counted(s.calls[j].pc);
      }
    }
  }

  lemma {:induction false} DecrementKeepsInv(s: State, e: Event)
    requires Inv(s) && Enabled(s, e) && (e.BackOff? || e.Leave?)
    ensures Inv(Step(s, e))
  {
    CountAfterMove(s.calls, e.i, Step(s, e).calls[e.i].pc);
  }

  lemma {:induction false} BodyKeepsCount(s: State, e: Event)
    requires Inv(s) && Enabled(s, e) && !e.Enter? && !e.RemovedElsewhere? && InBody(At(s, e)) && !e.Leave?
    ensures var t := Step(s, e); t.g.removalInProgress == |Counting(t.calls)| && OneInBody(t)
  {
    CountAfterMove(s.calls, e.i, Step(s, e).calls[e.i].pc);
  }

  lemma {:induction false} BodyKeepsRemovalLast(s: State, e: Event)
    requires Inv(s) && Enabled(s, e) && !e.Enter? && !e.RemovedElsewhere? && InBody(At(s, e)) && !e.Leave?
    ensures RemovalIsLast(Step(s, e))
  {
  }

  lemma {:induction false} StepKeepsInv(s: State, e: Event)
    requires Inv(s) && Enabled(s, e)
    ensures Inv(Step(s, e))
  {
    if e.Enter? {
      EnterKeepsInv(s, e.kind, e.remove);
    } else if e.Try? {
      TryKeepsInv(s, e.i);
    } else if e.BackOff? || e.Leave? {
      DecrementKeepsInv(s, e);
    } else if !e.RemovedElsewhere? {
      BodyKeepsCount(s, e);
      BodyKeepsRemovalLast(s, e);
    }
  }

  lemma {:induction false} RunKeepsInv(es: seq<Event>)
    requires Runs(es)
    ensures Inv(Exec(es))
  {
    if es != [] {
      RunKeepsInv(es[..|es| - 1]);
      StepKeepsInv(Exec(es[..|es| - 1]), es[|es| - 1]);
    }
  }

  /** In every run: at most one caller is in the body, and at most one removal is sent, after everything
      else that this function sends. */
  lemma {:induction false} AtMostOneRemovalAndNothingAfter(es: seq<Event>)
    requires Runs(es)
    ensures OneInBody(Exec(es))
    ensures forall k :: 0 <= k < |Exec(es).g.sent| && Exec(es).g.sent[k] == Removed ==> k == |Exec(es).g.sent| - 1
    ensures multiset(Exec(es).g.sent)[Removed] <= 1
  {
    RunKeepsInv(es);
    var sent := Exec(es).g.sent;
    if sent != [] {
      var most := sent[..|sent| - 1];
      assert sent == most + [sent[|sent| - 1]];
      assert Removed !in most;
    }
  }

  // ---------------------------------------------------------------------------------------------
  // After the device was found removed

  /** A caller about to send. */
  predicate Ready(pc: Pc) { pc.Sending? || pc.SendingRemoval? }

  /** The device is removed, and of what was sent since `n` requests, the one caller that was ready has sent its own. */
  ghost predicate Closed(s: State, n: nat) {
    && s.g.usbRemoved && n <= |s.g.sent| <= n + 1
    && (|s.g.sent| > n ==> forall i :: 0 <= i < |s.calls| ==> !Ready(s.calls[i].pc))
  }

  lemma {:induction false} StepStaysClosed(s: State, e: Event, n: nat)
    requires Inv(s) && Closed(s, n) && Enabled(s, e)
    ensures Closed(Step(s, e), n)
  {
  }

  lemma {:induction false} LastOfRun(es: seq<Event>, e: Event)
    requires Runs(es + [e])
    ensures Runs(es) && Enabled(Exec(es), e) && Exec(es + [e]) == Step(Exec(es), e)
  {
    assert (es + [e])[..|es + [e]| - 1] == es;
  }

  /** Once the device was marked as removed, by whomever, at most one more request is sent, by a caller that had
      passed its test before. */
  lemma {:induction false} AtMostOneMoreAfterRemoved(es: seq<Event>, more: seq<Event>, all: seq<Event>)
    requires all == es + [RemovedElsewhere] + more && Runs(all)
    ensures Runs(es) && Closed(Exec(all), |Exec(es).g.sent|)
    decreases |more|
  {
    if more == [] {
      assert all == es + [RemovedElsewhere];
      LastOfRun(es, RemovedElsewhere);
    } else {
      var before, last := es + [RemovedElsewhere] + more[..|more| - 1], more[|more| - 1];
      assert all == before + [last];
      LastOfRun(before, last);
      AtMostOneMoreAfterRemoved(es, more[..|more| - 1], before);
      RunKeepsInv(before);
      StepStaysClosed(Exec(before), last, |Exec(es).g.sent|);
    }
  }

  // ---------------------------------------------------------------------------------------------
  // The fields of the adapter, changed in place

  class PnpGate {
    var removalInProgress: int
    var usbRemoved: bool
    ghost var sent: seq<Kind>
    ghost var calls: seq<Call>

    ghost function View(): State
      reads this
    {
      State(Gate(removalInProgress, usbRemoved, sent), calls)
    }

    ghost predicate Valid()
      reads this
    {
      Inv(View())
    }

    ghost predicate Stands(i: nat, pc: Pc)
      reads this
    {
      i < |calls| && calls[i].pc == pc
    }

    constructor ()
      ensures Valid() && View() == START
    {
      removalInProgress, usbRemoved, sent, calls := 0, false, [], [];
    }

    /** One round of the loop at the start. A caller gets in exactly when no other caller is counted, and then
        it is alone in the body. */
    method TryEnter(ghost i: nat) returns (entered: bool)
      requires Valid() && Stands(i, Retrying)
      modifies this`removalInProgress, this`calls
      ensures Valid() && View() == Step(old(View()), Try(i))
      ensures entered <==> forall j :: 0 <= j < |calls| && j != i ==> !Counted(calls[j].pc)
      ensures entered <==> Stands(i, Checking)
    {
      ghost var before := calls;
      StepKeepsInv(View(), Try(i));
      OthersCount(calls, i);
      removalInProgress := removalInProgress + 1;
      var concurrentCalls := removalInProgress;
      entered := concurrentCalls <= 1;
      calls := Moved(calls, i, if entered then Checking else BackingOff);
      assert forall j :: 0 <= j < |calls| && j != i ==> calls[j] == before[j];
    }

    /** The decrement of a caller that did not get in, and of one that leaves. */
    method TakeBack(ghost i: nat)
      requires Valid() && (Stands(i, BackingOff) || Stands(i, Leaving))
      modifies this`removalInProgress, this`calls
      ensures Valid() && View() == Step(old(View()), if old(calls)[i].pc == BackingOff then BackOff(i) else Leave(i))
    {
      StepKeepsInv(View(), if calls[i].pc == BackingOff then BackOff(i) else Leave(i));
      removalInProgress := removalInProgress - 1;
      calls := Moved(calls, i, if calls[i].pc == BackingOff then Retrying else Gone);
    }

    /** The body with nobody in between, from the test of UsbRemoved on: what it sends and whether it removes
        the device. A removal is sent at most once and last. */
    method Body(ghost i: nat, kind: Kind, remove: bool, usbDo: bool, setUp: bool, setUpRemoval: bool)
      returns (success: bool)
      requires Valid() && Stands(i, Checking) && calls[i].kind == kind && calls[i].remove == remove
      modifies this`usbRemoved, this`sent, this`calls
      ensures Valid() && Stands(i, Leaving) && removalInProgress == old(removalInProgress)
      ensures success <==> !old(usbRemoved) && kind != Removed && usbDo && setUp
      ensures usbRemoved <==> old(usbRemoved) || (success && remove && setUpRemoval)
      ensures sent == old(sent) + (if success then [kind] else [])
                                + (if usbRemoved && !old(usbRemoved) then [Removed] else [])
    {
      success := !(usbRemoved || kind == Removed || !usbDo);
      Take(i, Check(i, usbDo));
      if success {
        if setUp {
          Take(i, Send(i));
          FinishBody(i, remove, setUpRemoval);
        } else {
          Take(i, GiveUp(i));
          success := false;
        }
      }
    }

    /** The section under UsbLock after the first request, and the removal. */
    method FinishBody(ghost i: nat, remove: bool, setUp: bool)
      requires Valid() && Stands(i, Deciding) && calls[i].remove == remove
      modifies this`usbRemoved, this`sent, this`calls
      ensures Valid() && Stands(i, Leaving)
      ensures usbRemoved <==> old(usbRemoved) || (remove && setUp)
      ensures sent == old(sent) + if usbRemoved && !old(usbRemoved) then [Removed] else []
    {
      StepKeepsInv(View(), Decide(i, setUp));
      var removes := remove && !usbRemoved && setUp;
      if removes {
        usbRemoved := true;
      }
      calls := Moved(calls, i, if removes then SendingRemoval else Leaving);
      if removes {
        Take(i, SendRemoval(i));
      }
    }

    /** One pass of MPMAIN_PnpEventWithRemoval with nobody in between: whether the caller gets in, the body, and the
        count as it was before. */
    method Pass(ghost i: nat, kind: Kind, remove: bool, usbDo: bool, setUp: bool, setUpRemoval: bool)
      returns (entered: bool, success: bool)
      requires Valid() && Stands(i, Retrying) && calls[i].kind == kind && calls[i].remove == remove
      modifies this
      ensures Valid() && removalInProgress == old(removalInProgress)
      ensures entered <==> forall j :: 0 <= j < |old(calls)| && j != i ==> !Counted(old(calls)[j].pc)
      ensures Stands(i, if entered then Gone else Retrying)
      ensures !entered ==> View() == old(View()) && !success
      ensures entered ==> (success <==> !old(usbRemoved) && kind != Removed && usbDo && setUp)
      ensures usbRemoved <==> old(usbRemoved) || (success && remove && setUpRemoval)
    {
      OthersCount(calls, i);
      entered := TryEnter(i);
      success := false;
      if entered {
        success := Body(i, kind, remove, usbDo, setUp, setUpRemoval);
      }
      TakeBack(i);
    }

    /** A step of the caller that changes no field of the adapter. */
    ghost method Take(i: nat, e: Event)
      requires Valid() && Enabled(View(), e) && (e.Check? || e.GiveUp? || e.Send? || e.SendRemoval?) && e.i == i
      modifies this`sent, this`calls
      ensures Valid() && View() == Step(old(View()), e)
    {
      StepKeepsInv(View(), e);
      var s := Step(View(), e);
      sent, calls := s.g.sent, s.calls;
    }
  }

  lemma {:induction false} OthersCount(calls: seq<Call>, i: nat)
    requires i < |calls| && !Counted(calls[i].pc)
    ensures |Counting(calls)| == 0 <==> forall j :: 0 <= j < |calls| && j != i ==> !Counted(calls[j].pc)
  {
    if forall j :: 0 <= j < |calls| && j != i ==> !Counted(calls[j].pc) {
      assert Counting(calls) == {};
    } else {
      var j :| 0 <= j < |calls| && j != i && Counted(calls[j].pc);
      assert j in Counting(calls);
    }
  }
}
