/** What every run of the control-channel client guarantees, from a fresh device on. */
module ClientRuns {
  import opened ClientModel
  import opened ClientOwnership
  import opened Machine

  lemma {:induction false} RunKeepsInv(s: Device, es: seq<Event>)
    requires Inv(s) && Runs(s, es)
    ensures Inv(Exec(s, es))
    decreases |es|
  {
    if es != [] {
      StepKeepsInv(s, es[0]);
      RunKeepsInv(Step(s, es[0]), es[1..]);
    }
  }

  // ---------------------------------------------------------------------------------------------
  // Unique ownership

  ghost predicate AllOwned(s: Device) {
    forall x :: x in s.history.accepted ==> Owners(s.at, x) == 1
  }

  /** A lost request never finds a holder again. */
  lemma {:induction false} LostStaysLost(s: Device, es: seq<Event>, x: Irp)
    requires Inv(s) && Runs(s, es)
    requires x in s.history.accepted && Owners(s.at, x) == 0
    ensures x in Exec(s, es).history.accepted && Owners(Exec(s, es).at, x) == 0
    decreases |es|
  {
    if es != [] {
      StepKeepsInv(s, es[0]);
      StepConservesOwners(s, es[0], x);
      AcceptedGrows(s, es[0]);
      LostStaysLost(Step(s, es[0]), es[1..], x);
    }
  }

  lemma {:induction false} LosingStepLoses(s: Device, e: Event)
    requires Inv(s) && Enabled(s, e) && Lost(s, e).Some?
    ensures Lost(s, e).value in Step(s, e).history.accepted && Owners(Step(s, e).at, Lost(s, e).value) == 0
  {
    StepConservesOwners(s, e, Lost(s, e).value);
    assert Owners(s.at, Lost(s, e).value) <= 1;
    AcceptedGrows(s, e);
  }

  lemma {:induction false} HarmlessStepKeepsAllOwned(s: Device, e: Event)
    requires Inv(s) && AllOwned(s) && Enabled(s, e) && Lost(s, e).None?
    ensures AllOwned(Step(s, e))
  {
    StepKeepsInv(s, e);
    AcceptedGrows(s, e);
    forall x | x in Step(s, e).history.accepted ensures Owners(Step(s, e).at, x) == 1 {
      StepConservesOwners(s, e, x);
      assert Owners(Step(s, e).at, x) <= 1;
    }
  }

  lemma {:induction false} AllOwnedIffNothingLost(s: Device, es: seq<Event>)
    requires Inv(s) && AllOwned(s) && Runs(s, es)
    ensures AllOwned(Exec(s, es)) <==> LosesNothing(s, es)
    decreases |es|
  {
    if es != [] {
      StepKeepsInv(s, es[0]);
      if Lost(s, es[0]).Some? {
        LosingStepLoses(s, es[0]);
        LostStaysLost(Step(s, es[0]), es[1..], Lost(s, es[0]).value);
      } else {
        HarmlessStepKeepsAllOwned(s, es[0]);
        AllOwnedIffNothingLost(Step(s, es[0]), es[1..]);
      }
    }
  }

  /** Over every run: no request ever has two holders or is completed twice, and every request that
      was taken in has exactly one holder if and only if no losing event occurred. */
  lemma {:induction false} UniqueOwnership(es: seq<Event>)
    requires Runs(FRESH_DEVICE, es)
    ensures forall x :: Owners(Exec(FRESH_DEVICE, es).at, x) <= 1 && Completions(Exec(FRESH_DEVICE, es).at, x) <= 1
    ensures (forall x :: x in Exec(FRESH_DEVICE, es).history.accepted ==> Owners(Exec(FRESH_DEVICE, es).at, x) == 1)
            <==> LosesNothing(FRESH_DEVICE, es)
  {
    RunKeepsInv(FRESH_DEVICE, es);
    AllOwnedIffNothingLost(FRESH_DEVICE, es);
    var s := Exec(FRESH_DEVICE, es);
    forall x ensures Owners(s.at, x) <= 1 && Completions(s.at, x) <= 1 {
      assert Owners(s.at, x) <= Bit(x in s.history.accepted);
    }
  }

  /** A request on the completion list has no cancel routine left: the branch that reports one as
      fatal is dead. Neither has a request that was popped, completed or counted out. */
  lemma {:induction false} NoCancelRoutineAtCompletion(es: seq<Event>, x: Irp)
    requires Runs(FRESH_DEVICE, es) && x in Exec(FRESH_DEVICE, es).cancellable
    ensures x !in Exec(FRESH_DEVICE, es).at.irpCompletionQueue
    ensures Completions(Exec(FRESH_DEVICE, es).at, x) == 0 && x !in Exec(FRESH_DEVICE, es).at.popped
  {
    RunKeepsInv(FRESH_DEVICE, es);
    var s := Exec(FRESH_DEVICE, es);
    assert AwayOwners(s.at, x) == 0;
    assert multiset(s.at.irpCompletionQueue)[x] == 0;
  }

  /** No reader waits while a message is queued. */
  lemma {:induction false} NoReaderWaitsBesideData(es: seq<Event>)
    requires Runs(FRESH_DEVICE, es)
    ensures Exec(FRESH_DEVICE, es).at.readIrpQueue == [] || Exec(FRESH_DEVICE, es).readDataQueue == []
  {
    RunKeepsInv(FRESH_DEVICE, es);
  }

  // ---------------------------------------------------------------------------------------------
  // The request count and the deletion of the device

  lemma {:induction false} SubMultisetSize(a: multiset<Irp>, b: multiset<Irp>)
    requires a <= b
    ensures |a| <= |b|
    ensures |a| == |b| ==> a == b
  {
    assert b == a + (b - a);
  }

  lemma {:induction false} CountedOutWasAccepted(s: Device)
    requires Inv(s)
    ensures CountedOut(s.at) <= multiset(s.history.accepted)
  {
    forall x ensures CountedOut(s.at)[x] <= multiset(s.history.accepted)[x] {
      assert Owners(s.at, x) <= Bit(x in s.history.accepted);
    }
  }

  /** No request is anywhere but with its dispatch routine after its decrement, or done. */
  ghost predicate NothingHeld(p: Places) {
    && p.readIrpQueue == [] && p.writeIrpQueue == [] && p.irpCompletionQueue == []
    && p.slots == map[] && p.writeCurrent == None
    && p.inDispatch == multiset{} && p.popped == multiset{} && p.finished == multiset{}
  }

  lemma {:induction false} HeadIsElement(queue: seq<Irp>)
    ensures queue != [] ==> multiset(queue)[queue[0]] > 0
  {
    if queue != [] {
      assert queue[0] in multiset(queue);
    }
  }

  lemma {:induction false} EmptySlots(slots: map<Slot, Irp>)
    ensures (forall x :: !InSlot(slots, x)) ==> slots == map[]
  {
    if slots != map[] {
      var t :| t in slots;
      assert InSlot(slots, slots[t]);
    }
  }

  lemma {:induction false} AllOutMeansNothingHeld(s: Device)
    requires Inv(s) && CountedOut(s.at) == multiset(s.history.accepted)
    ensures NothingHeld(s.at)
  {
    var p := s.at;
    forall x
      ensures multiset(p.readIrpQueue)[x] == 0 && multiset(p.writeIrpQueue)[x] == 0
      ensures multiset(p.irpCompletionQueue)[x] == 0 && p.writeCurrent != Some(x) && !InSlot(p.slots, x)
      ensures p.inDispatch[x] == 0 && p.popped[x] == 0 && p.finished[x] == 0
    {
      assert CountedOut(p)[x] == multiset(s.history.accepted)[x];
      assert Owners(p, x) <= Bit(x in s.history.accepted);
    }
    HeadIsElement(p.readIrpQueue);
    HeadIsElement(p.writeIrpQueue);
    HeadIsElement(p.irpCompletionQueue);
    EmptySlots(p.slots);
  }

  /** IrpCount is the number of requests counted in and not yet counted out, and when the delete loop reads
      zero every list, slot and pWriteCurrent is empty. The only requests not completed then are those that their
      dispatch routines have counted out and are about to complete. */
  lemma {:induction false} CountZeroMeansEmpty(es: seq<Event>)
    requires Runs(FRESH_DEVICE, es)
    ensures var s := Exec(FRESH_DEVICE, es);
            && 0 <= s.irpCount == |s.history.accepted| - |CountedOut(s.at)|
            && CountedOut(s.at) <= multiset(s.history.accepted)
    ensures Exec(FRESH_DEVICE, es).irpCount == 0 ==> NothingHeld(Exec(FRESH_DEVICE, es).at)
  {
    RunKeepsInv(FRESH_DEVICE, es);
    var s := Exec(FRESH_DEVICE, es);
    CountedOutWasAccepted(s);
    SubMultisetSize(CountedOut(s.at), multiset(s.history.accepted));
    if s.irpCount == 0 {
      AllOutMeansNothingHeld(s);
    }
  }

  /** One lost request keeps IrpCount above zero for good: the delete loop never ends. */
  lemma {:induction false} LossBlocksDeletion(es: seq<Event>)
    requires Runs(FRESH_DEVICE, es) && !LosesNothing(FRESH_DEVICE, es)
    ensures Exec(FRESH_DEVICE, es).irpCount > 0
  {
    RunKeepsInv(FRESH_DEVICE, es);
    AllOwnedIffNothingLost(FRESH_DEVICE, es);
    var s := Exec(FRESH_DEVICE, es);
    var x :| x in s.history.accepted && Owners(s.at, x) != 1;
    assert Owners(s.at, x) <= 1;
    CountedOutWasAccepted(s);
    SubMultisetSize(CountedOut(s.at), multiset(s.history.accepted));
    assert CountedOut(s.at)[x] == 0 && multiset(s.history.accepted)[x] > 0;
  }

  // ---------------------------------------------------------------------------------------------
  // When the device may be freed

  /** The USB stack has the write that the thread counts as active, or has none. */
  ghost predicate UsbTidy(s: Device) {
    var w := s.writer;
    && (w.active ==> s.at.writeCurrent.Some? && !w.pc.Composing? && !w.pc.Completing?)
    && (w.active ==> w.completionEvent || w.inUsb != multiset{})
    && (w.completionEvent ==> w.active && w.inUsb == multiset{})
    && (w.inUsb != multiset{} ==> w.active && w.inUsb == multiset(ToSeq(s.at.writeCurrent)))
  }

  lemma {:induction false} WorkKeepsUsbTidy(s: Device, w: WriterEvent)
    requires Wired(s) && UsbTidy(s) && WorkEnabled(s, w) && Lost(s, Work(w)).None?
    ensures UsbTidy(WorkStep(s, w))
  {
  }

  lemma {:induction false} OthersKeepWriter(s: Device, e: Event)
    requires Enabled(s, e) && !e.Work?
    ensures Step(s, e).writer == s.writer && Step(s, e).at.writeCurrent == s.at.writeCurrent
  {
  }

  lemma {:induction false} StepKeepsUsbTidy(s: Device, e: Event)
    requires Inv(s) && UsbTidy(s) && Enabled(s, e) && Lost(s, e).None?
    ensures UsbTidy(Step(s, e))
  {
    if e.Work? {
      WorkKeepsUsbTidy(s, e.work);
    } else {
      OthersKeepWriter(s, e);
    }
  }

  lemma {:induction false} LosslessRunKeepsUsbTidy(s: Device, es: seq<Event>)
    requires Inv(s) && UsbTidy(s) && Runs(s, es) && LosesNothing(s, es)
    ensures UsbTidy(Exec(s, es))
    decreases |es|
  {
    if es != [] {
      StepKeepsInv(s, es[0]);
      StepKeepsUsbTidy(s, es[0]);
      LosslessRunKeepsUsbTidy(Step(s, es[0]), es[1..]);
    }
  }

  /** Whose last accesses can be outstanding. */
  ghost predicate TailOf(s: Device, tail: Tail) {
    && tail.irp in s.history.accepted
    && match tail
       case Kick(irp) => irp.kind.Write?
       case Loop(irp) => s.at.gone[irp] > 0
       case Return(irp) => (irp.kind.Close? || irp.kind.Create?) && CountedOut(s.at)[irp] > 0
  }

  ghost predicate TailsKnown(s: Device) { forall tail :: tail in s.departing ==> TailOf(s, tail) }

  lemma {:induction false} MoveKeepsCountedOut(s: Device, q: QueueEvent)
    requires MoveEnabled(s, q)
    ensures MoveStep(s, q).at.gone == s.at.gone && MoveStep(s, q).at.returned == s.at.returned
    ensures MoveStep(s, q).departing == s.departing
  {
  }

  lemma {:induction false} FinishGrowsCountedOut(s: Device, f: FinishEvent, x: Irp)
    requires FinishEnabled(s, f)
    ensures FinishStep(s, f).at.gone[x] >= s.at.gone[x]
    ensures CountedOut(FinishStep(s, f).at)[x] >= CountedOut(s.at)[x]
  {
  }

  lemma {:induction false} CountedOutStays(s: Device, e: Event, x: Irp)
    requires Enabled(s, e)
    ensures Step(s, e).at.gone[x] >= s.at.gone[x] && CountedOut(Step(s, e).at)[x] >= CountedOut(s.at)[x]
  {
    match e
    case Move(q) => MoveKeepsCountedOut(s, q);
    case Finish(f) => FinishGrowsCountedOut(s, f, x);
    case _ =>
  }

  lemma {:induction false} NewTailIsKnown(s: Device, e: Event, tail: Tail)
    requires AtMostOneOwner(s) && Enabled(s, e) && tail in Step(s, e).departing && tail !in s.departing
    ensures TailOf(Step(s, e), tail)
  {
    match e
    case Move(q) => MoveKeepsCountedOut(s, q);
    case Finish(f) => assert Owners(s.at, tail.irp) <= Bit(tail.irp in s.history.accepted);
    case _ =>
  }

  lemma {:induction false} StepKeepsTailsKnown(s: Device, e: Event)
    requires Inv(s) && TailsKnown(s) && Enabled(s, e)
    ensures TailsKnown(Step(s, e))
  {
    AcceptedGrows(s, e);
    forall tail | tail in Step(s, e).departing ensures TailOf(Step(s, e), tail) {
      if tail in s.departing {
        CountedOutStays(s, e, tail.irp);
      } else {
        NewTailIsKnown(s, e, tail);
      }
    }
  }

  lemma {:induction false} RunKeepsTailsKnown(s: Device, es: seq<Event>)
    requires Inv(s) && TailsKnown(s) && Runs(s, es)
    ensures TailsKnown(Exec(s, es))
    decreases |es|
  {
    if es != [] {
      StepKeepsInv(s, es[0]);
      StepKeepsTailsKnown(s, es[0]);
      RunKeepsTailsKnown(Step(s, es[0]), es[1..]);
    }
  }

  /** Steps that dispatch routines, cancel routines, completion loops and the USB stack still take for a request
      accepted before. */
  predicate ForAcceptedRequest(e: Event) {
    || e.Finish?
    || (e.Move? && (e.queue.Cancel? || e.queue.CancelRoutineRuns? || e.queue.CacheNotification?))
    || (e.Work? && e.work.UsbCompletes?)
  }

  /** All of them use the device but these: the completion of a request, by its dispatch routine or the completion
      loop; the call of a cancel routine by the kernel; and a cancel routine that does not find its device. */
  predicate TouchesDevice(e: Event) {
    && ForAcceptedRequest(e)
    && !(e.Finish? && (e.finish.CompleteReturned? || e.finish.CompletePopped?))
    && !(e.Move? && (e.queue.Cancel? || (e.queue.CancelRoutineRuns? && !e.queue.found)))
  }

  lemma {:induction false} CountedOutOwner(s: Device, x: Irp)
    requires Inv(s) && CountedOut(s.at) == multiset(s.history.accepted) && x in s.history.accepted
    ensures x !in s.cancellable
    ensures x in s.at.cancelling ==> (x.kind.Read? || x.kind.Write?) && s.at.gone[x] == 1
  {
    assert CountedOut(s.at)[x] > 0 && Owners(s.at, x) <= 1;
  }

  /** At count zero no request can be cancelled any more, and no write is with the USB stack. */
  lemma {:induction false} CountZeroState(es: seq<Event>, s: Device)
    requires Runs(FRESH_DEVICE, es) && s == Exec(FRESH_DEVICE, es) && s.irpCount == 0
    ensures Inv(s) && TailsKnown(s) && NothingHeld(s.at) && s.cancellable == {} && s.writer.inUsb == multiset{}
    ensures forall x :: x in s.at.cancelling ==> (x.kind.Read? || x.kind.Write?) && s.at.gone[x] == 1
  {
    CountZeroMeansEmpty(es);
    RunKeepsInv(FRESH_DEVICE, es);
    RunKeepsTailsKnown(FRESH_DEVICE, es);
    SubMultisetSize(CountedOut(s.at), multiset(s.history.accepted));
    forall x | x in s.cancellable || x in s.at.cancelling
      ensures x !in s.cancellable && (x.kind.Read? || x.kind.Write?) && s.at.gone[x] == 1
    {
      CountedOutOwner(s, x);
    }
    if !LosesNothing(FRESH_DEVICE, es) { LossBlocksDeletion(es); }
    LosslessRunKeepsUsbTidy(FRESH_DEVICE, es);
  }

  /** What is left at count zero: requests that their dispatch routines are about to complete; cancel routines
      that were called for reads and writes, completed and counted out without them; and last accesses to the
      device: kicks of accepted writes, completion loops past their decrement, closes and failed creates past
      theirs. */
  lemma {:induction false} CountZeroLeavesOnly(es: seq<Event>, e: Event)
    requires Runs(FRESH_DEVICE, es) && Exec(FRESH_DEVICE, es).irpCount == 0
    requires ForAcceptedRequest(e) && Enabled(Exec(FRESH_DEVICE, es), e)
    ensures var s := Exec(FRESH_DEVICE, es);
            if e.Finish? then e.finish.CompleteReturned? || (e.finish.Depart? && TailOf(s, e.finish.tail))
            else e.Move? && e.queue.CancelRoutineRuns? && s.at.gone[e.queue.irp] == 1
                 && (e.queue.irp.kind.Read? || e.queue.irp.kind.Write?)
  {
    CountZeroState(es, Exec(FRESH_DEVICE, es));
  }

  ghost predicate Quiescent(s: Device) {
    && NothingHeld(s.at) && s.cancellable == {} && s.writer.inUsb == multiset{}
    && s.at.cancelling == {} && s.departing == {}
  }

  lemma {:induction false} QuiescentStep(s: Device, e: Event)
    requires Quiescent(s) && Enabled(s, e) && ForAcceptedRequest(e)
    ensures !TouchesDevice(e) && Quiescent(Step(s, e))
  {
    assert e.Finish? && e.finish.CompleteReturned?;
  }

  lemma {:induction false} QuiescentStays(s: Device, more: seq<Event>)
    requires Quiescent(s) && Runs(s, more) && forall e :: e in more ==> ForAcceptedRequest(e)
    ensures forall e :: e in more ==> !TouchesDevice(e)
    decreases |more|
  {
    if more != [] {
      assert more[0] in more && forall e :: e in more[1..] ==> e in more;
      QuiescentStep(s, more[0]);
      QuiescentStays(Step(s, more[0]), more[1..]);
      assert more == [more[0]] + more[1..];
    }
  }

  /** No step that is still taken for a request accepted before uses the device. */
  ghost predicate SafeToFree(s: Device) {
    forall more :: Runs(s, more) && (forall e :: e in more ==> ForAcceptedRequest(e))
      ==> forall e :: e in more ==> !TouchesDevice(e)
  }

  lemma {:induction false} TouchIsUnsafe(s: Device, e: Event)
    requires Enabled(s, e) && TouchesDevice(e)
    ensures !SafeToFree(s)
  {
    assert [e][1..] == [] && Runs(Step(s, e), []);
    assert Runs(s, [e]) && e in [e];
  }

  /** Exactly when freeing is safe at count zero: no cancel routine was called and is yet to run, and no routine
      has a last access to make. The count alone says neither. */
  lemma {:induction false} FreeingIsSafeExactlyWhen(es: seq<Event>)
    requires Runs(FRESH_DEVICE, es) && Exec(FRESH_DEVICE, es).irpCount == 0
    ensures var s := Exec(FRESH_DEVICE, es);
            SafeToFree(s) <==> s.at.cancelling == {} && s.departing == {}
  {
    var s := Exec(FRESH_DEVICE, es);
    CountZeroState(es, s);
    if s.at.cancelling != {} {
      var x :| x in s.at.cancelling;
      TouchIsUnsafe(s, Move(CancelRoutineRuns(x, true)));
    } else if s.departing != {} {
      var tail :| tail in s.departing;
      TouchIsUnsafe(s, Finish(Depart(tail)));
    } else {
      forall more | Runs(s, more) && forall e :: e in more ==> ForAcceptedRequest(e)
        ensures forall e :: e in more ==> !TouchesDevice(e)
      {
        QuiescentStays(s, more);
      }
    }
  }

  // ---------------------------------------------------------------------------------------------
  // Runs that lose nothing

  /** The write buffer can always be allocated, the write thread is started once, and every cancel
      routine finds its device. */
  predicate Careful(e: Event) {
    !(e.Work? && e.work.AllocationFails?) && !(e.Move? && e.queue.CancelRoutineRuns? && !e.queue.found)
  }

  function Starts(es: seq<Event>): nat {
    if es == [] then 0 else Bit(es[0] == Work(StartWriter)) + Starts(es[1..])
  }

  ghost predicate CarefulRun(es: seq<Event>) {
    (forall e :: e in es ==> Careful(e)) && Starts(es) <= 1
  }

  /** How the write thread, its current write and the USB stack hang together in careful runs. */
  ghost predicate WriterTidy(s: Device) {
    var w := s.writer;
    && UsbTidy(s)
    && (s.at.writeCurrent.Some? <==> w.buffer)
    && (w.buffer ==> w.pc.Composing? || w.pc.Completing? || w.active)
    && (w.pc.Composing? || w.pc.Completing? ==> w.buffer)
    && s.history.unsent == {}
  }

  /** Every notification request in a slot can still be cancelled or is being cancelled. */
  ghost predicate SlotsLive(s: Device) {
    forall x :: InSlot(s.at.slots, x) ==> x in s.cancellable || x in s.at.cancelling
  }

  lemma {:induction false} TidyLosesNothing(s: Device, e: Event)
    requires WriterTidy(s) && SlotsLive(s) && Enabled(s, e) && Careful(e)
    requires e == Work(StartWriter) ==> s.at.writeCurrent.None?
    ensures Lost(s, e).None?
  {
    if e.Move? && e.queue.PostNotification? && e.queue.slot in s.at.slots {
      assert InSlot(s.at.slots, s.at.slots[e.queue.slot]);
    }
  }

  lemma {:induction false} CacheKeepsSlotsLive(s: Device, irp: Irp, slot: Slot)
    requires SlotsLive(s)
    ensures SlotsLive(CacheStep(s, irp, slot))
  {
    forall x | slot !in s.at.slots { SlotAdded(s.at.slots, slot, irp, x); }
  }

  lemma {:induction false} LeaveSlotKeepsSlotsLive(s: Device, slot: Slot)
    requires Inv(s) && SlotsLive(s)
    ensures SlotsLive(PostStep(s, slot)) && SlotsLive(CancelNotificationStep(s, slot))
  {
    forall x | slot in s.at.slots { SlotRemoved(s.at.slots, slot, x); }
  }

  lemma {:induction false} CancelKeepsSlotsLive(s: Device, irp: Irp)
    requires SlotsLive(s) && (InSlot(s.at.slots, irp) ==> irp.kind.Notify?)
    ensures SlotsLive(CancelStep(s, irp, true))
  {
    var t := CancelStep(s, irp, true);
    forall x | InSlot(t.at.slots, x) ensures x in t.cancellable || x in t.at.cancelling {
      CancelPlacesKeepOthers(s.at.(cancelling := s.at.cancelling - {irp}), irp, IsActiveWrite(s, irp), x);
    }
  }

  /** Reads and writes leave their queues without touching the slots. */
  lemma {:induction false} QueueMoveKeepsSlotsLive(s: Device, length: nat, stored: bool)
    requires Inv(s) && SlotsLive(s)
    ensures SlotsLive(MessageStep(s, length, stored))
    ensures SlotsLive(PurgeReadsStep(s)) && SlotsLive(PurgeWritesStep(s))
  {
    forall x | InSlot(s.at.slots, x) ensures x !in s.at.readIrpQueue && x !in s.at.writeIrpQueue {
      assert Owners(s.at, x) <= 1;
      assert multiset(s.at.readIrpQueue)[x] == 0 && multiset(s.at.writeIrpQueue)[x] == 0;
    }
  }

  lemma {:induction false} MoveKeepsSlotsLive(s: Device, q: QueueEvent)
    requires Inv(s) && SlotsLive(s) && MoveEnabled(s, q) && Careful(Move(q))
    ensures SlotsLive(MoveStep(s, q))
  {
    match q
    case CacheNotification(irp, slot) => CacheKeepsSlotsLive(s, irp, slot);
    case PostNotification(slot) => LeaveSlotKeepsSlotsLive(s, slot);
    case CancelNotification(slot) => LeaveSlotKeepsSlotsLive(s, slot);
    case CancelRoutineRuns(irp, found) => CancelKeepsSlotsLive(s, irp);
    case MessageArrives(length, stored) => QueueMoveKeepsSlotsLive(s, length, stored);
    case PurgeReads => QueueMoveKeepsSlotsLive(s, 0, false);
    case PurgeWrites => QueueMoveKeepsSlotsLive(s, 0, false);
    case _ =>
  }

  lemma {:induction false} FinishKeepsSlotsLive(s: Device, f: FinishEvent)
    requires Inv(s) && SlotsLive(s) && FinishEnabled(s, f)
    ensures SlotsLive(FinishStep(s, f))
  {
    if f.PopCompletion? {
      assert Owners(s.at, s.at.irpCompletionQueue[0]) <= 1;
      HeadCounts(s.at.irpCompletionQueue, s.at.irpCompletionQueue[0]);
    }
  }

  lemma {:induction false} WorkKeepsSlotsLive(s: Device, w: WriterEvent)
    requires Inv(s) && SlotsLive(s) && WorkEnabled(s, w)
    ensures SlotsLive(WorkStep(s, w))
  {
    if s.at.writeCurrent.Some? {
      assert Owners(s.at, s.at.writeCurrent.value) <= 1;
    }
  }

  lemma {:induction false} OthersKeepWriterTidy(s: Device, e: Event)
    requires WriterTidy(s) && Enabled(s, e) && !e.Work?
    ensures WriterTidy(Step(s, e))
  {
    OthersKeepWriter(s, e);
  }

  lemma {:induction false} WorkKeepsWriterTidy(s: Device, w: WriterEvent)
    requires WriterTidy(s) && Careful(Work(w)) && WorkEnabled(s, w)
    requires w.StartWriter? ==> s.at.writeCurrent.None? && s.writer.inUsb == multiset{} && !s.writer.completionEvent
    ensures WriterTidy(WorkStep(s, w))
  {
  }

  /** The state of a careful run: the write thread is in its only life, or not yet started. */
  ghost predicate CarefulState(s: Device, started: bool) {
    && Inv(s) && WriterTidy(s) && SlotsLive(s)
    && (!started ==> s.writer == FRESH_DEVICE.writer && s.at.writeCurrent.None?)
  }

  lemma {:induction false} CarefulStep(s: Device, started: bool, e: Event)
    requires CarefulState(s, started) && Enabled(s, e) && Careful(e)
    requires e == Work(StartWriter) ==> !started
    ensures Lost(s, e).None?
    ensures CarefulState(Step(s, e), started || e == Work(StartWriter))
  {
    TidyLosesNothing(s, e);
    StepKeepsInv(s, e);
    match e
    case Arrives(irp) => OthersKeepWriterTidy(s, e);
    case Move(q) => OthersKeepWriterTidy(s, e); MoveKeepsSlotsLive(s, q);
    case Finish(f) => OthersKeepWriterTidy(s, e); FinishKeepsSlotsLive(s, f);
    case Work(w) => WorkKeepsWriterTidy(s, w); WorkKeepsSlotsLive(s, w);
  }

  lemma {:induction false} CarefulRunTidy(s: Device, started: bool, es: seq<Event>)
    requires CarefulState(s, started) && Runs(s, es) && CarefulRun(es) && Starts(es) + Bit(started) <= 1
    ensures LosesNothing(s, es) && WriterTidy(Exec(s, es))
    decreases |es|
  {
    if es != [] {
      assert es[0] in es && forall e :: e in es[1..] ==> e in es;
      CarefulStep(s, started, es[0]);
      CarefulRunTidy(Step(s, es[0]), started || es[0] == Work(StartWriter), es[1..]);
    }
  }

  /** With buffers to be had, one life of the write thread and device look-ups that succeed, every
      request has exactly one holder throughout. */
  lemma {:induction false} CarefulRunsOwnEverything(es: seq<Event>, x: Irp)
    requires Runs(FRESH_DEVICE, es) && CarefulRun(es)
    requires x in Exec(FRESH_DEVICE, es).history.accepted
    ensures Owners(Exec(FRESH_DEVICE, es).at, x) == 1
  {
    CarefulRunTidy(FRESH_DEVICE, false, es);
    UniqueOwnership(es);
  }

  /** In such runs at most one write is with the USB stack, and it is pWriteCurrent; and a write that is counted as
      active is there, or its completion is signalled to the thread. */
  lemma {:induction false} OneWriteInUsb(es: seq<Event>)
    requires Runs(FRESH_DEVICE, es) && CarefulRun(es)
    ensures var s := Exec(FRESH_DEVICE, es);
            s.writer.inUsb != multiset{} ==>
              s.at.writeCurrent.Some? && s.writer.inUsb == multiset{s.at.writeCurrent.value}
    ensures var w := Exec(FRESH_DEVICE, es).writer;
            w.active ==> w.completionEvent || w.inUsb != multiset{}
  {
    CarefulRunTidy(FRESH_DEVICE, false, es);
    var s := Exec(FRESH_DEVICE, es);
    if s.writer.inUsb != multiset{} {
      assert ToSeq(s.at.writeCurrent) == [s.at.writeCurrent.value];
    }
  }

  // ---------------------------------------------------------------------------------------------
  // Requests that wait can be cancelled

  ghost predicate Queued(s: Device, x: Irp) { x in s.at.readIrpQueue || x in s.at.writeIrpQueue }

  /** The queues hold their own kind. */
  ghost predicate QueueKinds(p: Places) {
    (forall x :: x in p.readIrpQueue ==> x.kind.Read?) && (forall x :: x in p.writeIrpQueue ==> x.kind.Write?)
  }

  /** Every queued read or write can still be cancelled or is being cancelled. */
  ghost predicate QueuesLive(s: Device) {
    QueueKinds(s.at) && forall x :: Queued(s, x) ==> x in s.cancellable || x in s.at.cancelling
  }

  lemma {:induction false} QueuedIsNowhereElse(s: Device, x: Irp)
    requires AtMostOneOwner(s) && Queued(s, x)
    ensures multiset(s.at.readIrpQueue)[x] + multiset(s.at.writeIrpQueue)[x] == 1
    ensures s.at.writeCurrent != Some(x) && !InSlot(s.at.slots, x) && x !in s.at.irpCompletionQueue
  {
    assert Owners(s.at, x) <= 1;
    assert x in s.at.readIrpQueue ==> multiset(s.at.readIrpQueue)[x] > 0;
    assert x in s.at.writeIrpQueue ==> multiset(s.at.writeIrpQueue)[x] > 0;
    assert x in s.at.irpCompletionQueue ==> multiset(s.at.irpCompletionQueue)[x] > 0;
  }

  /** The queues only shrink, and what stays keeps its cancel routine. */
  lemma {:induction false} ShrinkingKeepsQueuesLive(s: Device, t: Device)
    requires QueuesLive(s)
    requires forall x :: x in t.at.readIrpQueue ==> x in s.at.readIrpQueue
    requires forall x :: x in t.at.writeIrpQueue ==> x in s.at.writeIrpQueue
    requires forall x :: Queued(t, x) && x in s.cancellable ==> x in t.cancellable || x in t.at.cancelling
    requires forall x :: Queued(t, x) && x in s.at.cancelling ==> x in t.at.cancelling
    ensures QueuesLive(t)
  {
  }

  lemma {:induction false} UnlinkedIsGone(queue: seq<Irp>, irp: Irp, x: Irp)
    ensures x in Unlink(queue, irp) ==> x in queue
    ensures multiset(queue)[irp] <= 1 ==> irp !in Unlink(queue, irp)
  {
    if queue != [] {
      HeadCounts(queue, irp);
      UnlinkedIsGone(queue[1..], irp, x);
    }
  }

  lemma {:induction false} CancelOnlyUnlinks(p: Places, irp: Irp, active: bool, x: Irp)
    ensures x in CancelPlaces(p, irp, active).readIrpQueue ==> x in p.readIrpQueue
    ensures x in CancelPlaces(p, irp, active).writeIrpQueue ==> x in p.writeIrpQueue
  {
    UnlinkedIsGone(p.readIrpQueue, irp, x);
    UnlinkedIsGone(p.writeIrpQueue, irp, x);
  }

  lemma {:induction false} MoveKeepsKinds(s: Device, q: QueueEvent)
    requires QueueKinds(s.at) && MoveEnabled(s, q)
    ensures QueueKinds(MoveStep(s, q).at)
  {
    if q.CancelRoutineRuns? {
      forall x {
        CancelOnlyUnlinks(s.at.(cancelling := s.at.cancelling - {q.irp}), q.irp, IsActiveWrite(s, q.irp), x);
      }
    }
  }

  lemma {:induction false} StepKeepsKinds(s: Device, e: Event)
    requires QueueKinds(s.at) && Enabled(s, e)
    ensures QueueKinds(Step(s, e).at)
  {
    if e.Move? {
      MoveKeepsKinds(s, e.queue);
    }
  }

  /** After its cancel routine has run, a request waits in no queue. */
  lemma {:induction false} CancelledLeavesQueues(s: Device, irp: Irp, x: Irp)
    requires Inv(s) && QueuesLive(s) && irp in s.at.cancelling && Queued(CancelStep(s, irp, true), x)
    ensures Queued(s, x) && (x in s.at.readIrpQueue <==> x in CancelStep(s, irp, true).at.readIrpQueue)
    ensures x != irp || IsActiveWrite(s, irp)
  {
    UnlinkedIsGone(s.at.readIrpQueue, irp, x);
    UnlinkedIsGone(s.at.writeIrpQueue, irp, x);
    QueuedIsNowhereElse(s, x);
  }

  lemma {:induction false} CancelKeepsQueuesLive(s: Device, irp: Irp)
    requires Inv(s) && QueuesLive(s) && irp in s.at.cancelling
    ensures QueuesLive(CancelStep(s, irp, true))
  {
    var t := CancelStep(s, irp, true);
    forall x | Queued(t, x) ensures Queued(s, x) && (x != irp || IsActiveWrite(s, irp)) {
      CancelledLeavesQueues(s, irp, x);
    }
    forall x { CancelOnlyUnlinks(s.at.(cancelling := s.at.cancelling - {irp}), irp, IsActiveWrite(s, irp), x); }
    ShrinkingKeepsQueuesLive(s, t);
  }

  lemma {:induction false} StaysIsNotTaken(s: Device, taken: seq<Irp>, rest: seq<Irp>, x: Irp)
    requires AtMostOneOwner(s) && s.at.readIrpQueue == taken + rest && (x in rest || x in s.at.writeIrpQueue)
    ensures x !in taken
  {
    QueuedIsNowhereElse(s, x);
    assert multiset(s.at.readIrpQueue) == multiset(taken) + multiset(rest);
    assert x in taken ==> multiset(taken)[x] > 0;
    assert x in rest ==> multiset(rest)[x] > 0;
    assert x in s.at.writeIrpQueue ==> multiset(s.at.writeIrpQueue)[x] > 0;
  }

  lemma {:induction false} MessageKeepsQueuesLive(s: Device, length: nat, stored: bool)
    requires Inv(s) && QueuesLive(s)
    ensures QueuesLive(MessageStep(s, length, stored))
  {
    var k := Taken(s.at.readIrpQueue, s.cancellable, length);
    var taken, rest := s.at.readIrpQueue[..k], s.at.readIrpQueue[k..];
    assert s.at.readIrpQueue == taken + rest;
    forall x | x in rest || x in s.at.writeIrpQueue ensures x !in taken {
      StaysIsNotTaken(s, taken, rest, x);
    }
    ShrinkingKeepsQueuesLive(s, MessageStep(s, length, stored));
  }

  lemma {:induction false} PurgesKeepQueuesLive(s: Device)
    requires Inv(s) && QueuesLive(s)
    ensures QueuesLive(PurgeReadsStep(s)) && QueuesLive(PurgeWritesStep(s))
  {
    forall x | Queued(s, x) ensures x !in s.at.readIrpQueue || x !in s.at.writeIrpQueue {
      QueuedIsNowhereElse(s, x);
    }
  }

  lemma {:induction false} SlotMoveKeepsQueuesLive(s: Device, slot: Slot)
    requires Inv(s) && QueuesLive(s)
    ensures QueuesLive(PostStep(s, slot)) && QueuesLive(CancelNotificationStep(s, slot))
  {
    forall x | Queued(s, x) ensures !InSlot(s.at.slots, x) {
      QueuedIsNowhereElse(s, x);
    }
  }

  /** The look-up of a cancel routine succeeds. */
  predicate LooksUp(e: Event) { e.Move? && e.queue.CancelRoutineRuns? ==> e.queue.found }

  lemma {:induction false} MoveKeepsQueuesLive(s: Device, q: QueueEvent)
    requires Inv(s) && QueuesLive(s) && MoveEnabled(s, q) && LooksUp(Move(q))
    ensures QueuesLive(MoveStep(s, q))
  {
    match q
    case PostNotification(slot) => SlotMoveKeepsQueuesLive(s, slot);
    case CancelNotification(slot) => SlotMoveKeepsQueuesLive(s, slot);
    case CancelRoutineRuns(irp, _) => CancelKeepsQueuesLive(s, irp);
    case MessageArrives(length, stored) => MessageKeepsQueuesLive(s, length, stored);
    case PurgeReads => PurgesKeepQueuesLive(s);
    case PurgeWrites => PurgesKeepQueuesLive(s);
    case _ => ShrinkingKeepsQueuesLive(s, MoveStep(s, q));
  }

  lemma {:induction false} FinishKeepsQueues(s: Device, f: FinishEvent)
    requires FinishEnabled(s, f)
    ensures var t := FinishStep(s, f);
            && t.at.readIrpQueue == s.at.readIrpQueue && t.at.writeIrpQueue == s.at.writeIrpQueue
            && t.at.cancelling == s.at.cancelling
            && (if f.PopCompletion? then t.cancellable == s.cancellable - {s.at.irpCompletionQueue[0]}
                else t.cancellable == s.cancellable)
  {
  }

  lemma {:induction false} FinishKeepsQueuesLive(s: Device, f: FinishEvent)
    requires Inv(s) && QueuesLive(s) && FinishEnabled(s, f)
    ensures QueuesLive(FinishStep(s, f))
  {
    FinishKeepsQueues(s, f);
    forall x | Queued(s, x) ensures x !in s.at.irpCompletionQueue {
      QueuedIsNowhereElse(s, x);
    }
    ShrinkingKeepsQueuesLive(s, FinishStep(s, f));
  }

  lemma {:induction false} WorkKeepsQueuesLive(s: Device, w: WriterEvent)
    requires Inv(s) && QueuesLive(s) && WorkEnabled(s, w)
    ensures QueuesLive(WorkStep(s, w))
  {
    forall x | Queued(s, x) ensures s.at.writeCurrent != Some(x) {
      QueuedIsNowhereElse(s, x);
    }
    ShrinkingKeepsQueuesLive(s, WorkStep(s, w));
  }

  ghost predicate WaitersLive(s: Device) { Inv(s) && QueuesLive(s) && SlotsLive(s) }

  lemma {:induction false} StepKeepsQueuesLive(s: Device, e: Event)
    requires Inv(s) && QueuesLive(s) && Enabled(s, e) && LooksUp(e)
    ensures QueuesLive(Step(s, e))
  {
    match e
    case Arrives(_) =>
    case Move(q) => MoveKeepsQueuesLive(s, q);
    case Finish(f) => FinishKeepsQueuesLive(s, f);
    case Work(w) => WorkKeepsQueuesLive(s, w);
  }

  lemma {:induction false} StepKeepsSlotsLive(s: Device, e: Event)
    requires Inv(s) && SlotsLive(s) && Enabled(s, e) && LooksUp(e)
    ensures SlotsLive(Step(s, e))
  {
    match e
    case Arrives(_) =>
    case Move(q) => MoveKeepsSlotsLive(s, q);
    case Finish(f) => FinishKeepsSlotsLive(s, f);
    case Work(w) => WorkKeepsSlotsLive(s, w);
  }

  lemma {:induction false} StepKeepsWaitersLive(s: Device, e: Event)
    requires WaitersLive(s) && Enabled(s, e) && LooksUp(e)
    ensures WaitersLive(Step(s, e))
  {
    StepKeepsInv(s, e);
    StepKeepsQueuesLive(s, e);
    StepKeepsSlotsLive(s, e);
  }

  lemma {:induction false} RunKeepsWaitersLive(s: Device, es: seq<Event>)
    requires WaitersLive(s) && Runs(s, es) && forall e :: e in es ==> LooksUp(e)
    ensures WaitersLive(Exec(s, es))
    decreases |es|
  {
    if es != [] {
      assert es[0] in es && forall e :: e in es[1..] ==> e in es;
      StepKeepsWaitersLive(s, es[0]);
      RunKeepsWaitersLive(Step(s, es[0]), es[1..]);
    }
  }

  /** Over every run whose look-ups succeed: a request that waits in a queue or a slot still has its cancel routine,
      or that routine was called and has yet to run. */
  lemma {:induction false} WaitersCanBeCancelled(es: seq<Event>, x: Irp)
    requires Runs(FRESH_DEVICE, es) && forall e :: e in es ==> LooksUp(e)
    ensures var s := Exec(FRESH_DEVICE, es);
            x in s.at.readIrpQueue || x in s.at.writeIrpQueue || InSlot(s.at.slots, x)
            ==> x in s.cancellable || x in s.at.cancelling
  {
    RunKeepsWaitersLive(FRESH_DEVICE, es);
  }

  /** And cancelling it takes effect: when its routine runs, it leaves queue and slot and is listed for completion. */
  lemma {:induction false} CancelTakesEffect(es: seq<Event>, s: Device, x: Irp)
    requires Runs(FRESH_DEVICE, es) && s == Exec(FRESH_DEVICE, es) && forall e :: e in es ==> LooksUp(e)
    requires x in s.at.cancelling
    requires x in s.at.readIrpQueue || x in s.at.writeIrpQueue || InSlot(s.at.slots, x)
    ensures var t := CancelStep(s, x, true);
            && x !in t.at.readIrpQueue && x !in t.at.writeIrpQueue && !InSlot(t.at.slots, x)
            && x in t.at.irpCompletionQueue && x !in t.at.cancelling
  {
    RunKeepsWaitersLive(FRESH_DEVICE, es);
    CancelListsWaiter(s, x);
  }

  lemma {:induction false} CancelListsWaiter(s: Device, x: Irp)
    requires WaitersLive(s) && x in s.at.cancelling && (Queued(s, x) || InSlot(s.at.slots, x))
    ensures var t := CancelStep(s, x, true);
            && !Queued(t, x) && !InSlot(t.at.slots, x) && x in t.at.irpCompletionQueue && x !in t.at.cancelling
  {
    var t := CancelStep(s, x, true);
    if Queued(s, x) { QueuedIsNowhereElse(s, x); }
    if Queued(t, x) { CancelledLeavesQueues(s, x, x); }
    SlotCleared(s.at.slots, x, x);
  }

  // ---------------------------------------------------------------------------------------------
  // Reaching a state

  ghost predicate Reaches(s: Device, t: Device, may: set<Assumption>, starts: nat) {
    exists es :: Runs(s, es) && Exec(s, es) == t && (forall e :: e in es ==> Allowed(e, may)) && Starts(es) <= starts
  }

  /** The three assumptions of a careful run. */
  datatype Assumption = Buffers | OneLife | LookUps

  /** True of an event that respects all assumptions but those in `may`. */
  predicate Allowed(e: Event, may: set<Assumption>) {
    && (e == Work(AllocationFails) ==> Buffers in may)
    && (e.Move? && e.queue.CancelRoutineRuns? && !e.queue.found ==> LookUps in may)
  }

  lemma {:induction false} RunExtends(s: Device, es: seq<Event>, e: Event)
    requires Runs(s, es) && Enabled(Exec(s, es), e)
    ensures Runs(s, es + [e]) && Exec(s, es + [e]) == Step(Exec(s, es), e)
    ensures Starts(es + [e]) == Starts(es) + Bit(e == Work(StartWriter))
    decreases |es|
  {
    if es == [] {
      assert es + [e] == [e] && [e][1..] == [];
      assert Runs(Step(s, e), []) && Exec(Step(s, e), []) == Step(s, e);
    } else {
      assert (es + [e])[0] == es[0] && (es + [e])[1..] == es[1..] + [e];
      RunExtends(Step(s, es[0]), es[1..], e);
    }
  }

  lemma {:induction false} Reach(s: Device, t: Device, may: set<Assumption>, n: nat, e: Event) returns (u: Device)
    requires Reaches(s, t, may, n) && Enabled(t, e) && Allowed(e, may)
    ensures u == Step(t, e) && Reaches(s, u, may, n + Bit(e == Work(StartWriter)))
  {
    u := Step(t, e);
    var es :| Runs(s, es) && Exec(s, es) == t && (forall e :: e in es ==> Allowed(e, may)) && Starts(es) <= n;
    RunExtends(s, es, e);
  }

  lemma {:induction false} ReachesItself(s: Device, may: set<Assumption>)
    ensures Reaches(s, s, may, 0)
  {
    assert Runs(s, []) && Exec(s, []) == s && Starts([]) == 0;
  }

  lemma {:induction false} CancelThenPurge(read: Irp) returns (s: Device)
    requires read.kind.Read?
    ensures Reaches(FRESH_DEVICE, s, {}, 0) && s.irpCount == 1 && s.at.cancelling == {read}
    ensures s.at.irpCompletionQueue == [read] && s.departing == {}
  {
    ReachesItself(FRESH_DEVICE, {});
    s := Reach(FRESH_DEVICE, FRESH_DEVICE, {}, 0, Arrives(read));
    s := Reach(FRESH_DEVICE, s, {}, 0, Move(Cancel(read)));
    s := Reach(FRESH_DEVICE, s, {}, 0, Move(PurgeReads));
  }

  /** The completion loop takes the head, completes it and counts it out. */
  lemma {:induction false} CompleteHead(s: Device, t: Device, may: set<Assumption>, n: nat) returns (u: Device)
    requires Reaches(s, t, may, n) && t.at.irpCompletionQueue != []
    ensures Reaches(s, u, may, n) && u.irpCount == t.irpCount - 1 && u.at.cancelling == t.at.cancelling
    ensures u.departing == t.departing + {Loop(t.at.irpCompletionQueue[0])}
  {
    var irp := t.at.irpCompletionQueue[0];
    u := Reach(s, t, may, n, Finish(PopCompletion));
    u := Reach(s, u, may, n, Finish(CompletePopped(irp)));
    u := Reach(s, u, may, n, Finish(CountOut(irp)));
  }

  /** The delete loop can see zero while a cancel routine waits: the kernel calls it, a purge completes the
      read without it, and the read is counted out. No assumption is violated and nothing is lost. */
  lemma {:induction false} RoutineOutlivesCount(read: Irp) returns (s: Device)
    requires read.kind.Read?
    ensures Reaches(FRESH_DEVICE, s, {}, 0) && s.irpCount == 0 && s.at.cancelling == {read} && s.departing == {}
  {
    s := CancelThenPurge(read);
    s := CompleteHead(FRESH_DEVICE, s, {}, 0);
    s := Reach(FRESH_DEVICE, s, {}, 0, Finish(Depart(Loop(read))));
  }

  /** And while a close or a failed create is past its decrement, no cancel routine ever having been called. */
  lemma {:induction false} ReturnOutlivesCount(irp: Irp) returns (s: Device)
    requires irp.kind.Close? || irp.kind.Create?
    ensures Reaches(FRESH_DEVICE, s, {}, 0) && s.irpCount == 0 && s.at.cancelling == {} && s.departing == {Return(irp)}
  {
    ReachesItself(FRESH_DEVICE, {});
    s := Reach(FRESH_DEVICE, FRESH_DEVICE, {}, 0, Arrives(irp));
    s := Reach(FRESH_DEVICE, s, {}, 0, Finish(DispatchReturns(irp, false)));
  }

  lemma {:induction false} PurgedWrite(write: Irp) returns (s: Device)
    requires write.kind.Write?
    ensures Reaches(FRESH_DEVICE, s, {}, 0) && s.irpCount == 1 && s.at.irpCompletionQueue == [write]
    ensures s.at.cancelling == {} && s.departing == {Kick(write)}
  {
    ReachesItself(FRESH_DEVICE, {});
    s := Reach(FRESH_DEVICE, FRESH_DEVICE, {}, 0, Arrives(write));
    s := Reach(FRESH_DEVICE, s, {}, 0, Move(PurgeWrites));
  }

  /** And while the completion loop has not taken IoLock again, and a write, purged meanwhile, has not kicked the
      write thread. */
  lemma {:induction false} LoopAndKickOutliveCount(write: Irp) returns (s: Device)
    requires write.kind.Write?
    ensures Reaches(FRESH_DEVICE, s, {}, 0) && s.irpCount == 0 && s.at.cancelling == {}
    ensures s.departing == {Kick(write), Loop(write)}
  {
    s := PurgedWrite(write);
    s := CompleteHead(FRESH_DEVICE, s, {}, 0);
  }

  // ---------------------------------------------------------------------------------------------
  // Losses happen: each assumption of a careful run is needed

  ghost predicate LosesSomething(s: Device, es: seq<Event>) { Runs(s, es) && !LosesNothing(s, es) }

  lemma {:induction false} LossLater(s: Device, e: Event, es: seq<Event>)
    requires Enabled(s, e) && (LosesSomething(Step(s, e), es) || (es == [] && Lost(s, e).Some?))
    ensures LosesSomething(s, [e] + es)
  {
    assert ([e] + es)[0] == e && ([e] + es)[1..] == es;
  }

  function FailingWrites(): seq<Event> {
    [Work(Dequeue)] + ([Work(AllocationFails)] + ([Work(Dequeue)] + ([Work(WaitEnds)] + ([Work(Dequeue)] + []))))
  }

  function Restart(): seq<Event> { [Work(WaitEnds)] + ([Work(ExitWriter)] + ([Work(StartWriter)] + [])) }

  function FailedCancel(irp: Irp, slot: Slot): seq<Event> {
    [Move(Cancel(irp))] + ([Move(CancelRoutineRuns(irp, false))] + ([Move(PostNotification(slot))] + []))
  }

  /** After a failed allocation the buffer pointer is left set: the next write is taken off the queue but
      not sent, and the one after it overwrites it. */
  lemma {:induction false} FailedAllocationLosesAWrite(s: Device)
    requires s.writer.pc.LoopTop? && !s.writer.active && !s.writer.buffer && |s.at.writeIrpQueue| >= 3
    ensures LosesSomething(s, FailingWrites())
  {
    var s1 := Step(s, Work(Dequeue));
    var s2 := Step(s1, Work(AllocationFails));
    var s3 := Step(s2, Work(Dequeue));
    var s4 := Step(s3, Work(WaitEnds));
    assert s4.at.writeCurrent == Some(s.at.writeIrpQueue[1]) && s4.at.writeIrpQueue == s.at.writeIrpQueue[2..];
    LossLater(s4, Work(Dequeue), []);
    LossLater(s3, Work(WaitEnds), [Work(Dequeue)] + []);
    LossLater(s2, Work(Dequeue), [Work(WaitEnds)] + ([Work(Dequeue)] + []));
    LossLater(s1, Work(AllocationFails), [Work(Dequeue)] + ([Work(WaitEnds)] + ([Work(Dequeue)] + [])));
    LossLater(s, Work(Dequeue),
              [Work(AllocationFails)] + ([Work(Dequeue)] + ([Work(WaitEnds)] + ([Work(Dequeue)] + []))));
  }

  /** A thread that leaves its loop with a write still active loses that write when it is started again. */
  lemma {:induction false} RestartLosesTheActiveWrite(s: Device)
    requires s.writer.pc.Waiting? && s.writer.active && s.at.writeCurrent.Some?
    ensures LosesSomething(s, Restart())
  {
    var s1 := Step(s, Work(WaitEnds));
    var s2 := Step(s1, Work(ExitWriter));
    LossLater(s2, Work(StartWriter), []);
    LossLater(s1, Work(ExitWriter), [Work(StartWriter)] + []);
    LossLater(s, Work(WaitEnds), [Work(ExitWriter)] + ([Work(StartWriter)] + []));
  }

  /** A notification whose cancel routine did not find the device is lost when the event is posted. */
  lemma {:induction false} FailedLookupLosesANotification(s: Device, slot: Slot)
    requires slot in s.at.slots && s.at.slots[slot] in s.cancellable && s.at.slots[slot].kind.Notify?
    ensures LosesSomething(s, FailedCancel(s.at.slots[slot], slot))
  {
    var irp := s.at.slots[slot];
    var s1 := Step(s, Move(Cancel(irp)));
    var s2 := Step(s1, Move(CancelRoutineRuns(irp, false)));
    assert Lost(s2, Move(PostNotification(slot))) == Some(irp);
    LossLater(s2, Move(PostNotification(slot)), []);
    LossLater(s1, Move(CancelRoutineRuns(irp, false)), [Move(PostNotification(slot))] + []);
    LossLater(s, Move(Cancel(irp)), [Move(CancelRoutineRuns(irp, false))] + ([Move(PostNotification(slot))] + []));
  }

  // ---------------------------------------------------------------------------------------------
  // Each assumption is needed

  lemma {:induction false} LossInContinuation(s: Device, es: seq<Event>, more: seq<Event>)
    requires Runs(s, es) && LosesSomething(Exec(s, es), more)
    ensures LosesSomething(s, es + more) && Starts(es + more) == Starts(es) + Starts(more)
    decreases |es|
  {
    if es == [] {
      assert es + more == more;
    } else {
      assert (es + more)[0] == es[0] && (es + more)[1..] == es[1..] + more;
      LossInContinuation(Step(s, es[0]), es[1..], more);
    }
  }

  /** A run from a fresh device that loses a request though it respects all assumptions but this one. */
  ghost predicate Needed(a: Assumption) {
    exists es :: LosesSomething(FRESH_DEVICE, es) && (forall e :: e in es ==> Allowed(e, {a}))
                 && (a == OneLife || Starts(es) <= 1)
  }

  lemma {:induction false} LossMakesNeeded(a: Assumption, s: Device, n: nat, more: seq<Event>)
    requires Reaches(FRESH_DEVICE, s, {a}, n) && LosesSomething(s, more)
    requires forall e :: e in more ==> Allowed(e, {a})
    requires a == OneLife || n + Starts(more) <= 1
    ensures Needed(a)
  {
    var es :| Runs(FRESH_DEVICE, es) && Exec(FRESH_DEVICE, es) == s && (forall e :: e in es ==> Allowed(e, {a}))
              && Starts(es) <= n;
    LossInContinuation(FRESH_DEVICE, es, more);
  }

  lemma {:induction false} StartsOfCons(e: Event, es: seq<Event>)
    ensures Starts([e] + es) == Bit(e == Work(StartWriter)) + Starts(es)
  {
    assert ([e] + es)[1..] == es;
  }

  lemma {:induction false} ReachWrite(s: Device, t: Device, may: set<Assumption>, irp: Irp) returns (u: Device)
    requires Reaches(s, t, may, 0) && irp.kind.Write? && irp !in t.history.accepted
    ensures Reaches(s, u, may, 0) && u.writer == t.writer
    ensures u.at.writeIrpQueue == t.at.writeIrpQueue + [irp] && u.history.accepted == t.history.accepted + [irp]
  {
    u := Reach(s, t, may, 0, Arrives(irp));
  }

  lemma {:induction false} ReachStart(s: Device, t: Device, may: set<Assumption>) returns (u: Device)
    requires Reaches(s, t, may, 0) && t.writer == FRESH_DEVICE.writer
    ensures Reaches(s, u, may, 1) && u.at.writeIrpQueue == t.at.writeIrpQueue
    ensures u.writer == FRESH_DEVICE.writer.(pc := LoopTop)
  {
    u := Reach(s, t, may, 0, Work(StartWriter));
  }

  lemma {:induction false} BuffersAreNeeded()
    ensures Needed(Buffers)
  {
    var may, a, b, c := {Buffers}, Irp(1, Write, 0), Irp(2, Write, 0), Irp(3, Write, 0);
    ReachesItself(FRESH_DEVICE, may);
    var s := ReachWrite(FRESH_DEVICE, FRESH_DEVICE, may, a);
    s := ReachWrite(FRESH_DEVICE, s, may, b);
    s := ReachWrite(FRESH_DEVICE, s, may, c);
    s := ReachStart(FRESH_DEVICE, s, may);
    FailedAllocationLosesAWrite(s);
    FailingWritesNeverStart();
    LossMakesNeeded(Buffers, s, 1, FailingWrites());
  }

  lemma {:induction false} FailingWritesNeverStart()
    ensures Starts(FailingWrites()) == 0
  {
    var es := [Work(Dequeue)] + [];
    StartsOfCons(Work(Dequeue), []);
    StartsOfCons(Work(WaitEnds), es);
    StartsOfCons(Work(Dequeue), [Work(WaitEnds)] + es);
    StartsOfCons(Work(AllocationFails), [Work(Dequeue)] + ([Work(WaitEnds)] + es));
    StartsOfCons(Work(Dequeue), [Work(AllocationFails)] + ([Work(Dequeue)] + ([Work(WaitEnds)] + es)));
  }

  lemma {:induction false} ReachActiveWrite(t: Device, may: set<Assumption>) returns (u: Device)
    requires Reaches(FRESH_DEVICE, t, may, 1) && t.writer == FRESH_DEVICE.writer.(pc := LoopTop)
    requires t.at.writeIrpQueue != []
    ensures Reaches(FRESH_DEVICE, u, may, 1)
    ensures u.writer.pc.Waiting? && u.writer.active && u.at.writeCurrent.Some?
  {
    u := Reach(FRESH_DEVICE, t, may, 1, Work(Dequeue));
    u := Reach(FRESH_DEVICE, u, may, 1, Work(Activate));
  }

  lemma {:induction false} OneLifeIsNeeded()
    ensures Needed(OneLife)
  {
    var may := {OneLife};
    ReachesItself(FRESH_DEVICE, may);
    var s := ReachWrite(FRESH_DEVICE, FRESH_DEVICE, may, Irp(1, Write, 0));
    s := ReachStart(FRESH_DEVICE, s, may);
    s := ReachActiveWrite(s, may);
    RestartLosesTheActiveWrite(s);
    LossMakesNeeded(OneLife, s, 1, Restart());
  }

  lemma {:induction false} ReachCached(irp: Irp, may: set<Assumption>) returns (s: Device)
    requires irp.kind.Notify?
    ensures Reaches(FRESH_DEVICE, s, may, 0)
    ensures Removal in s.at.slots && s.at.slots[Removal] == irp && irp in s.cancellable
  {
    ReachesItself(FRESH_DEVICE, may);
    s := Reach(FRESH_DEVICE, FRESH_DEVICE, may, 0, Arrives(irp));
    s := Reach(FRESH_DEVICE, s, may, 0, Move(CacheNotification(irp, Removal)));
  }

  lemma {:induction false} LookUpsAreNeeded()
    ensures Needed(LookUps)
  {
    var irp := Irp(1, Notify, 0);
    var s := ReachCached(irp, {LookUps});
    FailedLookupLosesANotification(s, Removal);
    var es := [Move(PostNotification(Removal))] + [];
    StartsOfCons(Move(PostNotification(Removal)), []);
    StartsOfCons(Move(CancelRoutineRuns(irp, false)), es);
    StartsOfCons(Move(Cancel(irp)), [Move(CancelRoutineRuns(irp, false))] + es);
    LossMakesNeeded(LookUps, s, 0, FailedCancel(irp, Removal));
  }

  /** None of the three assumptions can be dropped: with the other two respected, a request can be lost. */
  lemma {:induction false} EachAssumptionIsNeeded(a: Assumption)
    ensures Needed(a)
  {
    match a
    case Buffers => BuffersAreNeeded();
    case OneLife => OneLifeIsNeeded();
    case LookUps => LookUpsAreNeeded();
  }
}
