/** Unique ownership of requests over every run of the control-channel client. */
module ClientOwnership {
  import opened ClientModel
  import opened Machine

  // ---------------------------------------------------------------------------------------------
  // Lists and slots

  lemma {:induction false} UnlinkRemovesOne(queue: seq<Irp>, irp: Irp)
    requires irp in queue
    ensures multiset(Unlink(queue, irp)) == multiset(queue) - multiset{irp}
  {
    assert queue == [queue[0]] + queue[1..];
    if queue[0] != irp {
      UnlinkRemovesOne(queue[1..], irp);
    }
  }

  lemma {:induction false} HeadCounts(queue: seq<Irp>, x: Irp)
    requires queue != []
    ensures multiset(queue)[x] == Bit(queue[0] == x) + multiset(queue[1..])[x]
  {
    assert queue == [queue[0]] + queue[1..];
  }

  lemma {:induction false} SplitCounts(queue: seq<Irp>, k: nat, x: Irp)
    requires k <= |queue|
    ensures multiset(queue)[x] == multiset(queue[..k])[x] + multiset(queue[k..])[x]
  {
    assert queue == queue[..k] + queue[k..];
  }

  lemma {:induction false} SlotAdded(slots: map<Slot, Irp>, slot: Slot, irp: Irp, x: Irp)
    requires slot !in slots
    ensures InSlot(slots[slot := irp], x) <==> InSlot(slots, x) || x == irp
  {
    var m := slots[slot := irp];
    assert slot in m && m[slot] == irp;
    if InSlot(slots, x) {
      var t :| t in slots && slots[t] == x;
      assert t in m && m[t] == x;
    }
  }

  lemma {:induction false} SlotRemoved(slots: map<Slot, Irp>, slot: Slot, x: Irp)
    requires slot in slots
    requires SlotsDistinct(slots)
    ensures InSlot(slots - {slot}, x) <==> InSlot(slots, x) && x != slots[slot]
  {
    if InSlot(slots, x) && x != slots[slot] {
      var t :| t in slots && slots[t] == x;
      assert t in slots - {slot} && (slots - {slot})[t] == x;
    }
  }

  lemma {:induction false} SlotCleared(slots: map<Slot, Irp>, irp: Irp, x: Irp)
    ensures InSlot(map t | t in slots && slots[t] != irp :: slots[t], x) <==> InSlot(slots, x) && x != irp
  {
    var m := map t | t in slots && slots[t] != irp :: slots[t];
    if InSlot(slots, x) && x != irp {
      var t :| t in slots && slots[t] == x;
      assert t in m && m[t] == x;
    }
  }

  // ---------------------------------------------------------------------------------------------
  // Conservation: one event, one request

  function Accepted(e: Event): Option<Irp> {
    if e.Arrives? then Some(e.irp) else None
  }

  /** `q` has the holders that `p` has, plus one for `gained` and less one for `lost`. */
  ghost predicate Moves(p: Places, q: Places, gained: Option<Irp>, lost: Option<Irp>, x: Irp) {
    Owners(q, x) + Bit(lost == Some(x)) == Owners(p, x) + Bit(gained == Some(x))
  }

  lemma {:induction false} CacheMoves(s: Device, irp: Irp, slot: Slot, x: Irp)
    requires irp in s.at.inDispatch && irp.kind.Notify? && Owners(s.at, irp) <= 1
    ensures Moves(s.at, CacheStep(s, irp, slot).at, None, None, x)
  {
    if slot !in s.at.slots {
      SlotAdded(s.at.slots, slot, irp, x);
    }
  }

  lemma {:induction false} PostMoves(s: Device, slot: Slot, x: Irp)
    requires SlotsDistinct(s.at.slots) && (slot in s.at.slots ==> s.at.slots[slot].kind.Notify?)
    requires s.cancellable !! s.at.cancelling
    ensures Moves(s.at, PostStep(s, slot).at, None, LostByMove(s, PostNotification(slot)), x)
  {
    if slot in s.at.slots {
      SlotRemoved(s.at.slots, slot, x);
    }
  }

  lemma {:induction false} CancelNotificationMoves(s: Device, slot: Slot, x: Irp)
    requires SlotsDistinct(s.at.slots) && s.cancellable !! s.at.cancelling
    ensures Moves(s.at, CancelNotificationStep(s, slot).at, None, None, x)
  {
    if slot in s.at.slots {
      SlotRemoved(s.at.slots, slot, x);
    }
  }

  lemma {:induction false} CancelReadMoves(p: Places, irp: Irp, x: Irp)
    ensures Moves(p, CancelRead(p, irp), None, None, x)
  {
    if irp in p.readIrpQueue { UnlinkRemovesOne(p.readIrpQueue, irp); }
  }

  lemma {:induction false} CancelWriteMoves(p: Places, irp: Irp, x: Irp)
    ensures Moves(p, CancelWrite(p, irp), None, None, x)
  {
    if irp in p.writeIrpQueue { UnlinkRemovesOne(p.writeIrpQueue, irp); }
  }

  lemma {:induction false} CancelPlacesMoves(p: Places, irp: Irp, active: bool, x: Irp)
    ensures !irp.kind.Notify? ==> Moves(p, CancelPlaces(p, irp, active), None, None, x)
    ensures irp.kind.Notify? && irp !in p.cancelling ==>
              Moves(p, CancelPlaces(p, irp, active), if InSlot(p.slots, irp) then None else Some(irp), None, x)
  {
    match irp.kind
    case Read => CancelReadMoves(p, irp, x);
    case Write => CancelWriteMoves(p, irp, x);
    case Notify => SlotCleared(p.slots, irp, x);
    case _ =>
  }

  /** A cancel routine reaches the lock: a notification that has left its slot has no holder then. */
  lemma {:induction false} RoutineStartMoves(p: Places, irp: Irp, x: Irp)
    requires irp in p.cancelling
    ensures Moves(p, p.(cancelling := p.cancelling - {irp}), None,
                  if irp.kind.Notify? && !InSlot(p.slots, irp) then Some(irp) else None, x)
  {
  }

  lemma {:induction false} CancelMoves(s: Device, irp: Irp, found: bool, x: Irp)
    requires irp in s.at.cancelling
    ensures Moves(s.at, CancelStep(s, irp, found).at, None, LostByMove(s, CancelRoutineRuns(irp, found)), x)
  {
    RoutineStartMoves(s.at, irp, x);
    CancelPlacesMoves(s.at.(cancelling := s.at.cancelling - {irp}), irp, IsActiveWrite(s, irp), x);
  }

  lemma {:induction false} MessageMoves(s: Device, length: nat, stored: bool, x: Irp)
    ensures Moves(s.at, MessageStep(s, length, stored).at, None, None, x)
  {
    SplitCounts(s.at.readIrpQueue, Taken(s.at.readIrpQueue, s.cancellable, length), x);
  }

  lemma {:induction false} DequeueMoves(s: Device, x: Irp)
    requires s.at.writeIrpQueue != [] && Owners(s.at, s.at.writeIrpQueue[0]) <= 1
    ensures Moves(s.at, DequeueStep(s).at, None, s.at.writeCurrent, x)
  {
    HeadCounts(s.at.writeIrpQueue, x);
    HeadCounts(s.at.writeIrpQueue, s.at.writeIrpQueue[0]);
  }

  lemma {:induction false} PurgeMoves(s: Device, x: Irp)
    ensures Moves(s.at, PurgeReadsStep(s).at, None, None, x) && Moves(s.at, PurgeWritesStep(s).at, None, None, x)
  {
  }

  lemma {:induction false} ArrivalMoves(s: Device, irp: Irp, x: Irp)
    ensures Moves(s.at, ArriveStep(s, irp).at, Some(irp), None, x)
  {
  }

  lemma {:induction false} QueueMoves(s: Device, q: QueueEvent, x: Irp)
    requires Inv(s) && MoveEnabled(s, q)
    ensures Moves(s.at, MoveStep(s, q).at, None, LostByMove(s, q), x)
  {
    match q
    case CacheNotification(irp, slot) => CacheMoves(s, irp, slot, x);
    case PostNotification(slot) => PostMoves(s, slot, x);
    case CancelNotification(slot) => CancelNotificationMoves(s, slot, x);
    case CancelRoutineRuns(irp, found) => CancelMoves(s, irp, found, x);
    case MessageArrives(length, stored) => MessageMoves(s, length, stored, x);
    case PurgeReads => PurgeMoves(s, x);
    case PurgeWrites => PurgeMoves(s, x);
    case _ =>
  }

  lemma {:induction false} PopMoves(s: Device, x: Irp)
    requires s.at.irpCompletionQueue != []
    ensures Moves(s.at, PopStep(s).at, None, None, x)
  {
    HeadCounts(s.at.irpCompletionQueue, x);
  }

  /** The dispatch routine's own way of completing a request. */
  lemma {:induction false} ReturnMoves(s: Device, f: FinishEvent, x: Irp)
    requires FinishEnabled(s, f) && (f.DispatchReturns? || f.CompleteReturned?)
    ensures Moves(s.at, FinishStep(s, f).at, None, None, x)
  {
    assert f.DispatchReturns? ==> s.at.inDispatch[f.irp] > 0;
    assert f.CompleteReturned? ==> s.at.returned[f.irp] > 0;
  }

  lemma {:induction false} PoppedMoves(s: Device, f: FinishEvent, x: Irp)
    requires FinishEnabled(s, f) && (f.CompletePopped? || f.CountOut?)
    ensures Moves(s.at, FinishStep(s, f).at, None, None, x)
  {
    assert f.CompletePopped? ==> s.at.popped[f.irp] > 0;
    assert f.CountOut? ==> s.at.finished[f.irp] > 0;
  }

  lemma {:induction false} CompletionMoves(s: Device, f: FinishEvent, x: Irp)
    requires FinishEnabled(s, f)
    ensures Moves(s.at, FinishStep(s, f).at, None, None, x)
  {
    match f
    case DispatchReturns(_, _) => ReturnMoves(s, f, x);
    case CompleteReturned(_) => ReturnMoves(s, f, x);
    case PopCompletion => PopMoves(s, x);
    case CompletePopped(_) => PoppedMoves(s, f, x);
    case CountOut(_) => PoppedMoves(s, f, x);
    case Depart(_) =>
  }

  lemma {:induction false} RetireMoves(p: Places, x: Irp)
    ensures Moves(p, RetireCurrent(p), None, None, x)
  {
  }

  lemma {:induction false} WriterMoves(s: Device, w: WriterEvent, x: Irp)
    requires AtMostOneOwner(s) && WorkEnabled(s, w)
    ensures Moves(s.at, WorkStep(s, w).at, None, Lost(s, Work(w)), x)
  {
    match w
    case Dequeue => DequeueMoves(s, x);
    case AllocationFails => RetireMoves(s.at, x);
    case FinishWrite => RetireMoves(s.at, x);
    case _ =>
  }

  /** Every event keeps, for every request, the number of its holders: up by one when the event
      accepts it, down by one when the event loses it, unchanged otherwise. */
  lemma {:induction false} StepConservesOwners(s: Device, e: Event, x: Irp)
    requires Inv(s) && Enabled(s, e)
    ensures Owners(Step(s, e).at, x) + Bit(Lost(s, e) == Some(x)) == Owners(s.at, x) + Bit(Accepted(e) == Some(x))
  {
    match e
    case Arrives(irp) => ArrivalMoves(s, irp, x);
    case Move(q) => QueueMoves(s, q, x);
    case Finish(f) => CompletionMoves(s, f, x);
    case Work(w) => WriterMoves(s, w, x);
  }

  // ---------------------------------------------------------------------------------------------
  // The invariant, one event

  lemma {:induction false} StepKeepsAtMostOneOwner(s: Device, e: Event)
    requires Inv(s) && Enabled(s, e)
    ensures AtMostOneOwner(Step(s, e))
  {
    AcceptedGrows(s, e);
    forall x ensures Owners(Step(s, e).at, x) <= Bit(x in Step(s, e).history.accepted) {
      StepConservesOwners(s, e, x);
    }
  }

  lemma {:induction false} AcceptedGrows(s: Device, e: Event)
    requires Enabled(s, e)
    ensures Step(s, e).history.accepted == s.history.accepted + ToSeq(Accepted(e))
  {
  }

  lemma {:induction false} TakesAllUnlessFilled(queue: seq<Irp>, cancellable: set<Irp>, length: nat)
    requires !Filled(queue, cancellable, length)
    ensures Taken(queue, cancellable, length) == |queue|
  {
    if queue != [] {
      assert !Fits(queue[0], cancellable, length);
      TakesAllUnlessFilled(queue[1..], cancellable, length);
    }
  }

  lemma {:induction false} CacheKeepsWired(s: Device, irp: Irp, slot: Slot)
    requires Inv(s) && MoveEnabled(s, CacheNotification(irp, slot)) && AtMostOneOwner(CacheStep(s, irp, slot))
    ensures Wired(CacheStep(s, irp, slot))
  {
    assert Owners(s.at, irp) <= 1;
    assert Owners(CacheStep(s, irp, slot).at, irp) <= 1;
    forall x | slot !in s.at.slots { SlotAdded(s.at.slots, slot, irp, x); }
  }

  lemma {:induction false} LeaveSlotKeepsWired(s: Device, slot: Slot)
    requires Inv(s)
    ensures Wired(PostStep(s, slot)) && Wired(CancelNotificationStep(s, slot))
  {
    forall x | slot in s.at.slots { SlotRemoved(s.at.slots, slot, x); }
  }

  lemma {:induction false} CancelPlacesKeepOthers(p: Places, irp: Irp, active: bool, x: Irp)
    ensures x != irp ==> AwayOwners(CancelPlaces(p, irp, active), x) == AwayOwners(p, x)
    ensures InSlot(CancelPlaces(p, irp, active).slots, x) <==>
              InSlot(p.slots, x) && !(irp.kind.Notify? && x == irp)
    ensures CancelPlaces(p, irp, active).cancelling == p.cancelling
  {
    SlotCleared(p.slots, irp, x);
  }

  /** What can still be cancelled after a cancel routine is waiting, as it was before. */
  lemma {:induction false} CancelRoutineKeepsWaiting(s: Device, irp: Irp, found: bool, x: Irp)
    requires Inv(s) && irp in s.at.cancelling && AtMostOneOwner(CancelStep(s, irp, found))
    requires x in CancelStep(s, irp, found).cancellable
    ensures var p := CancelStep(s, irp, found).at;
            AwayOwners(p, x) == 0 && (x.kind.Notify? ==> InSlot(p.slots, x))
  {
    assert Owners(CancelStep(s, irp, found).at, x) <= 1;
    CancelPlacesKeepOthers(s.at.(cancelling := s.at.cancelling - {irp}), irp, IsActiveWrite(s, irp), x);
  }

  lemma {:induction false} CancelRoutineKeepsWired(s: Device, irp: Irp, found: bool)
    requires Inv(s) && irp in s.at.cancelling && AtMostOneOwner(CancelStep(s, irp, found))
    ensures Wired(CancelStep(s, irp, found))
  {
    forall x | x in CancelStep(s, irp, found).cancellable { CancelRoutineKeepsWaiting(s, irp, found, x); }
  }

  lemma {:induction false} MessageKeepsWired(s: Device, length: nat, stored: bool)
    requires Inv(s)
    ensures Wired(MessageStep(s, length, stored))
  {
    if !Filled(s.at.readIrpQueue, s.cancellable, length) {
      TakesAllUnlessFilled(s.at.readIrpQueue, s.cancellable, length);
    }
  }

  lemma {:induction false} PurgesKeepWired(s: Device)
    requires Inv(s)
    ensures Wired(PurgeReadsStep(s)) && Wired(PurgeWritesStep(s))
  {
  }

  lemma {:induction false} MoveKeepsWired(s: Device, q: QueueEvent)
    requires Inv(s) && MoveEnabled(s, q) && AtMostOneOwner(MoveStep(s, q))
    ensures Wired(MoveStep(s, q))
  {
    match q
    case CacheNotification(irp, slot) => CacheKeepsWired(s, irp, slot);
    case PostNotification(slot) => LeaveSlotKeepsWired(s, slot);
    case CancelNotification(slot) => LeaveSlotKeepsWired(s, slot);
    case CancelRoutineRuns(irp, found) => CancelRoutineKeepsWired(s, irp, found);
    case MessageArrives(length, stored) => MessageKeepsWired(s, length, stored);
    case PurgeReads => PurgesKeepWired(s);
    case PurgeWrites => PurgesKeepWired(s);
    case _ =>
  }

  lemma {:induction false} ArrivalKeepsWired(s: Device, irp: Irp)
    requires Inv(s) && irp !in s.history.accepted && AtMostOneOwner(ArriveStep(s, irp))
    ensures Wired(ArriveStep(s, irp))
  {
    assert Owners(ArriveStep(s, irp).at, irp) <= 1;
  }

  lemma {:induction false} FinishKeepsWired(s: Device, f: FinishEvent)
    requires Inv(s) && FinishEnabled(s, f)
    ensures Wired(FinishStep(s, f))
  {
    if f.PopCompletion? {
      forall x { HeadCounts(s.at.irpCompletionQueue, x); }
    }
  }

  lemma {:induction false} RetireKeepsWired(s: Device)
    requires Inv(s)
    ensures Wired(FinishWriteStep(s))
    ensures s.writer.pc.Composing? ==> Wired(AllocationFailsStep(s))
  {
  }

  lemma {:induction false} WorkKeepsWired(s: Device, w: WriterEvent)
    requires Inv(s) && WorkEnabled(s, w)
    ensures Wired(WorkStep(s, w))
  {
    if w.FinishWrite? || w.AllocationFails? {
      RetireKeepsWired(s);
    }
  }

  lemma {:induction false} StepKeepsInv(s: Device, e: Event)
    requires Inv(s) && Enabled(s, e)
    ensures Inv(Step(s, e))
  {
    StepKeepsAtMostOneOwner(s, e);
    match e
    case Arrives(irp) => ArrivalKeepsWired(s, irp);
    case Move(q) => MoveKeepsWired(s, q);
    case Finish(f) => FinishKeepsWired(s, f);
    case Work(w) => WorkKeepsWired(s, w);
  }
}
