/** Writes reach the USB stack in the order in which they were accepted, over every run. */
module ClientOrder {
  import opened ClientModel
  import opened ClientRuns
  import opened Machine

  /** The writes of a list that were not given up, in order. */
  function Kept(irps: seq<Irp>, givenUp: set<Irp>): seq<Irp> {
    if irps == [] then []
    else (if irps[0].kind.Write? && irps[0] !in givenUp then [irps[0]] else []) + Kept(irps[1..], givenUp)
  }

  function GivenUp(h: History): set<Irp> { h.withdrawn + h.unsent }

  /** The dequeued write that is about to be handed to the USB stack. */
  function InHand(s: Device): seq<Irp> {
    if s.writer.pc.Composing? then ToSeq(s.at.writeCurrent) else []
  }

  ghost predicate Ordered(s: Device) {
    && Kept(s.history.accepted, GivenUp(s.history)) == s.history.sent + InHand(s) + s.at.writeIrpQueue
    && NoDuplicates(s.history.accepted)
    && (forall x :: x in GivenUp(s.history) ==> x in s.history.accepted)
  }

  // ---------------------------------------------------------------------------------------------
  // Filtered lists

  lemma {:induction false} KeptConcat(a: seq<Irp>, b: seq<Irp>, givenUp: set<Irp>)
    ensures Kept(a + b, givenUp) == Kept(a, givenUp) + Kept(b, givenUp)
  {
    if a == [] {
      assert a + b == b;
    } else {
      assert (a + b)[1..] == a[1..] + b;
      KeptConcat(a[1..], b, givenUp);
    }
  }

  lemma {:induction false} KeptElements(irps: seq<Irp>, givenUp: set<Irp>)
    ensures forall x :: x in Kept(irps, givenUp) <==> x in irps && x.kind.Write? && x !in givenUp
  {
    if irps != [] {
      KeptElements(irps[1..], givenUp);
      assert irps == [irps[0]] + irps[1..];
    }
  }

  lemma {:induction false} KeptNoDuplicates(irps: seq<Irp>, givenUp: set<Irp>)
    requires NoDuplicates(irps)
    ensures NoDuplicates(Kept(irps, givenUp))
  {
    if irps != [] {
      KeptNoDuplicates(irps[1..], givenUp);
      KeptElements(irps[1..], givenUp);
    }
  }

  lemma {:induction false} KeptAll(irps: seq<Irp>, givenUp: set<Irp>)
    requires forall x :: x in irps ==> x.kind.Write? && x !in givenUp
    ensures Kept(irps, givenUp) == irps
  {
    if irps != [] {
      KeptAll(irps[1..], givenUp);
    }
  }

  lemma {:induction false} KeptNone(irps: seq<Irp>, givenUp: set<Irp>)
    requires forall x :: x in irps ==> x in givenUp
    ensures Kept(irps, givenUp) == []
  {
    if irps != [] {
      KeptNone(irps[1..], givenUp);
    }
  }

  /** Giving up more requests filters the kept list once more. */
  lemma {:induction false} KeptTwice(irps: seq<Irp>, a: set<Irp>, b: set<Irp>)
    ensures Kept(irps, a + b) == Kept(Kept(irps, a), b)
  {
    if irps != [] {
      KeptTwice(irps[1..], a, b);
      var head := if irps[0].kind.Write? && irps[0] !in a then [irps[0]] else [];
      KeptConcat(head, Kept(irps[1..], a), b);
    }
  }

  lemma {:induction false} MiddleIsDisjoint(pre: seq<Irp>, mid: seq<Irp>, post: seq<Irp>)
    requires NoDuplicates(pre + mid + post)
    ensures forall x :: x in pre || x in post ==> x !in mid
  {
    var all := pre + mid + post;
    forall i, j | 0 <= i < |pre| && 0 <= j < |mid| ensures pre[i] != mid[j] {
      assert all[i] != all[|pre| + j];
    }
    forall i, j | 0 <= i < |post| && 0 <= j < |mid| ensures post[i] != mid[j] {
      assert all[|pre| + |mid| + i] != all[|pre| + j];
    }
  }

  lemma {:induction false} KeptOutsideMiddle(pre: seq<Irp>, mid: seq<Irp>, post: seq<Irp>)
    requires forall x :: x in pre || x in post ==> x.kind.Write? && x !in mid
    ensures Kept(pre + mid + post, Elements(mid)) == pre + post
  {
    var out := Elements(mid);
    KeptConcat(pre + mid, post, out);
    KeptAll(post, out);
    assert Kept(pre + mid, out) == pre by {
      KeptConcat(pre, mid, out);
      KeptAll(pre, out);
      KeptNone(mid, out);
    }
  }

  /** Giving up a middle part of the kept list leaves the rest in order. */
  lemma {:induction false} GiveUpMiddle(irps: seq<Irp>, givenUp: set<Irp>, pre: seq<Irp>, mid: seq<Irp>, post: seq<Irp>)
    requires NoDuplicates(irps) && Kept(irps, givenUp) == pre + mid + post
    ensures Kept(irps, givenUp + Elements(mid)) == pre + post
    ensures forall x :: x in mid ==> x in irps
  {
    KeptElements(irps, givenUp);
    KeptNoDuplicates(irps, givenUp);
    forall x | x in pre || x in mid || x in post ensures x in Kept(irps, givenUp) {
    }
    MiddleIsDisjoint(pre, mid, post);
    KeptOutsideMiddle(pre, mid, post);
    KeptTwice(irps, givenUp, Elements(mid));
  }

  lemma {:induction false} UnlinkCutsOnce(queue: seq<Irp>, irp: Irp) returns (k: nat)
    requires irp in queue
    ensures k < |queue| && queue[k] == irp && Unlink(queue, irp) == queue[..k] + queue[k + 1..]
  {
    if queue[0] == irp {
      k := 0;
    } else {
      var j := UnlinkCutsOnce(queue[1..], irp);
      k := j + 1;
    }
  }

  // ---------------------------------------------------------------------------------------------
  // Events keep the order

  lemma {:induction false} ArrivalKeepsOrdered(s: Device, irp: Irp)
    requires Ordered(s) && irp !in s.history.accepted
    ensures Ordered(ArriveStep(s, irp))
  {
    KeptConcat(s.history.accepted, [irp], GivenUp(s.history));
  }

  lemma {:induction false} CancelledWriteQueue(p: Places, irp: Irp, active: bool)
    ensures CancelPlaces(p, irp, active).writeCurrent == p.writeCurrent
    ensures CancelPlaces(p, irp, active).writeIrpQueue ==
              if irp.kind.Write? && !active && irp in p.writeIrpQueue then Unlink(p.writeIrpQueue, irp)
              else p.writeIrpQueue
  {
  }

  lemma {:induction false} WithdrawOne(irps: seq<Irp>, givenUp: set<Irp>, before: seq<Irp>, queue: seq<Irp>, irp: Irp)
    requires NoDuplicates(irps) && Kept(irps, givenUp) == before + queue && irp in queue
    ensures irp.kind.Write? && irp in irps
    ensures Kept(irps, givenUp + {irp}) == before + Unlink(queue, irp)
  {
    var k := UnlinkCutsOnce(queue, irp);
    var pre, post := before + queue[..k], queue[k + 1..];
    assert before + queue == pre + [irp] + post;
    assert Kept(irps, givenUp)[|pre|] == irp;
    KeptElements(irps, givenUp);
    GiveUpMiddle(irps, givenUp, pre, [irp], post);
    assert Elements([irp]) == {irp};
  }

  lemma {:induction false} CancelKeepsOrdered(s: Device, irp: Irp, found: bool)
    requires Ordered(s)
    ensures Ordered(CancelStep(s, irp, found))
  {
    var t := CancelStep(s, irp, found);
    CancelledWriteQueue(s.at.(cancelling := s.at.cancelling - {irp}), irp, IsActiveWrite(s, irp));
    if irp in s.at.writeIrpQueue {
      WithdrawOne(s.history.accepted, GivenUp(s.history), s.history.sent + InHand(s), s.at.writeIrpQueue, irp);
    }
    if irp in s.at.writeIrpQueue && found && !IsActiveWrite(s, irp) {
      assert GivenUp(t.history) == GivenUp(s.history) + {irp};
    } else {
      assert GivenUp(t.history) == GivenUp(s.history);
    }
  }

  lemma {:induction false} PurgeKeepsOrdered(s: Device)
    requires Ordered(s)
    ensures Ordered(PurgeWritesStep(s))
  {
    var t := PurgeWritesStep(s);
    var pre := s.history.sent + InHand(s);
    assert pre + s.at.writeIrpQueue == pre + s.at.writeIrpQueue + [];
    GiveUpMiddle(s.history.accepted, GivenUp(s.history), pre, s.at.writeIrpQueue, []);
    assert GivenUp(t.history) == GivenUp(s.history) + Elements(s.at.writeIrpQueue);
  }

  lemma {:induction false} DequeueKeepsOrdered(s: Device)
    requires Ordered(s) && WorkEnabled(s, Dequeue)
    ensures Ordered(DequeueStep(s))
  {
    var t := DequeueStep(s);
    var irp, rest := s.at.writeIrpQueue[0], s.at.writeIrpQueue[1..];
    assert s.history.sent + InHand(s) + s.at.writeIrpQueue == s.history.sent + [irp] + rest;
    if s.writer.buffer {
      GiveUpMiddle(s.history.accepted, GivenUp(s.history), s.history.sent, [irp], rest);
      assert GivenUp(t.history) == GivenUp(s.history) + Elements([irp]);
    }
  }

  lemma {:induction false} AllocationFailureKeepsOrdered(s: Device)
    requires Ordered(s) && s.writer.pc.Composing?
    ensures Ordered(AllocationFailsStep(s))
  {
    var t := AllocationFailsStep(s);
    GiveUpMiddle(s.history.accepted, GivenUp(s.history), s.history.sent, InHand(s), s.at.writeIrpQueue);
    assert GivenUp(t.history) == GivenUp(s.history) + Elements(InHand(s));
  }

  /** Nothing that the order is about has changed. */
  ghost predicate SameWrites(s: Device, t: Device) {
    && t.history.(kept := s.history.kept, fates := s.history.fates) == s.history
    && InHand(t) == InHand(s) && t.at.writeIrpQueue == s.at.writeIrpQueue
  }

  lemma {:induction false} OtherMovesKeepWrites(s: Device, q: QueueEvent)
    requires !q.CancelRoutineRuns? && !q.PurgeWrites?
    ensures SameWrites(s, MoveStep(s, q))
  {
  }

  lemma {:induction false} FinishKeepsWrites(s: Device, f: FinishEvent)
    requires FinishEnabled(s, f)
    ensures SameWrites(s, FinishStep(s, f))
  {
  }

  lemma {:induction false} WorkKeepsOrdered(s: Device, w: WriterEvent)
    requires Ordered(s) && WorkEnabled(s, w)
    ensures Ordered(WorkStep(s, w))
  {
    if w.Dequeue? {
      DequeueKeepsOrdered(s);
    } else if w.AllocationFails? {
      AllocationFailureKeepsOrdered(s);
    } else if !w.Activate? {
      assert SameWrites(s, WorkStep(s, w));
    }
  }

  lemma {:induction false} StepKeepsOrdered(s: Device, e: Event)
    requires Ordered(s) && Enabled(s, e)
    ensures Ordered(Step(s, e))
  {
    match e
    case Arrives(irp) => ArrivalKeepsOrdered(s, irp);
    case Move(q) =>
      if q.CancelRoutineRuns? { CancelKeepsOrdered(s, q.irp, q.found); }
      else if q.PurgeWrites? { PurgeKeepsOrdered(s); }
      else { OtherMovesKeepWrites(s, q); }
    case Finish(f) => FinishKeepsWrites(s, f);
    case Work(w) => WorkKeepsOrdered(s, w);
  }

  lemma {:induction false} RunKeepsOrdered(s: Device, es: seq<Event>)
    requires Ordered(s) && Runs(s, es)
    ensures Ordered(Exec(s, es))
    decreases |es|
  {
    if es != [] {
      StepKeepsOrdered(s, es[0]);
      RunKeepsOrdered(Step(s, es[0]), es[1..]);
    }
  }

  /** Over every run, taking the accepted writes in order and leaving out those that were cancelled,
      purged or dropped for want of a buffer gives the writes sent, in the order they were sent, then
      the one in the thread's hand, then those still queued. No write is sent twice. */
  lemma {:induction false} WritesSentInOrder(es: seq<Event>)
    requires Runs(FRESH_DEVICE, es)
    ensures var s := Exec(FRESH_DEVICE, es);
            && Kept(s.history.accepted, s.history.withdrawn + s.history.unsent)
                 == s.history.sent + InHand(s) + s.at.writeIrpQueue
            && NoDuplicates(s.history.sent)
  {
    RunKeepsOrdered(FRESH_DEVICE, es);
    var s := Exec(FRESH_DEVICE, es);
    KeptNoDuplicates(s.history.accepted, GivenUp(s.history));
    var all := Kept(s.history.accepted, GivenUp(s.history));
    assert forall i :: 0 <= i < |s.history.sent| ==> s.history.sent[i] == all[i];
  }

  /** With buffers to be had, one life of the write thread and device look-ups that succeed, the only
      accepted writes that are never sent are those cancelled or purged while queued. */
  lemma {:induction false} CarefulRunsSendAllButWithdrawn(es: seq<Event>)
    requires Runs(FRESH_DEVICE, es) && CarefulRun(es)
    ensures var s := Exec(FRESH_DEVICE, es);
            Kept(s.history.accepted, s.history.withdrawn) == s.history.sent + InHand(s) + s.at.writeIrpQueue
  {
    CarefulRunTidy(FRESH_DEVICE, false, es);
    WritesSentInOrder(es);
    var h := Exec(FRESH_DEVICE, es).history;
    assert h.withdrawn + h.unsent == h.withdrawn;
  }
}
