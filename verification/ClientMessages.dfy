/** Inbound messages reach the reads in the order in which they came, over every run. */
module ClientMessages {
  import opened ClientModel
  import opened ClientOwnership
  import opened ClientRuns
  import opened Machine

  function Lengths(fates: seq<Fate>): seq<nat> {
    if fates == [] then [] else [fates[0].length] + Lengths(fates[1..])
  }

  function Receivers(fates: seq<Fate>): seq<Irp> {
    if fates == [] then []
    else (if fates[0].Delivered? then [fates[0].to] else []) + Receivers(fates[1..])
  }

  lemma {:induction false} LengthsConcat(a: seq<Fate>, b: seq<Fate>)
    ensures Lengths(a + b) == Lengths(a) + Lengths(b)
  {
    if a == [] {
      assert a + b == b;
    } else {
      assert (a + b)[1..] == a[1..] + b;
      LengthsConcat(a[1..], b);
    }
  }

  lemma {:induction false} ReceiversConcat(a: seq<Fate>, b: seq<Fate>)
    ensures Receivers(a + b) == Receivers(a) + Receivers(b)
  {
    if a == [] {
      assert a + b == b;
    } else {
      assert (a + b)[1..] == a[1..] + b;
      ReceiversConcat(a[1..], b);
    }
  }

  lemma {:induction false} ClearedFates(messages: seq<nat>)
    ensures Lengths(AllCleared(messages)) == messages && Receivers(AllCleared(messages)) == []
    ensures forall f :: f in AllCleared(messages) ==> f.Cleared?
  {
    if messages != [] {
      ClearedFates(messages[1..]);
      assert AllCleared(messages)[1..] == AllCleared(messages[1..]);
    }
  }

  /** Messages kept are those that left the queue, in order, then those still queued; a message fits the read it
      went to, and no read got two. */
  ghost predicate MessagesInOrder(s: Device) {
    && Lengths(s.history.fates) + s.readDataQueue == s.history.kept
    && (forall f :: f in s.history.fates && f.Delivered? ==> f.to.kind.Read? && f.length <= f.to.length)
    && NoDuplicates(Receivers(s.history.fates))
    && (forall x :: x in Receivers(s.history.fates) ==> x.kind.Read? && AwayOwners(s.at, x) > 0)
  }

  lemma {:induction false} ListingKeepsAway(p: Places, irps: seq<Irp>, x: Irp)
    ensures AwayOwners(ToCompletion(p, irps), x) >= AwayOwners(p, x)
  {
  }

  lemma {:induction false} CancelKeepsAway(s: Device, irp: Irp, found: bool, x: Irp)
    ensures AwayOwners(CancelStep(s, irp, found).at, x) >= AwayOwners(s.at, x)
  {
    ListingKeepsAway(s.at, [irp], x);
  }

  /** A read that was taken off its queue stays away from it. */
  lemma {:induction false} MoveKeepsAway(s: Device, q: QueueEvent, x: Irp)
    requires MoveEnabled(s, q) && x.kind.Read?
    ensures AwayOwners(MoveStep(s, q).at, x) >= AwayOwners(s.at, x)
  {
    match q
    case CancelRoutineRuns(irp, found) => CancelKeepsAway(s, irp, found, x);
    case MessageArrives(length, _) =>
      ListingKeepsAway(s.at, s.at.readIrpQueue[..Taken(s.at.readIrpQueue, s.cancellable, length)], x);
    case PurgeReads => ListingKeepsAway(s.at, s.at.readIrpQueue, x);
    case PurgeWrites => ListingKeepsAway(s.at, s.at.writeIrpQueue, x);
    case _ =>
  }

  lemma {:induction false} FinishKeepsAway(s: Device, f: FinishEvent, x: Irp)
    requires FinishEnabled(s, f)
    ensures AwayOwners(FinishStep(s, f).at, x) >= AwayOwners(s.at, x)
  {
    if f.PopCompletion? { HeadCounts(s.at.irpCompletionQueue, x); }
  }

  lemma {:induction false} ArrivalKeepsAway(s: Device, irp: Irp, x: Irp)
    ensures AwayOwners(ArriveStep(s, irp).at, x) >= AwayOwners(s.at, x)
  {
  }

  lemma {:induction false} WorkKeepsAway(s: Device, w: WriterEvent, x: Irp)
    requires WorkEnabled(s, w)
    ensures AwayOwners(WorkStep(s, w).at, x) >= AwayOwners(s.at, x)
  {
  }

  lemma {:induction false} StepKeepsAway(s: Device, e: Event, x: Irp)
    requires Enabled(s, e) && x.kind.Read?
    ensures AwayOwners(Step(s, e).at, x) >= AwayOwners(s.at, x)
  {
    match e
    case Move(q) => MoveKeepsAway(s, q, x);
    case Finish(f) => FinishKeepsAway(s, f, x);
    case Arrives(irp) => ArrivalKeepsAway(s, irp, x);
    case Work(w) => WorkKeepsAway(s, w, x);
  }

  /** What an event adds to the history, and to the queue. */
  ghost predicate Adds(s: Device, t: Device, kept: seq<nat>, fates: seq<Fate>) {
    && t.history.kept == s.history.kept + kept && t.history.fates == s.history.fates + fates
    && Lengths(fates) + t.readDataQueue == s.readDataQueue + kept
  }

  lemma {:induction false} AddingKeepsOrder(s: Device, t: Device, kept: seq<nat>, fates: seq<Fate>)
    requires MessagesInOrder(s) && Adds(s, t, kept, fates)
    ensures Lengths(t.history.fates) + t.readDataQueue == t.history.kept
    ensures Receivers(t.history.fates) == Receivers(s.history.fates) + Receivers(fates)
  {
    LengthsConcat(s.history.fates, fates);
    ReceiversConcat(s.history.fates, fates);
    Associate(Lengths(s.history.fates), Lengths(fates), t.readDataQueue);
    Associate(Lengths(s.history.fates), s.readDataQueue, kept);
  }

  lemma {:induction false} OneFate(f: Fate)
    ensures Lengths([f]) == [f.length] && Receivers([f]) == if f.Delivered? then [f.to] else []
  {
    assert [f][1..] == [];
  }

  /** An event that gives no message to a read. */
  lemma {:induction false} NobodyReceives(s: Device, e: Event, kept: seq<nat>, fates: seq<Fate>)
    requires MessagesInOrder(s) && Enabled(s, e) && Adds(s, Step(s, e), kept, fates)
    requires Receivers(fates) == [] && forall f :: f in fates ==> f.Cleared?
    ensures MessagesInOrder(Step(s, e))
  {
    AddingKeepsOrder(s, Step(s, e), kept, fates);
    forall x | x in Receivers(s.history.fates) ensures AwayOwners(Step(s, e).at, x) > 0 {
      StepKeepsAway(s, e, x);
    }
  }

  /** An event that gives one message to a read that had none. */
  lemma {:induction false} OneReceives(s: Device, e: Event, kept: seq<nat>, length: nat, irp: Irp)
    requires MessagesInOrder(s) && Enabled(s, e) && Adds(s, Step(s, e), kept, [Delivered(length, irp)])
    requires irp.kind.Read? && length <= irp.length
    requires AwayOwners(s.at, irp) == 0 && AwayOwners(Step(s, e).at, irp) > 0
    ensures MessagesInOrder(Step(s, e))
  {
    OneFate(Delivered(length, irp));
    AddingKeepsOrder(s, Step(s, e), kept, [Delivered(length, irp)]);
    forall x | x in Receivers(s.history.fates) ensures AwayOwners(Step(s, e).at, x) > 0 {
      StepKeepsAway(s, e, x);
    }
  }

  /** A read takes the first queued message exactly if it has room for it, and leaves it where it is otherwise. */
  lemma {:induction false} ReadTakesHeadExactlyWhen(s: Device, irp: Irp)
    requires irp.kind.Read? && s.readDataQueue != []
    ensures var t, head := ArriveStep(s, irp), s.readDataQueue[0];
            if irp.length >= head then
              t.readDataQueue == s.readDataQueue[1..] && t.history.fates == s.history.fates + [Delivered(head, irp)]
            else t.readDataQueue == s.readDataQueue && t.history.fates == s.history.fates
    ensures ArriveStep(s, irp).history.kept == s.history.kept
  {
  }

  lemma {:induction false} ArrivalKeepsMessages(s: Device, irp: Irp)
    requires Inv(s) && MessagesInOrder(s) && irp !in s.history.accepted
    ensures MessagesInOrder(ArriveStep(s, irp))
  {
    assert Owners(s.at, irp) == 0;
    var e := Arrives(irp);
    if irp.kind.Read? && s.readDataQueue != [] && irp.length >= s.readDataQueue[0] {
      ReadTakesHeadExactlyWhen(s, irp);
      OneFate(Delivered(s.readDataQueue[0], irp));
      assert s.readDataQueue + [] == [s.readDataQueue[0]] + s.readDataQueue[1..];
      OneReceives(s, e, [], s.readDataQueue[0], irp);
    } else {
      NobodyReceives(s, e, [], []);
    }
  }

  /** A message goes straight to a waiting read exactly if some waiting read can still be cancelled and has room for
      it: to the first such read. Otherwise it is appended to the queue, if there is memory. */
  lemma {:induction false} MessageFillsExactlyWhen(s: Device, length: nat, stored: bool)
    ensures var t, q := MessageStep(s, length, stored), s.at.readIrpQueue;
            if exists i :: 0 <= i < |q| && q[i] in s.cancellable && q[i].length >= length then
              && t.readDataQueue == s.readDataQueue && t.history.kept == s.history.kept + [length]
              && exists i :: 0 <= i < |q| && q[i] in s.cancellable && q[i].length >= length
                   && (forall j :: 0 <= j < i ==> !(q[j] in s.cancellable && q[j].length >= length))
                   && t.history.fates == s.history.fates + [Delivered(length, q[i])]
                   && t.at.readIrpQueue == q[i + 1..]
            else
              && t.at.readIrpQueue == [] && t.history.fates == s.history.fates
              && t.readDataQueue == s.readDataQueue + (if stored then [length] else [])
              && t.history.kept == s.history.kept + (if stored then [length] else [])
  {
    var q := s.at.readIrpQueue;
    var k := Taken(q, s.cancellable, length);
    if Filled(q, s.cancellable, length) {
      assert Fits(q[k - 1], s.cancellable, length);
    } else {
      TakesAllUnlessFilled(q, s.cancellable, length);
      NothingFits(q, s.cancellable, length);
    }
  }

  lemma {:induction false} NothingFits(queue: seq<Irp>, cancellable: set<Irp>, length: nat)
    requires !Filled(queue, cancellable, length)
    ensures forall i :: 0 <= i < |queue| ==> !Fits(queue[i], cancellable, length)
  {
    TakesAllUnlessFilled(queue, cancellable, length);
  }

  /** The read that takes a message was waiting, so it had none before. */
  lemma {:induction false} TakerWasWaiting(s: Device, length: nat, stored: bool, k: nat)
    requires Inv(s) && 0 < k <= |s.at.readIrpQueue| && k == Taken(s.at.readIrpQueue, s.cancellable, length)
    ensures var irp := s.at.readIrpQueue[k - 1];
            AwayOwners(s.at, irp) == 0 && AwayOwners(MessageStep(s, length, stored).at, irp) > 0
  {
    var q, irp := s.at.readIrpQueue, s.at.readIrpQueue[k - 1];
    assert irp in q && Owners(s.at, irp) <= 1 && multiset(q)[irp] > 0;
    assert irp == q[..k][k - 1] && irp in s.at.irpCompletionQueue + q[..k];
    assert multiset(MessageStep(s, length, stored).at.irpCompletionQueue)[irp] > 0;
  }

  lemma {:induction false} MessageAdds(s: Device, length: nat, stored: bool)
    requires Inv(s)
    ensures var q, t := s.at.readIrpQueue, MessageStep(s, length, stored);
            var k := Taken(q, s.cancellable, length);
            if Filled(q, s.cancellable, length) then Adds(s, t, [length], [Delivered(length, q[k - 1])])
            else Adds(s, t, if stored then [length] else [], [])
  {
    var q := s.at.readIrpQueue;
    if Filled(q, s.cancellable, length) {
      OneFate(Delivered(length, q[Taken(q, s.cancellable, length) - 1]));
    }
  }

  lemma {:induction false} MessageKeepsMessages(s: Device, length: nat, stored: bool)
    requires Inv(s) && QueueKinds(s.at) && MessagesInOrder(s)
    ensures MessagesInOrder(MessageStep(s, length, stored))
  {
    var q, e := s.at.readIrpQueue, Move(MessageArrives(length, stored));
    var k := Taken(q, s.cancellable, length);
    MessageAdds(s, length, stored);
    if Filled(q, s.cancellable, length) {
      TakerWasWaiting(s, length, stored, k);
      OneReceives(s, e, [length], length, q[k - 1]);
    } else {
      NobodyReceives(s, e, if stored then [length] else [], []);
    }
  }

  lemma {:induction false} MoveKeepsHistory(s: Device, q: QueueEvent)
    requires MoveEnabled(s, q) && !q.MessageArrives? && !q.ClearReadData?
    ensures var t := MoveStep(s, q);
            && t.readDataQueue == s.readDataQueue && t.history.kept == s.history.kept
            && t.history.fates == s.history.fates
  {
  }

  lemma {:induction false} OthersAddNothing(s: Device, e: Event)
    requires Enabled(s, e) && !e.Arrives?
    requires e.Move? ==> !e.queue.MessageArrives? && !e.queue.ClearReadData?
    ensures Adds(s, Step(s, e), [], [])
  {
    if e.Move? { MoveKeepsHistory(s, e.queue); }
  }

  lemma {:induction false} OthersKeepMessages(s: Device, e: Event)
    requires MessagesInOrder(s) && Enabled(s, e) && !e.Arrives?
    requires e.Move? ==> !e.queue.MessageArrives? && !e.queue.ClearReadData?
    ensures MessagesInOrder(Step(s, e))
  {
    OthersAddNothing(s, e);
    NobodyReceives(s, e, [], []);
  }

  lemma {:induction false} StepKeepsMessages(s: Device, e: Event)
    requires Inv(s) && QueueKinds(s.at) && MessagesInOrder(s) && Enabled(s, e)
    ensures MessagesInOrder(Step(s, e))
  {
    if e.Arrives? {
      ArrivalKeepsMessages(s, e.irp);
    } else if e.Move? && e.queue.MessageArrives? {
      MessageKeepsMessages(s, e.queue.length, e.queue.stored);
    } else if e.Move? && e.queue.ClearReadData? {
      ClearedFates(s.readDataQueue);
      NobodyReceives(s, e, [], AllCleared(s.readDataQueue));
    } else {
      OthersKeepMessages(s, e);
    }
  }

  lemma {:induction false} RunKeepsMessages(s: Device, es: seq<Event>)
    requires Inv(s) && QueueKinds(s.at) && MessagesInOrder(s) && Runs(s, es)
    ensures MessagesInOrder(Exec(s, es))
    decreases |es|
  {
    if es != [] {
      StepKeepsInv(s, es[0]);
      StepKeepsKinds(s, es[0]);
      StepKeepsMessages(s, es[0]);
      RunKeepsMessages(Step(s, es[0]), es[1..]);
    }
  }

  /** Over every run, whatever is lost: the messages that found a read or memory are those that went to a read or
      were discarded with the queue, in the order in which they came, followed by those still queued. Each went to a
      read with room for it, and no read got two. */
  lemma {:induction false} MessagesReachReadsInOrder(es: seq<Event>, s: Device)
    requires Runs(FRESH_DEVICE, es) && s == Exec(FRESH_DEVICE, es)
    ensures Lengths(s.history.fates) + s.readDataQueue == s.history.kept
    ensures forall f :: f in s.history.fates && f.Delivered? ==> f.to.kind.Read? && f.length <= f.to.length
    ensures NoDuplicates(Receivers(s.history.fates))
  {
    RunKeepsMessages(FRESH_DEVICE, es);
  }

  /** Without a clean-up of the queue every one of them went to a read. */
  lemma {:induction false} NoneIsDiscarded(s: Device, es: seq<Event>)
    requires Runs(s, es) && Move(ClearReadData) !in es && forall f :: f in s.history.fates ==> f.Delivered?
    ensures forall f :: f in Exec(s, es).history.fates ==> f.Delivered?
    decreases |es|
  {
    if es != [] {
      assert es[0] in es && forall e :: e in es[1..] ==> e in es;
      StepDiscardsNone(s, es[0]);
      NoneIsDiscarded(Step(s, es[0]), es[1..]);
    }
  }

  lemma {:induction false} StepDiscardsNone(s: Device, e: Event)
    requires Enabled(s, e) && e != Move(ClearReadData) && forall f :: f in s.history.fates ==> f.Delivered?
    ensures forall f :: f in Step(s, e).history.fates ==> f.Delivered?
  {
    if e.Move? && !e.queue.MessageArrives? {
      MoveKeepsHistory(s, e.queue);
    }
  }
}
