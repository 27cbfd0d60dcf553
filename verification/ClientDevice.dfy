/** The client device as the driver keeps it: an object whose lists and pointers change in place.
    Every method is one section under IoLock (or one interlocked operation) and is proved to take the
    device exactly where `ClientModel.Step` says. */
module ClientDevice {
  import opened ClientModel
  import opened Machine

  /** The NULL-ing of the first pointer that matches, in the order of the source. */
  function ClearSlot(slots: map<Slot, Irp>, irp: Irp): map<Slot, Irp> {
    if Removal in slots && slots[Removal] == irp then slots - {Removal}
    else if Ipv4Mtu in slots && slots[Ipv4Mtu] == irp then slots - {Ipv4Mtu}
    else if Ipv6Mtu in slots && slots[Ipv6Mtu] == irp then slots - {Ipv6Mtu}
    else slots
  }

  lemma {:induction false} ClearSlotClears(slots: map<Slot, Irp>, irp: Irp)
    requires SlotsDistinct(slots)
    ensures ClearSlot(slots, irp) == map t | t in slots && slots[t] != irp :: slots[t]
  {
    forall t | t in slots ensures t == Removal || t == Ipv4Mtu || t == Ipv6Mtu {
    }
  }

  function Withdrawn(s: Device, irp: Irp, rest: seq<Irp>): Device {
    s.(at := ToCompletion(s.at.(writeIrpQueue := rest), [irp]),
       history := s.history.(withdrawn := s.history.withdrawn + {irp}))
  }

  /** The three outcomes of the write cancel routine. */
  lemma {:induction false} CancelWriteOutcome(s: Device, irp: Irp)
    requires irp.kind.Write? && irp !in s.cancellable
    ensures var begun := s.(at := s.at.(cancelling := s.at.cancelling - {irp}));
            CancelStep(s, irp, true) ==
              if IsActiveWrite(s, irp) then begun.(cancellable := s.cancellable + {irp})
              else if irp in s.at.writeIrpQueue then Withdrawn(begun, irp, Unlink(s.at.writeIrpQueue, irp))
              else begun
  {
    assert s.history.withdrawn + {} == s.history.withdrawn;
    assert s.cancellable - {irp} == s.cancellable;
  }

  lemma {:induction false} CancelNotificationOutcome(s: Device, irp: Irp)
    requires irp.kind.Notify? && SlotsDistinct(s.at.slots)
    ensures CancelStep(s, irp, true) ==
              s.(at := s.at.(cancelling := s.at.cancelling - {irp}, slots := ClearSlot(s.at.slots, irp),
                             irpCompletionQueue := s.at.irpCompletionQueue + [irp]),
                 cancellable := s.cancellable - {irp})
  {
    ClearSlotClears(s.at.slots, irp);
    assert s.history.withdrawn + {} == s.history.withdrawn;
  }

  /** A read is counted in, then served at once when a message waits, and pended otherwise. */
  function CountedIn(s: Device, irp: Irp): Device {
    s.(irpCount := s.irpCount + 1, history := s.history.(accepted := s.history.accepted + [irp]))
  }

  function Served(s: Device, irp: Irp): Device
    requires s.readDataQueue != []
  {
    var head := s.readDataQueue[0];
    var fits := irp.length >= head;
    s.(at := s.at.(inDispatch := s.at.inDispatch + multiset{irp}),
       readDataQueue := s.readDataQueue[if fits then 1 else 0..],
       history := s.history.(fates := s.history.fates + if fits then [Delivered(head, irp)] else []))
  }

  function Pended(s: Device, irp: Irp): Device {
    s.(at := s.at.(readIrpQueue := s.at.readIrpQueue + [irp]), cancellable := s.cancellable + {irp})
  }

  lemma {:induction false} ReadOutcome(s: Device, irp: Irp)
    requires irp.kind.Read?
    ensures ArriveStep(s, irp) ==
              if s.readDataQueue != [] then Served(CountedIn(s, irp), irp) else Pended(CountedIn(s, irp), irp)
  {
    assert s.readDataQueue[0..] == s.readDataQueue && s.history.fates + [] == s.history.fates;
  }

  /** The reads that a message takes off the queue, without the message. */
  function ReadsTaken(s: Device, length: nat): Device {
    var k := Taken(s.at.readIrpQueue, s.cancellable, length);
    var taken := s.at.readIrpQueue[..k];
    s.(at := ToCompletion(s.at.(readIrpQueue := s.at.readIrpQueue[k..]), taken),
       cancellable := s.cancellable - Elements(taken))
  }

  function Noted(s: Device, length: nat, kept: bool, fate: seq<Fate>): Device {
    s.(history := s.history.(kept := s.history.kept + (if kept then [length] else []),
                             fates := s.history.fates + fate))
  }

  lemma {:induction false} MessageOutcome(s: Device, length: nat, stored: bool)
    ensures var t, q := ReadsTaken(s, length), s.at.readIrpQueue;
            var filled := Filled(q, s.cancellable, length);
            var queued := if !filled && stored then t.(readDataQueue := s.readDataQueue + [length]) else t;
            MessageStep(s, length, stored)
            == Noted(queued, length, filled || stored,
                     if filled then [Delivered(length, q[Taken(q, s.cancellable, length) - 1])] else [])
  {
    assert s.readDataQueue + [] == s.readDataQueue;
  }

  /** The head of the completion list is popped, completed and counted out, and the lock is taken again. */
  function HeadCompleted(s: Device): Device
    requires s.at.irpCompletionQueue != []
  {
    var irp := s.at.irpCompletionQueue[0];
    FinishStep(CountOutStep(FinishStep(PopStep(s), CompletePopped(irp)), irp), Depart(Loop(irp)))
  }

  function Emptied(s: Device): Device
    decreases |s.at.irpCompletionQueue|
  {
    if s.at.irpCompletionQueue == [] then s else Emptied(HeadCompleted(s))
  }

  lemma {:induction false} HeadCompletedIs(s: Device)
    requires s.at.irpCompletionQueue != []
    ensures var irp, t := s.at.irpCompletionQueue[0], HeadCompleted(s);
            && t.at == s.at.(irpCompletionQueue := s.at.irpCompletionQueue[1..], gone := s.at.gone + multiset{irp})
            && t.irpCount == s.irpCount - 1
  {
    var irp := s.at.irpCompletionQueue[0];
    assert s.at.popped + multiset{irp} - multiset{irp} == s.at.popped;
    assert s.at.finished + multiset{irp} - multiset{irp} == s.at.finished;
  }

  /** Emptying completes everything on the list once and counts each request out. */
  lemma {:induction false} EmptiedCompletesAll(s: Device)
    ensures var queue := s.at.irpCompletionQueue;
            && Emptied(s).at == s.at.(irpCompletionQueue := [], gone := s.at.gone + multiset(queue))
            && Emptied(s).irpCount == s.irpCount - |queue|
    decreases |s.at.irpCompletionQueue|
  {
    var queue := s.at.irpCompletionQueue;
    if queue != [] {
      HeadCompletedIs(s);
      EmptiedCompletesAll(HeadCompleted(s));
      AddHeadFirst(s.at.gone, queue);
    } else {
      assert s.at.gone + multiset(queue) == s.at.gone;
    }
  }

  lemma {:induction false} AddHeadFirst(m: multiset<Irp>, queue: seq<Irp>)
    requires queue != []
    ensures m + multiset{queue[0]} + multiset(queue[1..]) == m + multiset(queue)
  {
    assert queue == [queue[0]] + queue[1..];
  }

  /** It installs no cancel routine. */
  lemma {:induction false} EmptiedKeepsRest(s: Device)
    ensures Emptied(s).cancellable <= s.cancellable
    decreases |s.at.irpCompletionQueue|
  {
    if s.at.irpCompletionQueue != [] {
      EmptiedKeepsRest(HeadCompleted(s));
    }
  }

  lemma {:induction false} UnlinkIsCut(queue: seq<Irp>, irp: Irp, i: nat)
    requires i < |queue| && queue[i] == irp && irp !in queue[..i]
    ensures Unlink(queue, irp) == queue[..i] + queue[i + 1..]
  {
    if i > 0 {
      assert queue[..i] == [queue[0]] + queue[1..][..i - 1];
      UnlinkIsCut(queue[1..], irp, i - 1);
      assert queue[1..][i..] == queue[i + 1..];
    }
  }

  datatype ReadStatus = Pending | Success | TooSmall

  /** The queue without one entry, the others in their order. */
  ghost predicate CutOut(queue: seq<Irp>, irp: Irp, rest: seq<Irp>) {
    exists i :: 0 <= i < |queue| && queue[i] == irp && rest == queue[..i] + queue[i + 1..]
  }

  class MpIocDevice {
    var readIrpQueue: seq<Irp>
    var writeIrpQueue: seq<Irp>
    var irpCompletionQueue: seq<Irp>
    var readDataQueue: seq<nat>
    var notificationIrps: map<Slot, Irp>
    var writeCurrent: Option<Irp>
    var irpCount: int
    var writer: Writer
    var cancellable: set<Irp>
    ghost var cancelling: set<Irp>
    ghost var inDispatch: multiset<Irp>
    ghost var returned: multiset<Irp>
    ghost var popped: multiset<Irp>
    ghost var finished: multiset<Irp>
    ghost var gone: multiset<Irp>
    ghost var departing: set<Tail>
    ghost var history: History

    ghost function At(): Places
      reads this
    {
      Places(readIrpQueue, writeIrpQueue, irpCompletionQueue, notificationIrps, writeCurrent, cancelling,
             inDispatch, returned, popped, finished, gone)
    }

    ghost function State(): Device
      reads this
    {
      Device(At(), cancellable, irpCount, departing, readDataQueue, writer, history)
    }

    constructor ()
      ensures State() == FRESH_DEVICE
    {
      readIrpQueue, writeIrpQueue, irpCompletionQueue, readDataQueue := [], [], [], [];
      notificationIrps, writeCurrent, irpCount := map[], None, 0;
      writer := Writer(Stopped, false, false, false, multiset{});
      cancellable, cancelling := {}, {};
      inDispatch, returned, popped, finished, gone := multiset{}, multiset{}, multiset{}, multiset{}, multiset{};
      departing := {};
      history := History([], [], {}, {}, [], []);
    }

    method CountIn(irp: Irp)
      modifies this`irpCount, this`history
      ensures State() == CountedIn(old(State()), irp)
    {
      irpCount := irpCount + 1;
      history := history.(accepted := history.accepted + [irp]);
    }

    /** The first message completes the read, or goes back because it is too long for it. */
    method ServeRead(irp: Irp) returns (fits: bool)
      requires readDataQueue != []
      modifies this`readDataQueue, this`inDispatch, this`history
      ensures State() == Served(old(State()), irp)
      ensures fits <==> irp.length >= old(readDataQueue)[0]
      ensures readDataQueue == if fits then old(readDataQueue)[1..] else old(readDataQueue)
    {
      var item := readDataQueue[0];
      readDataQueue := readDataQueue[1..];
      fits := true;
      if irp.length < item {
        fits := false;
        readDataQueue := [item] + readDataQueue;  // put the message back
      }
      inDispatch := inDispatch + multiset{irp};
      history := history.(fates := history.fates + if fits then [Delivered(item, irp)] else []);
    }

    /** A read takes the first message if it has room for it; a message too long for it stays where it was; without
        a message the read waits, at the end of the queue and with a cancel routine. */
    method Read(irp: Irp) returns (status: ReadStatus)
      requires irp.kind.Read?
      modifies this`readIrpQueue, this`readDataQueue, this`irpCount, this`cancellable, this`inDispatch, this`history
      ensures State() == ArriveStep(old(State()), irp)
      ensures status == Pending <==> old(readDataQueue) == []
      ensures status == Success <==> old(readDataQueue) != [] && irp.length >= old(readDataQueue)[0]
      ensures readDataQueue == if status == Success then old(readDataQueue)[1..] else old(readDataQueue)
      ensures readIrpQueue == old(readIrpQueue) + if status == Pending then [irp] else []
      ensures cancellable == old(cancellable) + if status == Pending then {irp} else {}
      ensures irpCount == old(irpCount) + 1
    {
      ReadOutcome(State(), irp);
      CountIn(irp);
      if readDataQueue != [] {
        var fits := ServeRead(irp);
        status := if fits then Success else TooSmall;
      } else {
        PendRead(irp);
        status := Pending;
      }
    }

    method PendRead(irp: Irp)
      modifies this`readIrpQueue, this`cancellable
      ensures State() == Pended(old(State()), irp)
      ensures readIrpQueue == old(readIrpQueue) + [irp] && cancellable == old(cancellable) + {irp}
    {
      readIrpQueue := readIrpQueue + [irp];
      cancellable := cancellable + {irp};
    }

    /** Up to the release of IoLock; `kick` says that the thread is still to be kicked. */
    method Write(irp: Irp) returns (kick: bool)
      requires irp.kind.Write?
      modifies this`writeIrpQueue, this`irpCount, this`cancellable, this`history, this`departing
      ensures State() == ArriveStep(old(State()), irp)
      ensures kick <==> old(writeIrpQueue) == []
      ensures writeIrpQueue == old(writeIrpQueue) + [irp] && cancellable == old(cancellable) + {irp}
    {
      CountIn(irp);
      kick := writeIrpQueue == [];
      departing := if kick then departing + {Kick(irp)} else departing;
      writeIrpQueue := writeIrpQueue + [irp];
      cancellable := cancellable + {irp};
    }

    method CacheNotificationIrp(irp: Irp, slot: Slot) returns (pending: bool)
      requires irp in inDispatch
      modifies this`notificationIrps, this`cancellable, this`inDispatch
      ensures State() == CacheStep(old(State()), irp, slot)
      ensures pending <==> slot !in old(notificationIrps)
      ensures notificationIrps == if pending then old(notificationIrps)[slot := irp] else old(notificationIrps)
      ensures cancellable == old(cancellable) + if pending then {irp} else {}
    {
      pending := slot !in notificationIrps;
      if pending {
        inDispatch := inDispatch - multiset{irp};
        notificationIrps := notificationIrps[slot := irp];
        cancellable := cancellable + {irp};
      }
    }

    /** MPIOC_IsIrpInQueue and RemoveEntryList in one pass: finds the entry and cuts it out. */
    static method TakeFromQueue(queue: seq<Irp>, irp: Irp) returns (found: bool, rest: seq<Irp>)
      ensures found <==> irp in queue
      ensures rest == if irp in queue then Unlink(queue, irp) else queue
      ensures found ==> CutOut(queue, irp, rest)
    {
      var i := 0;
      while i < |queue| && queue[i] != irp
        invariant i <= |queue| && irp !in queue[..i]
      {
        assert queue[..i + 1] == queue[..i] + [queue[i]];
        i := i + 1;
      }
      assert queue[..|queue|] == queue;
      found := i < |queue|;
      rest := queue;
      if found {
        UnlinkIsCut(queue, irp, i);
        rest := queue[..i] + queue[i + 1..];
      }
    }

    /** The cancel routine has IoLock. */
    ghost method BeginRoutine(irp: Irp)
      modifies this`cancelling
      ensures State() == old(State()).(at := old(At()).(cancelling := old(cancelling) - {irp}))
    {
      cancelling := cancelling - {irp};
    }

    /** IoSetCancelRoutine(irp, NULL): whether there was a routine. */
    method DropRoutine(irp: Irp) returns (had: bool)
      modifies this`cancellable
      ensures had <==> irp in old(cancellable)
      ensures State() == old(State()).(cancellable := old(cancellable) - {irp})
    {
      had := irp in cancellable;
      cancellable := cancellable - {irp};
    }

    method ToCompletionList(irp: Irp)
      modifies this`irpCompletionQueue
      ensures State() == old(State()).(at := ToCompletion(old(At()), [irp]))
      ensures irpCompletionQueue == old(irpCompletionQueue) + [irp]
    {
      irpCompletionQueue := irpCompletionQueue + [irp];
    }

    /** A read that waits leaves the queue and is listed for completion; any other is left to whoever took it. */
    method CancelReadRoutine(irp: Irp)
      requires irp in cancelling && irp.kind.Read?
      requires irp !in cancellable
      modifies this`readIrpQueue, this`irpCompletionQueue, this`cancelling
      ensures State() == CancelStep(old(State()), irp, true)
      ensures irp in old(readIrpQueue) ==>
                CutOut(old(readIrpQueue), irp, readIrpQueue) && irpCompletionQueue == old(irpCompletionQueue) + [irp]
      ensures irp !in old(readIrpQueue) ==>
                readIrpQueue == old(readIrpQueue) && irpCompletionQueue == old(irpCompletionQueue)
      ensures NoDuplicates(old(readIrpQueue)) ==> irp !in readIrpQueue
    {
      BeginRoutine(irp);
      var found, rest := TakeFromQueue(readIrpQueue, irp);
      if found {
        readIrpQueue := rest;
        ToCompletionList(irp);
      }
    }

    /** A queued write is withdrawn. */
    method WithdrawWrite(irp: Irp, rest: seq<Irp>)
      modifies this`writeIrpQueue, this`irpCompletionQueue, this`history
      ensures State() == Withdrawn(old(State()), irp, rest)
      ensures writeIrpQueue == rest && irpCompletionQueue == old(irpCompletionQueue) + [irp]
    {
      writeIrpQueue := rest;
      irpCompletionQueue := irpCompletionQueue + [irp];
      history := history.(withdrawn := history.withdrawn + {irp});
    }

    method CancelWriteRoutine(irp: Irp)
      requires irp in cancelling && irp.kind.Write?
      requires irp !in cancellable
      modifies this`writeIrpQueue, this`irpCompletionQueue, this`cancelling, this`cancellable, this`history
      ensures State() == CancelStep(old(State()), irp, true)
      ensures var active := writeCurrent == Some(irp) && writer.active;
              && (irp in cancellable <==> active)
              && (!active && irp in old(writeIrpQueue) ==>
                    && CutOut(old(writeIrpQueue), irp, writeIrpQueue)
                    && irpCompletionQueue == old(irpCompletionQueue) + [irp])
              && (active || irp !in old(writeIrpQueue) ==>
                    writeIrpQueue == old(writeIrpQueue) && irpCompletionQueue == old(irpCompletionQueue))
    {
      CancelWriteOutcome(State(), irp);
      BeginRoutine(irp);
      if writeCurrent == Some(irp) && writer.active {
        cancellable := cancellable + {irp};  // restore the routine; the thread is told to cancel its own IRP
      } else {
        var found, rest := TakeFromQueue(writeIrpQueue, irp);
        if found {
          WithdrawWrite(irp, rest);
        }
      }
    }

    /** The pointer that holds the request becomes NULL. */
    method NullSlot(irp: Irp)
      modifies this`notificationIrps
      ensures State() == old(State()).(at := old(At()).(slots := ClearSlot(old(notificationIrps), irp)))
      ensures SlotsDistinct(old(notificationIrps)) ==>
                notificationIrps == map t | t in old(notificationIrps) && old(notificationIrps)[t] != irp
                                        :: old(notificationIrps)[t]
    {
      if SlotsDistinct(notificationIrps) { ClearSlotClears(notificationIrps, irp); }
      if Removal in notificationIrps && notificationIrps[Removal] == irp {
        notificationIrps := notificationIrps - {Removal};
      } else if Ipv4Mtu in notificationIrps && notificationIrps[Ipv4Mtu] == irp {
        notificationIrps := notificationIrps - {Ipv4Mtu};
      } else if Ipv6Mtu in notificationIrps && notificationIrps[Ipv6Mtu] == irp {
        notificationIrps := notificationIrps - {Ipv6Mtu};
      }
    }

    method CancelNotificationRoutine(irp: Irp)
      requires irp in cancelling && irp.kind.Notify?
      requires SlotsDistinct(notificationIrps)
      modifies this`notificationIrps, this`irpCompletionQueue, this`cancelling, this`cancellable
      ensures State() == CancelStep(old(State()), irp, true)
      ensures irpCompletionQueue == old(irpCompletionQueue) + [irp] && irp !in cancellable
      ensures notificationIrps == map t | t in old(notificationIrps) && old(notificationIrps)[t] != irp
                                      :: old(notificationIrps)[t]
    {
      CancelNotificationOutcome(State(), irp);
      BeginRoutine(irp);
      var had := DropRoutine(irp);
      NullSlot(irp);
      ToCompletionList(irp);
    }

    /** The locked loop of MPIOC_PurgeQueue, one entry at a time. A request whose cancel routine has
        been called already is completed all the same: that routine will not find it. */
    static method PurgeList(queue: seq<Irp>, routines: set<Irp>, completion: seq<Irp>)
      returns (routines': set<Irp>, completion': seq<Irp>)
      ensures completion' == completion + queue
      ensures routines' == routines - Elements(queue)
    {
      var list := queue;
      routines', completion' := routines, completion;
      ghost var k := 0;
      while list != []
        invariant k <= |queue| && list == queue[k..]
        invariant completion' == completion + queue[..k]
        invariant routines' == routines - Elements(queue[..k])
        decreases |list|
      {
        var irp := list[0];
        list := list[1..];
        routines' := routines' - {irp};
        completion' := completion' + [irp];
        assert queue[..k + 1] == queue[..k] + [irp];
        k := k + 1;
      }
      assert queue[..k] == queue;
    }

    /** The locked part of a purge of the reads. */
    method ListReads()
      modifies this`readIrpQueue, this`irpCompletionQueue, this`cancellable
      ensures State() == PurgeReadsStep(old(State()))
    {
      cancellable, irpCompletionQueue := PurgeList(readIrpQueue, cancellable, irpCompletionQueue);
      readIrpQueue := [];
    }

    /** The locked part of a purge of the writes. */
    method ListWrites()
      modifies this`writeIrpQueue, this`irpCompletionQueue, this`cancellable, this`history
      ensures State() == PurgeWritesStep(old(State()))
    {
      cancellable, irpCompletionQueue := PurgeList(writeIrpQueue, cancellable, irpCompletionQueue);
      history := history.(withdrawn := history.withdrawn + Elements(writeIrpQueue));
      writeIrpQueue := [];
    }

    /** The loop that fills waiting reads with an inbound message. A read in cancellation and a read
        with too small a buffer are completed on the way. */
    static method FillReads(queue: seq<Irp>, routines: set<Irp>, completion: seq<Irp>, length: nat)
      returns (list: seq<Irp>, routines': set<Irp>, completion': seq<Irp>, filled: bool, ghost k: nat)
      requires NoDuplicates(queue)
      ensures k == Taken(queue, routines, length) <= |queue| && (filled <==> Filled(queue, routines, length))
      ensures list == queue[k..] && completion' == completion + queue[..k]
      ensures routines' == routines - Elements(queue[..k])
      ensures filled ==> k > 0 && queue[k - 1] in routines && queue[k - 1].length >= length
      ensures !filled ==> list == []
      ensures forall i :: 0 <= i < (if filled then k - 1 else k) ==>
                !(queue[i] in routines && queue[i].length >= length)
    {
      list, routines', completion', filled := queue, routines, completion, false;
      k := 0;
      while list != [] && !filled
        invariant k <= |queue| && list == queue[k..]
        invariant completion' == completion + queue[..k]
        invariant routines' == routines - Elements(queue[..k])
        invariant forall i :: 0 <= i < (if filled then k - 1 else k) ==> !Fits(queue[i], routines, length)
        invariant !filled ==> Taken(queue, routines, length) == k + Taken(queue[k..], routines, length)
        invariant filled ==> k > 0 && Taken(queue, routines, length) == k && Fits(queue[k - 1], routines, length)
        decreases |list|, !filled
      {
        var irp := list[0];
        list := list[1..];
        var had := irp in routines';
        routines' := routines' - {irp};  // IoSetCancelRoutine(irp, NULL)
        if had && irp.length >= length {
          filled := true;
        }
        completion' := completion' + [irp];
        assert queue[..k + 1] == queue[..k] + [irp];
        assert queue[k..][1..] == queue[k + 1..];
        k := k + 1;
      }
    }

    /** The message goes to the first waiting read that can still be cancelled and has room for it; otherwise it is
        appended to the messages that wait, if there is memory. Every read before is completed without it. */
    method DeliverMessage(length: nat, stored: bool) returns (filled: bool, ghost k: nat)
      requires NoDuplicates(readIrpQueue)
      modifies this`readIrpQueue, this`irpCompletionQueue, this`cancellable, this`readDataQueue, this`history
      ensures State() == MessageStep(old(State()), length, stored)
      ensures k <= |old(readIrpQueue)| && readIrpQueue == old(readIrpQueue)[k..]
      ensures irpCompletionQueue == old(irpCompletionQueue) + old(readIrpQueue)[..k]
      ensures filled ==>
                k > 0 && old(readIrpQueue)[k - 1] in old(cancellable) && old(readIrpQueue)[k - 1].length >= length
      ensures !filled ==> readIrpQueue == []
      ensures forall i :: 0 <= i < (if filled then k - 1 else k) ==>
                !(old(readIrpQueue)[i] in old(cancellable) && old(readIrpQueue)[i].length >= length)
      ensures readDataQueue == old(readDataQueue) + if !filled && stored then [length] else []
    {
      ghost var was := State();
      filled, k := FillWaitingReads(length);
      if !filled && stored {
        KeepMessage(length);
      }
      NoteMessage(length, filled || stored, if filled then [Delivered(length, was.at.readIrpQueue[k - 1])] else []);
      MessageOutcome(was, length, stored);
    }

    method FillWaitingReads(length: nat) returns (filled: bool, ghost k: nat)
      requires NoDuplicates(readIrpQueue)
      modifies this`readIrpQueue, this`irpCompletionQueue, this`cancellable
      ensures State() == ReadsTaken(old(State()), length) && k == Taken(old(readIrpQueue), old(cancellable), length)
      ensures k <= |old(readIrpQueue)| && readIrpQueue == old(readIrpQueue)[k..]
      ensures irpCompletionQueue == old(irpCompletionQueue) + old(readIrpQueue)[..k]
      ensures filled <==> Filled(old(readIrpQueue), old(cancellable), length)
      ensures filled ==>
                k > 0 && old(readIrpQueue)[k - 1] in old(cancellable) && old(readIrpQueue)[k - 1].length >= length
      ensures !filled ==> readIrpQueue == []
      ensures forall i :: 0 <= i < (if filled then k - 1 else k) ==>
                !(old(readIrpQueue)[i] in old(cancellable) && old(readIrpQueue)[i].length >= length)
    {
      var list, routines, completion;
      list, routines, completion, filled, k := FillReads(readIrpQueue, cancellable, irpCompletionQueue, length);
      readIrpQueue, cancellable, irpCompletionQueue := list, routines, completion;
    }

    method KeepMessage(length: nat)
      modifies this`readDataQueue
      ensures State() == old(State()).(readDataQueue := old(readDataQueue) + [length])
      ensures readDataQueue == old(readDataQueue) + [length]
    {
      readDataQueue := readDataQueue + [length];
    }

    ghost method NoteMessage(length: nat, kept: bool, fate: seq<Fate>)
      modifies this`history
      ensures State() == Noted(old(State()), length, kept, fate)
    {
      history := history.(kept := history.kept + (if kept then [length] else []), fates := history.fates + fate);
    }

    /** The loop of MPIOC_CleanupQueues over the messages that wait. */
    method ClearReadData()
      modifies this`readDataQueue, this`history
      ensures State() == ClearStep(old(State())) && readDataQueue == []
    {
      while readDataQueue != []
        invariant history == old(history).(fates := history.fates)
        invariant history.fates + AllCleared(readDataQueue) == old(history.fates) + AllCleared(old(readDataQueue))
        decreases |readDataQueue|
      {
        Regroup(history.fates, Cleared(readDataQueue[0]), AllCleared(readDataQueue[1..]), []);
        history := history.(fates := history.fates + [Cleared(readDataQueue[0])]);
        readDataQueue := readDataQueue[1..];
      }
    }

    /** MPIOC_PostRemovalNotification and MPIOC_PostMtuNotification. */
    method PostNotificationIrp(slot: Slot)
      modifies this`notificationIrps, this`irpCompletionQueue, this`cancellable
      ensures State() == PostStep(old(State()), slot)
      ensures notificationIrps == old(notificationIrps) - {slot}
      ensures irpCompletionQueue == old(irpCompletionQueue)
                + if slot in old(notificationIrps) && old(notificationIrps)[slot] in old(cancellable)
                  then [old(notificationIrps)[slot]] else []
    {
      if slot in notificationIrps {
        var irp := notificationIrps[slot];
        notificationIrps := notificationIrps - {slot};
        var had := DropRoutine(irp);
        if had {
          ToCompletionList(irp);
        }
      }
    }

    method CancelNotificationIrp(slot: Slot)
      modifies this`notificationIrps, this`irpCompletionQueue, this`cancellable
      ensures State() == CancelNotificationStep(old(State()), slot)
      ensures var cancels := slot in old(notificationIrps) && old(notificationIrps)[slot] in old(cancellable);
              if cancels then
                && notificationIrps == old(notificationIrps) - {slot}
                && irpCompletionQueue == old(irpCompletionQueue) + [old(notificationIrps)[slot]]
                && cancellable == old(cancellable) - {old(notificationIrps)[slot]}
              else
                && notificationIrps == old(notificationIrps) && irpCompletionQueue == old(irpCompletionQueue)
                && cancellable == old(cancellable)
    {
      if slot in notificationIrps {
        var irp := notificationIrps[slot];
        var had := DropRoutine(irp);
        if had {
          notificationIrps := notificationIrps - {slot};
          ToCompletionList(irp);
        }
      }
    }

    method PopCompletionQueue() returns (irp: Irp)
      requires irpCompletionQueue != []
      modifies this`irpCompletionQueue, this`cancellable, this`popped
      ensures State() == PopStep(old(State()))
      ensures irp == old(irpCompletionQueue)[0] && irpCompletionQueue == old(irpCompletionQueue)[1..]
      ensures irp !in cancellable
    {
      irp := irpCompletionQueue[0];
      irpCompletionQueue := irpCompletionQueue[1..];
      cancellable := cancellable - {irp};  // IoSetCancelRoutine(irp, NULL)
      popped := popped + multiset{irp};
    }

    ghost method CompleteRequest(irp: Irp)
      requires irp in popped
      modifies this`popped, this`finished
      ensures State() == FinishStep(old(State()), CompletePopped(irp))
    {
      popped := popped - multiset{irp};
      finished := finished + multiset{irp};
    }

    ghost method MarkGone(irp: Irp)
      modifies this`finished, this`gone
      ensures State() == old(State()).(at := old(At()).(finished := old(finished) - multiset{irp},
                                                        gone := old(gone) + multiset{irp}))
    {
      finished := finished - multiset{irp};
      gone := gone + multiset{irp};
    }

    ghost method StayInLoop(irp: Irp)
      modifies this`departing
      ensures State() == old(State()).(departing := old(departing) + {Loop(irp)})
    {
      departing := departing + {Loop(irp)};
    }

    method CountOutRequest(ghost irp: Irp)
      requires irp in finished
      modifies this`irpCount, this`finished, this`gone, this`departing
      ensures State() == CountOutStep(old(State()), irp)
    {
      MarkGone(irp);
      irpCount := irpCount - 1;
      StayInLoop(irp);
    }

    /** The loop has the lock again. */
    ghost method TakeLockAgain(irp: Irp)
      requires Loop(irp) in departing
      modifies this`departing
      ensures State() == FinishStep(old(State()), Depart(Loop(irp)))
    {
      departing := departing - {Loop(irp)};
    }

    /** One round of the loop of MPIOC_EmptyIrpCompletionQueue. */
    method CompleteHead()
      requires irpCompletionQueue != []
      modifies this`irpCompletionQueue, this`cancellable, this`popped, this`finished, this`gone, this`irpCount,
        this`departing
      ensures State() == HeadCompleted(old(State())) && irpCompletionQueue == old(irpCompletionQueue)[1..]
    {
      HeadCompletedIs(State());
      var irp := PopCompletionQueue();
      CompleteRequest(irp);
      CountOutRequest(irp);
      TakeLockAgain(irp);
    }

    /** MPIOC_EmptyIrpCompletionQueue when nobody interferes: each entry is popped, completed and counted out,
        until the list is empty. The lock is dropped for each completion; what others do then are other
        events of the model. */
    method EmptyIrpCompletionQueue()
      modifies this`irpCompletionQueue, this`cancellable, this`popped, this`finished, this`gone, this`irpCount,
        this`departing
      ensures State() == Emptied(old(State())) && irpCompletionQueue == []
      ensures gone == old(gone) + multiset(old(irpCompletionQueue))
      ensures irpCount == old(irpCount) - |old(irpCompletionQueue)|
    {
      EmptiedCompletesAll(State());
      while irpCompletionQueue != []
        invariant Emptied(State()) == Emptied(old(State()))
        decreases |irpCompletionQueue|
      {
        CompleteHead();
      }
    }

    /** MPIOC_PurgeQueue for the reads, left alone: whatever waited, here or for completion, is completed once and
        counted out. */
    method PurgeReadQueue()
      modifies this`readIrpQueue, this`irpCompletionQueue, this`cancellable, this`popped, this`finished, this`gone,
        this`irpCount, this`departing
      ensures State() == Emptied(PurgeReadsStep(old(State()))) && readIrpQueue == [] && irpCompletionQueue == []
      ensures gone == old(gone) + multiset(old(irpCompletionQueue) + old(readIrpQueue))
      ensures irpCount == old(irpCount) - |old(irpCompletionQueue)| - |old(readIrpQueue)|
      ensures forall irp :: irp in old(readIrpQueue) ==> irp !in cancellable
    {
      ListReads();
      EmptiedKeepsRest(State());
      EmptyIrpCompletionQueue();
    }

    /** The same for the writes. */
    method PurgeWriteQueue()
      modifies this`writeIrpQueue, this`irpCompletionQueue, this`cancellable, this`popped, this`finished, this`gone,
        this`irpCount, this`history, this`departing
      ensures State() == Emptied(PurgeWritesStep(old(State()))) && writeIrpQueue == [] && irpCompletionQueue == []
      ensures gone == old(gone) + multiset(old(irpCompletionQueue) + old(writeIrpQueue))
      ensures irpCount == old(irpCount) - |old(irpCompletionQueue)| - |old(writeIrpQueue)|
      ensures forall irp :: irp in old(writeIrpQueue) ==> irp !in cancellable
    {
      ListWrites();
      EmptiedKeepsRest(State());
      EmptyIrpCompletionQueue();
    }

    /** The write thread takes the next write off the queue. */
    method DequeueWrite()
      requires writer.pc.LoopTop? && writeIrpQueue != [] && !writer.active
      modifies this`writeIrpQueue, this`writeCurrent, this`writer, this`history
      ensures State() == DequeueStep(old(State()))
      ensures writeCurrent == Some(old(writeIrpQueue)[0]) && writeIrpQueue == old(writeIrpQueue)[1..]
      ensures writer.buffer && writer.pc == if old(writer).buffer then Waiting else Composing
    {
      var irp := writeIrpQueue[0];
      writeIrpQueue := writeIrpQueue[1..];
      writeCurrent := Some(irp);
      if writer.buffer {
        writer := writer.(pc := Waiting);
        history := history.(unsent := history.unsent + {irp});
      } else {
        writer := writer.(pc := Composing, buffer := true);
      }
    }

    /** The out-of-memory branch: the write is completed, but pActiveBuffer stays set. */
    method WriteAllocationFails()
      requires writer.pc.Composing? && writeCurrent.Some?
      modifies this`writeCurrent, this`irpCompletionQueue, this`cancellable, this`writer, this`history
      ensures State() == AllocationFailsStep(old(State()))
      ensures irpCompletionQueue == old(irpCompletionQueue) + [old(writeCurrent).value]
      ensures writeCurrent == None && writer == old(writer).(pc := LoopTop)
    {
      var irp := writeCurrent.value;
      cancellable := cancellable - {irp};  // IoSetCancelRoutine(irp, NULL)
      irpCompletionQueue := irpCompletionQueue + [irp];
      writeCurrent := None;
      writer := writer.(pc := LoopTop);
      history := history.(unsent := history.unsent + {irp});
    }

    /** bWriteActive is set and the internal request goes down to the USB stack. */
    method HandToUsb()
      requires writer.pc.Composing? && writeCurrent.Some?
      modifies this`writer, this`history
      ensures State() == ActivateStep(old(State()))
      ensures writer.active && writer.inUsb == old(writer).inUsb + multiset{writeCurrent.value}
    {
      var irp := writeCurrent.value;
      writer := writer.(pc := Waiting, active := true, inUsb := writer.inUsb + multiset{irp});
      history := history.(sent := history.sent + [irp]);
    }

    /** The locked part of the WRITE_COMPLETION case, with MPIOC_WriteIrpCompletion. */
    method WriteIrpCompletion()
      requires writer.pc.Completing?
      modifies this`writeCurrent, this`irpCompletionQueue, this`cancellable, this`writer
      ensures State() == FinishWriteStep(old(State()))
      ensures writeCurrent == None && !writer.buffer
      ensures irpCompletionQueue == old(irpCompletionQueue)
                                    + if old(writeCurrent).Some? then [old(writeCurrent).value] else []
    {
      if writeCurrent.Some? {
        var irp := writeCurrent.value;
        cancellable := cancellable - {irp};  // IoSetCancelRoutine(irp, NULL)
        irpCompletionQueue := irpCompletionQueue + [irp];
      }
      writeCurrent := None;
      writer := writer.(pc := LoopTop, buffer := false);
    }
  }
}
