/** The control-channel client of the miniport (MPIOC.c): one device object whose read, write and
    notification requests move between lists, a "current write" slot, notification slots and a
    completion list.

    A `Device` is the state of one MPIOC_DEV_INFO plus what the kernel knows about its requests
    (which have a cancel routine installed, which cancel routines have been called) and where the
    code that runs outside `IoLock` stands. An `Event` is one region of code that runs without
    interference: a section under `IoLock`, an `Interlocked` operation, `IoSetCancelRoutine` as an
    atomic swap, or a move of the write worker thread. Events of all threads interleave freely. */
module ClientModel {
  import opened Machine

  datatype Kind = Read | Write | Notify | Create | Close | Other

  /** A request is an identity; `length` is the size of its buffer. */
  datatype Irp = Irp(id: nat, kind: Kind, length: nat)

  /** The pointers NotificationIrp, IPV4MtuNotificationIrp and IPV6MtuNotificationIrp. */
  datatype Slot = Removal | Ipv4Mtu | Ipv6Mtu

  /** Where the write worker thread stands in its loop. */
  datatype WriterPc = Stopped | LoopTop | Composing | Waiting | Completing

  /** Every place where a request can be. */
  datatype Places = Places(
    readIrpQueue: seq<Irp>,
    writeIrpQueue: seq<Irp>,
    irpCompletionQueue: seq<Irp>,
    slots: map<Slot, Irp>,           // an absent key is a NULL pointer
    writeCurrent: Option<Irp>,       // pWriteCurrent
    cancelling: set<Irp>,            // the cancel routine was called and has not reached IoLock yet
    inDispatch: multiset<Irp>,       // counted, held by a dispatch routine that will complete it
    returned: multiset<Irp>,         // counted out by its dispatch routine, which is about to complete it
    popped: multiset<Irp>,           // taken off the completion list, about to be completed
    finished: multiset<Irp>,         // completed, not yet counted out
    gone: multiset<Irp>              // completed and counted out
  )

  datatype Device = Device(
    at: Places,
    cancellable: set<Irp>,           // a cancel routine is installed
    irpCount: int,                   // IrpCount
    departing: set<Tail>,
    readDataQueue: seq<nat>,         // lengths of the messages no reader has taken yet
    writer: Writer,
    history: History
  )

  /** A last access to the device that a routine has still to make for a request, counted or not. */
  datatype Tail =
    | Kick(irp: Irp)                 // MPIOC_Write kicks the write thread after it has released IoLock
    | Loop(irp: Irp)                 // the completion loop takes IoLock again after it has counted a request out
    | Return(irp: Irp)               // a close or a failed create uses the device after it has counted itself out

  datatype Writer = Writer(
    pc: WriterPc,
    active: bool,                    // bWriteActive
    buffer: bool,                    // pActiveBuffer != NULL, a local of the write thread
    completionEvent: bool,           // WriteCompletionEvent
    inUsb: multiset<Irp>             // handed to the USB stack and not yet returned by it
  )

  datatype History = History(
    accepted: seq<Irp>,              // every request that was counted in
    sent: seq<Irp>,                  // every write handed to the USB stack
    withdrawn: set<Irp>,             // writes cancelled or purged while queued
    unsent: set<Irp>,                // writes dequeued but dropped for want of a buffer
    kept: seq<nat>,                  // messages that a waiting read took or that were queued
    fates: seq<Fate>                 // what became of those that are not queued any more
  )

  /** A message went to a read, or was discarded with the queue. */
  datatype Fate = Delivered(length: nat, to: Irp) | Cleared(length: nat)

  datatype Event =
    | Arrives(irp: Irp)              // a request is counted in, by its kind
    | Move(queue: QueueEvent)
    | Finish(finish: FinishEvent)
    | Work(work: WriterEvent)

  /** Sections under IoLock that move waiting requests, and the kernel's cancellation of one. */
  datatype QueueEvent =
    | CacheNotification(irp: Irp, slot: Slot)
    | PostNotification(slot: Slot)
    | CancelNotification(slot: Slot)
    | Cancel(irp: Irp)
    | CancelRoutineRuns(irp: Irp, found: bool)
    | MessageArrives(length: nat, stored: bool)
    | ClearReadData
    | PurgeReads
    | PurgeWrites

  /** The completion path. */
  datatype FinishEvent =
    | DispatchReturns(irp: Irp, success: bool)
    | CompleteReturned(irp: Irp)
    | PopCompletion
    | CompletePopped(irp: Irp)
    | CountOut(irp: Irp)
    | Depart(tail: Tail)

  /** The write worker thread and the USB stack below it. */
  datatype WriterEvent =
    | StartWriter
    | Dequeue
    | AllocationFails
    | Activate
    | UsbCompletes(irp: Irp)
    | WriteDone
    | FinishWrite
    | WaitEnds
    | NothingToSend
    | ExitWriter

  const FRESH_DEVICE: Device :=
    Device(Places([], [], [], map[], None, {}, multiset{}, multiset{}, multiset{}, multiset{}, multiset{}),
           {}, 0, {}, [], Writer(Stopped, false, false, false, multiset{}), History([], [], {}, {}, [], []))

  predicate InSlot(slots: map<Slot, Irp>, irp: Irp) {
    exists t :: t in slots && slots[t] == irp
  }

  /** No request is in two slots. */
  predicate SlotsDistinct(slots: map<Slot, Irp>) {
    forall t, u :: t in slots && u in slots && slots[t] == slots[u] ==> t == u
  }

  /** RemoveEntryList: the first entry equal to `irp` leaves the list. */
  function Unlink(queue: seq<Irp>, irp: Irp): seq<Irp> {
    if queue == [] then []
    else if queue[0] == irp then queue[1..]
    else [queue[0]] + Unlink(queue[1..], irp)
  }

  /** True of a queued read that a message of the given length completes with data. */
  predicate Fits(irp: Irp, cancellable: set<Irp>, length: nat) {
    irp in cancellable && irp.length >= length
  }

  /** How many reads the delivery of one message takes off the queue: up to and including the
      first one that fits, or all of them. */
  function Taken(queue: seq<Irp>, cancellable: set<Irp>, length: nat): (k: nat)
    ensures k <= |queue|
    ensures forall i :: 0 <= i < k - 1 ==> !Fits(queue[i], cancellable, length)
  {
    if queue == [] then 0
    else if Fits(queue[0], cancellable, length) then 1
    else 1 + Taken(queue[1..], cancellable, length)
  }

  predicate Filled(queue: seq<Irp>, cancellable: set<Irp>, length: nat) {
    var k := Taken(queue, cancellable, length);
    k > 0 && Fits(queue[k - 1], cancellable, length)
  }

  function AllCleared(messages: seq<nat>): (fates: seq<Fate>) {
    if messages == [] then [] else [Cleared(messages[0])] + AllCleared(messages[1..])
  }

  function ToSeq(o: Option<Irp>): seq<Irp> {
    if o.Some? then [o.value] else []
  }

  predicate Enabled(s: Device, e: Event) {
    match e
    case Arrives(irp) => irp !in s.history.accepted
    case Move(q) => MoveEnabled(s, q)
    case Finish(f) => FinishEnabled(s, f)
    case Work(w) => WorkEnabled(s, w)
  }

  predicate MoveEnabled(s: Device, q: QueueEvent) {
    match q
    case CacheNotification(irp, _) => irp in s.at.inDispatch && irp.kind.Notify?
    case Cancel(irp) => irp in s.cancellable
    case CancelRoutineRuns(irp, _) => irp in s.at.cancelling
    case _ => true
  }

  predicate FinishEnabled(s: Device, f: FinishEvent) {
    match f
    case DispatchReturns(irp, _) => irp in s.at.inDispatch
    case CompleteReturned(irp) => irp in s.at.returned
    case PopCompletion => s.at.irpCompletionQueue != []
    case CompletePopped(irp) => irp in s.at.popped
    case CountOut(irp) => irp in s.at.finished
    case Depart(tail) => tail in s.departing
  }

  predicate WorkEnabled(s: Device, w: WriterEvent) {
    match w
    case StartWriter => s.writer.pc.Stopped?
    case Dequeue => s.writer.pc.LoopTop? && s.at.writeIrpQueue != [] && !s.writer.active
    case AllocationFails => s.writer.pc.Composing?
    case Activate => s.writer.pc.Composing?
    case UsbCompletes(irp) => irp in s.writer.inUsb
    case WriteDone => s.writer.pc.Waiting? && s.writer.completionEvent
    case FinishWrite => s.writer.pc.Completing?
    case WaitEnds => s.writer.pc.Waiting?
    case NothingToSend => s.writer.pc.LoopTop?
    case ExitWriter => s.writer.pc.LoopTop?
  }

  // ---------------------------------------------------------------------------------------------
  // Where requests go

  /** Appends to the completion list. */
  function ToCompletion(p: Places, irps: seq<Irp>): Places {
    p.(irpCompletionQueue := p.irpCompletionQueue + irps)
  }

  /** Where an arriving request goes: a read waits unless data is queued already, a write waits for the
      write thread, and the rest stays with its dispatch routine. */
  function EnterPlaces(p: Places, irp: Irp, dataQueued: bool): Places {
    if irp.kind.Read? && !dataQueued then p.(readIrpQueue := p.readIrpQueue + [irp])
    else if irp.kind.Write? then p.(writeIrpQueue := p.writeIrpQueue + [irp])
    else p.(inDispatch := p.inDispatch + multiset{irp})
  }

  /** MPIOC_CancelReadRoutine. */
  function CancelRead(p: Places, irp: Irp): Places {
    if irp !in p.readIrpQueue then p
    else ToCompletion(p.(readIrpQueue := Unlink(p.readIrpQueue, irp)), [irp])
  }

  /** MPIOC_CancelWriteRoutine, when the request is not the active write. */
  function CancelWrite(p: Places, irp: Irp): Places {
    if irp !in p.writeIrpQueue then p
    else ToCompletion(p.(writeIrpQueue := Unlink(p.writeIrpQueue, irp)), [irp])
  }

  /** MPIOC_CancelNotificationRoutine. */
  function CancelNotify(p: Places, irp: Irp): Places {
    ToCompletion(p.(slots := map t | t in p.slots && p.slots[t] != irp :: p.slots[t]), [irp])
  }

  /** The cancel routine of the request, chosen by its kind. */
  function CancelPlaces(p: Places, irp: Irp, active: bool): Places {
    match irp.kind
    case Read => CancelRead(p, irp)
    case Write => if active then p else CancelWrite(p, irp)
    case Notify => CancelNotify(p, irp)
    case _ => p
  }

  /** The request leaves its slot, and goes to the completion list if `complete`. */
  function LeaveSlot(p: Places, slot: Slot, complete: bool): Places
    requires slot in p.slots
  {
    ToCompletion(p.(slots := p.slots - {slot}), if complete then [p.slots[slot]] else [])
  }

  /** The current write goes to the completion list and pWriteCurrent becomes NULL. */
  function RetireCurrent(p: Places): Places {
    ToCompletion(p.(writeCurrent := None), ToSeq(p.writeCurrent))
  }

  // ---------------------------------------------------------------------------------------------
  // Events

  /** MPIOC_Read, MPIOC_Write or MPIOC_IRPDispatch counts a request in. A read that arrives while data
      is queued takes the first message if it fits, and is completed at once either way. A write that finds the
      queue empty has still to kick the write thread. */
  function ArriveStep(s: Device, irp: Irp): Device {
    var dataQueued := s.readDataQueue != [];
    var queued := (irp.kind.Read? && !dataQueued) || irp.kind.Write?;
    var taken := if irp.kind.Read? && dataQueued && irp.length >= s.readDataQueue[0] then 1 else 0;
    var kicks := irp.kind.Write? && s.at.writeIrpQueue == [];
    s.(at := EnterPlaces(s.at, irp, dataQueued), irpCount := s.irpCount + 1,
       departing := if kicks then s.departing + {Kick(irp)} else s.departing,
       cancellable := if queued then s.cancellable + {irp} else s.cancellable,
       readDataQueue := s.readDataQueue[taken..],
       history := s.history.(accepted := s.history.accepted + [irp],
                             fates := s.history.fates
                                      + if taken == 1 then [Delivered(s.readDataQueue[0], irp)] else []))
  }

  function CacheStep(s: Device, irp: Irp, slot: Slot): Device {
    if slot in s.at.slots then s
    else s.(at := s.at.(inDispatch := s.at.inDispatch - multiset{irp}, slots := s.at.slots[slot := irp]),
            cancellable := s.cancellable + {irp})
  }

  /** The write is with the USB stack: its cancel routine only restores itself and signals the thread. */
  predicate IsActiveWrite(s: Device, irp: Irp) {
    irp.kind.Write? && s.at.writeCurrent == Some(irp) && s.writer.active
  }

  /** The cancel routine of the request runs under IoLock. `found` is false when the routine cannot
      look up its device. */
  function CancelStep(s: Device, irp: Irp, found: bool): Device {
    var p := s.at.(cancelling := s.at.cancelling - {irp});
    var queued := irp.kind.Write? && irp in p.writeIrpQueue && !IsActiveWrite(s, irp);
    var withdrawn := if found && queued then {irp} else {};
    s.(at := if found then CancelPlaces(p, irp, IsActiveWrite(s, irp)) else p,
       cancellable := if found && IsActiveWrite(s, irp) then s.cancellable + {irp} else s.cancellable - {irp},
       history := s.history.(withdrawn := s.history.withdrawn + withdrawn))
  }

  /** The read-filling loop of the inbound message path. */
  function MessageStep(s: Device, length: nat, stored: bool): Device {
    var k := Taken(s.at.readIrpQueue, s.cancellable, length);
    var filled := Filled(s.at.readIrpQueue, s.cancellable, length);
    var queued := if filled || !stored then [] else [length];
    var fate := if filled then [Delivered(length, s.at.readIrpQueue[k - 1])] else [];
    var taken := s.at.readIrpQueue[..k];
    s.(at := ToCompletion(s.at.(readIrpQueue := s.at.readIrpQueue[k..]), taken),
       cancellable := s.cancellable - Elements(taken), readDataQueue := s.readDataQueue + queued,
       history := s.history.(kept := s.history.kept + (if filled || stored then [length] else []),
                             fates := s.history.fates + fate))
  }

  function PostStep(s: Device, slot: Slot): Device {
    if slot !in s.at.slots then s
    else
      var irp := s.at.slots[slot];
      s.(at := LeaveSlot(s.at, slot, irp in s.cancellable), cancellable := s.cancellable - {irp})
  }

  function CancelNotificationStep(s: Device, slot: Slot): Device {
    if slot !in s.at.slots || s.at.slots[slot] !in s.cancellable then s
    else s.(at := LeaveSlot(s.at, slot, true), cancellable := s.cancellable - {s.at.slots[slot]})
  }

  function ClearStep(s: Device): Device {
    s.(readDataQueue := [], history := s.history.(fates := s.history.fates + AllCleared(s.readDataQueue)))
  }

  function PurgeReadsStep(s: Device): Device {
    s.(at := ToCompletion(s.at.(readIrpQueue := []), s.at.readIrpQueue),
       cancellable := s.cancellable - Elements(s.at.readIrpQueue))
  }

  function PurgeWritesStep(s: Device): Device {
    s.(at := ToCompletion(s.at.(writeIrpQueue := []), s.at.writeIrpQueue),
       cancellable := s.cancellable - Elements(s.at.writeIrpQueue),
       history := s.history.(withdrawn := s.history.withdrawn + Elements(s.at.writeIrpQueue)))
  }

  function PopStep(s: Device): Device
    requires s.at.irpCompletionQueue != []
  {
    var irp := s.at.irpCompletionQueue[0];
    s.(at := s.at.(irpCompletionQueue := s.at.irpCompletionQueue[1..], popped := s.at.popped + multiset{irp}),
       cancellable := s.cancellable - {irp})
  }

  /** A dispatch routine counts its request out before it completes it. A close then looks at the type and the
      open count of the device, and a failed create takes its open count back. */
  function ReturnStep(s: Device, irp: Irp, success: bool): Device {
    var comesBack := irp.kind.Close? || (irp.kind.Create? && !success);
    s.(at := s.at.(inDispatch := s.at.inDispatch - multiset{irp}, returned := s.at.returned + multiset{irp}),
       irpCount := s.irpCount - 1, departing := if comesBack then s.departing + {Return(irp)} else s.departing)
  }

  function CountOutStep(s: Device, irp: Irp): Device {
    s.(at := s.at.(finished := s.at.finished - multiset{irp}, gone := s.at.gone + multiset{irp}),
       irpCount := s.irpCount - 1, departing := s.departing + {Loop(irp)})
  }

  /** With a buffer left over from an earlier failure the thread skips to its wait. */
  function DequeueStep(s: Device): Device
    requires s.at.writeIrpQueue != []
  {
    var irp := s.at.writeIrpQueue[0];
    var skip := s.writer.buffer;
    s.(at := s.at.(writeIrpQueue := s.at.writeIrpQueue[1..], writeCurrent := Some(irp)),
       writer := s.writer.(buffer := true, pc := if skip then Waiting else Composing),
       history := s.history.(unsent := if skip then s.history.unsent + {irp} else s.history.unsent))
  }

  function AllocationFailsStep(s: Device): Device {
    s.(at := RetireCurrent(s.at), cancellable := s.cancellable - Elements(ToSeq(s.at.writeCurrent)),
       writer := s.writer.(pc := LoopTop),
       history := s.history.(unsent := s.history.unsent + Elements(ToSeq(s.at.writeCurrent))))
  }

  function ActivateStep(s: Device): Device {
    var irps := ToSeq(s.at.writeCurrent);
    s.(writer := s.writer.(pc := Waiting, active := true, inUsb := s.writer.inUsb + multiset(irps)),
       history := s.history.(sent := s.history.sent + irps))
  }

  function FinishWriteStep(s: Device): Device {
    s.(at := RetireCurrent(s.at), cancellable := s.cancellable - Elements(ToSeq(s.at.writeCurrent)),
       writer := s.writer.(pc := LoopTop, buffer := false))
  }

  function MoveStep(s: Device, q: QueueEvent): Device {
    match q
    case CacheNotification(irp, slot) => CacheStep(s, irp, slot)
    case PostNotification(slot) => PostStep(s, slot)
    case CancelNotification(slot) => CancelNotificationStep(s, slot)
    case Cancel(irp) => s.(at := s.at.(cancelling := s.at.cancelling + {irp}), cancellable := s.cancellable - {irp})
    case CancelRoutineRuns(irp, found) => CancelStep(s, irp, found)
    case MessageArrives(length, stored) => MessageStep(s, length, stored)
    case ClearReadData => ClearStep(s)
    case PurgeReads => PurgeReadsStep(s)
    case PurgeWrites => PurgeWritesStep(s)
  }

  function FinishStep(s: Device, f: FinishEvent): Device
    requires FinishEnabled(s, f)
  {
    match f
    case DispatchReturns(irp, success) => ReturnStep(s, irp, success)
    case CompleteReturned(irp) =>
      s.(at := s.at.(returned := s.at.returned - multiset{irp}, gone := s.at.gone + multiset{irp}))
    case PopCompletion => PopStep(s)
    case CompletePopped(irp) =>
      s.(at := s.at.(popped := s.at.popped - multiset{irp}, finished := s.at.finished + multiset{irp}))
    case CountOut(irp) => CountOutStep(s, irp)
    case Depart(tail) => s.(departing := s.departing - {tail})
  }

  function WorkStep(s: Device, w: WriterEvent): Device
    requires WorkEnabled(s, w)
  {
    match w
    case StartWriter =>
      s.(at := s.at.(writeCurrent := None), writer := s.writer.(pc := LoopTop, active := false, buffer := false))
    case Dequeue => DequeueStep(s)
    case AllocationFails => AllocationFailsStep(s)
    case Activate => ActivateStep(s)
    case UsbCompletes(irp) =>
      s.(writer := s.writer.(inUsb := s.writer.inUsb - multiset{irp}, completionEvent := true))
    case WriteDone => s.(writer := s.writer.(pc := Completing, active := false, completionEvent := false))
    case FinishWrite => FinishWriteStep(s)
    case WaitEnds => s.(writer := s.writer.(pc := LoopTop))
    case NothingToSend => s.(writer := s.writer.(pc := Waiting))
    case ExitWriter => s.(writer := s.writer.(pc := Stopped))
  }

  function Step(s: Device, e: Event): Device
    requires Enabled(s, e)
  {
    match e
    case Arrives(irp) => ArriveStep(s, irp)
    case Move(q) => MoveStep(s, q)
    case Finish(f) => FinishStep(s, f)
    case Work(w) => WorkStep(s, w)
  }

  ghost predicate Runs(s: Device, es: seq<Event>)
    decreases |es|
  {
    es == [] || (Enabled(s, es[0]) && Runs(Step(s, es[0]), es[1..]))
  }

  /** The state after a whole run. */
  ghost function Exec(s: Device, es: seq<Event>): Device
    requires Runs(s, es)
    decreases |es|
  {
    if es == [] then s else Exec(Step(s, es[0]), es[1..])
  }

  // ---------------------------------------------------------------------------------------------
  // Ownership

  /** A notification request belongs to its cancel routine once that was called, else to its slot. */
  function NotifyOwners(p: Places, x: Irp): nat {
    Bit((x.kind.Notify? && x in p.cancelling) || InSlot(p.slots, x))
  }

  /** Holders of a request that has left its queue or slot for completion, or is still dispatched. */
  function AwayOwners(p: Places, x: Irp): nat {
    multiset(p.irpCompletionQueue)[x] + p.inDispatch[x] + p.returned[x] + p.popped[x] + p.finished[x] + p.gone[x]
  }

  /** How many holders a request has: lists, slots, the current write, a running notification-cancel
      routine, a dispatch routine, the completion path, or done. */
  function Owners(p: Places, x: Irp): nat {
    multiset(p.readIrpQueue)[x] + multiset(p.writeIrpQueue)[x] + Bit(p.writeCurrent == Some(x))
    + NotifyOwners(p, x) + AwayOwners(p, x)
  }

  /** The requests that were counted out. */
  function CountedOut(p: Places): multiset<Irp> { p.gone + p.returned }

  /** How often a request has been completed. */
  function Completions(p: Places, x: Irp): nat { p.finished[x] + p.gone[x] }

  /** The request that an event drops on the floor, if any. Every case is a guard that the code
      could test before it acts. */
  function Lost(s: Device, e: Event): Option<Irp> {
    match e
    case Move(q) => LostByMove(s, q)
    case Work(w) => if w.Dequeue? || w.StartWriter? then s.at.writeCurrent else None
    case _ => None
  }

  function LostByMove(s: Device, q: QueueEvent): Option<Irp> {
    match q
    case CancelRoutineRuns(irp, found) =>
      if !found && irp.kind.Notify? && !InSlot(s.at.slots, irp) then Some(irp) else None
    case PostNotification(slot) =>
      if slot in s.at.slots && s.at.slots[slot] !in s.cancellable && s.at.slots[slot] !in s.at.cancelling
      then Some(s.at.slots[slot]) else None
    case _ => None
  }

  ghost predicate LosesNothing(s: Device, es: seq<Event>)
    requires Runs(s, es)
    decreases |es|
  {
    es == [] || (Lost(s, es[0]).None? && LosesNothing(Step(s, es[0]), es[1..]))
  }

  /** What a device keeps over every run, lossy ones included. */
  ghost predicate Inv(s: Device) {
    AtMostOneOwner(s) && Wired(s)
  }

  ghost predicate Wired(s: Device) {
    && SlotsDistinct(s.at.slots)
    && (forall t :: t in s.at.slots ==> s.at.slots[t].kind.Notify?)
    && CancelConsistent(s)
    && (s.writer.pc.Composing? ==> s.at.writeCurrent.Some?)
    && s.irpCount == |s.history.accepted| - |s.at.gone| - |s.at.returned|
    && (s.at.readIrpQueue == [] || s.readDataQueue == [])
  }

  ghost predicate AtMostOneOwner(s: Device) {
    forall x :: Owners(s.at, x) <= Bit(x in s.history.accepted)
  }

  /** A request with a cancel routine still waits: nobody is completing it. */
  ghost predicate CancelConsistent(s: Device) {
    && s.cancellable !! s.at.cancelling
    && (forall x :: x in s.cancellable ==>
          x in s.history.accepted && AwayOwners(s.at, x) == 0 && (x.kind.Notify? ==> InSlot(s.at.slots, x)))
    && (forall x :: x in s.at.cancelling ==>
          x in s.history.accepted && s.at.inDispatch[x] == 0 && s.at.returned[x] == 0)
    && (forall x :: x in s.cancellable || x in s.at.cancelling ==> x.kind.Read? || x.kind.Write? || x.kind.Notify?)
  }
}
