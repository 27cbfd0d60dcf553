/** The pipe drain of the DPL function driver (QDBRD.c, QDBPNP.c): requests that resubmit themselves
    from their completion routine, a counter of outstanding work, and the removal handshake that
    must not free the buffers before everything has stopped.

    A `Token` is one unit of the counter DrainingRx: a request on its way to the USB stack, a request
    in flight, or a run of the completion routine that has not reached its decrement. Every event is
    one step of one thread; all interleave freely. A routine that sends a request may run on before
    the outcome of the send is known, which only adds interleavings. */
module DrainModel {
  import opened Machine

  /** Success, a status after which the drain retries (STATUS_CANCELLED, STATUS_UNSUCCESSFUL), or any other. */
  datatype Status = Ok | Retryable | Fatal

  datatype Stage =
    | Sending                      // counted, handed to WdfRequestSend, outcome open
    | InFlight
    | Entered(status: Status)      // the completion routine was called
    | Judged(again: bool)          // the status was accounted for
    | Gated(again: bool)           // PipeDrain and DeviceRemoval were read
    | Rearmed(again: bool)         // IsPending was cleared
    | Leaving                      // about to decrement

  datatype Token = Token(request: nat, stage: Stage)

  datatype Cleanup = NotBegun | RemovalFlagged | FirstWait | Polling | ReadyToFree | Freed

  datatype Drain = Drain(
    numOfRxReqs: nat,
    ioFailureThreshold: nat,
    pipeDrain: bool,
    deviceRemoval: bool,
    drainingRx: int,
    ioFailureCount: nat,
    isPending: set<nat>,           // indices of the requests whose IsPending is 1
    drainStoppedEvent: bool,
    starters: seq<nat>,            // PipeDrainStart in progress: the next index each will send
    tokens: seq<Token>,
    signalling: nat,               // completion routines that saw zero and have not read DeviceRemoval
    cleanup: Cleanup,
    sends: nat                     // history: requests handed to WdfRequestSend
  )

  datatype Event =
    | Start                        // the locked part of PipeDrainStart
    | StartSends(starter: nat, formatted: bool)
    | StartReturns(starter: nat)
    | Stop                         // PipeDrainStop
    | SendOutcome(token: nat, accepted: bool)
    | Complete(token: nat, status: Status)
    | Judge(token: nat)
    | Gate(token: nat)
    | Rearm(token: nat)
    | Resend(token: nat, formatted: bool)
    | Leave(token: nat)
    | Signal
    | FlagRemoval
    | StopForRemoval
    | WaitReturns(signalled: bool)
    | Poll(signalled: bool)
    | Free

  predicate At(s: Drain, k: nat, stage: Stage) {
    k < |s.tokens| && s.tokens[k].stage == stage
  }

  /** No PipeDrainStart runs concurrently with the cleanup of the device. */
  predicate Enabled(s: Drain, e: Event) {
    match e
    case Start => s.cleanup.NotBegun?
    case StartSends(i, _) => i < |s.starters| && s.starters[i] < s.numOfRxReqs
    case StartReturns(i) => i < |s.starters| && s.starters[i] >= s.numOfRxReqs
    case Stop => true
    case SendOutcome(k, _) => At(s, k, Sending)
    case Complete(k, _) => At(s, k, InFlight)
    case Judge(k) => k < |s.tokens| && s.tokens[k].stage.Entered?
    case Gate(k) => k < |s.tokens| && s.tokens[k].stage.Judged?
    case Rearm(k) => k < |s.tokens| && s.tokens[k].stage.Gated?
    case Resend(k, _) => k < |s.tokens| && s.tokens[k].stage.Rearmed?
    case Leave(k) => At(s, k, Leaving)
    case Signal => s.signalling > 0
    case FlagRemoval => s.cleanup.NotBegun? && s.starters == []
    case StopForRemoval => s.cleanup.RemovalFlagged?
    case WaitReturns(signalled) => s.cleanup.FirstWait? && (signalled ==> s.drainStoppedEvent)
    case Poll(signalled) => s.cleanup.Polling? && (signalled ==> s.drainStoppedEvent)
    case Free => s.cleanup.ReadyToFree?
  }

  /** The token moves to another stage. */
  function Advance(s: Drain, k: nat, stage: Stage): Drain
    requires k < |s.tokens|
  {
    s.(tokens := s.tokens[k := s.tokens[k].(stage := stage)])
  }

  function Remove<T>(list: seq<T>, k: nat): seq<T>
    requires k < |list|
  {
    list[..k] + list[k + 1..]
  }

  /** QDBRD_SendIOBlock up to WdfRequestSend: the check and set of IsPending is one step. */
  function SendIOBlock(s: Drain, request: nat, formatted: bool): Drain {
    if request in s.isPending || !formatted then s
    else s.(isPending := s.isPending + {request}, drainingRx := s.drainingRx + 1,
            tokens := s.tokens + [Token(request, Sending)], sends := s.sends + 1)
  }

  function CountAfter(s: Drain, status: Status): nat {
    match status
    case Ok => 0
    case Retryable => (s.ioFailureCount + 1) % ULONG_SIZE
    case Fatal => s.ioFailureCount
  }

  function Again(s: Drain, status: Status): bool {
    status.Ok? || (status.Retryable? && CountAfter(s, status) <= s.ioFailureThreshold)
  }

  function Step(s: Drain, e: Event): Drain
    requires Enabled(s, e)
  {
    match e
    case Start => if s.pipeDrain then s else s.(pipeDrain := true, starters := s.starters + [0])
    case StartSends(i, formatted) =>
      SendIOBlock(s, s.starters[i], formatted).(starters := s.starters[i := s.starters[i] + 1])
    case StartReturns(i) => s.(starters := Remove(s.starters, i))
    case Stop => s.(pipeDrain := false)
    case SendOutcome(k, accepted) =>
      if accepted then Advance(s, k, InFlight)
      else s.(drainingRx := s.drainingRx - 1, tokens := Remove(s.tokens, k))
    case Complete(k, status) => Advance(s, k, Entered(status))
    case Judge(k) =>
      var status := s.tokens[k].stage.status;
      Advance(s, k, Judged(Again(s, status))).(ioFailureCount := CountAfter(s, status))
    case Gate(k) => Advance(s, k, Gated(s.tokens[k].stage.again && s.pipeDrain && !s.deviceRemoval))
    case Rearm(k) =>
      Advance(s, k, Rearmed(s.tokens[k].stage.again)).(isPending := s.isPending - {s.tokens[k].request})
    case Resend(k, formatted) =>
      var t := Advance(s, k, Leaving);
      if s.tokens[k].stage.again then SendIOBlock(t, s.tokens[k].request, formatted) else t
    case Leave(k) =>
      s.(drainingRx := s.drainingRx - 1, tokens := Remove(s.tokens, k),
         signalling := if s.drainingRx == 1 then s.signalling + 1 else s.signalling)
    case Signal => s.(signalling := s.signalling - 1, drainStoppedEvent := s.drainStoppedEvent || s.deviceRemoval)
    case FlagRemoval => s.(deviceRemoval := true, cleanup := RemovalFlagged)
    case StopForRemoval => s.(pipeDrain := false, cleanup := FirstWait)
    case WaitReturns(signalled) =>
      s.(drainStoppedEvent := s.drainStoppedEvent && !signalled, cleanup := if signalled then ReadyToFree else Polling)
    case Poll(signalled) =>
      if s.drainingRx == 0 then s.(cleanup := ReadyToFree)
      else s.(drainStoppedEvent := s.drainStoppedEvent && !signalled)
    case Free => s.(cleanup := Freed)
  }

  ghost predicate Runs(s: Drain, es: seq<Event>)
    decreases |es|
  {
    es == [] || (Enabled(s, es[0]) && Runs(Step(s, es[0]), es[1..]))
  }

  ghost function Exec(s: Drain, es: seq<Event>): Drain
    requires Runs(s, es)
    decreases |es|
  {
    if es == [] then s else Exec(Step(s, es[0]), es[1..])
  }

  /** The device as QDBPNP_EvtDevicePrepareHW leaves it, before the first start. */
  predicate Fresh(s: Drain) {
    && !s.pipeDrain && !s.deviceRemoval && !s.drainStoppedEvent
    && s.drainingRx == 0 && s.ioFailureCount == 0 && s.signalling == 0 && s.sends == 0
    && s.isPending == {} && s.starters == [] && s.tokens == [] && s.cleanup.NotBegun?
    && s.ioFailureThreshold < ULONG_SIZE
  }

  /** A token that holds its request: nobody else may touch or send it. */
  predicate Holds(stage: Stage) {
    stage.Sending? || stage.InFlight? || stage.Entered? || stage.Judged? || stage.Gated?
  }

  /** Who holds a request has IsPending set and is the only one. */
  ghost predicate Exclusive(tokens: seq<Token>, isPending: set<nat>) {
    && (forall k :: 0 <= k < |tokens| && Holds(tokens[k].stage) ==> tokens[k].request in isPending)
    && (forall j, k :: 0 <= j < k < |tokens| && Holds(tokens[j].stage) && Holds(tokens[k].stage)
          ==> tokens[j].request != tokens[k].request)
  }

  ghost predicate Inv(s: Drain) {
    && s.drainingRx == |s.tokens|
    && s.ioFailureCount < ULONG_SIZE && s.ioFailureThreshold < ULONG_SIZE
    && Exclusive(s.tokens, s.isPending)
    && (s.deviceRemoval <==> !s.cleanup.NotBegun?)
    && (s.deviceRemoval ==> s.starters == [])
    && (s.drainStoppedEvent ==> s.deviceRemoval)
    && (s.pipeDrain ==> s.cleanup.NotBegun? || s.cleanup.RemovalFlagged?)
  }

  /** The buffers are about to be freed, or are freed, only when nothing is in flight and nothing is
      left that could send a request again. */
  ghost predicate FreesSafely(s: Drain) {
    s.cleanup.ReadyToFree? || s.cleanup.Freed? ==> s.drainingRx == 0 && s.tokens == [] && s.starters == []
  }
}
