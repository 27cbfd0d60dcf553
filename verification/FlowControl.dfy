/** Flow control of outgoing packets: while the device asks for quiet they wait in QMAPFlowControlList
    instead of TxPendingList. Every event is one section under TxLock, except the clearing of the flag on
    a media disconnect, which moves no packet. */
module FlowControl {
  import opened Machine

  /** `held` is the flow-control list. */
  datatype Queues = Queues(pending: seq<nat>, held: seq<nat>, flowControlled: bool)

  /** Arrivals in order; packets handed to USB, in order; packets completed with a failure, in
      order; packets that were held back while a later one was handed to USB. */
  datatype History = History(arrived: seq<nat>, sent: seq<nat>, failed: seq<nat>, overtaken: set<nat>)

  datatype State = State(q: Queues, h: History)

  datatype Event =
    | Offer(packet: nat)
    | Control(on: bool)
    | Transmit                // the head of the pending list goes to USB
    | FailHead                // the miniport is not ready: the head is completed with a failure
    | Purge
    | Disconnect

  function OfferStep(q: Queues, packet: nat): Queues {
    if q.flowControlled then q.(held := q.held + [packet]) else q.(pending := q.pending + [packet])
  }

  function ControlStep(q: Queues, on: bool): Queues {
    if on then Queues([], q.held + q.pending, true) else Queues(q.held + q.pending, [], false)
  }

  function Head(q: Queues): (s: seq<nat>)
    ensures |s| <= 1
  {
    if q.pending == [] then [] else q.pending[..1]
  }

  function PopStep(q: Queues): Queues {
    if q.pending == [] then q else q.(pending := q.pending[1..])
  }

  function PurgeStep(q: Queues): Queues { q.(held := []) }

  function DisconnectStep(q: Queues): Queues { q.(flowControlled := false) }

  predicate Enabled(s: State, e: Event) {
    e.Offer? ==> e.packet !in s.h.arrived
  }

  function Step(s: State, e: Event): State {
    var State(q, h) := s;
    match e
    case Offer(packet) => State(OfferStep(q, packet), h.(arrived := h.arrived + [packet]))
    case Control(on) => State(ControlStep(q, on), h)
    case Transmit =>
      State(PopStep(q), h.(sent := h.sent + Head(q),
                           overtaken := h.overtaken + if q.pending == [] then {} else Elements(q.held)))
    case FailHead => State(PopStep(q), h.(failed := h.failed + Head(q)))
    case Purge => State(PurgeStep(q), h.(failed := h.failed + q.held))
    case Disconnect => State(DisconnectStep(q), h)
  }

  const START := State(Queues([], [], false), History([], [], [], {}))

  predicate Runs(es: seq<Event>) {
    es == [] || (Runs(es[..|es| - 1]) && Enabled(Exec(es[..|es| - 1]), es[|es| - 1]))
  }

  function Exec(es: seq<Event>): State {
    if es == [] then START else Step(Exec(es[..|es| - 1]), es[|es| - 1])
  }

  // ---------------------------------------------------------------------------------------------
  // Filtered lists

  function Without(s: seq<nat>, out: set<nat>): seq<nat> {
    if s == [] then [] else Without(s[..|s| - 1], out) + if s[|s| - 1] in out then [] else [s[|s| - 1]]
  }

  lemma {:induction false} WithoutConcat(a: seq<nat>, b: seq<nat>, out: set<nat>)
    ensures Without(a + b, out) == Without(a, out) + Without(b, out)
  {
    if b == [] {
      assert a + b == a;
    } else {
      assert (a + b)[..|a + b| - 1] == a + b[..|b| - 1];
      WithoutConcat(a, b[..|b| - 1], out);
    }
  }

  lemma {:induction false} WithoutLast(s: seq<nat>, x: nat, out: set<nat>)
    requires x !in out
    ensures Without(s + [x], out) == Without(s, out) + [x]
  {
    assert (s + [x])[..|s|] == s;
  }

  lemma {:induction false} WithoutNone(s: seq<nat>, out: set<nat>)
    requires forall x :: x in s ==> x in out
    ensures Without(s, out) == []
  {
    if s != [] {
      WithoutNone(s[..|s| - 1], out);
    }
  }

  lemma {:induction false} WithoutAll(s: seq<nat>, out: set<nat>)
    requires forall x :: x in s ==> x !in out
    ensures Without(s, out) == s
  {
    if s != [] {
      WithoutAll(s[..|s| - 1], out);
      assert s == s[..|s| - 1] + [s[|s| - 1]];
    }
  }

  lemma {:induction false} WithoutTwice(s: seq<nat>, a: set<nat>, b: set<nat>)
    ensures Without(Without(s, a), b) == Without(s, a + b)
  {
    if s != [] {
      WithoutTwice(s[..|s| - 1], a, b);
      WithoutConcat(Without(s[..|s| - 1], a), if s[|s| - 1] in a then [] else [s[|s| - 1]], b);
    }
  }

  // ---------------------------------------------------------------------------------------------
  // No packet is lost or duplicated

  /** Every arrival is in exactly one place. */
  ghost predicate Conserved(s: State) {
    && NoDuplicates(s.h.arrived)
    && multiset(s.h.arrived)
       == multiset(s.h.sent) + multiset(s.h.failed) + multiset(s.q.held) + multiset(s.q.pending)
  }

  lemma {:induction false} HeadAndRest(q: Queues)
    ensures Head(q) + PopStep(q).pending == q.pending
    ensures multiset(q.pending) == multiset(Head(q)) + multiset(PopStep(q).pending)
  {
    assert multiset(Head(q) + PopStep(q).pending) == multiset(Head(q)) + multiset(PopStep(q).pending);
  }

  lemma {:induction false} StepConserves(s: State, e: Event)
    requires Conserved(s) && Enabled(s, e)
    ensures Conserved(Step(s, e))
  {
    if e.Transmit? || e.FailHead? { HeadAndRest(s.q); }
  }

  /** In every run, whatever the interleaving: no packet is lost and none is duplicated. */
  lemma {:induction false} RunConserves(es: seq<Event>)
    requires Runs(es)
    ensures Conserved(Exec(es))
  {
    if es != [] {
      RunConserves(es[..|es| - 1]);
      StepConserves(Exec(es[..|es| - 1]), es[|es| - 1]);
    }
  }

  lemma {:induction false} OnePlace(s: State, x: nat)
    requires Conserved(s)
    ensures multiset(s.h.sent)[x] + multiset(s.h.failed)[x] + multiset(s.q.held)[x] + multiset(s.q.pending)[x] <= 1
  {
    var m := multiset(s.h.arrived);
    MultiplicityOne(s.h.arrived, x);
    assert m[x] == multiset(s.h.sent)[x] + multiset(s.h.failed)[x] + multiset(s.q.held)[x] + multiset(s.q.pending)[x];
  }

  lemma {:induction false} MultiplicityOne(s: seq<nat>, x: nat)
    requires NoDuplicates(s)
    ensures multiset(s)[x] <= 1
  {
    if s != [] {
      var most, last := s[..|s| - 1], s[|s| - 1];
      MultiplicityOne(most, x);
      assert s == most + [last];
      if x == last { assert x !in most; }
    }
  }

  // ---------------------------------------------------------------------------------------------
  // Order

  /** The arrivals that have not failed, in order. */
  function Kept(h: History, out: set<nat>): seq<nat> { Without(h.arrived, Elements(h.failed) + out) }

  function Waiting(q: Queues): seq<nat> { q.held + q.pending }

  ghost predicate Inv(s: State) {
    && Conserved(s) && (s.q.flowControlled ==> s.q.pending == [])
    && Kept(s.h, Elements(s.h.sent)) == Waiting(s.q)
  }

  lemma {:induction false} InOnePlace(s: State)
    requires Conserved(s)
    ensures forall x :: x in s.h.sent ==> x !in s.h.failed && x !in s.q.held && x !in s.q.pending
    ensures forall x :: x in s.h.failed ==> x !in s.q.held && x !in s.q.pending
    ensures forall x :: x in s.q.held ==> x !in s.q.pending
    ensures forall x :: x in s.h.sent || x in s.h.failed ==> x in s.h.arrived
    ensures s.q.pending != [] ==> forall x :: x in s.q.pending[1..] ==> x != s.q.pending[0]
  {
    forall x ensures x in s.h.sent ==> x !in s.h.failed && x !in s.q.held && x !in s.q.pending { OnePlace(s, x); }
    forall x ensures x in s.h.failed ==> x !in s.q.held && x !in s.q.pending { OnePlace(s, x); }
    forall x ensures x in s.q.held ==> x !in s.q.pending { OnePlace(s, x); }
    forall x | x in s.h.sent || x in s.h.failed ensures x in s.h.arrived {
      assert x in multiset(s.h.arrived);
    }
    if s.q.pending != [] {
      HeadAndRest(s.q);
      OnePlace(s, s.q.pending[0]);
      assert multiset(s.q.pending)[s.q.pending[0]] == 1 + multiset(s.q.pending[1..])[s.q.pending[0]];
    }
  }

  /** Taking out a middle part of a list. */
  lemma {:induction false} CutMiddle(pre: seq<nat>, mid: seq<nat>, post: seq<nat>, out: set<nat>)
    requires forall x :: x in mid ==> x !in pre && x !in post
    ensures Without(pre + mid + post, out + Elements(mid)) == Without(pre + post, out)
  {
    var cut := Elements(mid);
    WithoutConcat(pre + mid, post, out + cut);
    WithoutConcat(pre, mid, out + cut);
    WithoutNone(mid, out + cut);
    WithoutConcat(pre, post, out);
    WithoutSame(pre, out, out + cut);
    WithoutSame(post, out, out + cut);
  }

  lemma {:induction false} WithoutSame(s: seq<nat>, a: set<nat>, b: set<nat>)
    requires forall x :: x in s ==> (x in a <==> x in b)
    ensures Without(s, a) == Without(s, b)
  {
    if s != [] {
      WithoutSame(s[..|s| - 1], a, b);
    }
  }

  lemma {:induction false} WithoutNothing(s: seq<nat>)
    ensures Without(s, {}) == s
  {
    WithoutAll(s, {});
  }

  /** What is taken out of the waiting packets, sent or failed, leaves the rest in the order of arrival. */
  lemma {:induction false} TakenOut(arrived: seq<nat>, out: set<nat>, pre: seq<nat>, mid: seq<nat>, post: seq<nat>)
    requires Without(arrived, out) == pre + mid + post
    requires forall x :: x in mid ==> x !in pre && x !in post
    ensures Without(arrived, out + Elements(mid)) == pre + post
  {
    WithoutTwice(arrived, out, Elements(mid));
    CutMiddle(pre, mid, post, {});
    WithoutNothing(pre + post);
    assert {} + Elements(mid) == Elements(mid);
  }

  lemma {:induction false} OfferKeepsInv(s: State, packet: nat)
    requires Inv(s) && packet !in s.h.arrived
    ensures Inv(Step(s, Offer(packet)))
  {
    var t := Step(s, Offer(packet));
    StepConserves(s, Offer(packet));
    InOnePlace(s);
    WithoutLast(s.h.arrived, packet, Elements(s.h.failed) + Elements(s.h.sent));
    Associate(s.q.held, s.q.pending, [packet]);
    assert s.q.flowControlled ==> Waiting(t.q) == (s.q.held + [packet]) + [] == s.q.held + [packet];
  }

  lemma {:induction false} PopKeepsInv(s: State, e: Event)
    requires Inv(s) && (e.Transmit? || e.FailHead?)
    ensures Inv(Step(s, e))
  {
    var t, head, rest := Step(s, e), Head(s.q), PopStep(s.q).pending;
    StepConserves(s, e);
    InOnePlace(s);
    HeadAndRest(s.q);
    assert s.q.held + (head + rest) == s.q.held + head + rest;
    TakenOut(s.h.arrived, Elements(s.h.failed) + Elements(s.h.sent), s.q.held, head, rest);
    assert Elements(t.h.failed) + Elements(t.h.sent) == Elements(s.h.failed) + Elements(s.h.sent) + Elements(head);
  }

  lemma {:induction false} PurgeKeepsInv(s: State)
    requires Inv(s)
    ensures Inv(Step(s, Purge))
  {
    var t := Step(s, Purge);
    StepConserves(s, Purge);
    InOnePlace(s);
    assert Waiting(s.q) == [] + s.q.held + s.q.pending && [] + s.q.pending == Waiting(t.q);
    TakenOut(s.h.arrived, Elements(s.h.failed) + Elements(s.h.sent), [], s.q.held, s.q.pending);
    assert Elements(t.h.failed) + Elements(t.h.sent)
        == Elements(s.h.failed) + Elements(s.h.sent) + Elements(s.q.held);
  }

  lemma {:induction false} StepKeepsInv(s: State, e: Event)
    requires Inv(s) && Enabled(s, e)
    ensures Inv(Step(s, e))
  {
    match e
    case Offer(packet) => OfferKeepsInv(s, packet);
    case Transmit => PopKeepsInv(s, e);
    case FailHead => PopKeepsInv(s, e);
    case Purge => PurgeKeepsInv(s);
    case Control(on) =>
      StepConserves(s, e);
      assert Waiting(Step(s, e).q) == Waiting(s.q);
    case Disconnect => StepConserves(s, e);
  }

  lemma {:induction false} RunKeepsInv(es: seq<Event>)
    requires Runs(es)
    ensures Inv(Exec(es))
  {
    if es != [] {
      RunKeepsInv(es[..|es| - 1]);
      StepKeepsInv(Exec(es[..|es| - 1]), es[|es| - 1]);
    }
  }

  // ---------------------------------------------------------------------------------------------
  // First in, first out

  function Line(s: State): seq<nat> { s.h.sent + s.q.held + s.q.pending }

  /** Apart from failed packets and those in `out`, the packets stand in the order of arrival. */
  ghost predicate InOrder(s: State, out: set<nat>) { Kept(s.h, out) == Without(Line(s), out) }

  ghost predicate Excused(s: State, out: set<nat>) { s.h.overtaken <= Elements(s.h.failed) + out }

  ghost predicate Apart(s: State, out: set<nat>) { forall x :: x in s.h.sent ==> x !in out }

  lemma {:induction false} OfferOrder(s: State, packet: nat, out: set<nat>)
    requires Inv(s) && packet !in s.h.arrived
    ensures InOrder(Step(s, Offer(packet)), out) <==> InOrder(s, out)
  {
    var t := Step(s, Offer(packet));
    InOnePlace(s);
    assert Line(t) == Line(s) + [packet];
    WithoutConcat(s.h.arrived, [packet], Elements(s.h.failed) + out);
    WithoutConcat(Line(s), [packet], out);
    WithoutSame([packet], Elements(s.h.failed) + out, out);
    SameTail(Kept(s.h, out), Without(Line(s), out), Without([packet], out));
  }

  lemma {:induction false} SameTail(a: seq<nat>, b: seq<nat>, t: seq<nat>)
    ensures a + t == b + t <==> a == b
  {
    if a + t == b + t {
      assert |a| == |b| && (a + t)[..|a|] == a && (b + t)[..|b|] == b;
    }
  }

  lemma {:induction false} FailOrder(s: State, e: Event, pre: seq<nat>, mid: seq<nat>, post: seq<nat>, out: set<nat>)
    requires Conserved(s) && Line(s) == pre + mid + post && Line(Step(s, e)) == pre + post
    requires Step(s, e).h == s.h.(failed := s.h.failed + mid)
    requires forall x :: x in mid ==> x !in pre && x !in post
    ensures InOrder(Step(s, e), out) <==> InOrder(s, out + Elements(mid))
    ensures Excused(Step(s, e), out) <==> Excused(s, out + Elements(mid))
  {
    CutMiddle(pre, mid, post, out);
    assert Elements(s.h.failed + mid) + out == Elements(s.h.failed) + (out + Elements(mid));
  }

  lemma {:induction false} UnsentLine(sent: seq<nat>, others: seq<nat>, out: set<nat>)
    requires forall x :: x in others ==> x !in sent
    ensures Without(sent + others, out + Elements(sent)) == Without(others, out)
  {
    WithoutConcat(sent, others, out + Elements(sent));
    WithoutNone(sent, out + Elements(sent));
    WithoutSame(others, out, out + Elements(sent));
  }

  lemma {:induction false} WithoutMembers(s: seq<nat>, out: set<nat>)
    ensures forall x :: x in Without(s, out) <==> x in s && x !in out
  {
    if s != [] {
      WithoutMembers(s[..|s| - 1], out);
      assert s == s[..|s| - 1] + [s[|s| - 1]];
    }
  }

  lemma {:induction false} FirstDiffers(held: seq<nat>, pending: seq<nat>, p: nat, rest: seq<nat>, out: set<nat>)
    requires p !in held && p !in out && exists x :: x in held && x !in out
    ensures Without(held + pending, out) != Without([p] + held + rest, out)
  {
    WithoutConcat(held, pending, out);
    WithoutConcat([p], held + rest, out);
    assert [p] + held + rest == [p] + (held + rest);
    assert Without([p], out) == [p];
    WithoutMembers(held, out);
    var x :| x in held && x !in out;
    assert x in Without(held, out) && Without(held, out)[0] in Without(held, out);
    assert Without(held + pending, out)[0] == Without(held, out)[0] != p;
  }

  /** Sending `p` past packets that are held back and not given up: what was sent before is filtered out of
      both sides, and the first packet left differs. */
  lemma {:induction false} OvertakingDiffers(arrived: seq<nat>, failed: set<nat>, sent: seq<nat>, held: seq<nat>,
                                             pending: seq<nat>, p: nat, rest: seq<nat>, out: set<nat>)
    requires Without(arrived, failed + Elements(sent)) == held + pending
    requires p !in held && p !in out && forall x :: x == p || x in held || x in rest ==> x !in sent
    requires exists x :: x in held && x !in out
    ensures Without(arrived, failed + out) != Without(sent + ([p] + held + rest), out)
  {
    var gone, line := Elements(sent), [p] + held + rest;
    if Without(arrived, failed + out) == Without(sent + line, out) {
      WithoutTwice(sent + line, out, gone);
      WithoutTwice(arrived, failed + out, gone);
      assert failed + out + gone == failed + gone + out;
      WithoutTwice(arrived, failed + gone, out);
      UnsentLine(sent, line, out);
      FirstDiffers(held, pending, p, rest, out);
    }
  }

  lemma {:induction false} LineAfterTransmit(s: State)
    requires s.q.pending != []
    ensures Line(Step(s, Transmit)) == s.h.sent + ([s.q.pending[0]] + s.q.held + s.q.pending[1..])
  {
  }

  lemma {:induction false} OvertakingBreaksOrder(s: State, out: set<nat>)
    requires Inv(s) && s.q.pending != [] && Apart(Step(s, Transmit), out)
    requires exists x :: x in s.q.held && x !in out
    ensures !InOrder(Step(s, Transmit), out)
  {
    var t, p, rest := Step(s, Transmit), s.q.pending[0], s.q.pending[1..];
    InOnePlace(s);
    LineAfterTransmit(s);
    assert t.h.sent[|s.h.sent|] == p;
    OvertakingDiffers(s.h.arrived, Elements(s.h.failed), s.h.sent, s.q.held, s.q.pending, p, rest, out);
  }

  lemma {:induction false} TransmitOrder(s: State, out: set<nat>)
    requires Inv(s) && Apart(Step(s, Transmit), out) && (InOrder(s, out) <==> Excused(s, out))
    ensures InOrder(Step(s, Transmit), out) <==> Excused(Step(s, Transmit), out)
  {
    var t, rest := Step(s, Transmit), PopStep(s.q).pending;
    HeadAndRest(s.q);
    InOnePlace(s);
    if s.q.pending == [] || s.q.held == [] {
      assert Line(t) == Line(s);
    } else if forall x :: x in s.q.held ==> x in out {
      var head := Head(s.q);
      assert Line(t) == s.h.sent + head + s.q.held + rest && Line(s) == s.h.sent + s.q.held + (head + rest);
      Swap(s.h.sent, head, s.q.held, rest, out);
    } else {
      OvertakingBreaksOrder(s, out);
      var x :| x in s.q.held && x !in out;
      assert x in t.h.overtaken && x !in Elements(t.h.failed) + out;
    }
  }

  lemma {:induction false} Swap(a: seq<nat>, b: seq<nat>, c: seq<nat>, d: seq<nat>, out: set<nat>)
    requires forall x :: x in c ==> x in out
    ensures Without(a + b + c + d, out) == Without(a + c + (b + d), out)
  {
    WithoutConcat(a + b + c, d, out);
    WithoutConcat(a + b, c, out);
    WithoutConcat(a, b, out);
    WithoutConcat(a + c, b + d, out);
    WithoutConcat(a, c, out);
    WithoutConcat(b, d, out);
    WithoutNone(c, out);
    Associate(Without(a, out), Without(b, out), Without(d, out));
  }

  /** The packets that an event takes out as failed. */
  function Failing(q: Queues, e: Event): set<nat> {
    match e
    case FailHead => Elements(Head(q))
    case Purge => Elements(q.held)
    case _ => {}
  }

  ghost predicate OrderLaw(s: State, out: set<nat>) { InOrder(s, out) <==> Excused(s, out) }

  lemma {:induction false} FailHeadOrder(s: State, out: set<nat>)
    requires Inv(s) && OrderLaw(s, out + Failing(s.q, FailHead))
    ensures OrderLaw(Step(s, FailHead), out)
  {
    var head, rest := Head(s.q), PopStep(s.q).pending;
    HeadAndRest(s.q);
    InOnePlace(s);
    assert Line(s) == (s.h.sent + s.q.held) + head + rest;
    FailOrder(s, FailHead, s.h.sent + s.q.held, head, rest, out);
  }

  lemma {:induction false} PurgeOrder(s: State, out: set<nat>)
    requires Inv(s) && OrderLaw(s, out + Failing(s.q, Purge))
    ensures OrderLaw(Step(s, Purge), out)
  {
    InOnePlace(s);
    assert Line(Step(s, Purge)) == s.h.sent + s.q.pending;
    FailOrder(s, Purge, s.h.sent, s.q.held, s.q.pending, out);
  }

  lemma {:induction false} StepOrder(s: State, e: Event, out: set<nat>)
    requires Inv(s) && Enabled(s, e) && Apart(Step(s, e), out) && OrderLaw(s, out + Failing(s.q, e))
    ensures OrderLaw(Step(s, e), out)
  {
    assert out + {} == out;
    match e
    case Offer(packet) => OfferOrder(s, packet, out);
    case Control(on) => assert Line(Step(s, e)) == s.h.sent + Waiting(s.q) == Line(s);
    case Disconnect =>
    case Transmit => TransmitOrder(s, out);
    case FailHead => FailHeadOrder(s, out);
    case Purge => PurgeOrder(s, out);
  }

  lemma {:induction false} StaysApart(s: State, e: Event, out: set<nat>)
    requires Inv(s) && Apart(Step(s, e), out)
    ensures Apart(s, out + Failing(s.q, e))
  {
    InOnePlace(s);
    HeadAndRest(s.q);
    assert forall x :: x in s.h.sent ==> x in Step(s, e).h.sent;
  }

  /** The generalisation that a run keeps: it also holds when some packets not sent yet are left out. */
  lemma {:induction false} OrderBut(es: seq<Event>, out: set<nat>)
    requires Runs(es) && Apart(Exec(es), out)
    ensures OrderLaw(Exec(es), out)
  {
    if es != [] {
      var before, e := es[..|es| - 1], es[|es| - 1];
      RunKeepsInv(before);
      StaysApart(Exec(before), e, out);
      OrderBut(before, out + Failing(Exec(before).q, e));
      StepOrder(Exec(before), e, out);
    }
  }

  /** Arrivals without the failed ones are sent ++ held ++ pending exactly when every packet that was held
      back while another was transmitted has been purged. */
  lemma {:induction false} FirstInFirstOutExactlyWhen(es: seq<Event>)
    requires Runs(es)
    ensures var s := Exec(es);
            Kept(s.h, {}) == s.h.sent + s.q.held + s.q.pending <==> s.h.overtaken <= Elements(s.h.failed)
  {
    OrderBut(es, {});
    WithoutNothing(Line(Exec(es)));
  }

  ghost predicate NoneOvertaken(s: State) {
    s.h.overtaken == {} && (!s.q.flowControlled ==> s.q.held == [])
  }

  lemma {:induction false} StepOvertakesNone(s: State, e: Event)
    requires NoneOvertaken(s) && (s.q.flowControlled ==> s.q.pending == []) && !e.Disconnect?
    ensures NoneOvertaken(Step(s, e))
  {
  }

  /** Only a media disconnect can bring that about: it clears the flag and leaves packets held back. */
  lemma {:induction false} WithoutDisconnectNothingIsOvertaken(es: seq<Event>)
    requires Runs(es) && Disconnect !in es
    ensures NoneOvertaken(Exec(es))
  {
    if es != [] {
      var before := es[..|es| - 1];
      WithoutDisconnectNothingIsOvertaken(before);
      RunKeepsInv(before);
      StepOvertakesNone(Exec(before), es[|es| - 1]);
    }
  }

  // ---------------------------------------------------------------------------------------------
  // What flow control does to packets that wait

  function Transmits(n: nat): seq<Event> { if n == 0 then [] else [Transmit] + Transmits(n - 1) }

  function AfterTransmits(s: State, n: nat): State
    decreases n
  {
    if n == 0 then s else AfterTransmits(Step(s, Transmit), n - 1)
  }

  lemma {:induction false} TransmitSendsHead(s: State, t: State)
    requires s.q.pending != [] && t == Step(s, Transmit)
    ensures t.q == s.q.(pending := s.q.pending[1..]) && t.h.sent == s.h.sent + [s.q.pending[0]]
  {
  }

  lemma {:induction false} TransmitsEmptyQueue(s: State, t: State)
    requires t == AfterTransmits(s, |s.q.pending|)
    ensures t.q == s.q.(pending := []) && t.h.sent == s.h.sent + s.q.pending
    decreases |s.q.pending|
  {
    var waiting := s.q.pending;
    if waiting != [] {
      var u := Step(s, Transmit);
      TransmitSendsHead(s, u);
      TransmitsEmptyQueue(u, t);
      assert waiting == [waiting[0]] + waiting[1..];
      Associate(s.h.sent, [waiting[0]], waiting[1..]);
    }
  }

  lemma {:induction false} RunThen(es: seq<Event>, e: Event)
    requires Runs(es) && Enabled(Exec(es), e)
    ensures Runs(es + [e]) && Exec(es + [e]) == Step(Exec(es), e)
  {
    assert (es + [e])[..|es + [e]| - 1] == es;
  }

  lemma {:induction false} TransmitsUnfold(es: seq<Event>, n: nat)
    ensures es + Transmits(n) == if n == 0 then es else (es + [Transmit]) + Transmits(n - 1)
  {
    if n > 0 { Associate(es, [Transmit], Transmits(n - 1)); }
  }

  lemma {:induction false} TransmitsAreARun(es: seq<Event>, s: State, n: nat, all: seq<Event>)
    requires Runs(es) && Exec(es) == s && all == es + Transmits(n)
    ensures Runs(all) && Exec(all) == AfterTransmits(s, n)
    decreases n
  {
    TransmitsUnfold(es, n);
    if n > 0 {
      RunThen(es, Transmit);
      TransmitsAreARun(es + [Transmit], Step(s, Transmit), n - 1, all);
    }
  }

  lemma {:induction false} FlowOffQueues(s: State, t: State)
    requires t == Step(s, Control(false))
    ensures t.q == Queues(s.q.held + s.q.pending, [], false) && t.h == s.h
  {
  }

  /** When flow control ends, after any run, everything that waits can go: as many transmissions as there are
      packets send exactly the packets held and then those pending, in order, and nothing waits any more. */
  lemma {:induction false} FlowOffSendsAll(es: seq<Event>, s: State, all: seq<Event>)
    requires Runs(es) && s == Exec(es)
    requires all == es + [Control(false)] + Transmits(|s.q.held| + |s.q.pending|)
    ensures Runs(all) && Exec(all).q == Queues([], [], false)
    ensures Exec(all).h.sent == s.h.sent + (s.q.held + s.q.pending)
  {
    var t := Step(s, Control(false));
    FlowOffQueues(s, t);
    RunThen(es, Control(false));
    TransmitsAreARun(es + [Control(false)], t, |t.q.pending|, all);
    TransmitsEmptyQueue(t, AfterTransmits(t, |t.q.pending|));
  }

  ghost predicate Silent(s: State, sent: seq<nat>) { s.h.sent == sent && s.q.pending == [] && s.q.flowControlled }

  lemma {:induction false} StepStaysSilent(s: State, e: Event, sent: seq<nat>)
    requires Silent(s, sent) && e != Control(false) && !e.Disconnect?
    ensures Silent(Step(s, e), sent)
  {
  }

  lemma {:induction false} LastOfRun(es: seq<Event>, e: Event)
    ensures Exec(es + [e]) == Step(Exec(es), e)
  {
    assert (es + [e])[..|es + [e]| - 1] == es;
  }

  /** While flow control is on, nothing is sent: whatever is offered, transmitted, failed or purged after the call,
      until it ends or the media is disconnected. */
  lemma {:induction false} FlowOnSendsNothing(es: seq<Event>, more: seq<Event>)
    requires Control(false) !in more && Disconnect !in more
    ensures Silent(Exec(es + [Control(true)] + more), Exec(es).h.sent)
  {
    var on := es + [Control(true)];
    if more == [] {
      assert on + more == on;
      LastOfRun(es, Control(true));
    } else {
      var before, last := more[..|more| - 1], more[|more| - 1];
      assert on + more == (on + before) + [last];
      FlowOnSendsNothing(es, before);
      LastOfRun(on + before, last);
      StepStaysSilent(Exec(on + before), last, Exec(es).h.sent);
    }
  }

  lemma {:induction false} DisconnectCanReorder()
    ensures exists es :: Runs(es) && Exec(es).h.arrived == [1, 2] && Exec(es).h.sent == [2] && Exec(es).q.held == [1]
  {
    var a := [Control(true)];
    var b := a + [Offer(1)];
    var c := b + [Disconnect];
    var d := c + [Offer(2)];
    var es := d + [Transmit];
    assert a[..0] == [] && b[..1] == a && c[..2] == b && d[..3] == c && es[..4] == d;
    assert Exec(a) == State(Queues([], [], true), History([], [], [], {})) by { assert Exec(a[..0]) == START; }
    assert Exec(b) == State(Queues([], [1], true), History([1], [], [], {}));
    assert Exec(c) == State(Queues([], [1], false), History([1], [], [], {}));
    assert Exec(d) == State(Queues([2], [1], false), History([1, 2], [], [], {}));
    assert Exec(es).h.sent == [2];
    assert Runs(a) && Runs(b) && Runs(c) && Runs(d) && Runs(es);
  }
}
