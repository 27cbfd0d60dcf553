/** MPIOC_FindIoDevice, and the loop of MPQMUX.c that uses it to give a broadcast to every client. The list
    of devices does not change while a broadcast is delivered. */
module DeviceSearch {
  import opened Machine

  const BROADCAST: byte := 0xFF

  /** What the search looks at in an adapter: the multiplexing that the filter reported. */
  datatype Adapter = Adapter(id: nat, muxEnabled: nat, physical: byte, filter: nat)

  datatype Client = Client(id: nat, adapter: Adapter, qmiType: byte, clientId: byte, clientIdV6: byte)

  /** With multiplexing, all adapters on one physical interface of one filter are searched. */
  predicate SameLink(a: Adapter, c: Client) {
    if a.muxEnabled != 1 then c.adapter == a
    else c.adapter.physical == a.physical && c.adapter.filter == a.filter
  }

  predicate IsFirst(a: Adapter, qmiType: byte, clientId: byte, c: Client) {
    && c.qmiType == qmiType && SameLink(a, c)
    && (c.clientId == clientId || c.clientIdV6 == clientId || (clientId == BROADCAST && c.clientId != 0))
  }

  /** "Find next" no longer looks at the client id of the message. */
  predicate IsNext(a: Adapter, qmiType: byte, c: Client) {
    c.clientId != 0 && c.qmiType == qmiType && SameLink(a, c)
  }

  function First(cs: seq<Client>, a: Adapter, qmiType: byte, clientId: byte): Option<Client> {
    if cs == [] then None
    else if IsFirst(a, qmiType, clientId, cs[0]) then Some(cs[0])
    else First(cs[1..], a, qmiType, clientId)
  }

  function Next(cs: seq<Client>, a: Adapter, qmiType: byte): Option<Client> {
    if cs == [] then None
    else if IsNext(a, qmiType, cs[0]) then Some(cs[0])
    else Next(cs[1..], a, qmiType)
  }

  /** What comes after the reference; nothing if it is not in the list. */
  function After(cs: seq<Client>, reference: Client): (r: seq<Client>) {
    if cs == [] then [] else if cs[0] == reference then cs[1..] else After(cs[1..], reference)
  }

  /** A message for one client goes to the first listed client of its type and link that has its id, as the
      client's own or as its IPv6 one; to nobody exactly if there is none. */
  lemma {:induction false} FirstIsAddressee(cs: seq<Client>, a: Adapter, qmiType: byte, clientId: byte)
    requires clientId != 0xFF
    ensures var has := (c: Client) =>
              && c.qmiType == qmiType && (c.clientId == clientId || c.clientIdV6 == clientId)
              && (if a.muxEnabled == 1 then c.adapter.physical == a.physical && c.adapter.filter == a.filter
                  else c.adapter == a);
            match First(cs, a, qmiType, clientId)
            case None => forall i :: 0 <= i < |cs| ==> !has(cs[i])
            case Some(c) => exists i :: 0 <= i < |cs| && cs[i] == c && has(c) && forall j :: 0 <= j < i ==> !has(cs[j])
  {
    if cs != [] && !IsFirst(a, qmiType, clientId, cs[0]) {
      FirstIsAddressee(cs[1..], a, qmiType, clientId);
      var found := First(cs, a, qmiType, clientId);
      if found.Some? {
        var i :| 0 <= i < |cs[1..]| && cs[1..][i] == found.value
                 && forall j :: 0 <= j < i ==> !IsFirst(a, qmiType, clientId, cs[1..][j]);
        assert cs[i + 1] == found.value;
        forall j | 0 <= j < i + 1 ensures !IsFirst(a, qmiType, clientId, cs[j]) {
          if j > 0 { assert cs[1..][j - 1] == cs[j]; }
        }
      } else {
        forall j | 0 <= j < |cs| ensures !IsFirst(a, qmiType, clientId, cs[j]) {
          if j > 0 { assert cs[1..][j - 1] == cs[j]; }
        }
      }
    }
  }

  /** MPIOC_FindIoDevice for a message (pQMI not NULL). */
  method Find(cs: seq<Client>, adapter: Option<Adapter>, qmiType: byte, clientId: byte, reference: Option<Client>)
    returns (found: Option<Client>)
    requires NoDuplicates(cs)
    ensures adapter.None? ==> found == None
    ensures adapter.Some? && reference.None? ==> found == First(cs, adapter.value, qmiType, clientId)
    ensures adapter.Some? && reference.Some? ==> found == Next(After(cs, reference.value), adapter.value, qmiType)
  {
    found := None;
    var referenceFound := false;
    var i := 0;
    while i < |cs| && found == None
      invariant i <= |cs|
      invariant adapter.None? ==> found == None
      invariant adapter.Some? && reference.None? ==>
        First(cs, adapter.value, qmiType, clientId)
        == if found.Some? then found else First(cs[i..], adapter.value, qmiType, clientId)
      invariant adapter.Some? && reference.Some? ==>
        Next(After(cs, reference.value), adapter.value, qmiType)
        == if found.Some? then found
           else Next(if referenceFound then cs[i..] else After(cs[i..], reference.value), adapter.value, qmiType)
      invariant referenceFound ==> reference.Some? && reference.value in cs[..i]
      decreases |cs| - i, found.None?
    {
      var c := cs[i];
      if reference.None? {
        if adapter.Some? && IsFirst(adapter.value, qmiType, clientId, c) {
          found := Some(c);
        }
      } else {
        if referenceFound && adapter.Some? && IsNext(adapter.value, qmiType, c) {
          found := Some(c);
        }
        if reference == Some(c) {
          referenceFound := true;
        }
      }
      i := i + 1;
    }
  }

  /** The clients that a search with one adapter is meant to reach, in list order. */
  function Matching(cs: seq<Client>, a: Adapter, qmiType: byte): seq<Client> {
    if cs == [] then []
    else (if IsNext(a, qmiType, cs[0]) then [cs[0]] else []) + Matching(cs[1..], a, qmiType)
  }

  /** The clients that the loop reaches: it goes on with the adapter of the last client found. */
  function Reached(cs: seq<Client>, a: Adapter, qmiType: byte): seq<Client> {
    if cs == [] then []
    else if IsNext(a, qmiType, cs[0]) then [cs[0]] + Reached(cs[1..], cs[0].adapter, qmiType)
    else Reached(cs[1..], a, qmiType)
  }

  lemma {:induction false} FirstIsNext(cs: seq<Client>, a: Adapter, qmiType: byte)
    requires forall c :: c in cs ==> c.clientId != BROADCAST && c.clientIdV6 != BROADCAST
    ensures First(cs, a, qmiType, BROADCAST) == Next(cs, a, qmiType)
  {
    if cs != [] {
      assert cs[0] in cs;
      FirstIsNext(cs[1..], a, qmiType);
    }
  }

  lemma {:induction false} AfterIndex(cs: seq<Client>, k: nat)
    requires NoDuplicates(cs) && k < |cs|
    ensures After(cs, cs[k]) == cs[k + 1..]
  {
    if k > 0 {
      AfterIndex(cs[1..], k - 1);
    }
  }

  /** Where the next search stops, and how that advances what is reached. */
  lemma {:induction false} NextFinds(cs: seq<Client>, at: nat, a: Adapter, qmiType: byte) returns (k: nat)
    requires at <= |cs|
    ensures var found := Next(cs[at..], a, qmiType);
            && (found.None? ==> Reached(cs[at..], a, qmiType) == [])
            && (found.Some? ==>
                  && at <= k < |cs| && cs[k] == found.value
                  && Reached(cs[at..], a, qmiType) == [cs[k]] + Reached(cs[k + 1..], cs[k].adapter, qmiType))
    decreases |cs| - at
  {
    k := at;
    if at < |cs| {
      assert cs[at..][1..] == cs[at + 1..];
      if !IsNext(a, qmiType, cs[at]) {
        k := NextFinds(cs, at + 1, a, qmiType);
      }
    }
  }

  lemma {:induction false} SearchAdvances(cs: seq<Client>, at: nat, a: Adapter, qmiType: byte, last: Option<Client>,
                                          found: Option<Client>) returns (k: nat)
    requires NoDuplicates(cs) && at <= |cs|
    requires forall c :: c in cs ==> c.clientId != BROADCAST && c.clientIdV6 != BROADCAST
    requires last.None? ==> at == 0 && found == First(cs, a, qmiType, BROADCAST)
    requires last.Some? ==> at > 0 && cs[at - 1] == last.value && found == Next(After(cs, last.value), a, qmiType)
    ensures found.None? ==> Reached(cs[at..], a, qmiType) == []
    ensures found.Some? ==>
              && at <= k < |cs| && cs[k] == found.value
              && Reached(cs[at..], a, qmiType) == [cs[k]] + Reached(cs[k + 1..], cs[k].adapter, qmiType)
  {
    if last.None? {
      FirstIsNext(cs, a, qmiType);
      assert cs[0..] == cs;
    } else {
      AfterIndex(cs, at - 1);
    }
    k := NextFinds(cs, at, a, qmiType);
  }

  /** The loop, with the searches of the driver: find first, then find next after the last result, each time
      with the adapter of the last result, until nothing is found. */
  method Broadcast(cs: seq<Client>, adapter: Adapter, qmiType: byte) returns (visited: seq<Client>)
    requires NoDuplicates(cs) && forall c :: c in cs ==> c.clientId != BROADCAST && c.clientIdV6 != BROADCAST
    ensures visited == Reached(cs, adapter, qmiType)
  {
    visited := [];
    var a, last := adapter, None;
    ghost var at := 0;
    var done := false;
    while !done
      invariant at <= |cs| && Reached(cs, adapter, qmiType) == visited + Reached(cs[at..], a, qmiType)
      invariant last.None? ==> at == 0
      invariant last.Some? ==> at > 0 && cs[at - 1] == last.value
      invariant done ==> Reached(cs[at..], a, qmiType) == []
      decreases |cs| - at, !done
    {
      var found := Find(cs, Some(a), qmiType, BROADCAST, last);
      ghost var k := SearchAdvances(cs, at, a, qmiType, last, found);
      if found.None? {
        done := true;
      } else {
        at := k + 1;
        Regroup(visited, found.value, Reached(cs[at..], found.value.adapter, qmiType), []);
        visited := visited + [found.value];
        a, last := found.value.adapter, found;
      }
    }
  }

  // ---------------------------------------------------------------------------------------------
  // Whom a broadcast reaches

  lemma {:induction false} MatchingMembers(cs: seq<Client>, a: Adapter, qmiType: byte, c: Client)
    ensures c in Matching(cs, a, qmiType) <==> c in cs && IsNext(a, qmiType, c)
    ensures c in Matching(cs, a, qmiType) <==>
              && c in cs && c.clientId != 0 && c.qmiType == qmiType
              && (if a.muxEnabled != 1 then c.adapter == a
                  else c.adapter.physical == a.physical && c.adapter.filter == a.filter)
  {
    if cs != [] {
      MatchingMembers(cs[1..], a, qmiType, c);
    }
  }

  function At(cs: seq<Client>, i: nat): Option<Client> { if i < |cs| then Some(cs[i]) else None }

  /** With one adapter throughout, "find first" gives the first matching client and "find next" after the
      `i`-th the one that follows it, until there is none. */
  lemma {:induction false} FindNextStepsThroughMatching(cs: seq<Client>, a: Adapter, qmiType: byte, i: nat)
    requires NoDuplicates(cs)
    ensures Next(cs, a, qmiType) == At(Matching(cs, a, qmiType), 0)
    ensures i < |Matching(cs, a, qmiType)| ==>
              Next(After(cs, Matching(cs, a, qmiType)[i]), a, qmiType) == At(Matching(cs, a, qmiType), i + 1)
  {
    if cs != [] {
      var m, tail := Matching(cs, a, qmiType), Matching(cs[1..], a, qmiType);
      if !IsNext(a, qmiType, cs[0]) {
        assert m == tail;
        FindNextStepsThroughMatching(cs[1..], a, qmiType, i);
      } else {
        assert m == [cs[0]] + tail;
        FindNextStepsThroughMatching(cs[1..], a, qmiType, if i == 0 then 0 else i - 1);
      }
      if i < |m| && m[i] in tail {
        MatchingMembers(cs[1..], a, qmiType, m[i]);
      }
    }
  }

  /** An adapter without multiplexing searches for itself only. */
  predicate OnlyAdapter(cs: seq<Client>, a: Adapter) { forall i :: 0 <= i < |cs| ==> cs[i].adapter == a }

  /** No client whose adapter is not multiplexed comes before a client of another adapter. */
  predicate KeepsLink(cs: seq<Client>) {
    forall i, j :: 0 <= i < j < |cs| && cs[i].adapter.muxEnabled != 1 ==> cs[j].adapter == cs[i].adapter
  }

  lemma {:induction false} MatchingOfOne(cs: seq<Client>, a: Adapter, b: Adapter, qmiType: byte)
    requires b.muxEnabled != 1 && a.muxEnabled == 1 && b.physical == a.physical && b.filter == a.filter
    ensures OnlyAdapter(Matching(cs, b, qmiType), b)
    ensures Matching(cs, b, qmiType) == Matching(cs, a, qmiType) <==> OnlyAdapter(Matching(cs, a, qmiType), b)
  {
    if cs != [] {
      MatchingOfOne(cs[1..], a, b, qmiType);
      var ma, mb := Matching(cs, a, qmiType), Matching(cs, b, qmiType);
      if IsNext(a, qmiType, cs[0]) {
        assert ma[0] == cs[0] && ma[1..] == Matching(cs[1..], a, qmiType);
        if IsNext(b, qmiType, cs[0]) {
          assert mb[1..] == Matching(cs[1..], b, qmiType);
        } else {
          assert ma[0].adapter != b;
        }
      } else {
        assert ma == Matching(cs[1..], a, qmiType) && mb == Matching(cs[1..], b, qmiType);
      }
    }
  }

  lemma {:induction false} MatchingOfSameLink(cs: seq<Client>, a: Adapter, b: Adapter, qmiType: byte)
    requires a == b || (a.muxEnabled == 1 == b.muxEnabled && b.physical == a.physical && b.filter == a.filter)
    ensures Matching(cs, b, qmiType) == Matching(cs, a, qmiType)
  {
    if cs != [] {
      MatchingOfSameLink(cs[1..], a, b, qmiType);
    }
  }

  lemma {:induction false} UnmultiplexedIsOnly(cs: seq<Client>, a: Adapter, qmiType: byte)
    requires a.muxEnabled != 1
    ensures OnlyAdapter(Matching(cs, a, qmiType), a)
  {
    if cs != [] {
      UnmultiplexedIsOnly(cs[1..], a, qmiType);
    }
  }

  lemma {:induction false} ReachedFrom(cs: seq<Client>, a: Adapter, qmiType: byte)
    requires cs != [] && IsNext(a, qmiType, cs[0])
    requires var tail, b := cs[1..], cs[0].adapter;
             Reached(tail, b, qmiType) == Matching(tail, b, qmiType) <==> KeepsLink(Matching(tail, b, qmiType))
    ensures Reached(cs, a, qmiType) == Matching(cs, a, qmiType) <==> KeepsLink(Matching(cs, a, qmiType))
  {
    var b, tail := cs[0].adapter, cs[1..];
    var all, m := Matching(cs, a, qmiType), Matching(tail, a, qmiType);
    assert all == [cs[0]] + m && all[1..] == m;
    assert Reached(cs, a, qmiType)[1..] == Reached(tail, b, qmiType);
    assert KeepsLink(all) <==> KeepsLink(m) && (b.muxEnabled != 1 ==> OnlyAdapter(m, b)) by { KeepsLinkStep(cs[0], m); }
    if b.muxEnabled != 1 { UnmultiplexedIsOnly(tail, b, qmiType); }
    if b.muxEnabled != 1 && a.muxEnabled == 1 {
      MatchingOfOne(tail, a, b, qmiType);
    } else {
      MatchingOfSameLink(tail, a, b, qmiType);
    }
  }

  lemma {:induction false} KeepsLinkStep(c: Client, m: seq<Client>)
    ensures KeepsLink([c] + m) <==> KeepsLink(m) && (c.adapter.muxEnabled != 1 ==> OnlyAdapter(m, c.adapter))
  {
    var all := [c] + m;
    if KeepsLink(all) {
      forall j | 0 <= j < |m| ensures c.adapter.muxEnabled != 1 ==> m[j].adapter == c.adapter {
        assert all[0] == c && all[j + 1] == m[j];
      }
      forall i, j | 0 <= i < j < |m| ensures m[i].adapter.muxEnabled != 1 ==> m[j].adapter == m[i].adapter {
        assert all[i + 1] == m[i] && all[j + 1] == m[j];
      }
    }
  }

  /** A broadcast reaches exactly the matching clients, each once and in list order, exactly when going on
      with the adapter of the last client found never narrows the search. */
  lemma {:induction false} BroadcastReachesAllExactlyWhen(cs: seq<Client>, a: Adapter, qmiType: byte)
    ensures Reached(cs, a, qmiType) == Matching(cs, a, qmiType) <==> KeepsLink(Matching(cs, a, qmiType))
  {
    if cs != [] {
      if !IsNext(a, qmiType, cs[0]) {
        BroadcastReachesAllExactlyWhen(cs[1..], a, qmiType);
        assert Matching(cs, a, qmiType) == Matching(cs[1..], a, qmiType);
      } else {
        BroadcastReachesAllExactlyWhen(cs[1..], cs[0].adapter, qmiType);
        ReachedFrom(cs, a, qmiType);
      }
    }
  }
}
