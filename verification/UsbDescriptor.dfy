/** The virtual interfaces that the filter adds to the configuration descriptor of a device (sections 9.6.3
    and 9.6.5 of the USB 2.0 specification), as functions on bytes. */
module UsbDescriptor {
  import opened Machine

  const CONFIG_SIZE: nat := 9
  const IFACE_SIZE: nat := 9
  const CONFIG_TYPE: byte := 0x02
  const IFACE_TYPE: byte := 0x04
  const FIRST_VIRTUAL: nat := 0x80

  function TotalLength(b: seq<byte>): nat
    requires |b| >= CONFIG_SIZE
  {
    LoadUshort(b[2], b[3])
  }

  function NumInterfaces(b: seq<byte>): nat
    requires |b| >= CONFIG_SIZE
  {
    b[4] as nat
  }

  /** USBPNP_ValidateConfigDescriptor. */
  predicate ValidHeader(b: seq<byte>)
    requires |b| >= CONFIG_SIZE
  {
    0 < b[0] <= 9 && TotalLength(b) >= 9 && b[1] == CONFIG_TYPE
  }

  /** The header fields announce `k` more interface descriptors, as far as the fields are wide. */
  function Announce(b: seq<byte>, k: nat): (r: seq<byte>)
    requires |b| >= CONFIG_SIZE
    ensures |r| == |b|
  {
    var total := Ushort(TotalLength(b) + IFACE_SIZE * k);
    b[2 := Uchar(total)][3 := Uchar(total / 256)][4 := Uchar(NumInterfaces(b) + k)]
  }

  function VirtualNumber(k: nat): byte { Uchar(FIRST_VIRTUAL + k) }

  function VirtualIface(k: nat): (d: seq<byte>)
    ensures |d| == IFACE_SIZE
  {
    [9, IFACE_TYPE, VirtualNumber(k), 0, 0, 0xFF, 0xFF, 0xFF, 0]
  }

  function Appended(k: nat): (r: seq<byte>)
    ensures |r| == IFACE_SIZE * k
  {
    if k == 0 then [] else Appended(k - 1) + VirtualIface(k - 1)
  }

  /** The buffer when `k` descriptors have been written from `at` on. */
  function Image(b: seq<byte>, at: nat, k: nat): (r: seq<byte>)
    requires at + IFACE_SIZE * k <= |b|
    ensures |r| == |b|
  {
    b[..at] + Appended(k) + b[at + IFACE_SIZE * k..]
  }

  lemma {:induction false} ImageStep(b: seq<byte>, at: nat, k: nat)
    requires at + IFACE_SIZE * (k + 1) <= |b|
    ensures var here, r := at + IFACE_SIZE * k, Image(b, at, k);
            Image(b, at, k + 1) == r[..here] + VirtualIface(k) + r[here + IFACE_SIZE..]
  {
    var here, r := at + IFACE_SIZE * k, Image(b, at, k);
    assert r[..here] == b[..at] + Appended(k);
    assert r[here + IFACE_SIZE..] == b[at + IFACE_SIZE * (k + 1)..];
  }

  // ---------------------------------------------------------------------------------------------
  // Descriptors as a chain

  /** A descriptor set is a row of descriptors, each as long as its first byte says. */
  function Chain(b: seq<byte>): Option<seq<seq<byte>>>
    decreases |b|
  {
    if b == [] then Some([])
    else if b[0] < 2 || b[0] as nat > |b| then None
    else
      match Chain(b[b[0] as nat..])
      case None => None
      case Some(rest) => Some([b[..b[0] as nat]] + rest)
  }

  predicate IsIface(d: seq<byte>) { |d| >= IFACE_SIZE && d[1] == IFACE_TYPE }

  /** The interface numbers in use; alternate settings share one. */
  function Numbers(ds: seq<seq<byte>>): set<byte> {
    set d | d in ds && IsIface(d) :: d[2]
  }

  /** What the host relies on: the descriptors fill the announced length, the first is the header, and the
      announced number of interfaces is how many there are. */
  predicate WellFormed(b: seq<byte>) {
    HeaderFits(b) && Chain(b).Some? && NumInterfaces(b) == |Numbers(Chain(b).value)|
  }

  predicate HeaderFits(b: seq<byte>) {
    |b| >= CONFIG_SIZE && b[0] == 9 && b[1] == CONFIG_TYPE && TotalLength(b) == |b|
  }

  predicate PhysicalOnly(b: seq<byte>) {
    Chain(b).Some? && forall x :: x in Numbers(Chain(b).value) ==> x as nat < FIRST_VIRTUAL
  }

  lemma {:induction false} ChainAppend(a: seq<byte>, c: seq<byte>)
    requires Chain(a).Some? && Chain(c).Some?
    ensures Chain(a + c) == Some(Chain(a).value + Chain(c).value)
    decreases |a|
  {
    if a == [] {
      assert a + c == c && [] + Chain(c).value == Chain(c).value;
    } else {
      var n := a[0] as nat;
      ChainAppend(a[n..], c);
      assert (a + c)[n..] == a[n..] + c && (a + c)[..n] == a[..n] && (a + c)[0] == a[0];
      Regroup([], a[..n], Chain(a[n..]).value, Chain(c).value);
    }
  }

  function VirtualIfaces(k: nat): (ds: seq<seq<byte>>)
    ensures |ds| == k && forall i :: 0 <= i < k ==> ds[i] == VirtualIface(i)
  {
    if k == 0 then [] else VirtualIfaces(k - 1) + [VirtualIface(k - 1)]
  }

  lemma {:induction false} ChainOfOne(k: nat)
    ensures Chain(VirtualIface(k)) == Some([VirtualIface(k)])
  {
    var d := VirtualIface(k);
    assert d[9..] == [] && d[..9] == d;
    assert d[0] == 9 && Chain(d[d[0] as nat..]) == Some([]);
    assert [d] + [] == [d];
  }

  lemma {:induction false} ChainOfAppended(k: nat)
    ensures Chain(Appended(k)) == Some(VirtualIfaces(k))
  {
    if k > 0 {
      ChainOfAppended(k - 1);
      ChainOfOne(k - 1);
      ChainAppend(Appended(k - 1), VirtualIface(k - 1));
    }
  }

  // ---------------------------------------------------------------------------------------------
  // Numbers

  lemma {:induction false} VirtualNumberInjective(p: nat, q: nat)
    requires p < 256 && q < 256
    ensures VirtualNumber(p) == VirtualNumber(q) ==> p == q
  {
  }

  lemma {:induction false} NumbersAppend(ds: seq<seq<byte>>, es: seq<seq<byte>>)
    ensures Numbers(ds + es) == Numbers(ds) + Numbers(es)
  {
    forall x | x in Numbers(ds) + Numbers(es) ensures x in Numbers(ds + es) {
      var d :| (d in ds || d in es) && IsIface(d) && d[2] == x;
      assert d in ds + es;
    }
  }

  function VirtualNumbers(k: nat): set<byte> {
    set i | 0 <= i < k :: VirtualNumber(i)
  }

  lemma {:induction false} NumbersOfVirtual(k: nat)
    ensures Numbers(VirtualIfaces(k)) == VirtualNumbers(k)
  {
    var ds := VirtualIfaces(k);
    forall x | x in VirtualNumbers(k) ensures x in Numbers(ds) {
      var i :| 0 <= i < k && x == VirtualNumber(i);
      assert ds[i] in ds && IsIface(ds[i]) && ds[i][2] == x;
    }
    forall x | x in Numbers(ds) ensures x in VirtualNumbers(k) {
      var d :| d in ds && IsIface(d) && d[2] == x;
      var i :| 0 <= i < |ds| && ds[i] == d;
      assert x == VirtualNumber(i);
    }
  }

  lemma {:induction false} VirtualNumberValue(i: nat)
    ensures VirtualNumber(i) as nat >= FIRST_VIRTUAL <==> (FIRST_VIRTUAL + i) % 256 >= FIRST_VIRTUAL
    ensures i < 128 ==> VirtualNumber(i) as nat == FIRST_VIRTUAL + i
  {
  }

  lemma {:induction false} VirtualNumbersGrow(k: nat)
    ensures VirtualNumbers(k + 1) == VirtualNumbers(k) + {VirtualNumber(k)}
    ensures k < 256 ==> VirtualNumber(k) !in VirtualNumbers(k)
  {
    forall x | x in VirtualNumbers(k) + {VirtualNumber(k)} ensures x in VirtualNumbers(k + 1) {
      var i :| 0 <= i <= k && x == VirtualNumber(i);
    }
    if k < 256 && VirtualNumber(k) in VirtualNumbers(k) {
      var i :| 0 <= i < k && VirtualNumber(k) == VirtualNumber(i);
      VirtualNumberInjective(i, k);
    }
  }

  lemma {:induction false} CountVirtual(k: nat)
    requires k <= 256
    ensures |VirtualNumbers(k)| == k
  {
    if k > 0 {
      CountVirtual(k - 1);
      VirtualNumbersGrow(k - 1);
    }
  }

  /** Counting modulo 256 is right exactly when nothing is counted twice and nothing wraps. */
  lemma {:induction false} CountUnion(used: set<byte>, k: nat)
    requires k <= 256 && |used| < 256
    ensures (|used| + k) % UCHAR_SIZE == |used + VirtualNumbers(k)|
      <==> used !! VirtualNumbers(k) && |used| + k < 256
  {
    var added, both := VirtualNumbers(k), used * VirtualNumbers(k);
    CountVirtual(k);
    assert |both| <= |used| by { SubsetSize(both, used); }
    assert |used + added| + |both| == |used| + k;
    if |both| == 0 { assert both == {}; }
  }

  lemma {:induction false} SubsetSize(s: set<byte>, t: set<byte>)
    requires s <= t
    ensures |s| <= |t|
  {
    assert t == s + (t - s);
  }

  // ---------------------------------------------------------------------------------------------
  // The reply to the host

  /** What the host receives for the descriptors `b` of the device: `k` interfaces are announced and follow. */
  function Reply(b: seq<byte>, k: nat): seq<byte>
    requires |b| >= CONFIG_SIZE
  {
    Announce(b, k) + Appended(k)
  }

  /** Of the buffer that the filter leaves, the reply is the part that it fills. */
  lemma {:induction false} ImageHoldsReply(b: seq<byte>, t: nat, k: nat)
    requires CONFIG_SIZE <= t && t + IFACE_SIZE * k <= |b|
    ensures Image(Announce(b, k), t, k)[..t + IFACE_SIZE * k] == Announce(b, k)[..t] + Appended(k)
    ensures Announce(b, k)[CONFIG_SIZE..] == b[CONFIG_SIZE..]
    ensures TotalLength(b) == t ==> Announce(b, k)[..t] == Announce(b[..t], k)
    ensures Announce(b, k)[..CONFIG_SIZE] == Announce(b[..CONFIG_SIZE], k)
  {
    var r := Image(Announce(b, k), t, k);
    assert r[..t + IFACE_SIZE * k] == (Announce(b, k)[..t] + Appended(k))[..t + IFACE_SIZE * k];
  }

  /** The offsets that a full rewriting stores to. */
  predicate Written(t: nat, k: nat, o: nat) { 2 <= o <= 4 || t <= o < t + IFACE_SIZE * k }

  /** It stores nowhere else, and there it stores whatever the memory held before. */
  lemma {:induction false} RewritesExactly(b: seq<byte>, t: nat, k: nat, o: nat)
    requires CONFIG_SIZE <= t && t + IFACE_SIZE * k <= |b| && o < |b|
    ensures !Written(t, k, o) ==> Image(Announce(b, k), t, k)[o] == b[o]
    ensures t <= o < t + IFACE_SIZE * k ==> Image(Announce(b, k), t, k)[o] == Appended(k)[o - t]
  {
  }

  /** A transfer buffer of `length` bytes is written inside exactly when it has room for all that is announced.
      The code does not compare the two. */
  lemma {:induction false} WritesInsideExactlyWhen(t: nat, k: nat, length: nat)
    requires CONFIG_SIZE <= t && k > 0
    ensures (forall o: nat :: Written(t, k, o) ==> o < length) <==> length >= t + IFACE_SIZE * k
  {
    var last := t + IFACE_SIZE * k - 1;
    assert Written(t, k, last);
  }

  /** A host that asks for the header alone is told the same totals as one that asks for everything. */
  lemma {:induction false} HeaderReplyAgrees(b: seq<byte>, k: nat)
    requires |b| >= CONFIG_SIZE
    ensures Announce(b[..CONFIG_SIZE], k) == Reply(b, k)[..CONFIG_SIZE]
  {
    ImageHoldsReply(b + Appended(k), |b|, k);
    assert (b + Appended(k))[..CONFIG_SIZE] == b[..CONFIG_SIZE];
    assert Announce(b + Appended(k), k)[..CONFIG_SIZE] == Announce(b, k)[..CONFIG_SIZE];
  }

  lemma {:induction false} ChainOfHeader(b: seq<byte>, k: nat)
    requires WellFormed(b)
    ensures Chain(b[CONFIG_SIZE..]).Some? && Chain(b).value == [b[..CONFIG_SIZE]] + Chain(b[CONFIG_SIZE..]).value
    ensures Chain(Announce(b, k))
         == Some([Announce(b[..CONFIG_SIZE], k)] + Chain(b[CONFIG_SIZE..]).value)
  {
    var h := Announce(b, k);
    assert h[0] == 9 && h[CONFIG_SIZE..] == b[CONFIG_SIZE..];
    assert h[..CONFIG_SIZE] == Announce(b[..CONFIG_SIZE], k);
  }

  /** The reply is the old row of descriptors with two header fields changed, followed by exactly `k`
      interface descriptors without endpoints. */
  lemma {:induction false} ReplyIsAChain(b: seq<byte>, k: nat)
    requires WellFormed(b)
    ensures Chain(Reply(b, k)).Some?
    ensures var ds := Chain(b).value;
            Chain(Reply(b, k)).value == [Announce(ds[0], k)] + ds[1..] + VirtualIfaces(k)
    ensures Numbers(Chain(Reply(b, k)).value) == Numbers(Chain(b).value) + VirtualNumbers(k)
  {
    ChainOfHeader(b, k);
    ChainOfAppended(k);
    ChainAppend(Announce(b, k), Appended(k));
    var first, changed, rest := b[..CONFIG_SIZE], Announce(b[..CONFIG_SIZE], k), Chain(b[CONFIG_SIZE..]).value;
    assert ([first] + rest)[1..] == rest;
    NumbersOfVirtual(k);
    NumbersAppend([changed] + rest, VirtualIfaces(k));
    NumbersAppend([first], rest);
    NumbersAppend([changed], rest);
    assert Numbers([first]) == {} == Numbers([changed]);
  }

  lemma {:induction false} AddedAt(ds: seq<seq<byte>>, first: seq<byte>, k: nat, i: nat, all: seq<seq<byte>>)
    requires |ds| > 0 && i < k && all == [first] + ds[1..] + VirtualIfaces(k)
    ensures |all| == |ds| + k && all[|ds| + i] == VirtualIface(i)
  {
    var before := [first] + ds[1..];
    assert all == before + VirtualIfaces(k) && |before| == |ds|;
  }

  lemma {:induction false} ChainIsNotEmpty(b: seq<byte>)
    requires Chain(b).Some? && b != []
    ensures |Chain(b).value| > 0
  {
  }

  lemma {:induction false} ReplyParts(b: seq<byte>, k: nat)
    returns (ds: seq<seq<byte>>, first: seq<byte>, all: seq<seq<byte>>)
    requires WellFormed(b)
    ensures Chain(b) == Some(ds) && Chain(Reply(b, k)) == Some(all)
    ensures |ds| > 0 && all == [first] + ds[1..] + VirtualIfaces(k)
  {
    ReplyIsAChain(b, k);
    ChainIsNotEmpty(b);
    ds, all := Chain(b).value, Chain(Reply(b, k)).value;
    first := Announce(ds[0], k);
  }

  lemma {:induction false} AddedIface(b: seq<byte>, k: nat, i: nat)
    requires WellFormed(b) && i < k
    ensures Chain(Reply(b, k)).Some? && |Chain(Reply(b, k)).value| == |Chain(b).value| + k
    ensures Chain(Reply(b, k)).value[|Chain(b).value| + i] == VirtualIface(i)
  {
    var ds, first, all := ReplyParts(b, k);
    AddedAt(ds, first, k, i, all);
  }

  lemma {:induction false} VirtualIfaceFields(i: nat, d: seq<byte>)
    requires d == VirtualIface(i)
    ensures |d| == 9 && d[0] == 9 && d[1] == 0x04 && d[2] as nat == (0x80 + i) % 256
    ensures d[3] == 0 && d[4] == 0 && d[5] == 0xFF && d[6] == 0xFF && d[7] == 0xFF && d[8] == 0
  {
  }

  /** Each of the descriptors added describes an interface with the next virtual number, without alternate setting,
      endpoints or name, of the vendor-specific class. */
  lemma {:induction false} AddedIfaceFields(b: seq<byte>, k: nat, i: nat) returns (d: seq<byte>)
    requires WellFormed(b) && i < k
    ensures Chain(Reply(b, k)).Some? && |Chain(Reply(b, k)).value| == |Chain(b).value| + k
    ensures d == Chain(Reply(b, k)).value[|Chain(b).value| + i]
    ensures |d| == 9 && d[0] == 9 && d[1] == 0x04 && d[2] as nat == (0x80 + i) % 256
    ensures d[3] == 0 && d[4] == 0 && d[5] == 0xFF && d[6] == 0xFF && d[7] == 0xFF && d[8] == 0
  {
    AddedIface(b, k, i);
    d := VirtualIface(i);
    VirtualIfaceFields(i, d);
  }

  lemma {:induction false} UshortBytes(x: nat)
    requires x < USHORT_SIZE
    ensures LoadUshort(Uchar(x), Uchar(x / 256)) == x
  {
  }

  lemma {:induction false} ReplyFields(b: seq<byte>, k: nat)
    requires |b| >= CONFIG_SIZE
    ensures var r := Reply(b, k);
            && r[0] == b[0] && r[1] == b[1] && TotalLength(r) == Ushort(TotalLength(b) + IFACE_SIZE * k)
            && NumInterfaces(r) == (NumInterfaces(b) + k) % UCHAR_SIZE
  {
    UshortBytes(Ushort(TotalLength(b) + IFACE_SIZE * k));
  }

  lemma {:induction false} LengthFits(x: nat)
    ensures Ushort(x) == x <==> x < USHORT_SIZE
  {
  }

  lemma {:induction false} ReplyHeaderFits(b: seq<byte>, k: nat)
    requires HeaderFits(b)
    ensures HeaderFits(Reply(b, k)) <==> |b| + IFACE_SIZE * k < USHORT_SIZE
  {
    ReplyFields(b, k);
    LengthFits(|b| + IFACE_SIZE * k);
  }

  lemma {:induction false} ReplyNumbers(b: seq<byte>, k: nat)
    requires WellFormed(b)
    ensures Chain(Reply(b, k)).Some?
    ensures |Numbers(Chain(Reply(b, k)).value)| == |Numbers(Chain(b).value) + VirtualNumbers(k)|
    ensures |Reply(b, k)| >= CONFIG_SIZE && NumInterfaces(Reply(b, k)) == (NumInterfaces(b) + k) % UCHAR_SIZE
  {
    ReplyIsAChain(b, k);
    ReplyFields(b, k);
  }

  lemma {:induction false} ReplyCounted(b: seq<byte>, k: nat)
    requires WellFormed(b)
    ensures WellFormed(Reply(b, k)) <==>
              && |b| + IFACE_SIZE * k < USHORT_SIZE
              && (NumInterfaces(b) + k) % UCHAR_SIZE == |Numbers(Chain(b).value) + VirtualNumbers(k)|
  {
    ReplyHeaderFits(b, k);
    ReplyNumbers(b, k);
  }

  /** The reply is well formed exactly when both fields are wide enough and no virtual number is in use.
      (The code checks neither; the comment at the numbering says as much.) */
  lemma {:induction false} ReplyWellFormedExactlyWhen(b: seq<byte>, k: nat)
    requires WellFormed(b) && k <= 256
    ensures WellFormed(Reply(b, k)) <==>
              && |b| + IFACE_SIZE * k < USHORT_SIZE
              && NumInterfaces(b) + k < UCHAR_SIZE
              && Numbers(Chain(b).value) !! VirtualNumbers(k)
  {
    ReplyCounted(b, k);
    CountUnion(Numbers(Chain(b).value), k);
  }

  /** With physical numbers below 0x80 and at most 128 virtual interfaces, only the widths are left. */
  lemma {:induction false} VirtualNumbersAreNew(b: seq<byte>, k: nat)
    requires PhysicalOnly(b) && k <= 128
    ensures Numbers(Chain(b).value) !! VirtualNumbers(k)
  {
    forall x | x in VirtualNumbers(k) ensures x !in Numbers(Chain(b).value) {
      var i :| 0 <= i < k && x == VirtualNumber(i);
      VirtualNumberValue(i);
    }
  }
}
