/** The QMAP packet splitter of the drain (QDBRD_RetrievePacket and its caller): a block is a row of
    frames, each with a four byte header, a payload and up to 63 bytes of padding. */
module Qmap {
  import opened Machine

  const HEADER_SIZE: nat := 4

  /** `flags` are the top two bits of the first header byte. */
  datatype Frame = Frame(flags: nat, muxId: byte, payload: seq<byte>, padding: seq<byte>)

  predicate WellFormed(f: Frame) {
    f.flags < 4 && 0 < |f.payload| && |f.padding| < 64 && |f.payload| + |f.padding| < 0x1_0000
  }

  function Encode(f: Frame): seq<byte>
    requires WellFormed(f)
  {
    var total := |f.payload| + |f.padding|;
    [(64 * f.flags + |f.padding|) as byte, f.muxId, (total / 256) as byte, (total % 256) as byte]
    + f.payload + f.padding
  }

  function EncodeAll(fs: seq<Frame>): seq<byte>
    requires forall f :: f in fs ==> WellFormed(f)
  {
    if fs == [] then [] else Encode(fs[0]) + EncodeAll(fs[1..])
  }

  // ---------------------------------------------------------------------------------------------
  // Reading a header

  /** The big-endian length in the header, which counts payload and padding. */
  function Total(b: seq<byte>): (n: nat)
    requires |b| >= HEADER_SIZE
    ensures n < 0x1_0000
  {
    256 * b[2] as nat + b[3] as nat
  }

  /** The top two bits of a byte. */
  function TopBits(x: byte): nat { if x < 64 then 0 else if x < 128 then 1 else if x < 192 then 2 else 3 }

  /** The low six bits of the first header byte. */
  function Padding(b: seq<byte>): nat
    requires |b| >= HEADER_SIZE
  {
    b[0] as nat - 64 * TopBits(b[0])
  }

  predicate StartsWithFrame(b: seq<byte>) {
    |b| > HEADER_SIZE && |b| >= HEADER_SIZE + Total(b) && Total(b) > Padding(b)
  }

  function FirstFrame(b: seq<byte>): Frame
    requires StartsWithFrame(b)
  {
    var end := HEADER_SIZE + Total(b);
    var cut := end - Padding(b);
    Frame(TopBits(b[0]), b[1], b[HEADER_SIZE..cut], b[cut..end])
  }

  function FrameSize(b: seq<byte>): (n: nat)
    requires StartsWithFrame(b)
    ensures HEADER_SIZE < n <= |b|
  {
    HEADER_SIZE + Total(b)
  }

  /** The frames that a block starts with, and what is left where the next one is not valid. */
  function Split(b: seq<byte>): (r: (seq<Frame>, seq<byte>))
    decreases |b|
  {
    if !StartsWithFrame(b) then ([], b)
    else
      var (fs, rest) := Split(b[FrameSize(b)..]);
      ([FirstFrame(b)] + fs, rest)
  }

  // ---------------------------------------------------------------------------------------------
  // Splitting and encoding are inverse

  lemma {:induction false} TotalOfEncode(f: Frame, tail: seq<byte>)
    requires WellFormed(f)
    ensures var b := Encode(f) + tail;
            && Total(b) == |f.payload| + |f.padding| && Padding(b) == |f.padding|
            && StartsWithFrame(b) && FirstFrame(b) == f && b[FrameSize(b)..] == tail
  {
    var b := Encode(f) + tail;
    var total := |f.payload| + |f.padding|;
    assert b[0] as nat == 64 * f.flags + |f.padding| && b[2] as nat == total / 256 && b[3] as nat == total % 256;
    assert Total(b) == total;
    assert b == b[..HEADER_SIZE] + f.payload + f.padding + tail;
  }

  lemma {:induction false} EncodeOfFirst(b: seq<byte>)
    requires StartsWithFrame(b)
    ensures WellFormed(FirstFrame(b)) && Encode(FirstFrame(b)) == b[..FrameSize(b)]
  {
    var f, end := FirstFrame(b), HEADER_SIZE + Total(b);
    var cut := end - Padding(b);
    assert |f.padding| == Padding(b) && |f.payload| + |f.padding| == Total(b);
    assert 64 * f.flags + |f.padding| == b[0] as nat;
    assert Encode(f) == b[..HEADER_SIZE] + f.payload + f.padding by {
      assert b[..HEADER_SIZE] == [b[0], b[1], b[2], b[3]];
    }
    assert b[..end] == b[..cut] + b[cut..end] && b[..cut] == b[..HEADER_SIZE] + b[HEADER_SIZE..cut];
  }

  lemma {:induction false} SplitOfCons(f: Frame, tail: seq<byte>)
    requires WellFormed(f)
    ensures Split(Encode(f) + tail) == ([f] + Split(tail).0, Split(tail).1)
  {
    TotalOfEncode(f, tail);
  }

  /** Decode after encode: any frames, followed by anything that does not start with a frame, come back. */
  lemma {:induction false} SplitInvertsEncode(fs: seq<Frame>, rest: seq<byte>)
    requires (forall f :: f in fs ==> WellFormed(f)) && !StartsWithFrame(rest)
    ensures Split(EncodeAll(fs) + rest) == (fs, rest)
    decreases |fs|
  {
    if fs == [] {
      assert EncodeAll(fs) + rest == rest;
    } else {
      var e, others := Encode(fs[0]), EncodeAll(fs[1..]);
      Associate(e, others, rest);
      SplitOfCons(fs[0], others + rest);
      SplitInvertsEncode(fs[1..], rest);
      assert [fs[0]] + fs[1..] == fs;
    }
  }

  lemma {:induction false} EncodeAllOfCons(f: Frame, fs: seq<Frame>, rest: seq<byte>, b: seq<byte>, n: nat)
    requires WellFormed(f) && (forall g :: g in fs ==> WellFormed(g))
    requires n <= |b| && Encode(f) == b[..n] && EncodeAll(fs) + rest == b[n..]
    ensures EncodeAll([f] + fs) + rest == b
  {
    var e := b[..n];
    assert ([f] + fs)[1..] == fs;
    assert (e + EncodeAll(fs)) + rest == e + (EncodeAll(fs) + rest) == b;
  }

  /** Encode after decode: any block at all is its frames followed by the rest, and the rest does not
      start with a frame. With the lemma above, a block has exactly one such reading. */
  lemma {:induction false} EncodeInvertsSplit(b: seq<byte>)
    ensures forall f :: f in Split(b).0 ==> WellFormed(f)
    ensures EncodeAll(Split(b).0) + Split(b).1 == b && !StartsWithFrame(Split(b).1)
    decreases |b|
  {
    if StartsWithFrame(b) {
      var n := FrameSize(b);
      EncodeOfFirst(b);
      EncodeInvertsSplit(b[n..]);
      EncodeAllOfCons(FirstFrame(b), Split(b[n..]).0, Split(b[n..]).1, b, n);
    }
  }

  lemma {:induction false} CutPrefix(e: seq<byte>, s: seq<byte>, b: seq<byte>)
    requires e + s <= b
    ensures |e| <= |b| && b == e + b[|e|..] && s <= b[|e|..]
  {
    assert (e + s)[|e|..] == s;
  }

  /** The frames found are the longest valid row that the block starts with. */
  lemma {:induction false} SplitIsLongest(b: seq<byte>, fs: seq<Frame>)
    requires (forall f :: f in fs ==> WellFormed(f)) && EncodeAll(fs) <= b
    ensures fs <= Split(b).0
    decreases |fs|
  {
    if fs != [] {
      CutPrefix(Encode(fs[0]), EncodeAll(fs[1..]), b);
      var tail := b[|Encode(fs[0])|..];
      SplitOfCons(fs[0], tail);
      SplitIsLongest(tail, fs[1..]);
      assert fs == [fs[0]] + fs[1..];
    }
  }

  // ---------------------------------------------------------------------------------------------
  // Where the payloads lie

  datatype Packet = Packet(offset: nat, length: nat)

  /** Where the payloads of the frames of `b` are, when `b` starts at `from`. */
  function Locate(b: seq<byte>, from: nat): seq<Packet>
    decreases |b|
  {
    if !StartsWithFrame(b) then []
    else
      [Packet(from + HEADER_SIZE, |FirstFrame(b).payload|)] + Locate(b[FrameSize(b)..], from + FrameSize(b))
  }

  lemma {:induction false} LocateStep(b: seq<byte>, from: nat)
    requires StartsWithFrame(b)
    ensures Locate(b, from) == [Packet(from + HEADER_SIZE, |FirstFrame(b).payload|)]
                               + Locate(b[FrameSize(b)..], from + FrameSize(b))
    ensures Split(b).0 == [FirstFrame(b)] + Split(b[FrameSize(b)..]).0
  {
  }

  lemma {:induction false} LocateCounts(b: seq<byte>, from: nat)
    ensures |Locate(b, from)| == |Split(b).0| && 5 * |Locate(b, from)| <= |b|
    decreases |b|
  {
    if StartsWithFrame(b) {
      var n := FrameSize(b);
      LocateCounts(b[n..], from + n);
      LocateStep(b, from);
    }
  }

  lemma {:induction false} SliceOfSlice(b: seq<byte>, n: nat, i: nat, length: nat)
    requires n + i + length <= |b|
    ensures b[n + i..n + i + length] == b[n..][i..i + length]
  {
  }

  /** Packet `p` of the bytes `b`, which start at `from`, is the given payload. */
  predicate Holds(b: seq<byte>, from: nat, p: Packet, payload: seq<byte>) {
    && from + HEADER_SIZE <= p.offset && 0 < p.length && p.offset + p.length <= from + |b|
    && b[p.offset - from..p.offset - from + p.length] == payload
  }

  lemma {:induction false} FirstPacketHolds(b: seq<byte>, from: nat)
    requires StartsWithFrame(b)
    ensures Holds(b, from, Packet(from + HEADER_SIZE, |FirstFrame(b).payload|), FirstFrame(b).payload)
  {
  }

  lemma {:induction false} LaterPacketHolds(b: seq<byte>, from: nat, n: nat, p: Packet, payload: seq<byte>)
    requires n <= |b| && Holds(b[n..], from + n, p, payload)
    ensures Holds(b, from, p, payload)
  {
    SliceOfSlice(b, n, p.offset - from - n, p.length);
  }

  lemma {:induction false} LocateFindsFrame(b: seq<byte>, from: nat, i: nat)
    requires i < |Locate(b, from)|
    ensures |Locate(b, from)| == |Split(b).0| && Holds(b, from, Locate(b, from)[i], Split(b).0[i].payload)
    decreases |b|
  {
    LocateCounts(b, from);
    LocateStep(b, from);
    if i == 0 {
      FirstPacketHolds(b, from);
    } else {
      var n := FrameSize(b);
      LocateFindsFrame(b[n..], from + n, i - 1);
      LaterPacketHolds(b, from, n, Locate(b[n..], from + n)[i - 1], Split(b[n..]).0[i - 1].payload);
    }
  }

  /** Packets do not overlap: each lies after the end of every earlier one. */
  lemma {:induction false} LocateOrdered(b: seq<byte>, from: nat, i: nat, j: nat)
    requires i < j < |Locate(b, from)|
    ensures Locate(b, from)[i].offset + Locate(b, from)[i].length < Locate(b, from)[j].offset
    decreases |b|
  {
    var n := FrameSize(b);
    if i > 0 {
      LocateOrdered(b[n..], from + n, i - 1, j - 1);
    } else {
      LocateFindsFrame(b[n..], from + n, j - 1);
    }
  }

  // ---------------------------------------------------------------------------------------------
  // The driver's loop

  /** The byte swap of a USHORT. */
  function Ntohs(x: nat): nat
    requires x < 0x1_0000
  {
    (x % 256) * 256 + x / 256
  }

  lemma {:induction false} LowSixBits(x: byte)
    ensures x as nat % 64 == x as nat - 64 * TopBits(x)
  {
  }

  /** The swap of what the machine loads is the big-endian number. */
  lemma {:induction false} SwapReadsBigEndian(high: byte, low: byte)
    ensures Ntohs(LoadUshort(high, low)) == 256 * high as nat + low as nat
  {
    assert LoadUshort(high, low) % 256 == high as nat && LoadUshort(high, low) / 256 == low as nat;
  }

  /** What the driver reports of the bytes `b` that start at `from`: the place of the payload of their
      first frame and what follows that frame, or that they do not start with a frame. */
  predicate Retrieved(b: seq<byte>, from: nat, packet: Option<nat>, dataPtr: nat, dataLength: nat, length: nat) {
    if StartsWithFrame(b) then
      && packet == Some(from + HEADER_SIZE) && length == |FirstFrame(b).payload|
      && b[HEADER_SIZE..HEADER_SIZE + length] == FirstFrame(b).payload
      && dataPtr == from + FrameSize(b) && dataPtr + dataLength == from + |b|
    else packet == None
  }

  /** QDBRD_RetrievePacket: pointers are offsets into the block. On failure the data pointer, and for a
      malformed packet the data length too, have moved all the same. */
  method RetrievePacket(buffer: seq<byte>, dataPtr: nat, dataLength: nat)
    returns (packet: Option<nat>, dataPtr': nat, dataLength': nat, packetLength: nat)
    requires dataPtr + dataLength == |buffer|
    ensures Retrieved(buffer[dataPtr..], dataPtr, packet, dataPtr', dataLength', packetLength)
    ensures packet.None? ==> packetLength == 0
    ensures dataLength <= HEADER_SIZE ==> dataPtr' == dataPtr && dataLength' == dataLength
    ensures packet.None? && dataLength > HEADER_SIZE ==>
              var size := HEADER_SIZE + Total(buffer[dataPtr..]);
              dataPtr' == dataPtr + size && dataLength' == if dataLength < size then dataLength else dataLength - size
  {
    dataPtr', dataLength' := dataPtr, dataLength;
    if dataLength <= HEADER_SIZE {
      return None, dataPtr', dataLength', 0;
    }
    ghost var b := buffer[dataPtr..];
    SwapReadsBigEndian(buffer[dataPtr + 2], buffer[dataPtr + 3]);
    packetLength := Ntohs(LoadUshort(buffer[dataPtr + 2], buffer[dataPtr + 3]));
    var pktPtr := dataPtr + HEADER_SIZE;
    dataPtr' := dataPtr + HEADER_SIZE + packetLength;
    if dataLength < HEADER_SIZE + packetLength {
      return None, dataPtr', dataLength', 0;
    }
    dataLength' := dataLength - (HEADER_SIZE + packetLength);
    var padBytes := buffer[dataPtr] as nat % 64;
    LowSixBits(buffer[dataPtr]);
    if packetLength <= padBytes {
      return None, dataPtr', dataLength', 0;
    }
    packetLength := packetLength - padBytes;
    assert StartsWithFrame(b);
    assert buffer[pktPtr..pktPtr + packetLength] == FirstFrame(b).payload;
    packet := Some(pktPtr);
  }

  lemma {:induction false} LocateUnfolds(buffer: seq<byte>, from: nat, packet: Option<nat>, dataPtr: nat,
                                         dataLength: nat, length: nat)
    requires from <= |buffer| && Retrieved(buffer[from..], from, packet, dataPtr, dataLength, length)
    ensures packet.None? ==> Locate(buffer[from..], from) == []
    ensures packet.Some? ==>
              && from < dataPtr && dataPtr + dataLength == |buffer|
              && Locate(buffer[from..], from) == [Packet(packet.value, length)] + Locate(buffer[dataPtr..], dataPtr)
  {
    var b := buffer[from..];
    if packet.Some? {
      LocateStep(b, from);
      assert b[FrameSize(b)..] == buffer[dataPtr..];
    }
  }

  lemma {:induction false} UlongCountsOn(x: nat)
    ensures Ulong(Ulong(x) + 1) == Ulong(x + 1)
  {
  }

  class DrainStats {
    var packetsDrained: nat

    method CountPacket(ghost counted: nat)
      requires packetsDrained == Ulong(counted)
      modifies this
      ensures packetsDrained == Ulong(counted + 1)
    {
      UlongCountsOn(counted);
      packetsDrained := Ulong(packetsDrained + 1);
    }

    /** QDBRD_ProcessDrainedDPLBlock, which also tells what it saw: the payloads of the longest valid
        row of frames, while the ULONG counter is advanced by their number. */
    method ProcessDrainedDPLBlock(buffer: seq<byte>) returns (packets: seq<Packet>)
      requires packetsDrained < ULONG_SIZE
      modifies this
      ensures packets == Locate(buffer, 0)
      ensures packetsDrained == Ulong(old(packetsDrained) + |packets|)
    {
      packets := [];
      ghost var all := Locate(buffer, 0);
      assert buffer[0..] == buffer;
      var packet, dataPtr, dataLength, packetLength := RetrievePacket(buffer, 0, |buffer|);
      ghost var from, counted := 0, packetsDrained;
      while packet.Some?
        invariant from <= |buffer| && all == packets + Locate(buffer[from..], from)
        invariant Retrieved(buffer[from..], from, packet, dataPtr, dataLength, packetLength)
        invariant counted == old(packetsDrained) + |packets| && packetsDrained == Ulong(counted)
        decreases |buffer| - from
      {
        LocateUnfolds(buffer, from, packet, dataPtr, dataLength, packetLength);
        ghost var seen := packets;
        CountPacket(counted);
        counted := counted + 1;
        packets := packets + [Packet(packet.value, packetLength)];
        Regroup(seen, Packet(packet.value, packetLength), Locate(buffer[dataPtr..], dataPtr), []);
        from := dataPtr;
        packet, dataPtr, dataLength, packetLength := RetrievePacket(buffer, dataPtr, dataLength);
      }
      LocateUnfolds(buffer, from, packet, dataPtr, dataLength, packetLength);
    }
  }
}
