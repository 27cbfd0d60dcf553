/** The filter device of qcfilter.c: the reply to a request for the configuration descriptor, written in
    place into the buffer of the request, and the answer to IOCTL_QCDEV_GET_MUX_INTERFACE. */
module FilterDevice {
  import opened Machine
  import opened MuxTable
  import opened UsbDescriptor

  datatype Status = Success | Unsuccessful | Cancelled

  datatype MuxInterface = MuxInterface(number: byte, muxEnabled: bool, physicalNumber: byte)

  /** One more interface descriptor, field by field. */
  method WriteVirtualIface(buffer: array<byte>, at: nat, number: byte)
    requires at + IFACE_SIZE <= buffer.Length
    modifies buffer
    ensures buffer[..] == old(buffer[..at]) + [9, IFACE_TYPE, number, 0, 0, 0xFF, 0xFF, 0xFF, 0]
                          + old(buffer[at + IFACE_SIZE..])
  {
    buffer[at] := 9;
    buffer[at + 1] := IFACE_TYPE;
    buffer[at + 2] := number;
    buffer[at + 3] := 0;
    buffer[at + 4] := 0;
    buffer[at + 8] := 0;
    buffer[at + 5] := 0xFF;
    buffer[at + 6] := 0xFF;
    buffer[at + 7] := 0xFF;
    assert buffer[at..at + IFACE_SIZE] == [9, IFACE_TYPE, number, 0, 0, 0xFF, 0xFF, 0xFF, 0];
    assert buffer[..] == buffer[..at] + buffer[at..at + IFACE_SIZE] + buffer[at + IFACE_SIZE..];
  }

  /** The header fields wTotalLength and bNumInterfaces. */
  method WriteHeader(buffer: array<byte>, k: nat)
    requires buffer.Length >= CONFIG_SIZE
    modifies buffer
    ensures buffer[..] == Announce(old(buffer[..]), k)
  {
    ghost var was := buffer[..];
    var total := Ushort(LoadUshort(buffer[2], buffer[3]) + IFACE_SIZE * k);
    var low, high, number := Uchar(total), Uchar(total / 256), Uchar(buffer[4] as nat + k);
    buffer[2] := low;
    buffer[3] := high;
    buffer[4] := number;
    assert buffer[..] == was[2 := low][3 := high][4 := number];
  }

  /** The answer of a filter with these rows: the first row that holds the number, or none does. */
  ghost predicate IsAnswer(rows: seq<Row>, number: byte, info: Option<MuxInterface>) {
    match info
    case None => forall i :: 0 <= i < |rows| ==> !Holds(rows[i], number as nat)
    case Some(answer) =>
      exists i: nat :: FoundIn(rows, number as nat, i) && answer == MuxInterface(number, true, Uchar(rows[i].physical))
  }

  predicate Leads(number: byte, info: Option<MuxInterface>, physical: int) {
    && info.Some? && info.value.number == number && info.value.muxEnabled
    && info.value.physicalNumber as int == physical
  }

  lemma {:induction false} AnswerAt(rows: seq<Row>, number: byte, info: Option<MuxInterface>, i: nat)
    requires FoundIn(rows, number as nat, i) && IsAnswer(rows, number, info)
    ensures info == Some(MuxInterface(number, true, Uchar(rows[i].physical)))
    ensures rows[i].physical < 256 ==> Leads(number, info, rows[i].physical)
  {
  }

  predicate IsVirtual(n: nat, m: nat, number: byte) {
    FIRST_VIRTUAL <= number as nat < FIRST_VIRTUAL + RowStart(m, n)
  }

  lemma {:induction false} VirtualAnswer(start: nat, n: nat, m: nat, number: byte, info: Option<MuxInterface>)
    requires Configured(start, n, m) && RowStart(m, n) <= 128 && IsVirtual(n, m, number)
    requires IsAnswer(Numbered(EmptyTable(), start, n, m), number, info)
    ensures m > 0 && Leads(number, info, start + (number as nat - FIRST_VIRTUAL) / m)
  {
    var i := LookupIsDivision(start, n, m, number as nat);
    AnswerAt(Numbered(EmptyTable(), start, n, m), number, info, i);
  }

  lemma {:induction false} PhysicalAnswer(start: nat, n: nat, m: nat, number: byte, info: Option<MuxInterface>)
    requires Configured(start, n, m) && RowStart(m, n) <= 128 && start <= number as nat < start + n
    requires IsAnswer(Numbered(EmptyTable(), start, n, m), number, info)
    ensures Leads(number, info, number as nat)
  {
    var i := number as nat - start;
    PhysicalReturnsItselfExactlyWhen(start, n, m, i);
    PhysicalOfRow(start, n, m, i);
    AnswerAt(Numbered(EmptyTable(), start, n, m), number, info, i);
  }

  lemma {:induction false} OtherAnswer(start: nat, n: nat, m: nat, number: byte, info: Option<MuxInterface>)
    requires Configured(start, n, m) && RowStart(m, n) <= 128 && !IsVirtual(n, m, number) && number != 0
    requires !(start <= number as nat < start + n)
    requires IsAnswer(Numbered(EmptyTable(), start, n, m), number, info)
    ensures info == None
  {
    PlaceOfOther(RowStart(m, n), number as nat);
    OtherNumbersFail(start, n, m, number as nat);
  }

  lemma {:induction false} PlaceOfOther(count: nat, number: nat)
    requires count <= 128 && number < 256 && !(FIRST_VIRTUAL <= number < FIRST_VIRTUAL + count)
    ensures Place(number) >= count
  {
  }

  /** With at most 128 virtual interfaces the lookup inverts the numbering: each virtual number leads to the
      physical interface it was made for, each physical number to itself, and no other number but 0 is found. */
  lemma {:induction false} AnswersInvertNumbering(start: nat, n: nat, m: nat, number: byte, info: Option<MuxInterface>)
    requires Configured(start, n, m) && RowStart(m, n) <= 128 && number != 0
    requires IsAnswer(Numbered(EmptyTable(), start, n, m), number, info)
    ensures IsVirtual(n, m, number) ==> m > 0 && Leads(number, info, start + (number as nat - FIRST_VIRTUAL) / m)
    ensures start <= number as nat < start + n ==> Leads(number, info, number as nat)
    ensures info.Some? <==> IsVirtual(n, m, number) || start <= number as nat < start + n
  {
    if IsVirtual(n, m, number) {
      VirtualAnswer(start, n, m, number, info);
    } else if start <= number as nat < start + n {
      PhysicalAnswer(start, n, m, number, info);
    } else {
      OtherAnswer(start, n, m, number, info);
    }
  }

  class FilterDevice {
    const muxSupport: nat
    const startIface: nat
    const numIface: nat
    const numMux: nat
    const virtualCount: nat   // NumRmnetIfaceVCount
    const muxList: array<Row>

    ghost predicate Valid()
      reads this, muxList
    {
      && startIface < ULONG_SIZE && numIface <= TABLE_SIZE && numMux <= TABLE_SIZE
      && virtualCount == RowStart(numMux, numIface) && IsTable(muxList[..])
    }

    constructor (muxSupport: nat, startIface: nat, numIface: nat, numMux: nat)
      requires startIface < ULONG_SIZE && numIface <= TABLE_SIZE && numMux <= TABLE_SIZE
      ensures Valid() && fresh(muxList) && muxList[..] == EmptyTable()
      ensures this.muxSupport == muxSupport && this.startIface == startIface
      ensures this.numIface == numIface && this.numMux == numMux && virtualCount == numIface * numMux
    {
      this.muxSupport, this.startIface, this.numIface, this.numMux := muxSupport, startIface, numIface, numMux;
      virtualCount := if numIface > 0 then numIface * numMux else 0;
      RowStartIsProduct(numMux, numIface);
      muxList := new Row[TABLE_SIZE](i => Row(0, seq(TABLE_SIZE, j => 0)));
    }

    /** The header test before descriptors are added, a comparison of ULONGs. */
    predicate MuxApplies(numInterfaces: nat)
    {
      muxSupport == 1 && numInterfaces >= (startIface + numIface + ULONG_SIZE - 1) % ULONG_SIZE
    }

    /** When descriptors are added: with multiplexing, if the device announces at least as many interfaces as the
        last physical one needs. Nothing is ever added if start and count are both 0, because the difference wraps
        to the largest ULONG, and a sum beyond a ULONG counts from 0 again. */
    lemma MuxAppliesExactlyWhen(numInterfaces: byte)
      requires Valid()
      ensures MuxApplies(numInterfaces as nat) <==>
                && muxSupport == 1 && startIface + numIface > 0
                && (if startIface + numIface <= 0x1_0000_0000 then startIface + numIface <= numInterfaces as nat + 1
                    else startIface + numIface - 0x1_0000_0000 <= numInterfaces as nat + 1)
    {
    }

    /** One descriptor of the inner loop: its number, and its place in the buffer. */
    method AddMuxInterface(buffer: array<byte>, ghost was: seq<byte>, total: nat, i: nat, j: nat, ghost first: nat)
      returns (number: byte)
      requires first == RowStart(numMux, i) && |was| == buffer.Length
      requires total + IFACE_SIZE * (first + j + 1) <= buffer.Length && buffer[..] == Image(was, total, first + j)
      modifies buffer
      ensures buffer[..] == Image(was, total, first + j + 1) && number as nat == SlotNumber(numMux, i, j)
    {
      var k := i * numMux + j;
      RowStartIsProduct(numMux, i);
      number := VirtualNumber(k);
      ImageStep(was, total, k);
      WriteVirtualIface(buffer, total + IFACE_SIZE * k, number);
    }

    /** The inner loop of USBPNP_SelectAndAddInterfaces. */
    method AddMuxInterfaces(buffer: array<byte>, ghost was: seq<byte>, total: nat, i: nat, ghost first: nat)
      requires Valid() && i < numIface && |was| == buffer.Length
      requires first == RowStart(numMux, i) && total + IFACE_SIZE * (first + numMux) <= buffer.Length
      requires buffer[..] == Image(was, total, first)
      modifies buffer, muxList
      ensures IsTable(muxList[..])
      ensures buffer[..] == Image(was, total, first + numMux)
      ensures muxList[..] == old(muxList[..])[i := NumberedRow(old(muxList[i]), startIface, numMux, i, numMux)]
    {
      ghost var rows := muxList[..];
      muxList[i] := muxList[i].(physical := Ulong(startIface + i));
      NumberedRowStart(rows[i], startIface, numMux, i);
      var j := 0;
      while j < numMux
        invariant j <= numMux
        invariant buffer[..] == Image(was, total, first + j)
        invariant muxList[i] == NumberedRow(rows[i], startIface, numMux, i, j)
        invariant muxList[..] == rows[i := muxList[i]]
      {
        var number := AddMuxInterface(buffer, was, total, i, j, first);
        NumberedRowStep(rows[i], startIface, numMux, i, j);
        muxList[i] := muxList[i].(virtual := muxList[i].virtual[j := number as nat]);
        j := j + 1;
      }
    }

    /** The outer loop of USBPNP_SelectAndAddInterfaces. */
    method AddInterfaces(buffer: array<byte>, ghost was: seq<byte>, total: nat)
      requires Valid() && |was| == buffer.Length && total + IFACE_SIZE * virtualCount <= buffer.Length
      requires buffer[..] == was
      modifies buffer, muxList
      ensures Valid() && muxList[..] == Numbered(old(muxList[..]), startIface, numIface, numMux)
      ensures buffer[..] == Image(was, total, virtualCount)
    {
      ghost var rows := muxList[..];
      var i := 0;
      ghost var k := 0;
      assert was == Image(was, total, 0);
      while i < numIface
        invariant i <= numIface && IsTable(muxList[..])
        invariant k == RowStart(numMux, i) <= virtualCount
        invariant buffer[..] == Image(was, total, k)
        invariant muxList[..] == Numbered(rows, startIface, i, numMux)
      {
        RowsInOrder(numMux, i, numIface);
        AddMuxInterfaces(buffer, was, total, i, k);
        NumberedStep(rows, startIface, i, numMux);
        i, k := i + 1, k + numMux;
      }
    }

    /** USBPNP_SelectAndAddInterfaces, which returns the new transfer length. `buffer` is the memory from the
        start of the transfer buffer on, as far as the code writes; where the transfer buffer itself ends
        plays no part (see `UsbDescriptor.WritesInsideExactlyWhen`). */
    method SelectAndAddInterfaces(buffer: array<byte>) returns (transferLength: nat)
      requires Valid() && buffer.Length >= CONFIG_SIZE && TotalLength(buffer[..]) >= CONFIG_SIZE
      requires TotalLength(buffer[..]) + IFACE_SIZE * virtualCount <= buffer.Length
      modifies buffer, muxList
      ensures Valid() && muxList[..] == Numbered(old(muxList[..]), startIface, numIface, numMux)
      ensures var was := old(buffer[..]);
              && buffer[..] == Image(Announce(was, virtualCount), TotalLength(was), virtualCount)
              && transferLength == Ushort(TotalLength(was) + IFACE_SIZE * virtualCount)
    {
      var total := LoadUshort(buffer[2], buffer[3]);
      WriteHeader(buffer, virtualCount);
      transferLength := Ushort(total + IFACE_SIZE * virtualCount);
      AddInterfaces(buffer, buffer[..], total);
    }

    /** The descriptor branch of QCFilterDispatchIo after the device has answered. `length` bytes of the memory
        are the transfer buffer; any other length than that of a header is treated alike, and what is stored
        stays inside the transfer buffer exactly when it has room for all that is announced. */
    method OnConfigDescriptor(buffer: array<byte>, length: nat) returns (status: Status, length': nat)
      requires Valid() && buffer.Length >= CONFIG_SIZE
      requires ValidHeader(buffer[..]) && MuxApplies(NumInterfaces(buffer[..])) && length != CONFIG_SIZE ==>
                 TotalLength(buffer[..]) + IFACE_SIZE * virtualCount <= buffer.Length
      modifies buffer, muxList
      ensures Valid()
      ensures var was, k := old(buffer[..]), virtualCount;
              var applies := MuxApplies(NumInterfaces(was));
              && (status == Unsuccessful <==> !ValidHeader(was) && (length == CONFIG_SIZE || applies))
              && (ValidHeader(was) <==>
                    1 <= was[0] <= 9 && was[1] == 0x02 && was[2] as nat + 256 * was[3] as nat >= 9)
              && (status == Success || status == Unsuccessful)
              && (!(ValidHeader(was) && applies) ==> buffer[..] == was && length' == length)
              && (ValidHeader(was) && applies && length == CONFIG_SIZE ==>
                    buffer[..] == Announce(was, k) && length' == length)
              && (ValidHeader(was) && applies && length != CONFIG_SIZE ==>
                    && buffer[..] == Image(Announce(was, k), TotalLength(was), k)
                    && length' == Ushort(TotalLength(was) + IFACE_SIZE * k))
      ensures var was, k := old(buffer[..]), virtualCount;
              ValidHeader(was) && MuxApplies(NumInterfaces(was)) && length != CONFIG_SIZE && k > 0 ==>
                && (forall o :: 0 <= o < buffer.Length && !Written(TotalLength(was), k, o) ==> buffer[o] == was[o])
                && ((forall o: nat :: Written(TotalLength(was), k, o) ==> o < length)
                    <==> length >= TotalLength(was) + IFACE_SIZE * k)
      ensures muxList[..] == if ValidHeader(old(buffer[..])) && MuxApplies(NumInterfaces(old(buffer[..])))
                                && length != CONFIG_SIZE
                             then Numbered(old(muxList[..]), startIface, numIface, numMux) else old(muxList[..])
    {
      status, length' := Success, length;
      var valid := 0 < buffer[0] <= 9 && LoadUshort(buffer[2], buffer[3]) >= 9 && buffer[1] == CONFIG_TYPE;
      if length == CONFIG_SIZE {
        if !valid {
          status := Unsuccessful;
        } else if MuxApplies(buffer[4] as nat) {
          WriteHeader(buffer, virtualCount);
        }
      } else if MuxApplies(buffer[4] as nat) {
        if !valid {
          status := Unsuccessful;
        } else {
          ghost var was, t := buffer[..], TotalLength(buffer[..]);
          length' := SelectAndAddInterfaces(buffer);
          forall o | 0 <= o < buffer.Length && !Written(t, virtualCount, o) ensures buffer[o] == was[o] {
            RewritesExactly(was, t, virtualCount, o);
            assert buffer[o] == buffer[..][o];
          }
          if virtualCount > 0 { WritesInsideExactlyWhen(t, virtualCount, length); }
        }
      }
    }

    /** IOCTL_QCDEV_GET_MUX_INTERFACE: the double scan of the table. */
    method GetMuxInterface(number: byte, cancelled: bool) returns (status: Status, info: Option<MuxInterface>)
      requires Valid()
      ensures (status == Success <==> info.Some?) && (status == Cancelled <==> cancelled)
      ensures !cancelled && muxSupport != 1 ==> info == Some(MuxInterface(number, false, number))
      ensures !cancelled && muxSupport == 1 ==> IsAnswer(muxList[..], number, info)
    {
      if cancelled {
        return Cancelled, None;
      }
      if muxSupport != 1 {
        return Success, Some(MuxInterface(number, false, number));
      }
      var i := 0;
      while i < TABLE_SIZE
        invariant i <= TABLE_SIZE && forall k :: 0 <= k < i ==> !Holds(muxList[..][k], number as nat)
      {
        if muxList[i].physical == number as nat {
          assert FoundIn(muxList[..], number as nat, i) && Uchar(muxList[i].physical) == number;
          return Success, Some(MuxInterface(number, true, number));
        }
        var j := 0;
        while j < TABLE_SIZE
          invariant j <= TABLE_SIZE && number as nat !in muxList[i].virtual[..j]
        {
          if muxList[i].virtual[j] == number as nat {
            assert FoundIn(muxList[..], number as nat, i);
            return Success, Some(MuxInterface(number, true, Uchar(muxList[i].physical)));
          }
          j := j + 1;
        }
        assert muxList[i].virtual[..TABLE_SIZE] == muxList[i].virtual;
        i := i + 1;
      }
      return Unsuccessful, None;
    }
  }

  lemma {:induction false} NumberedStep(rows: seq<Row>, start: nat, i: nat, m: nat)
    requires IsTable(rows) && i < TABLE_SIZE && m <= TABLE_SIZE
    ensures var r := Numbered(rows, start, i, m);
            r[i := NumberedRow(r[i], start, m, i, m)] == Numbered(rows, start, i + 1, m)
  {
  }

  lemma {:induction false} NumberedRowStart(row: Row, start: nat, m: nat, i: nat)
    requires |row.virtual| == TABLE_SIZE
    ensures row.(physical := Ulong(start + i)) == NumberedRow(row, start, m, i, 0)
  {
  }

  lemma {:induction false} NumberedRowStep(row: Row, start: nat, m: nat, i: nat, j: nat)
    requires |row.virtual| == TABLE_SIZE && j < TABLE_SIZE
    ensures var r := NumberedRow(row, start, m, i, j);
            r.(virtual := r.virtual[j := SlotNumber(m, i, j)]) == NumberedRow(row, start, m, i, j + 1)
  {
    var r := NumberedRow(row, start, m, i, j);
    assert r.virtual[j := SlotNumber(m, i, j)] == NumberedRow(row, start, m, i, j + 1).virtual;
  }
}
