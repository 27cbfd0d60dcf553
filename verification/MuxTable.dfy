/** The numbering of the virtual interfaces as the filter remembers it (InterfaceMuxList), and the lookup
    that inverts it. A slot that was never filled holds 0, as in a new device extension. */
module MuxTable {
  import opened Machine
  import opened UsbDescriptor

  const TABLE_SIZE: nat := 16

  datatype Row = Row(physical: nat, virtual: seq<nat>)

  predicate IsTable(rows: seq<Row>) {
    |rows| == TABLE_SIZE && forall i :: 0 <= i < |rows| ==> |rows[i].virtual| == TABLE_SIZE
  }

  function EmptyTable(): (rows: seq<Row>)
    ensures IsTable(rows)
  {
    seq(TABLE_SIZE, i => Row(0, seq(TABLE_SIZE, j => 0)))
  }

  /** The place in the numbering where row `i` starts when rows have `m` virtual interfaces: `i * m`. */
  function RowStart(m: nat, i: nat): nat { if i == 0 then 0 else RowStart(m, i - 1) + m }

  lemma {:induction false} RowStartIsProduct(m: nat, i: nat)
    ensures RowStart(m, i) == i * m
  {
    if i > 0 {
      RowStartIsProduct(m, i - 1);
      assert (i - 1) * m + m == i * m;
    }
  }

  lemma {:induction false} RowsInOrder(m: nat, i: nat, n: nat)
    requires i <= n
    ensures RowStart(m, i) <= RowStart(m, n)
    ensures i < n ==> RowStart(m, i) + m == RowStart(m, i + 1) <= RowStart(m, n)
  {
    if i < n {
      RowsInOrder(m, i, n - 1);
    }
  }

  lemma {:induction false} RowBound(m: nat, n: nat)
    requires m <= TABLE_SIZE
    ensures RowStart(m, n) <= 16 * n
  {
    if n > 0 {
      RowBound(m, n - 1);
    }
  }

  /** The number written for virtual interface `j` of row `i`. */
  function SlotNumber(m: nat, i: nat, j: nat): nat { VirtualNumber(RowStart(m, i) + j) as nat }

  /** Row `i` when its first `done` virtual interfaces are numbered. */
  function NumberedRow(row: Row, start: nat, m: nat, i: nat, done: nat): (r: Row)
    requires |row.virtual| == TABLE_SIZE && done <= TABLE_SIZE
    ensures |r.virtual| == TABLE_SIZE
  {
    Row(Ulong(start + i), seq(done, j requires 0 <= j < done => SlotNumber(m, i, j)) + row.virtual[done..])
  }

  /** The table when the rows below `n` are numbered. */
  function Numbered(rows: seq<Row>, start: nat, n: nat, m: nat): (r: seq<Row>)
    requires IsTable(rows) && n <= TABLE_SIZE && m <= TABLE_SIZE
    ensures IsTable(r)
  {
    seq(TABLE_SIZE, i requires 0 <= i < TABLE_SIZE =>
          if i < n then NumberedRow(rows[i], start, m, i, m) else rows[i])
  }

  /** Asking for the descriptors again does not change the table. */
  lemma {:induction false} NumberedAgain(rows: seq<Row>, start: nat, n: nat, m: nat)
    requires IsTable(rows) && n <= TABLE_SIZE && m <= TABLE_SIZE
    ensures Numbered(Numbered(rows, start, n, m), start, n, m) == Numbered(rows, start, n, m)
  {
    var once := Numbered(rows, start, n, m);
    forall i | 0 <= i < n ensures NumberedRow(once[i], start, m, i, m) == once[i] {
      assert once[i].virtual[m..] == rows[i].virtual[m..];
    }
  }

  predicate Holds(row: Row, number: nat) {
    row.physical == number || number in row.virtual
  }

  /** The scan takes the first row that holds the number. */
  predicate FoundIn(rows: seq<Row>, number: nat, i: nat) {
    i < |rows| && Holds(rows[i], number) && forall k :: 0 <= k < i ==> !Holds(rows[k], number)
  }

  // ---------------------------------------------------------------------------------------------
  // Lookup inverts numbering

  /** The configurations the driver is made for: physical numbers are not 0 and fit below the virtual ones. */
  predicate Configured(start: nat, n: nat, m: nat) {
    1 <= start && start + n <= FIRST_VIRTUAL && n <= TABLE_SIZE && m <= TABLE_SIZE
  }

  lemma {:induction false} NumberOfPlace(place: nat)
    requires place < 256
    ensures VirtualNumber(place) as nat == if place < 128 then 0x80 + place else place - 128
    ensures Place(VirtualNumber(place) as nat) == place
  {
  }

  /** What row `k` of a freshly numbered table holds. */
  lemma {:induction false} RowHolds(start: nat, n: nat, m: nat, k: nat, number: nat)
    requires Configured(start, n, m) && k < TABLE_SIZE
    ensures var row := Numbered(EmptyTable(), start, n, m)[k];
            Holds(row, number) <==>
              || (k < n && number == start + k)
              || (k < n && exists j :: 0 <= j < m && number == SlotNumber(m, k, j))
              || (number == 0 && (k >= n || m < TABLE_SIZE))
  {
    var row := Numbered(EmptyTable(), start, n, m)[k];
    if k < n {
      assert row.physical == start + k;
      forall j | 0 <= j < m ensures SlotNumber(m, k, j) in row.virtual {
        assert row.virtual[j] == SlotNumber(m, k, j);
      }
      if m < TABLE_SIZE { assert row.virtual[m] == 0; }
      if number in row.virtual {
        var j :| 0 <= j < TABLE_SIZE && row.virtual[j] == number;
        assert j < m ==> number == SlotNumber(m, k, j);
        assert j >= m ==> number == 0;
      }
    } else {
      assert row == EmptyTable()[k] && row.virtual[0] == 0;
    }
  }

  /** Which row holds a number as a virtual one: the row whose places include it. */
  lemma {:induction false} VirtualInRow(n: nat, m: nat, k: nat, q: nat)
    requires n <= TABLE_SIZE && m <= TABLE_SIZE && k < n && q < 256
    ensures (exists j :: 0 <= j < m && SlotNumber(m, k, j) == VirtualNumber(q) as nat)
      <==> RowStart(m, k) <= q < RowStart(m, k) + m
  {
    var first := RowStart(m, k);
    RowBound(m, k + 1);
    forall j | 0 <= j < m && SlotNumber(m, k, j) == VirtualNumber(q) as nat ensures first + j == q {
      VirtualNumberInjective(first + j, q);
    }
    if first <= q < first + m {
      assert SlotNumber(m, k, q - first) == VirtualNumber(first + (q - first)) as nat;
    }
  }

  /** The place in the numbering that has a given number. */
  function Place(number: nat): nat { (number + 128) % 256 }

  /** `RowHolds`, with the virtual numbers of a row as a range of places. */
  lemma {:induction false} RowHoldsByte(start: nat, n: nat, m: nat, k: nat, number: nat)
    requires Configured(start, n, m) && k < TABLE_SIZE && number < 256
    ensures Holds(Numbered(EmptyTable(), start, n, m)[k], number) <==>
              || (k < n && (number == start + k || RowStart(m, k) <= Place(number) < RowStart(m, k) + m))
              || (number == 0 && (k >= n || m < TABLE_SIZE))
  {
    RowHolds(start, n, m, k, number);
    if k < n {
      assert VirtualNumber(Place(number)) as nat == number;
      VirtualInRow(n, m, k, Place(number));
    }
  }

  lemma {:induction false} DivisionFinds(q: nat, n: nat, m: nat)
    requires q < RowStart(m, n)
    ensures m > 0 && q / m < n && q == RowStart(m, q / m) + q % m
  {
    RowStartIsProduct(m, n);
    assert m > 0;
    RowStartIsProduct(m, q / m);
    if q / m >= n { RowsInOrder(m, n, q / m); }
  }

  lemma {:induction false} SlotInRows(start: nat, n: nat, m: nat, i: nat, j: nat, k: nat)
    requires Configured(start, n, m) && k <= i < n && j < m
    ensures var number := SlotNumber(m, i, j);
            Holds(Numbered(EmptyTable(), start, n, m)[k], number) <==>
              number == start + k || k == i || (number == 0 && m < TABLE_SIZE)
  {
    RowBound(m, i + 1);
    NumberOfPlace(RowStart(m, i) + j);
    RowHoldsByte(start, n, m, k, SlotNumber(m, i, j));
    RowsInOrder(m, k, i);
  }

  /** The place of a slot is found in its row exactly when no earlier row holds its number. */
  lemma {:induction false} SlotFoundExactlyWhen(start: nat, n: nat, m: nat, i: nat, j: nat)
    requires Configured(start, n, m) && i < n && j < m
    ensures var number := SlotNumber(m, i, j);
            FoundIn(Numbered(EmptyTable(), start, n, m), number, i) <==>
              !(start <= number < start + i) && (i == 0 || number != 0 || m == TABLE_SIZE)
  {
    var rows, number := Numbered(EmptyTable(), start, n, m), SlotNumber(m, i, j);
    forall k | 0 <= k <= i
      ensures Holds(rows[k], number) <==> number == start + k || k == i || (number == 0 && m < TABLE_SIZE)
    {
      SlotInRows(start, n, m, i, j, k);
    }
    if i > 0 { assert Holds(rows[0], number) <==> number == start || (number == 0 && m < TABLE_SIZE); }
    if start <= number < start + i { assert Holds(rows[number - start], number); }
  }

  /** A virtual number leads back to its physical interface exactly when it did not wrap around a byte,
      or wrapped to a number that is neither that of an earlier physical interface nor a free slot. */
  lemma {:induction false} LookupInvertsExactlyWhen(start: nat, n: nat, m: nat, i: nat, j: nat)
    requires Configured(start, n, m) && i < n && j < m
    ensures var place := RowStart(m, i) + j;
            FoundIn(Numbered(EmptyTable(), start, n, m), SlotNumber(m, i, j), i) <==>
              || place < 128
              || (!(start <= place - 128 < start + i) && (place > 128 || m == TABLE_SIZE))
  {
    SlotFoundExactlyWhen(start, n, m, i, j);
    RowBound(m, i + 1);
    NumberOfPlace(RowStart(m, i) + j);
  }

  lemma {:induction false} PhysicalOfRow(start: nat, n: nat, m: nat, i: nat)
    requires Configured(start, n, m) && i < n
    ensures Numbered(EmptyTable(), start, n, m)[i].physical == start + i
  {
  }

  lemma {:induction false} FirstLapIsFound(start: nat, n: nat, m: nat, i: nat, j: nat)
    requires Configured(start, n, m) && i < n && j < m && RowStart(m, i) + j < 128
    ensures var rows := Numbered(EmptyTable(), start, n, m);
            FoundIn(rows, FIRST_VIRTUAL + (RowStart(m, i) + j), i) && rows[i].physical == start + i
  {
    NumberOfPlace(RowStart(m, i) + j);
    LookupInvertsExactlyWhen(start, n, m, i, j);
    PhysicalOfRow(start, n, m, i);
  }

  /** With at most 128 virtual interfaces every number is at least 0x80 and the lookup is division. */
  lemma {:induction false} LookupIsDivision(start: nat, n: nat, m: nat, number: nat) returns (i: nat)
    requires Configured(start, n, m) && RowStart(m, n) <= 128
    requires FIRST_VIRTUAL <= number < FIRST_VIRTUAL + RowStart(m, n)
    ensures m > 0 && i == (number - FIRST_VIRTUAL) / m
    ensures var rows := Numbered(EmptyTable(), start, n, m);
            i < n && FoundIn(rows, number, i) && rows[i].physical == start + i
  {
    var q := number - FIRST_VIRTUAL;
    DivisionFinds(q, n, m);
    i := q / m;
    FirstLapIsFound(start, n, m, i, q % m);
  }

  /** A physical number returns itself exactly when no wrapped virtual number in an earlier row took it. */
  lemma {:induction false} PhysicalReturnsItselfExactlyWhen(start: nat, n: nat, m: nat, i: nat)
    requires Configured(start, n, m) && i < n
    ensures FoundIn(Numbered(EmptyTable(), start, n, m), start + i, i) <==> RowStart(m, i) <= start + i + 128
    ensures RowStart(m, n) <= 128 ==> FoundIn(Numbered(EmptyTable(), start, n, m), start + i, i)
  {
    var rows, number, place := Numbered(EmptyTable(), start, n, m), start + i, start + i + 128;
    assert Place(number) == place;
    forall k | 0 <= k <= i
      ensures Holds(rows[k], number) <==> k == i || RowStart(m, k) <= place < RowStart(m, k) + m
    {
      RowHoldsByte(start, n, m, k, number);
    }
    if place < RowStart(m, i) {
      DivisionFinds(place, i, m);
      assert Holds(rows[place / m], number);
    } else {
      forall k | 0 <= k < i ensures !Holds(rows[k], number) { RowsInOrder(m, k, i); }
    }
    RowsInOrder(m, i, n);
  }

  /** Any other number but 0 is in no row. */
  lemma {:induction false} OtherNumbersFail(start: nat, n: nat, m: nat, number: nat)
    requires Configured(start, n, m) && 0 < number < 256
    requires !(start <= number < start + n) && Place(number) >= RowStart(m, n)
    ensures forall i :: !FoundIn(Numbered(EmptyTable(), start, n, m), number, i)
  {
    var rows := Numbered(EmptyTable(), start, n, m);
    forall k | 0 <= k < TABLE_SIZE ensures !Holds(rows[k], number) {
      RowHoldsByte(start, n, m, k, number);
      if k < n { RowsInOrder(m, k, n); }
    }
  }

  /** Number 0 is never refused: free slots hold it, so it names the first interface, or nothing (physical
      number 0), or the interface to which numbering wrapped around. */
  lemma {:induction false} ZeroAlwaysFound(start: nat, n: nat, m: nat)
    requires Configured(start, n, m)
    ensures FoundIn(Numbered(EmptyTable(), start, n, m), 0, if m < TABLE_SIZE then 0 else if n > 8 then 8 else n)
  {
    var rows := Numbered(EmptyTable(), start, n, m);
    forall k | 0 <= k < TABLE_SIZE
      ensures Holds(rows[k], 0) <==> k >= n || m < TABLE_SIZE || k == 8
    {
      RowHoldsByte(start, n, m, k, 0);
      RowStartIsProduct(m, k);
    }
  }
}
