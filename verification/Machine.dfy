/** The widths of the integers that the drivers compute with, and what the other modules share. */
module Machine {

  newtype byte = x: int | 0 <= x < 256

  const UCHAR_SIZE: nat := 0x100
  const USHORT_SIZE: nat := 0x1_0000
  const ULONG_SIZE: nat := 0x1_0000_0000

  datatype Option<+T> = None | Some(value: T)

  function Uchar(x: nat): byte { (x % UCHAR_SIZE) as byte }

  function Ushort(x: nat): nat { x % USHORT_SIZE }

  function Ulong(x: nat): nat { x % ULONG_SIZE }

  /** A USHORT as a little-endian machine loads it. */
  function LoadUshort(low: byte, high: byte): nat { low as nat + 256 * high as nat }

  function Bit(b: bool): nat { if b then 1 else 0 }

  function Elements<T(==)>(s: seq<T>): set<T> {
    set x | x in s
  }

  predicate NoDuplicates<T(==)>(s: seq<T>) {
    forall i, j :: 0 <= i < j < |s| ==> s[i] != s[j]
  }

  lemma {:induction false} Regroup<T>(s: seq<T>, x: T, t: seq<T>, u: seq<T>)
    ensures s + ([x] + (t + u)) == ((s + [x]) + t) + u
    ensures s + ([x] + t) == (s + [x]) + t && [x] + (t + u) == ([x] + t) + u
  {
  }

  lemma {:induction false} Associate<T>(s: seq<T>, t: seq<T>, u: seq<T>)
    ensures (s + t) + u == s + (t + u)
  {
  }
}
