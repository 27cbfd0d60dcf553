/** The scanner in QDBPNP_GetDeviceSerialNumber: it looks for "_SN:" in a UTF-16LE string descriptor, byte
    by byte, and takes what follows up to a space, an underscore or the end. */
module SerialNumber {
  import opened Machine

  const MARKER := "_SN:"

  datatype Field = Field(at: nat, length: nat)

  /** The buffer is cleared before the string is read into it, so it is zero past its end. */
  function At(b: seq<byte>, i: nat): byte { if i < |b| then b[i] else 0 }

  predicate CharAt(b: seq<byte>, i: nat, c: char)
  {
    At(b, i) as nat == c as nat && At(b, i + 1) == 0
  }

  predicate MarkerAt(b: seq<byte>, i: nat) {
    CharAt(b, i, '_') && CharAt(b, i + 2, 'S') && CharAt(b, i + 4, 'N') && CharAt(b, i + 6, ':')
  }

  predicate StopAt(b: seq<byte>, i: nat) { CharAt(b, i, ' ') || CharAt(b, i, '_') }

  /** What the scan promises for any bytes: the field follows the first marker, and it is the shortest row of
      whole characters that ends before a stop or at the end of the string. */
  ghost predicate Scanned(b: seq<byte>, field: Option<Field>) {
    match field
    case None => forall i :: 0 <= i < |b| ==> !MarkerAt(b, i)
    case Some(Field(at, length)) =>
      && 8 <= at < |b| + 8 && MarkerAt(b, at - 8) && (forall i :: 0 <= i < at - 8 ==> !MarkerAt(b, i))
      && length % 2 == 0 && (at + length >= |b| || StopAt(b, at + length))
      && forall j :: 0 <= j < length && j % 2 == 0 ==> at + j < |b| && !StopAt(b, at + j)
  }

  /** `b` is what the descriptor holds, its length in bytes what the USB stack reported. With `matchPrefix`
      false, or an empty descriptor, the whole string is taken as it is. */
  method Extract(b: seq<byte>, matchPrefix: bool) returns (field: Option<Field>)
    ensures !matchPrefix || b == [] ==> field == Some(Field(0, |b|))
    ensures matchPrefix && b != [] ==> Scanned(b, field)
  {
    if !matchPrefix || |b| == 0 {
      return Some(Field(0, |b|));
    }
    var p, found := 0, false;
    while p < |b| && !found
      invariant p <= |b|
      invariant forall i :: 0 <= i < p ==> !MarkerAt(b, i)
      invariant found ==> p < |b| && MarkerAt(b, p)
      decreases |b| - p, !found
    {
      if MarkerAt(b, p) {
        found := true;
      } else {
        p := p + 1;
      }
    }
    if !found {
      return None;
    }
    var at := p + 8;
    var remaining: int := |b| - at;
    p := at;
    while remaining > 0 && !StopAt(b, p)
      invariant at <= p && (p - at) % 2 == 0 && remaining == |b| - p
      invariant forall j :: 0 <= j < p - at && j % 2 == 0 ==> at + j < |b| && !StopAt(b, at + j)
      decreases remaining
    {
      p := p + 2;
      remaining := remaining - 2;
    }
    return Some(Field(at, p - at));
  }

  // ---------------------------------------------------------------------------------------------
  // What this means for text

  predicate OneByte(text: string) { forall i :: 0 <= i < |text| ==> text[i] as nat < 256 }

  function Utf16(text: string): (b: seq<byte>)
    requires OneByte(text)
    ensures |b| == 2 * |text|
  {
    if text == "" then []
    else Utf16(text[..|text| - 1]) + [text[|text| - 1] as nat as byte, 0]
  }

  lemma {:induction false} Utf16At(text: string, i: nat)
    requires OneByte(text) && i < |text|
    ensures Utf16(text)[2 * i] as nat == text[i] as nat && Utf16(text)[2 * i + 1] == 0
  {
    var last := |text| - 1;
    if i < last {
      Utf16At(text[..last], i);
    }
  }

  predicate MarkerIn(text: string, k: nat) { k + |MARKER| <= |text| && text[k..k + |MARKER|] == MARKER }

  predicate IsStop(c: char) { c == ' ' || c == '_' }

  /** The text after the first marker, up to the next space, underscore or the end. */
  ghost predicate SerialIn(text: string, k: nat, end: nat) {
    && MarkerIn(text, k) && (forall i :: 0 <= i < k ==> !MarkerIn(text, i))
    && k + |MARKER| <= end <= |text| && (end == |text| || IsStop(text[end]))
    && forall i :: k + |MARKER| <= i < end ==> !IsStop(text[i])
  }

  lemma {:induction false} CharInText(text: string, i: nat, c: char)
    requires OneByte(text) && 0 < c as nat < 256
    ensures CharAt(Utf16(text), 2 * i, c) <==> i < |text| && text[i] == c
    ensures !CharAt(Utf16(text), 2 * i + 1, c)
  {
    if i < |text| { Utf16At(text, i); }
  }

  /** Bytes between characters never look like a marker, so the byte scan sees the characters. */
  lemma {:induction false} MarkerInText(text: string, i: nat)
    requires OneByte(text)
    ensures MarkerAt(Utf16(text), 2 * i) <==> MarkerIn(text, i)
    ensures !MarkerAt(Utf16(text), 2 * i + 1)
  {
    CharInText(text, i, '_');
    CharInText(text, i + 1, 'S');
    CharInText(text, i + 2, 'N');
    CharInText(text, i + 3, ':');
    if i + 4 <= |text| {
      assert text[i..i + 4] == [text[i], text[i + 1], text[i + 2], text[i + 3]];
    }
  }

  lemma {:induction false} StopInText(text: string, i: nat)
    requires OneByte(text) && i < |text|
    ensures StopAt(Utf16(text), 2 * i) <==> IsStop(text[i])
  {
    CharInText(text, i, ' ');
    CharInText(text, i, '_');
  }

  lemma {:induction false} FieldInText(text: string, k: nat, n: nat)
    requires OneByte(text) && Scanned(Utf16(text), Some(Field(2 * (k + 4), 2 * n)))
    ensures SerialIn(text, k, k + 4 + n)
  {
    var b, at, end := Utf16(text), 2 * (k + 4), k + 4 + n;
    MarkerInText(text, k);
    forall i | 0 <= i < k ensures !MarkerIn(text, i) {
      MarkerInText(text, i);
    }
    forall i | k + 4 <= i < end ensures i < |text| && !IsStop(text[i]) {
      var j := 2 * (i - (k + 4));
      assert 0 <= j < 2 * n && j % 2 == 0 && at + j == 2 * i;
      StopInText(text, i);
    }
    if n > 0 {
      var j := 2 * (n - 1);
      assert 0 <= j < 2 * n && j % 2 == 0 && at + j < |b|;
    }
    if end < |text| { StopInText(text, end); }
  }

  lemma {:induction false} Utf16Append(a: string, b: string)
    requires OneByte(a) && OneByte(b)
    ensures OneByte(a + b) && Utf16(a + b) == Utf16(a) + Utf16(b)
  {
    if b == "" {
      assert a + b == a;
    } else {
      var most, last := b[..|b| - 1], b[|b| - 1] as nat as byte;
      Utf16Append(a, most);
      assert (a + b)[..|a + b| - 1] == a + most;
      Associate(Utf16(a), Utf16(most), [last, 0]);
    }
  }

  lemma {:induction false} MiddleOf(a: seq<byte>, b: seq<byte>, c: seq<byte>)
    ensures (a + b + c)[|a|..|a| + |b|] == b
  {
  }

  lemma {:induction false} SliceOfText(text: string, from: nat, end: nat)
    requires OneByte(text) && from <= end <= |text|
    ensures Utf16(text)[2 * from..2 * end] == Utf16(text[from..end])
  {
    var a, b, c := text[..from], text[from..end], text[end..];
    Utf16Append(a, b);
    Utf16Append(a + b, c);
    assert text == a + b + c;
    MiddleOf(Utf16(a), Utf16(b), Utf16(c));
  }

  /** The field covers the characters from `k + 4` to `end`, which are the serial number. (That the bytes
      are those characters is `SliceOfText`.) */
  ghost predicate IsField(text: string, field: Field, k: nat, end: nat) {
    SerialIn(text, k, end) && field.at == 2 * (k + 4) && field.at + field.length == 2 * end
  }

  lemma {:induction false} MarkerAbsent(text: string)
    requires OneByte(text) && Scanned(Utf16(text), None)
    ensures forall k: nat :: !MarkerIn(text, k)
  {
    forall k: nat ensures !MarkerIn(text, k) {
      MarkerInText(text, k);
    }
  }

  lemma {:induction false} FieldFound(text: string, at: nat, length: nat) returns (k: nat, n: nat)
    requires OneByte(text) && Scanned(Utf16(text), Some(Field(at, length)))
    ensures at == 2 * (k + 4) && length == 2 * n
  {
    k, n := (at - 8) / 2, length / 2;
    MarkerInText(text, k);
  }

  /** A serial number is found exactly when the marker is in the text, and then it is the text after the
      first marker, up to the next space, underscore or the end. */
  lemma {:induction false} ScanFindsSerial(text: string, field: Option<Field>)
    requires OneByte(text) && Scanned(Utf16(text), field)
    ensures field.Some? <==> exists k: nat :: MarkerIn(text, k)
    ensures field.Some? ==> exists k: nat, end: nat :: IsField(text, field.value, k, end)
  {
    match field
    case None =>
      MarkerAbsent(text);
    case Some(Field(at, length)) =>
      var k, n := FieldFound(text, at, length);
      FieldInText(text, k, n);
      assert IsField(text, Field(at, length), k, k + 4 + n);
  }
}
