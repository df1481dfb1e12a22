/**
 How long a session's snapshot gets on its line: the ring is bounded in UTF-8 bytes, the line
 splitter in UTF-16 code units of JSON text, and escaping lies between the two.
 */
module WireLength {
  import opened Sequences
  import opened Scrollback
  import opened LineBuffer

  /** Backspace, tab, newline, form feed, carriage return, quote and backslash. */
  predicate HasShortEscape(u: CodeUnit) {
    u == 8 || u == 9 || u == 10 || u == 12 || u == 13 || u == 34 || u == 92
  }

  /** The length of `t` inside the quotes of `JSON.stringify(t)`: two units for a short escape,
      six for any other control character and for a lone surrogate. */
  function JsonLength(t: Text): nat {
    if t == [] then 0
    else if HasShortEscape(t[0]) then 2 + JsonLength(t[1..])
    else if t[0] < 0x20 then 6 + JsonLength(t[1..])
    else if IsHighSurrogate(t[0]) && |t| > 1 && IsLowSurrogate(t[1]) then 2 + JsonLength(t[2..])
    else if IsHighSurrogate(t[0]) || IsLowSurrogate(t[0]) then 6 + JsonLength(t[1..])
    else 1 + JsonLength(t[1..])
  }

  lemma {:induction false} UnitsWithinBytes(t: Text)
    ensures |t| <= Utf8Length(t)
  {
    if t == [] {
    } else if IsHighSurrogate(t[0]) && |t| > 1 && IsLowSurrogate(t[1]) {
      UnitsWithinBytes(t[2..]);
    } else {
      UnitsWithinBytes(t[1..]);
    }
  }

  /** Text without characters that JSON writes in six units. */
  predicate Mild(t: Text) {
    forall u | u in t :: (u >= 0x20 || HasShortEscape(u)) && !IsHighSurrogate(u) && !IsLowSurrogate(u)
  }

  lemma {:induction false} JsonWithin(t: Text)
    ensures JsonLength(t) <= 6 * |t|
    ensures Mild(t) ==> JsonLength(t) <= 2 * |t|
  {
    if t == [] {
    } else if t[0] >= 0x20 && IsHighSurrogate(t[0]) && |t| > 1 && IsLowSurrogate(t[1]) {
      JsonWithin(t[2..]);
      assert t[0] in t;
    } else {
      JsonWithin(t[1..]);
      assert t[0] in t;
    }
  }

  /** A snapshot within the ring's byte cap takes at most six times as many units on its line;
      without control characters and surrogates it takes at most half the line cap. */
  lemma SnapshotLineBound(buf: Buffer)
    requires Utf8Length(Snapshot(buf)) <= SCROLLBACK_BYTES_PER_SESSION
    ensures JsonLength(Snapshot(buf)) <= 6 * SCROLLBACK_BYTES_PER_SESSION
    ensures Mild(Snapshot(buf)) ==> 2 * JsonLength(Snapshot(buf)) <= IPC_MAX_LINE_BYTES
  {
    UnitsWithinBytes(Snapshot(buf));
    JsonWithin(Snapshot(buf));
  }

  const ESC: CodeUnit := 27

  function Escapes(n: nat): Text {
    if n == 0 then [] else [ESC] + Escapes(n - 1)
  }

  lemma {:induction false} EscapesLength(n: nat)
    ensures |Escapes(n)| == n && Utf8Length(Escapes(n)) == n && JsonLength(Escapes(n)) == 6 * n
  {
    if n > 0 {
      EscapesLength(n - 1);
      assert Escapes(n)[1..] == Escapes(n - 1);
    }
  }

  /** The bound is reached: a ring just full of escape characters has a snapshot whose line is
      half as long again as the line cap. */
  lemma SnapshotLineTooLong() returns (data: Text, buf: Buffer)
    ensures Represents(buf, [MakeChunk(data)]) && Snapshot(buf) == data
    ensures Utf8Length(data) == SCROLLBACK_BYTES_PER_SESSION && JsonLength(data) > IPC_MAX_LINE_BYTES
  {
    data := Escapes(SCROLLBACK_BYTES_PER_SESSION);
    EscapesLength(SCROLLBACK_BYTES_PER_SESSION);
    hide Escapes, JsonLength, Utf8Length, Evict, Total;
    buf := Appended(EMPTY_BUFFER, data);
    EmptyRepresents();
    AppendedRepresents(EMPTY_BUFFER, [], data);
    assert [] + [MakeChunk(data)] == [MakeChunk(data)];
    OneChunk(buf, MakeChunk(data));
  }

  lemma OneChunk(buf: Buffer, c: Chunk)
    requires Represents(buf, [c])
    ensures Snapshot(buf) == c.data
  {
    assert buf.chunks == [c];
    FlatMapOne(ChunkText, c);
  }
}
