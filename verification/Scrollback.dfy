/**
 The byte-bounded scrollback ring that the supervisor, the gateway's mirror and the
 output analyzer all keep: append at the back, then drop whole chunks from the front
 while the total exceeds the cap and more than one chunk is left.
 */
module Scrollback {
  import opened Sequences

  /** A UTF-16 code unit; JavaScript strings are sequences of them, lone surrogates included. */
  newtype CodeUnit = u: int | 0 <= u < 0x1_0000
  type Text = seq<CodeUnit>

  const SCROLLBACK_BYTES_PER_SESSION: nat := 256 * 1024

  predicate IsHighSurrogate(u: CodeUnit) { 0xD800 <= u < 0xDC00 }
  predicate IsLowSurrogate(u: CodeUnit) { 0xDC00 <= u < 0xE000 }

  /** `Buffer.byteLength(t, 'utf8')`: a lone surrogate is written as U+FFFD, three bytes. */
  function Utf8Length(t: Text): nat {
    if t == [] then 0
    else if t[0] < 0x80 then 1 + Utf8Length(t[1..])
    else if t[0] < 0x800 then 2 + Utf8Length(t[1..])
    else if IsHighSurrogate(t[0]) && |t| > 1 && IsLowSurrogate(t[1]) then 4 + Utf8Length(t[2..])
    else 3 + Utf8Length(t[1..])
  }

  /** Joining chunks can only shrink their byte count: a surrogate pair cut between two
      chunks costs six bytes apart and four together. */
  lemma {:induction false} Utf8LengthSubadditive(a: Text, b: Text)
    ensures Utf8Length(a + b) <= Utf8Length(a) + Utf8Length(b)
  {
    if a == [] {
      assert a + b == b;
    } else if IsHighSurrogate(a[0]) && |a| > 1 && IsLowSurrogate(a[1]) {
      Utf8LengthSubadditive(a[2..], b);
      assert (a + b)[2..] == a[2..] + b;
    } else if IsHighSurrogate(a[0]) && |a| == 1 && b != [] && IsLowSurrogate(b[0]) {
      assert (a + b)[2..] == b[1..];
    } else {
      Utf8LengthSubadditive(a[1..], b);
      assert (a + b)[1..] == a[1..] + b;
    }
  }

  datatype Chunk = Chunk(bytes: nat, data: Text)

  function MakeChunk(data: Text): Chunk {
    Chunk(Utf8Length(data), data)
  }

  function ChunkBytes(c: Chunk): nat { c.bytes }

  function ChunkText(c: Chunk): Text { c.data }

  /** Text that a list of chunks stands for. */
  function TextOf(chunks: seq<Chunk>): Text {
    FlatMap(ChunkText, chunks)
  }

  lemma TextOfSuffix(history: seq<Chunk>, kept: seq<Chunk>)
    requires EndsWith(history, kept)
    ensures EndsWith(TextOf(history), TextOf(kept))
  {
    var k := |history| - |kept|;
    assert history == history[..k] + history[k..];
    FlatMapAppend(ChunkText, history[..k], kept);
  }

  function CodeUnits(t: Text): nat { |t| }

  // ---- eviction ----

  /** Sum of the weights. The ring weighs chunks by UTF-8 bytes, the analyzer by code units. */
  function Total<T>(weight: T -> nat, chunks: seq<T>): nat {
    if chunks == [] then 0 else weight(chunks[0]) + Total(weight, chunks[1..])
  }

  lemma {:induction false} TotalAppend<T>(weight: T -> nat, a: seq<T>, b: seq<T>)
    ensures Total(weight, a + b) == Total(weight, a) + Total(weight, b)
  {
    if a == [] {
      assert a + b == b;
    } else {
      TotalAppend(weight, a[1..], b);
      assert (a + b)[1..] == a[1..] + b;
    }
  }

  function Evict<T>(weight: T -> nat, cap: nat, chunks: seq<T>): seq<T>
    decreases |chunks|
  {
    if Total(weight, chunks) > cap && |chunks| > 1 then Evict(weight, cap, chunks[1..]) else chunks
  }

  /** What a ring fed with `history` must hold, said without the eviction loop: the longest
      tail of whole chunks that fits the cap, or the newest chunk alone when that one is too big. */
  ghost predicate IsRetained<T>(weight: T -> nat, cap: nat, history: seq<T>, kept: seq<T>) {
    && EndsWith(history, kept)
    && (history != [] ==> kept != [])
    && (Total(weight, kept) <= cap || |kept| == 1)
    && forall k | 0 <= k < |history| - |kept| :: Overfull(weight, cap, history, k)
  }

  /** The tail from k on does not fit. */
  predicate Overfull<T>(weight: T -> nat, cap: nat, history: seq<T>, k: nat)
    requires k <= |history|
  {
    Total(weight, history[k..]) > cap
  }

  /** The specification determines the ring. */
  lemma RetainedUnique<T>(weight: T -> nat, cap: nat, history: seq<T>, a: seq<T>, b: seq<T>)
    requires IsRetained(weight, cap, history, a) && IsRetained(weight, cap, history, b)
    ensures a == b
  {
    assert a == history[|history| - |a|..] && b == history[|history| - |b|..];
    assert |a| < |b| ==> Overfull(weight, cap, history, |history| - |b|);
    assert |b| < |a| ==> Overfull(weight, cap, history, |history| - |a|);
  }

  lemma {:induction false} EvictRetained<T>(weight: T -> nat, cap: nat, history: seq<T>, chunks: seq<T>)
    requires EndsWith(history, chunks) && chunks != []
    requires forall k | 0 <= k < |history| - |chunks| :: Overfull(weight, cap, history, k)
    ensures IsRetained(weight, cap, history, Evict(weight, cap, chunks))
    decreases |chunks|
  {
    if Total(weight, chunks) > cap && |chunks| > 1 {
      var k := |history| - |chunks|;
      assert history[k..] == chunks;
      assert history[k + 1..] == chunks[1..];
      assert Overfull(weight, cap, history, k);
      EvictRetained(weight, cap, history, chunks[1..]);
    }
  }

  /** One append keeps the ring equal to its specification, for any history. */
  lemma AppendRetained<T>(weight: T -> nat, cap: nat, history: seq<T>, kept: seq<T>, c: T)
    requires IsRetained(weight, cap, history, kept)
    ensures IsRetained(weight, cap, history + [c], Evict(weight, cap, kept + [c]))
  {
    EndsWithAppend(history, kept, [c]);
    forall k | 0 <= k < |history| - |kept|
      ensures Overfull(weight, cap, history + [c], k)
    {
      assert Overfull(weight, cap, history, k);
      assert (history + [c])[k..] == history[k..] + [c];
      TotalAppend(weight, history[k..], [c]);
    }
    EvictRetained(weight, cap, history + [c], kept + [c]);
  }

  // ---- the buffer object ----

  datatype Buffer = Buffer(chunks: seq<Chunk>, totalBytes: nat)

  const EMPTY_BUFFER := Buffer([], 0)

  /** The buffer is what a ring fed with exactly `history` must be, its counter included. */
  ghost predicate Represents(buf: Buffer, history: seq<Chunk>) {
    && buf.totalBytes == Total(ChunkBytes, buf.chunks)
    && IsRetained(ChunkBytes, SCROLLBACK_BYTES_PER_SESSION, history, buf.chunks)
  }

  lemma EmptyRepresents()
    ensures Represents(EMPTY_BUFFER, [])
  {
  }

  /** The buffer after one append, as a value. */
  function Appended(buf: Buffer, data: Text): Buffer {
    var chunks := Evict(ChunkBytes, SCROLLBACK_BYTES_PER_SESSION, buf.chunks + [MakeChunk(data)]);
    Buffer(chunks, Total(ChunkBytes, chunks))
  }

  lemma AppendedRepresents(buf: Buffer, history: seq<Chunk>, data: Text)
    requires Represents(buf, history)
    ensures Represents(Appended(buf, data), history + [MakeChunk(data)])
  {
    AppendRetained(ChunkBytes, SCROLLBACK_BYTES_PER_SESSION, history, buf.chunks, MakeChunk(data));
  }

  /** A table of rings, one per session, each fed with its own history. */
  ghost predicate AllRepresent<K>(bufs: map<K, Buffer>, histories: map<K, seq<Chunk>>) {
    bufs.Keys == histories.Keys && forall k {:trigger Represents(bufs[k], histories[k])} | k in bufs :: Represents(bufs[k], histories[k])
  }

  lemma AppendOneOfMany<K>(bufs: map<K, Buffer>, histories: map<K, seq<Chunk>>, k: K, data: Text)
    requires AllRepresent(bufs, histories) && k in bufs
    ensures AllRepresent(bufs[k := Appended(bufs[k], data)], histories[k := histories[k] + [MakeChunk(data)]])
  {
    AppendedRepresents(bufs[k], histories[k], data);
    hide Represents, Appended;
    var b, h := bufs[k := Appended(bufs[k], data)], histories[k := histories[k] + [MakeChunk(data)]];
    forall j | j in b ensures Represents(b[j], h[j]) {
      assert j != k ==> b[j] == bufs[j] && h[j] == histories[j];
    }
  }

  lemma AddEmpty<K>(bufs: map<K, Buffer>, histories: map<K, seq<Chunk>>, k: K)
    requires AllRepresent(bufs, histories)
    ensures AllRepresent(bufs[k := EMPTY_BUFFER], histories[k := []])
  {
    EmptyRepresents();
    hide Represents;
    var b, h := bufs[k := EMPTY_BUFFER], histories[k := []];
    forall j | j in b ensures Represents(b[j], h[j]) {
      assert j != k ==> b[j] == bufs[j] && h[j] == histories[j];
    }
  }

  /** `appendScrollback` with its eviction loop. */
  method AppendScrollback(buf: Buffer, data: Text, ghost history: seq<Chunk>) returns (r: Buffer)
    requires Represents(buf, history)
    ensures r == Appended(buf, data)
    ensures Represents(r, history + [MakeChunk(data)])
  {
    var bytes := Utf8Length(data);
    var chunks := buf.chunks + [Chunk(bytes, data)];
    var totalBytes := buf.totalBytes + bytes;
    TotalAppend(ChunkBytes, buf.chunks, [MakeChunk(data)]);
    while totalBytes > SCROLLBACK_BYTES_PER_SESSION && |chunks| > 1
      invariant chunks != [] && totalBytes == Total(ChunkBytes, chunks)
      invariant Evict(ChunkBytes, SCROLLBACK_BYTES_PER_SESSION, chunks) == Appended(buf, data).chunks
      decreases |chunks|
    {
      var removed := chunks[0];
      chunks := chunks[1..];
      totalBytes := totalBytes - removed.bytes;
    }
    r := Buffer(chunks, totalBytes);
    AppendedRepresents(buf, history, data);
  }

  function Snapshot(buf: Buffer): Text {
    TextOf(buf.chunks)
  }

  lemma {:induction false} TextBytesBounded(chunks: seq<Chunk>)
    requires forall c | c in chunks :: c == MakeChunk(c.data)
    ensures Utf8Length(TextOf(chunks)) <= Total(ChunkBytes, chunks)
  {
    if chunks != [] {
      TextBytesBounded(chunks[1..]);
      Utf8LengthSubadditive(chunks[0].data, TextOf(chunks[1..]));
    }
  }

  /** What a replayed snapshot is: a contiguous tail of everything produced, and within the
      byte cap unless it is the newest chunk alone. */
  lemma SnapshotIsBoundedTail(buf: Buffer, history: seq<Chunk>)
    requires Represents(buf, history)
    requires forall c | c in history :: c == MakeChunk(c.data)
    ensures EndsWith(TextOf(history), Snapshot(buf))
    ensures Utf8Length(Snapshot(buf)) <= SCROLLBACK_BYTES_PER_SESSION
            || (history != [] && Snapshot(buf) == history[|history| - 1].data)
  {
    TextOfSuffix(history, buf.chunks);
    forall c | c in buf.chunks ensures c == MakeChunk(c.data) {
      assert c in history[|history| - |buf.chunks|..];
    }
    TextBytesBounded(buf.chunks);
    if Total(ChunkBytes, buf.chunks) > SCROLLBACK_BYTES_PER_SESSION {
      assert buf.chunks[0] == history[|history| - 1];
      assert buf.chunks == [buf.chunks[0]];
      FlatMapOne(ChunkText, buf.chunks[0]);
    }
  }
}
