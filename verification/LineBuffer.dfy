/**
 The NDJSON line splitter of the IPC pipe: lines out of arbitrary chunks, with a cap on
 what it buffers.
 */
module LineBuffer {
  import opened Sequences
  import opened Scrollback
  import opened Lines

  const LF: CodeUnit := 10
  const CR: CodeUnit := 13

  const IPC_MAX_LINE_BYTES: nat := 1024 * 1024

  /** What `push` returns, and the two fields after it. */
  datatype Pushed = Pushed(buf: Text, overflow: bool, lines: seq<Text>, tooLong: bool)

  function LineOut(line: Text): seq<Text> {
    if StripEnd(CR, line) == [] then [] else [StripEnd(CR, line)]
  }

  /** `push` as a function of the buffer with the chunk already appended. */
  function Drain(cap: nat, buf: Text, overflow: bool): Pushed
    decreases |buf|
  {
    var i := IndexOf(LF, buf);
    if i < 0 then
      if |buf| > cap then Pushed([], true, [], true) else Pushed(buf, overflow, [], false)
    else
      var r := Drain(cap, buf[i + 1..], false);
      if overflow then r.(tooLong := true) else r.(lines := LineOut(buf[..i]) + r.lines)
  }

  class NdjsonLineBuffer {
    var buf: Text
    var overflow: bool
    const maxLineBytes: nat

    constructor (maxLineBytes: nat)
      ensures this.maxLineBytes == maxLineBytes && buf == [] && !overflow
    {
      this.maxLineBytes := maxLineBytes;
      buf, overflow := [], false;
    }

    method Push(chunk: Text) returns (lines: seq<Text>, tooLong: bool)
      modifies this
      ensures Pushed(buf, overflow, lines, tooLong) == Drain(maxLineBytes, old(buf) + chunk, old(overflow))
    {
      hide IndexOf, LineOut;
      lines, tooLong := [], false;
      buf := buf + chunk;
      ghost var whole := Drain(maxLineBytes, buf, overflow);
      var idx := IndexOf(LF, buf);
      while idx >= 0
        invariant idx == IndexOf(LF, buf)
        invariant var here := Drain(maxLineBytes, buf, overflow);
                  && whole.buf == here.buf && whole.overflow == here.overflow
                  && whole.lines == lines + here.lines
                  && whole.tooLong == (tooLong || here.tooLong)
        decreases |buf|
      {
        var line, rest := buf[..idx], buf[idx + 1..];
        ghost var next := Drain(maxLineBytes, rest, false);
        if overflow {
          tooLong := true;
        } else {
          assert lines + (LineOut(line) + next.lines) == (lines + LineOut(line)) + next.lines;
          lines := lines + LineOut(line);
        }
        buf, overflow := rest, false;
        idx := IndexOf(LF, buf);
      }
      if |buf| > maxLineBytes {
        overflow := true;
        buf := [];
        tooLong := true;
      }
    }
  }

  // ---- the simple form: remember whole lines, and whether one was ever over the cap at a chunk's end ----

  datatype Entry = Entry(line: Text, kept: bool)
  datatype Scan = Scan(line: Text, long: bool, entries: seq<Entry>)

  /** Read one chunk code unit by code unit. A line is marked at the end of a chunk, and only
      then, when more than `cap` units of it have arrived; a marked line is not kept. */
  function ScanChunk(cap: nat, line: Text, long: bool, chunk: Text): Scan
    decreases |chunk|
  {
    if chunk == [] then Scan(line, long || |line| > cap, [])
    else if chunk[0] == LF then
      var r := ScanChunk(cap, [], false, chunk[1..]);
      r.(entries := [Entry(line, !long)] + r.entries)
    else ScanChunk(cap, line + [chunk[0]], long, chunk[1..])
  }

  function ScanAll(cap: nat, line: Text, long: bool, chunks: seq<Text>): Scan
    decreases |chunks|
  {
    if chunks == [] then Scan(line, long, [])
    else
      var first := ScanChunk(cap, line, long, chunks[0]);
      var r := ScanAll(cap, first.line, first.long, chunks[1..]);
      r.(entries := first.entries + r.entries)
  }

  function EntryOut(e: Entry): seq<Text> {
    if e.kept then LineOut(e.line) else []
  }

  function Emitted(entries: seq<Entry>): seq<Text> {
    FlatMap(EntryOut, entries)
  }

  lemma {:induction false} ScanPlain(cap: nat, line: Text, long: bool, chunk: Text)
    requires LF !in chunk
    ensures ScanChunk(cap, line, long, chunk) == Scan(line + chunk, long || |line + chunk| > cap, [])
    decreases |chunk|
  {
    if chunk == [] {
      assert line + chunk == line;
    } else {
      ScanPlain(cap, line + [chunk[0]], long, chunk[1..]);
      assert (line + [chunk[0]]) + chunk[1..] == line + chunk;
    }
  }

  lemma {:induction false} ScanLine(cap: nat, line: Text, long: bool, chunk: Text, i: nat)
    requires i < |chunk| && chunk[i] == LF && LF !in chunk[..i]
    ensures var r := ScanChunk(cap, [], false, chunk[i + 1..]);
            ScanChunk(cap, line, long, chunk) == r.(entries := [Entry(line + chunk[..i], !long)] + r.entries)
    decreases i
  {
    if i == 0 {
      assert line + chunk[..i] == line;
    } else {
      assert chunk[0] == chunk[..i][0] && chunk[1..][..i - 1] == chunk[..i][1..];
      ScanLine(cap, line + [chunk[0]], long, chunk[1..], i - 1);
      assert chunk[1..][i..] == chunk[i + 1..];
      assert (line + [chunk[0]]) + chunk[1..][..i - 1] == line + chunk[..i];
    }
  }

  /** How the splitter's two fields stand to the whole current line. */
  ghost predicate Tracks(cap: nat, buf: Text, overflow: bool, line: Text, long: bool) {
    && LF !in buf && |buf| <= cap
    && overflow == long
    && EndsWith(line, buf)
    && (!long ==> buf == line)
  }

  /** One push of the splitter is one chunk of the simple form. */
  lemma {:induction false} PushRefinesScan(cap: nat, buf: Text, overflow: bool, line: Text, long: bool, chunk: Text)
    requires LF !in buf && overflow == long && EndsWith(line, buf) && (!long ==> buf == line)
    ensures var p := Drain(cap, buf + chunk, overflow);
            var s := ScanChunk(cap, line, long, chunk);
            && Tracks(cap, p.buf, p.overflow, s.line, s.long)
            && p.lines == Emitted(s.entries)
            && ((exists e :: e in s.entries && !e.kept) ==> p.tooLong)
            && (p.tooLong ==> s.long || exists e :: e in s.entries && !e.kept)
    decreases |chunk|
  {
    var i := FirstLf(buf, chunk);
    if i < 0 {
      ScanPlain(cap, line, long, chunk);
      EndsWithAppend(line, buf, chunk);
    } else {
      var k := i - |buf|;
      var rest, head := chunk[k + 1..], chunk[..k];
      DrainLine(cap, buf + chunk, overflow, i);
      ScanLine(cap, line, long, chunk, k);
      PushRefinesScan(cap, [], false, [], false, rest);
      hide LineOut, IndexOf, Drain, ScanChunk;
      assert [] + rest == rest;
      var r := ScanChunk(cap, [], false, rest);
      var entries := [Entry(line + head, !long)] + r.entries;
      assert entries[1..] == r.entries;
      assert Emitted(entries) == (if long then [] else LineOut(line + head)) + Emitted(r.entries);
    }
  }

  lemma DrainLine(cap: nat, buf: Text, overflow: bool, i: nat)
    requires IndexOf(LF, buf) == i
    ensures var r := Drain(cap, buf[i + 1..], false);
            Drain(cap, buf, overflow)
            == if overflow then r.(tooLong := true) else r.(lines := LineOut(buf[..i]) + r.lines)
  {
  }

  lemma FirstLf(buf: Text, chunk: Text) returns (i: int)
    requires LF !in buf
    ensures i == IndexOf(LF, buf + chunk)
    ensures i < 0 ==> LF !in chunk
    ensures i >= 0 ==>
              && |buf| <= i < |buf| + |chunk|
              && chunk[i - |buf|] == LF && LF !in chunk[..i - |buf|]
              && (buf + chunk)[..i] == buf + chunk[..i - |buf|]
              && (buf + chunk)[i + 1..] == chunk[i - |buf| + 1..]
  {
    i := IndexOf(LF, buf + chunk);
    var whole := buf + chunk;
    assert forall k | 0 <= k < |chunk| :: whole[|buf| + k] == chunk[k];
    assert forall k | 0 <= k < |buf| :: whole[k] == buf[k];
    if i >= 0 {
      var k := i - |buf|;
      assert whole[..i] == buf + chunk[..k];
    }
  }

  /** The splitter over a whole stream, one push per chunk. */
  function PushAll(cap: nat, buf: Text, overflow: bool, chunks: seq<Text>): Pushed
    decreases |chunks|
  {
    if chunks == [] then Pushed(buf, overflow, [], false)
    else
      var first := Drain(cap, buf + chunks[0], overflow);
      var r := PushAll(cap, first.buf, first.overflow, chunks[1..]);
      r.(lines := first.lines + r.lines, tooLong := first.tooLong || r.tooLong)
  }

  lemma {:induction false} PushAllRefinesScan(cap: nat, buf: Text, overflow: bool, line: Text, long: bool, chunks: seq<Text>)
    requires Tracks(cap, buf, overflow, line, long)
    ensures var p := PushAll(cap, buf, overflow, chunks);
            var s := ScanAll(cap, line, long, chunks);
            Tracks(cap, p.buf, p.overflow, s.line, s.long) && p.lines == Emitted(s.entries)
    decreases |chunks|
  {
    if chunks != [] {
      PushRefinesScan(cap, buf, overflow, line, long, chunks[0]);
      var p, s := Drain(cap, buf + chunks[0], overflow), ScanChunk(cap, line, long, chunks[0]);
      PushAllRefinesScan(cap, p.buf, p.overflow, s.line, s.long, chunks[1..]);
      FlatMapAppend(EntryOut, s.entries, ScanAll(cap, s.line, s.long, chunks[1..]).entries);
    }
  }

  /** A marked line stays marked: to the end of the stream, or until it is dropped. */
  lemma {:induction false} LongStays(cap: nat, line: Text, chunk: Text)
    ensures var s := ScanChunk(cap, line, true, chunk);
            s.long || exists e :: e in s.entries && !e.kept
    decreases |chunk|
  {
    if chunk != [] {
      if chunk[0] == LF {
        var s := ScanChunk(cap, line, true, chunk);
        assert s.entries[0] == Entry(line, false) && s.entries[0] in s.entries;
      } else {
        LongStays(cap, line + [chunk[0]], chunk[1..]);
      }
    }
  }

  lemma {:induction false} LongStaysAll(cap: nat, line: Text, chunks: seq<Text>)
    ensures var s := ScanAll(cap, line, true, chunks);
            s.long || exists e :: e in s.entries && !e.kept
    decreases |chunks|
  {
    if chunks != [] {
      LongStays(cap, line, chunks[0]);
      var first := ScanChunk(cap, line, true, chunks[0]);
      var r := ScanAll(cap, first.line, first.long, chunks[1..]);
      assert forall e | e in first.entries + r.entries :: e in first.entries || e in r.entries;
      if e :| e in first.entries && !e.kept {
        assert e in first.entries + r.entries;
      } else {
        LongStaysAll(cap, first.line, chunks[1..]);
      }
    }
  }

  /** The splitter complains of a long line only if one is dropped or still unfinished. */
  lemma {:induction false} ComplaintsHaveCause(cap: nat, buf: Text, overflow: bool, line: Text, long: bool, chunks: seq<Text>)
    requires Tracks(cap, buf, overflow, line, long)
    ensures var s := ScanAll(cap, line, long, chunks);
            PushAll(cap, buf, overflow, chunks).tooLong ==> s.long || exists e :: e in s.entries && !e.kept
    decreases |chunks|
  {
    if chunks != [] {
      PushRefinesScan(cap, buf, overflow, line, long, chunks[0]);
      var p, first := Drain(cap, buf + chunks[0], overflow), ScanChunk(cap, line, long, chunks[0]);
      ComplaintsHaveCause(cap, p.buf, p.overflow, first.line, first.long, chunks[1..]);
      var r := ScanAll(cap, first.line, first.long, chunks[1..]);
      if first.long {
        LongStaysAll(cap, first.line, chunks[1..]);
      }
      hide Drain, ScanChunk, Tracks;
      assert forall e | e in first.entries || e in r.entries :: e in first.entries + r.entries;
    }
  }

  // ---- what the simple form promises ----

  function EntryLine(e: Entry): seq<Text> { [e.line] }

  function LinesOf(entries: seq<Entry>): seq<Text> {
    FlatMap(EntryLine, entries)
  }

  ghost predicate DroppedAreLong(cap: nat, entries: seq<Entry>) {
    forall e | e in entries && !e.kept :: |e.line| > cap
  }

  lemma {:induction false} ScanChunkCuts(cap: nat, line: Text, long: bool, chunk: Text)
    requires long ==> |line| > cap
    ensures var s := ScanChunk(cap, line, long, chunk);
            && Cut(LinesOf(s.entries), s.line) == CutLines(LF, line, chunk)
            && DroppedAreLong(cap, s.entries)
            && (s.long ==> |s.line| > cap)
    decreases |chunk|
  {
    if chunk != [] {
      if chunk[0] == LF {
        ScanChunkCuts(cap, [], false, chunk[1..]);
        var r := ScanChunk(cap, [], false, chunk[1..]);
        assert ([Entry(line, !long)] + r.entries)[1..] == r.entries;
      } else {
        ScanChunkCuts(cap, line + [chunk[0]], long, chunk[1..]);
      }
    }
  }

  lemma {:induction false} ScanAllCuts(cap: nat, line: Text, long: bool, chunks: seq<Text>)
    requires long ==> |line| > cap
    ensures var s := ScanAll(cap, line, long, chunks);
            && Cut(LinesOf(s.entries), s.line) == CutLines(LF, line, Flatten(chunks))
            && DroppedAreLong(cap, s.entries)
            && (s.long ==> |s.line| > cap)
    decreases |chunks|
  {
    if chunks != [] {
      var first := ScanChunk(cap, line, long, chunks[0]);
      ScanChunkCuts(cap, line, long, chunks[0]);
      ScanAllCuts(cap, first.line, first.long, chunks[1..]);
      FlatMapAppend(EntryLine, first.entries, ScanAll(cap, first.line, first.long, chunks[1..]).entries);
      CutAppend(LF, line, chunks[0], Flatten(chunks[1..]));
    }
  }

  /** Framing, for every stream and every chunking: what comes out are whole lines of the
      stream in order, each cleaned of one CR and skipped when empty; a line that is missing
      was longer than the cap; what is buffered afterwards is newline-free and within the cap,
      and is the unfinished line itself unless that line is already over the cap. */
  lemma Framing(cap: nat, chunks: seq<Text>) returns (entries: seq<Entry>)
    ensures var p := PushAll(cap, [], false, chunks);
            var c := CutLines(LF, [], Flatten(chunks));
            && p.lines == Emitted(entries)
            && LinesOf(entries) == c.lines
            && DroppedAreLong(cap, entries)
            && LF !in p.buf && |p.buf| <= cap && EndsWith(c.rest, p.buf)
            && (|c.rest| <= cap ==> !p.overflow)
            && (!p.overflow ==> p.buf == c.rest)
  {
    PushAllRefinesScan(cap, [], false, [], false, chunks);
    ScanAllCuts(cap, [], false, chunks);
    entries := ScanAll(cap, [], false, chunks).entries;
  }

  ghost predicate AllFit(cap: nat, c: Cut<CodeUnit>) {
    |c.rest| <= cap && forall l | l in c.lines :: |l| <= cap
  }

  function EmitLines(lines: seq<Text>): seq<Text> {
    FlatMap(LineOut, lines)
  }

  lemma {:induction false} AllKept(cap: nat, entries: seq<Entry>)
    requires DroppedAreLong(cap, entries) && forall l | l in LinesOf(entries) :: |l| <= cap
    ensures Emitted(entries) == EmitLines(LinesOf(entries))
  {
    if entries != [] {
      var lines := LinesOf(entries);
      assert lines[0] == entries[0].line && lines[1..] == LinesOf(entries[1..]);
      assert entries[0] in entries && lines[0] in lines;
      AllKept(cap, entries[1..]);
    }
  }

  /** When every line of the stream fits the cap, chunking does not matter. */
  lemma ChunkingDoesNotMatter(cap: nat, a: seq<Text>, b: seq<Text>)
    requires Flatten(a) == Flatten(b) && AllFit(cap, CutLines(LF, [], Flatten(a)))
    ensures PushAll(cap, [], false, a).lines == PushAll(cap, [], false, b).lines
    ensures PushAll(cap, [], false, a).buf == PushAll(cap, [], false, b).buf
    ensures PushAll(cap, [], false, a).lines == EmitLines(CutLines(LF, [], Flatten(a)).lines)
  {
    var ea := Framing(cap, a);
    var eb := Framing(cap, b);
    AllKept(cap, ea);
    AllKept(cap, eb);
  }

  lemma {:induction false} KeptWhenFitting(cap: nat, entries: seq<Entry>)
    requires DroppedAreLong(cap, entries) && forall l | l in LinesOf(entries) :: |l| <= cap
    ensures forall e | e in entries :: e.kept
  {
    if entries != [] {
      var lines := LinesOf(entries);
      assert lines[0] == entries[0].line && lines[1..] == LinesOf(entries[1..]);
      assert entries[0] in entries && lines[0] in lines;
      KeptWhenFitting(cap, entries[1..]);
    }
  }

  /** When every line fits, the splitter never reports a line as too long. */
  lemma NothingTooLong(cap: nat, chunks: seq<Text>)
    requires AllFit(cap, CutLines(LF, [], Flatten(chunks)))
    ensures !PushAll(cap, [], false, chunks).tooLong
  {
    ScanAllCuts(cap, [], false, chunks);
    ComplaintsHaveCause(cap, [], false, [], false, chunks);
    KeptWhenFitting(cap, ScanAll(cap, [], false, chunks).entries);
  }

  /** A stream that arrives unit by unit. */
  function UnitChunks(t: Text): seq<Text> {
    if t == [] then [] else [[t[0]]] + UnitChunks(t[1..])
  }

  lemma {:induction false} UnitChunksFlatten(t: Text)
    ensures Flatten(UnitChunks(t)) == t
  {
    if t != [] {
      UnitChunksFlatten(t[1..]);
      var chunks := UnitChunks(t);
      assert chunks[0] == [t[0]] && chunks[1..] == UnitChunks(t[1..]);
      assert Flatten(chunks) == [t[0]] + Flatten(chunks[1..]);
    }
  }

  lemma DrainUnit(cap: nat, buf: Text, u: CodeUnit)
    requires LF !in buf
    ensures u == LF ==> Drain(cap, buf + [u], false) == Pushed([], false, LineOut(buf), false)
    ensures u != LF ==> Drain(cap, buf + [u], false) == if |buf| + 1 > cap then Pushed([], true, [], true) else Pushed(buf + [u], false, [], false)
  {
    var i := FirstLf(buf, [u]);
    if u == LF {
      assert i >= 0 by { assert LF in [u]; }
      assert (buf + [u])[..i] == buf && (buf + [u])[i + 1..] == [];
      assert LineOut(buf) + [] == LineOut(buf);
      assert Drain(cap, [], false) == Pushed([], false, [], false);
    }
  }

  /** Without a complaint about the units one by one, all lines fit. */
  lemma {:induction false} UnitsComplain(cap: nat, buf: Text, t: Text)
    requires LF !in buf && |buf| <= cap && !PushAll(cap, buf, false, UnitChunks(t)).tooLong
    ensures AllFit(cap, CutLines(LF, buf, t))
    decreases |t|
  {
    hide Drain, LineOut;
    if t != [] {
      var chunks := UnitChunks(t);
      assert chunks[0] == [t[0]] && chunks[1..] == UnitChunks(t[1..]);
      DrainUnit(cap, buf, t[0]);
      var p := Drain(cap, buf + [t[0]], false);
      UnitsComplain(cap, p.buf, t[1..]);
    }
  }

  /** Exactly when a reader may have to drop the connection: no way of cutting the stream into
      chunks makes the splitter report a line as too long if and only if all its lines fit. */
  lemma NeverTooLongIff(cap: nat, stream: Text)
    ensures (forall chunks | Flatten(chunks) == stream :: !PushAll(cap, [], false, chunks).tooLong)
        <==> AllFit(cap, CutLines(LF, [], stream))
  {
    UnitChunksFlatten(stream);
    var units := UnitChunks(stream);
    hide PushAll, Flatten, CutLines, AllFit;
    if !PushAll(cap, [], false, units).tooLong {
      UnitsComplain(cap, [], stream);
    }
    if AllFit(cap, CutLines(LF, [], stream)) {
      forall chunks | Flatten(chunks) == stream ensures !PushAll(cap, [], false, chunks).tooLong {
        NothingTooLong(cap, chunks);
      }
    }
  }

  /** So a line over the cap, however it came about, drops the connection in some chunks. */
  lemma OversizedLineDrops(cap: nat, line: Text) returns (chunks: seq<Text>)
    requires LF !in line && |line| > cap
    ensures Flatten(chunks) == line + [LF] && PushAll(cap, [], false, chunks).tooLong
  {
    chunks := UnitChunks(line + [LF]);
    UnitChunksFlatten(line + [LF]);
    CutOneLine(LF, [], line, []);
    assert line + [LF] + [] == line + [LF] && [] + line == line;
    assert line in CutLines(LF, [], line + [LF]).lines;
    hide PushAll, Flatten, UnitChunks, CutLines;
    if !PushAll(cap, [], false, chunks).tooLong {
      UnitsComplain(cap, [], line + [LF]);
    }
  }

  /** A message that a peer can put on one line. */
  predicate Sendable(cap: nat, m: Text) {
    m != [] && LF !in m && m[|m| - 1] != CR && |m| <= cap
  }

  lemma {:induction false} EmitSendable(cap: nat, messages: seq<Text>)
    requires forall m | m in messages :: Sendable(cap, m)
    ensures EmitLines(messages) == messages
  {
    if messages != [] {
      EmitSendable(cap, messages[1..]);
      assert messages[0] in messages && LineOut(messages[0]) == [messages[0]];
      assert [messages[0]] + messages[1..] == messages;
    }
  }

  /** Round trip: the messages written, one per line, come out whatever the chunking. */
  lemma MessagesRoundTrip(cap: nat, messages: seq<Text>, chunks: seq<Text>)
    requires forall m {:trigger Sendable(cap, m)} | m in messages :: Sendable(cap, m)
    requires Flatten(chunks) == Terminated(LF, messages)
    ensures var p := PushAll(cap, [], false, chunks);
            p.lines == messages && p.buf == [] && !p.tooLong
  {
    forall m | m in messages ensures LF !in m && |m| <= cap {
      assert Sendable(cap, m);
    }
    CutTerminated(LF, messages);
    NothingTooLong(cap, chunks);
    ChunkingDoesNotMatter(cap, chunks, chunks);
    EmitSendable(cap, messages);
    var e := Framing(cap, chunks);
  }

  /** A line as some peer may write it: with or without a carriage return, and perhaps empty. */
  datatype Written = Written(text: Text, cr: bool)

  function WithEnd(w: Written): Text {
    if w.cr then w.text + [CR] else w.text
  }

  function WithEnds(written: seq<Written>): seq<Text> {
    if written == [] then [] else [WithEnd(written[0])] + WithEnds(written[1..])
  }

  /** The texts that say something, in order. */
  function Said(written: seq<Written>): seq<Text> {
    if written == [] then []
    else if written[0].text == [] then Said(written[1..])
    else [written[0].text] + Said(written[1..])
  }

  predicate Clean(cap: nat, w: Written) {
    LF !in w.text && (w.text == [] || w.text[|w.text| - 1] != CR) && |WithEnd(w)| <= cap
  }

  lemma {:induction false} EndingsEmit(cap: nat, written: seq<Written>)
    requires forall w | w in written :: Clean(cap, w)
    ensures EmitLines(WithEnds(written)) == Said(written)
    ensures forall l | l in WithEnds(written) :: LF !in l && |l| <= cap
  {
    if written != [] {
      var w, rest := written[0], written[1..];
      assert w in written;
      EndingsEmit(cap, rest);
      var lines := WithEnds(written);
      assert lines[0] == WithEnd(w) && lines[1..] == WithEnds(rest);
      assert w.cr ==> (w.text + [CR])[..|w.text|] == w.text;
      assert LineOut(WithEnd(w)) == if w.text == [] then [] else [w.text];
    }
  }

  /** Whatever line ends and empty lines a peer writes, and in any chunks, the texts come out. */
  lemma EndingsDoNotMatter(cap: nat, written: seq<Written>, chunks: seq<Text>)
    requires forall w | w in written :: Clean(cap, w)
    requires Flatten(chunks) == Terminated(LF, WithEnds(written))
    ensures var p := PushAll(cap, [], false, chunks);
            p.lines == Said(written) && p.buf == [] && !p.tooLong
  {
    EndingsEmit(cap, written);
    CutTerminated(LF, WithEnds(written));
    NothingTooLong(cap, chunks);
    ChunkingDoesNotMatter(cap, chunks, chunks);
    var e := Framing(cap, chunks);
  }

  /** The cap is on what is buffered, not on lines: a line of any length gets through when its
      newline arrives in the chunk that completes it. */
  lemma LongLineInOneChunk(cap: nat, m: Text)
    requires m != [] && LF !in m && m[|m| - 1] != CR
    ensures PushAll(cap, [], false, [m + [LF]]).lines == [m]
    ensures |m| > cap ==> PushAll(cap, [], false, [m, [LF]]).lines == []
  {
    OneChunkKept(cap, m);
    hide PushAll, ScanAll, ScanChunk, Emitted, Tracks;
    PushAllRefinesScan(cap, [], false, [], false, [m + [LF]]);
    if |m| > cap {
      ScanPlain(cap, [], false, m);
      assert [] + m == m;
      TwoChunks(cap, m);
      PushAllRefinesScan(cap, [], false, [], false, [m, [LF]]);
    }
  }

  lemma OneChunkKept(cap: nat, m: Text)
    requires m != [] && LF !in m && m[|m| - 1] != CR
    ensures Emitted(ScanAll(cap, [], false, [m + [LF]]).entries) == [m]
    ensures Tracks(cap, [], false, [], false)
  {
    var chunk := m + [LF];
    assert chunk[..|m|] == m && chunk[|m| + 1..] == [];
    ScanLine(cap, [], false, chunk, |m|);
    assert [] + m == m;
    assert ScanChunk(cap, [], false, chunk).entries == [Entry(m, true)];
    assert [chunk][1..] == [];
    hide ScanChunk;
    assert ScanAll(cap, [], false, [chunk]).entries == [Entry(m, true)];
    FlatMapOne(EntryOut, Entry(m, true));
  }

  lemma TwoChunks(cap: nat, m: Text)
    requires ScanChunk(cap, [], false, m) == Scan(m, true, [])
    ensures Emitted(ScanAll(cap, [], false, [m, [LF]]).entries) == []
  {
    assert ScanChunk(cap, m, true, [LF]).entries == [Entry(m, false)];
    assert [m, [LF]][1..] == [[LF]] && [[LF]][1..] == [];
    assert ScanAll(cap, m, true, [[LF]]).entries == [Entry(m, false)];
    var entries := ScanAll(cap, [], false, [m, [LF]]).entries;
    assert entries == [] + [Entry(m, false)];
    assert entries == [Entry(m, false)];
    FlatMapOne(EntryOut, Entry(m, false));
  }
}
