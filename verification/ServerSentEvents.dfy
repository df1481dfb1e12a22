/**
 The event stream between the backend and the desktop: `writeSseEvent` prints events, the
 desktop's chunk parser reads them back. Both cover the part of section 9.2 (Server-sent
 events) of the WHATWG HTML Living Standard that the program uses.
 */
module ServerSentEvents {
  import opened Sequences
  import opened Lines

  datatype Event = Event(name: string, data: string)

  const PREAMBLE := ": connected\n\n"

  /** The bytes `writeSseEvent` writes; `data` is already serialised. */
  function Printed(e: Event): string {
    "event: " + e.name + "\n" + "data: " + e.data + "\n\n"
  }

  /** The parser's globals, and the events handed on so far. */
  datatype Parser = Parser(buffer: string, currentEvent: string, dataLines: seq<string>, dispatched: seq<Event>)

  const FRESH := Parser("", "message", [], [])

  function OrMessage(name: string): string {
    if name == "" then "message" else name
  }

  function Join(lines: seq<string>): string {
    if lines == [] then "" else if |lines| == 1 then lines[0] else lines[0] + "\n" + Join(lines[1..])
  }

  function Dispatch(p: Parser): Parser {
    var data := Join(p.dataLines);
    p.(currentEvent := "message", dataLines := [],
       dispatched := if data == "" then p.dispatched else p.dispatched + [Event(OrMessage(p.currentEvent), data)])
  }

  function HandleLine(p: Parser, line: string): Parser {
    if line == "" then Dispatch(p)
    else if line[0] == ':' then p
    else
      var separator := IndexOf(':', line);
      var field := if separator >= 0 then line[..separator] else line;
      var raw := if separator >= 0 then line[separator + 1..] else "";
      var value := if raw != "" && raw[0] == ' ' then raw[1..] else raw;
      if field == "event" then p.(currentEvent := OrMessage(value))
      else if field == "data" then p.(dataLines := p.dataLines + [value])
      else p
  }

  function HandleLines(p: Parser, lines: seq<string>): Parser
    decreases |lines|
  {
    if lines == [] then p else HandleLines(HandleLine(p, StripEnd('\r', lines[0])), lines[1..])
  }

  /** What one chunk does, in terms of the lines it completes. */
  function Feed(p: Parser, chunk: string): Parser {
    var c := CutLines('\n', p.buffer, chunk);
    HandleLines(p, c.lines).(buffer := c.rest)
  }

  class EventReader {
    var buffer: string
    var currentEvent: string
    var dataLines: seq<string>
    var dispatched: seq<Event>

    ghost function Current(): Parser
      reads this
    {
      Parser(buffer, currentEvent, dataLines, dispatched)
    }

    constructor ()
      ensures Current() == FRESH
    {
      buffer, currentEvent, dataLines, dispatched := "", "message", [], [];
    }

    method HandleBackendLine(line: string)
      modifies this
      ensures Current() == HandleLine(old(Current()), line)
    {
      if line == "" {
        DispatchEvent();
        return;
      }
      if line[0] == ':' { return; }
      var separator := IndexOf(':', line);
      var field, value := line, "";
      if separator >= 0 {
        field, value := line[..separator], line[separator + 1..];
      }
      if value != "" && value[0] == ' ' {
        value := value[1..];
      }
      if field == "event" {
        currentEvent := OrMessage(value);
      } else if field == "data" {
        dataLines := dataLines + [value];
      }
    }

    method DispatchEvent()
      modifies this
      ensures Current() == Dispatch(old(Current()))
    {
      var name, data := OrMessage(currentEvent), Join(dataLines);
      currentEvent, dataLines := "message", [];
      if data != "" {
        dispatched := dispatched + [Event(name, data)];
      }
    }

    method HandleChunk(chunk: string)
      requires '\n' !in buffer
      modifies this
      ensures Current() == Feed(old(Current()), chunk) && '\n' !in buffer
    {
      hide HandleLine, IndexOf;
      ghost var start := Current();
      ghost var c := CutLines('\n', buffer, chunk);
      CutSeparatorFree('\n', buffer, chunk);
      CutBuffered(buffer, chunk);
      buffer := buffer + chunk;
      ghost var done: seq<string> := [];
      var newline := IndexOf('\n', buffer);
      while newline >= 0
        invariant newline == IndexOf('\n', buffer)
        invariant c == Cut(done + CutLines('\n', [], buffer).lines, CutLines('\n', [], buffer).rest)
        invariant Current().(buffer := start.buffer) == HandleLines(start, done)
        decreases |buffer|
      {
        var line, rest := buffer[..newline], buffer[newline + 1..];
        CutFirst(buffer, newline);
        assert done + ([line] + CutLines('\n', [], rest).lines) == (done + [line]) + CutLines('\n', [], rest).lines;
        HandleLinesSnoc(start, done, line);
        HandleLineKeepsBuffer(HandleLines(start, done), StripEnd('\r', line), rest);
        buffer := rest;
        done := done + [line];
        HandleBackendLine(StripEnd('\r', line));
        newline := IndexOf('\n', buffer);
      }
      CutPlain('\n', [], buffer);
      assert done + [] == done;
    }
  }

  lemma HandleLineKeepsBuffer(p: Parser, line: string, other: string)
    ensures HandleLine(p, line).buffer == p.buffer
    ensures HandleLine(p.(buffer := other), line) == HandleLine(p, line).(buffer := other)
  {
  }

  lemma CutBuffered(buffer: string, chunk: string)
    requires '\n' !in buffer
    ensures CutLines('\n', buffer, chunk) == CutLines('\n', [], buffer + chunk)
  {
    CutPlain('\n', [], buffer);
    CutAppend('\n', [], buffer, chunk);
    assert [] + buffer == buffer;
    assert [] + CutLines('\n', buffer, chunk).lines == CutLines('\n', buffer, chunk).lines;
  }

  lemma CutFirst(buffer: string, i: nat)
    requires i == IndexOf('\n', buffer)
    ensures var c := CutLines('\n', [], buffer[i + 1..]);
            CutLines('\n', [], buffer) == Cut([buffer[..i]] + c.lines, c.rest)
  {
    assert buffer == buffer[..i] + ['\n'] + buffer[i + 1..];
    CutOneLine('\n', [], buffer[..i], buffer[i + 1..]);
    assert [] + buffer[..i] == buffer[..i];
  }

  lemma {:induction false} HandleLinesAppend(p: Parser, a: seq<string>, b: seq<string>)
    ensures HandleLines(p, a + b) == HandleLines(HandleLines(p, a), b)
    decreases |a|
  {
    hide HandleLine;
    if a == [] {
      assert a + b == b;
    } else {
      assert (a + b)[0] == a[0] && (a + b)[1..] == a[1..] + b;
      HandleLinesAppend(HandleLine(p, StripEnd('\r', a[0])), a[1..], b);
    }
  }

  lemma HandleLinesSnoc(p: Parser, a: seq<string>, line: string)
    ensures HandleLines(p, a + [line]) == HandleLine(HandleLines(p, a), StripEnd('\r', line))
  {
    hide HandleLine;
    HandleLinesAppend(p, a, [line]);
    assert [line][1..] == [];
  }

  lemma {:induction false} HandleLinesKeepBuffer(p: Parser, lines: seq<string>, other: string)
    ensures HandleLines(p, lines).buffer == p.buffer
    ensures HandleLines(p.(buffer := other), lines) == HandleLines(p, lines).(buffer := other)
    decreases |lines|
  {
    hide HandleLine;
    if lines != [] {
      HandleLineKeepsBuffer(p, StripEnd('\r', lines[0]), other);
      HandleLinesKeepBuffer(HandleLine(p, StripEnd('\r', lines[0])), lines[1..], other);
    }
  }

  function FeedAll(p: Parser, chunks: seq<string>): Parser
    decreases |chunks|
  {
    if chunks == [] then p else FeedAll(Feed(p, chunks[0]), chunks[1..])
  }

  /** Chunking does not matter: only the lines of the whole stream do. */
  lemma {:induction false} FeedAllIsLines(p: Parser, chunks: seq<string>)
    ensures var c := CutLines('\n', p.buffer, Flatten(chunks));
            FeedAll(p, chunks) == HandleLines(p, c.lines).(buffer := c.rest)
    decreases |chunks|
  {
    hide HandleLine;
    if chunks == [] {
    } else {
      var chunk, more := chunks[0], Flatten(chunks[1..]);
      var next := Feed(p, chunk);
      FeedAllIsLines(next, chunks[1..]);
      CutAppend('\n', p.buffer, chunk, more);
      var c := CutLines('\n', p.buffer, chunk);
      var d := CutLines('\n', c.rest, more);
      HandleLinesAppend(p, c.lines, d.lines);
      HandleLinesKeepBuffer(HandleLines(p, c.lines), d.lines, c.rest);
    }
  }

  // ---- reading back what was printed ----

  predicate OneLine(e: Event) {
    '\n' !in e.name && '\n' !in e.data
  }

  /** A field that survives the trip: not empty, and not ending in the CR that line ends may have. */
  predicate Survives(field: string) {
    field != "" && field[|field| - 1] != '\r'
  }

  /** What the parser makes of one printed event. */
  function ReadBack(e: Event): seq<Event> {
    if StripEnd('\r', e.data) == "" then [] else [Event(OrMessage(StripEnd('\r', e.name)), StripEnd('\r', e.data))]
  }

  function PrintedLines(e: Event): seq<string> {
    ["event: " + e.name, "data: " + e.data, ""]
  }

  lemma FieldLine(prefix: string, value: string)
    requires prefix != "" && prefix[|prefix| - 1] != '\r'
    ensures StripEnd('\r', prefix + value) == prefix + StripEnd('\r', value)
  {
    if value != "" {
      assert (prefix + value)[|prefix + value| - 1] == value[|value| - 1];
      if value[|value| - 1] == '\r' {
        assert (prefix + value)[..|prefix + value| - 1] == prefix + value[..|value| - 1];
      }
    } else {
      assert prefix + value == prefix;
    }
  }

  lemma EventLine(p: Parser, value: string)
    ensures HandleLine(p, "event: " + value) == p.(currentEvent := OrMessage(value))
  {
    var line := "event: " + value;
    assert line[0] == 'e' && line[1] == 'v' && line[2] == 'e' && line[3] == 'n' && line[4] == 't' && line[5] == ':';
    ColonAt(line, 5);
    assert line[..5] == "event" && line[6..] == " " + value && (" " + value)[1..] == value;
  }

  lemma DataLine(p: Parser, value: string)
    ensures HandleLine(p, "data: " + value) == p.(dataLines := p.dataLines + [value])
  {
    var line := "data: " + value;
    assert line[0] == 'd' && line[1] == 'a' && line[2] == 't' && line[3] == 'a' && line[4] == ':';
    ColonAt(line, 4);
    assert line[..4] == "data" && line[5..] == " " + value && (" " + value)[1..] == value;
  }

  lemma ColonAt(line: string, i: nat)
    requires i < |line| && line[i] == ':' && forall j | 0 <= j < i :: line[j] != ':'
    ensures IndexOf(':', line) == i
  {
    var k := IndexOf(':', line);
    assert line[i] in line;
    assert k >= 0 ==> forall j | 0 <= j < k :: line[..k][j] == line[j];
  }

  lemma ThreeLines(p: Parser, a: string, b: string, c: string)
    ensures HandleLines(p, [a, b, c]) == HandleLine(HandleLine(HandleLine(p, StripEnd('\r', a)), StripEnd('\r', b)), StripEnd('\r', c))
  {
    hide HandleLine, StripEnd;
    HandleLinesSnoc(p, [], a);
    HandleLinesSnoc(p, [a], b);
    HandleLinesSnoc(p, [a, b], c);
    assert [] + [a] == [a] && [a] + [b] == [a, b] && [a, b] + [c] == [a, b, c];
  }

  lemma ReadOneEvent(p: Parser, e: Event)
    requires p.currentEvent == "message" && p.dataLines == []
    ensures HandleLines(p, PrintedLines(e)) == p.(dispatched := p.dispatched + ReadBack(e))
  {
    hide HandleLine, HandleLines, StripEnd;
    ThreeLines(p, "event: " + e.name, "data: " + e.data, "");
    FieldLine("event: ", e.name);
    FieldLine("data: ", e.data);
    EventLine(p, StripEnd('\r', e.name));
    var named := HandleLine(p, "event: " + StripEnd('\r', e.name));
    DataLine(named, StripEnd('\r', e.data));
    var ready := HandleLine(named, "data: " + StripEnd('\r', e.data));
    assert ready.dataLines == [StripEnd('\r', e.data)];
    BlankLine(ready);
    NoCr();
    assert OrMessage(OrMessage(StripEnd('\r', e.name))) == OrMessage(StripEnd('\r', e.name));
  }

  lemma NoCr()
    ensures StripEnd('\r', "") == ""
  {
  }

  lemma BlankLine(p: Parser)
    ensures HandleLine(p, "") == Dispatch(p)
  {
  }

  lemma {:induction false} ReadEvents(p: Parser, events: seq<Event>)
    requires p.currentEvent == "message" && p.dataLines == []
    ensures HandleLines(p, FlatMap(PrintedLines, events)) == p.(dispatched := p.dispatched + FlatMap(ReadBack, events))
    decreases |events|
  {
    hide HandleLine, PrintedLines, ReadBack;
    if events == [] {
      assert p.dispatched + [] == p.dispatched;
    } else {
      ReadOneEvent(p, events[0]);
      HandleLinesAppend(p, PrintedLines(events[0]), FlatMap(PrintedLines, events[1..]));
      var next := p.(dispatched := p.dispatched + ReadBack(events[0]));
      ReadEvents(next, events[1..]);
      assert (p.dispatched + ReadBack(events[0])) + FlatMap(ReadBack, events[1..])
          == p.dispatched + (ReadBack(events[0]) + FlatMap(ReadBack, events[1..]));
    }
  }

  lemma PrintedCut(e: Event)
    requires OneLine(e)
    ensures CutLines('\n', [], Printed(e)) == Cut(PrintedLines(e), [])
  {
    var lines := PrintedLines(e);
    forall l | l in lines ensures '\n' !in l {
      assert lines[0] == "event: " + e.name && lines[1] == "data: " + e.data && lines[2] == "";
    }
    CutTerminated('\n', lines);
    assert lines[1..] == [lines[1], lines[2]] && lines[1..][1..] == [lines[2]] && [lines[2]][1..] == [];
    assert Terminated('\n', [lines[2]]) == lines[2] + ['\n'] + [];
    assert Terminated('\n', lines[1..]) == lines[1] + ['\n'] + Terminated('\n', [lines[2]]);
    assert Printed(e) == Terminated('\n', lines);
  }

  lemma {:induction false} PrintedAllCut(events: seq<Event>)
    requires forall e | e in events :: OneLine(e)
    ensures CutLines('\n', [], FlatMap(Printed, events)) == Cut(FlatMap(PrintedLines, events), [])
    decreases |events|
  {
    hide Printed, PrintedLines;
    if events != [] {
      PrintedCut(events[0]);
      PrintedAllCut(events[1..]);
      CutAppend('\n', [], Printed(events[0]), FlatMap(Printed, events[1..]));
    }
  }

  /** The stream a client gets, cut into any chunks: every event comes out as `ReadBack` says,
      in order, and the parser ends with nothing half read. */
  lemma StreamReadsBack(events: seq<Event>, chunks: seq<string>)
    requires forall e | e in events :: OneLine(e)
    requires Flatten(chunks) == PREAMBLE + FlatMap(Printed, events)
    ensures FeedAll(FRESH, chunks) == FRESH.(dispatched := FlatMap(ReadBack, events))
  {
    FeedAllIsLines(FRESH, chunks);
    var body := FlatMap(Printed, events);
    CutAppend('\n', [], PREAMBLE, body);
    PrintedAllCut(events);
    PreambleIsSilent();
    HandleLinesAppend(FRESH, [": connected", ""], FlatMap(PrintedLines, events));
    ReadEvents(FRESH, events);
    hide HandleLine, HandleLines, FlatMap;
    assert [] + FlatMap(ReadBack, events) == FlatMap(ReadBack, events);
  }

  lemma PreambleIsSilent()
    ensures CutLines('\n', [], PREAMBLE) == Cut([": connected", ""], [])
    ensures HandleLines(FRESH, [": connected", ""]) == FRESH
  {
    var lines := [": connected", ""];
    PreambleCut(lines);
    hide CutLines;
    HandleLinesSnoc(FRESH, [], lines[0]);
    HandleLinesSnoc(FRESH, [lines[0]], lines[1]);
    assert [] + [lines[0]] == [lines[0]] && [lines[0]] + [lines[1]] == lines;
    assert StripEnd('\r', lines[0]) == lines[0] && lines[0][0] == ':';
    assert StripEnd('\r', lines[1]) == lines[1];
  }

  lemma PreambleCut(lines: seq<string>)
    requires lines == [": connected", ""]
    ensures CutLines('\n', [], PREAMBLE) == Cut(lines, [])
  {
    hide CutLines;
    CutTerminated('\n', lines);
    assert lines[1..] == [""] && [""][1..] == [];
    assert Terminated('\n', [""]) == [] + ['\n'] + [];
    assert PREAMBLE == Terminated('\n', lines);
  }

  predicate Faithful(e: Event) {
    Survives(e.name) && Survives(e.data)
  }

  lemma ReadBackFaithfulIff(e: Event)
    ensures ReadBack(e) == [e] <==> Faithful(e)
  {
    if e.name != "" && e.name[|e.name| - 1] == '\r' {
      assert |StripEnd('\r', e.name)| < |e.name|;
    }
  }

  lemma {:induction false} AllReadBackIff(events: seq<Event>)
    ensures |FlatMap(ReadBack, events)| <= |events|
    ensures FlatMap(ReadBack, events) == events <==> forall e | e in events :: Faithful(e)
    decreases |events|
  {
    hide ReadBack;
    if events != [] {
      var first, rest := ReadBack(events[0]), FlatMap(ReadBack, events[1..]);
      AllReadBackIff(events[1..]);
      ReadBackFaithfulIff(events[0]);
      ReadBackAtMostOne(events[0]);
      assert events == [events[0]] + events[1..];
      if first + rest == events {
        assert |first| == 1 && first[0] == (first + rest)[0] && rest == (first + rest)[1..];
      }
    }
  }

  lemma ReadBackAtMostOne(e: Event)
    ensures |ReadBack(e)| <= 1
  {
  }

  /** The round trip, exactly: for one-line events under any chunking, the desktop sees the
      events that were written if and only if every name and every payload is non-empty and
      does not end in CR. */
  lemma RoundTripIff(events: seq<Event>, chunks: seq<string>)
    requires forall e | e in events :: OneLine(e)
    requires Flatten(chunks) == PREAMBLE + FlatMap(Printed, events)
    ensures FeedAll(FRESH, chunks).dispatched == events <==> forall e | e in events :: Faithful(e)
    ensures FeedAll(FRESH, chunks).buffer == "" && FeedAll(FRESH, chunks).dataLines == []
  {
    StreamReadsBack(events, chunks);
    AllReadBackIff(events);
  }

  // ---- payloads of several lines ----

  /** Lines as a data field each. */
  function DataFields(lines: seq<string>): seq<string> {
    if lines == [] then [] else ["data: " + lines[0]] + DataFields(lines[1..])
  }

  lemma {:induction false} FieldsCollect(p: Parser, lines: seq<string>)
    requires forall l | l in lines :: StripEnd('\r', l) == l
    ensures HandleLines(p, DataFields(lines)) == p.(dataLines := p.dataLines + lines)
    decreases |lines|
  {
    hide HandleLine, StripEnd;
    if lines == [] {
      assert p.dataLines + lines == p.dataLines;
    } else {
      assert lines[0] in lines;
      FieldLine("data: ", lines[0]);
      DataLine(p, lines[0]);
      var next := HandleLine(p, "data: " + lines[0]);
      FieldsCollect(next, lines[1..]);
      var fields := DataFields(lines);
      assert fields[0] == "data: " + lines[0] && fields[1..] == DataFields(lines[1..]);
      assert next.dataLines + lines[1..] == p.dataLines + lines;
    }
  }

  lemma {:induction false} JoinedLines(lines: seq<string>)
    requires lines != []
    ensures Terminated('\n', lines) == Join(lines) + "\n"
  {
    if |lines| == 1 {
      assert lines[0] + ['\n'] + [] == Join(lines) + "\n";
    } else {
      JoinedLines(lines[1..]);
      assert lines[0] + ['\n'] + (Join(lines[1..]) + "\n") == (lines[0] + "\n" + Join(lines[1..])) + "\n";
    }
  }

  /** Several data fields make one event: its lines, each ended by LF, are its data and one LF. */
  lemma ManyDataFields(p: Parser, lines: seq<string>) returns (data: string)
    requires p.dataLines == [] && lines != [] && forall l | l in lines :: StripEnd('\r', l) == l
    ensures data + "\n" == Terminated('\n', lines)
    ensures HandleLines(p, DataFields(lines) + [""])
         == p.(currentEvent := "message", dataLines := [],
               dispatched := if data == "" then p.dispatched else p.dispatched + [Event(OrMessage(p.currentEvent), data)])
  {
    data := Join(lines);
    JoinedLines(lines);
    FieldsCollect(p, lines);
    HandleLinesSnoc(p, DataFields(lines), "");
    NoCr();
    BlankLine(HandleLines(p, DataFields(lines)));
    assert [] + lines == lines;
    hide HandleLines, HandleLine, DataFields, Terminated, Join;
  }

  // ---- reconnecting ----

  /** The reader never buffers more than an unfinished line. */
  lemma {:induction false} BufferIsOneLine(p: Parser, chunks: seq<string>)
    requires '\n' !in p.buffer
    ensures '\n' !in FeedAll(p, chunks).buffer
  {
    FeedAllIsLines(p, chunks);
    CutSeparatorFree('\n', p.buffer, Flatten(chunks));
    hide HandleLines, CutLines;
  }

  /** A half-read line swallows the comment that opens the next stream. */
  function HalfRead(p: Parser): Parser {
    HandleLine(p, p.buffer + ": connected")
  }

  /** What the blank line after that comment dispatches of the lost stream. */
  function Stray(p: Parser): seq<Event> {
    var data := Join(HalfRead(p).dataLines);
    if data == "" then [] else [Event(OrMessage(HalfRead(p).currentEvent), data)]
  }

  lemma ResumedPreamble(p: Parser)
    ensures CutLines('\n', p.buffer, PREAMBLE) == Cut([p.buffer + ": connected", ""], [])
  {
    hide CutLines;
    OneBreak();
    PreambleParts();
    CutOneLine('\n', p.buffer, ": connected", "\n");
  }

  lemma PreambleParts()
    ensures PREAMBLE == ": connected" + ['\n'] + "\n" && '\n' !in ": connected"
  {
  }

  lemma OneBreak()
    ensures CutLines('\n', [], "\n") == Cut([[]], [])
  {
    assert "\n"[0] == '\n' && "\n"[1..] == [];
  }

  lemma LineKeepsDispatched(p: Parser, line: string)
    requires line != ""
    ensures HandleLine(p, line).dispatched == p.dispatched
  {
  }

  lemma ResumedLines(p: Parser)
    ensures HandleLines(p, [p.buffer + ": connected", ""]).(buffer := "")
         == Parser("", "message", [], p.dispatched + Stray(p))
  {
    var line := p.buffer + ": connected";
    HandleLinesSnoc(p, [], line);
    HandleLinesSnoc(p, [line], "");
    assert [] + [line] == [line] && [line] + [""] == [line, ""];
    assert line[|line| - 1] == 'd' && StripEnd('\r', line) == line;
    NoCr();
    LineKeepsDispatched(p, line);
    BlankLine(HalfRead(p));
    hide HandleLine, HandleLines, Join;
    assert p.dispatched + [] == p.dispatched;
  }

  /** The globals outlive a dropped connection. Whatever was left half read, the next stream in
      any chunks dispatches at most one event of the lost one, exactly `Stray`, and then all its
      own events, as from a fresh reader; and the reader ends clean. */
  lemma StreamResumes(p: Parser, events: seq<Event>, chunks: seq<string>)
    requires forall e | e in events :: OneLine(e)
    requires Flatten(chunks) == PREAMBLE + FlatMap(Printed, events)
    ensures FeedAll(p, chunks) == Parser("", "message", [], p.dispatched + Stray(p) + FlatMap(ReadBack, events))
    ensures |Stray(p)| <= 1
  {
    FeedAllIsLines(p, chunks);
    var body, lines, opening := FlatMap(Printed, events), FlatMap(PrintedLines, events), [p.buffer + ": connected", ""];
    CutAppend('\n', p.buffer, PREAMBLE, body);
    PrintedAllCut(events);
    ResumedPreamble(p);
    HandleLinesAppend(p, opening, lines);
    ResumedLines(p);
    hide HandleLine, HandleLines, FlatMap, Stray;
    var ready := HandleLines(p, opening);
    ReadEvents(ready, events);
    AtMostOneStray(p);
  }

  lemma AtMostOneStray(p: Parser)
    ensures |Stray(p)| <= 1
  {
  }
}
