/**
 The whole terminal pipe, end to end: a supervisor run writes frames to a socket, the socket
 delivers their bytes in any chunks, the line splitter and the parser turn each chunk into a
 batch, and the gateway mirrors the session.
 */
module Pipeline {
  import opened Wrappers
  import opened Sequences
  import opened Scrollback
  import opened Lines
  import opened LineBuffer
  import opened SupervisorProtocol
  import opened SupervisorClient

  /** How messages are written on one line and read back; JSON in the program. */
  datatype Codec = Codec(write: Inbound -> Text, parse: Text -> Inbound)

  ghost predicate Carries(codec: Codec, cap: nat, m: Inbound) {
    Sendable(cap, codec.write(m)) && codec.parse(codec.write(m)) == m
  }

  function Printed(codec: Codec, messages: seq<Inbound>): seq<Text> {
    if messages == [] then [] else [codec.write(messages[0])] + Printed(codec, messages[1..])
  }

  function Parsed(codec: Codec, lines: seq<Text>): seq<Inbound> {
    if lines == [] then [] else [codec.parse(lines[0])] + Parsed(codec, lines[1..])
  }

  /** What the socket handler makes of the chunks: one batch of messages for each. */
  function Batches(codec: Codec, cap: nat, buf: Text, overflow: bool, chunks: seq<Text>): seq<seq<Inbound>>
    decreases |chunks|
  {
    if chunks == [] then []
    else
      var p := Drain(cap, buf + chunks[0], overflow);
      [Parsed(codec, p.lines)] + Batches(codec, cap, p.buf, p.overflow, chunks[1..])
  }

  lemma {:induction false} ParsedAppend(codec: Codec, a: seq<Text>, b: seq<Text>)
    ensures Parsed(codec, a + b) == Parsed(codec, a) + Parsed(codec, b)
  {
    if a == [] {
      assert a + b == b;
    } else {
      assert (a + b)[1..] == a[1..] + b;
      ParsedAppend(codec, a[1..], b);
    }
  }

  lemma {:induction false} BatchesParseAll(codec: Codec, cap: nat, buf: Text, overflow: bool, chunks: seq<Text>)
    ensures Flatten(Batches(codec, cap, buf, overflow, chunks)) == Parsed(codec, PushAll(cap, buf, overflow, chunks).lines)
    decreases |chunks|
  {
    hide Drain;
    if chunks != [] {
      var p := Drain(cap, buf + chunks[0], overflow);
      BatchesParseAll(codec, cap, p.buf, p.overflow, chunks[1..]);
      ParsedAppend(codec, p.lines, PushAll(cap, p.buf, p.overflow, chunks[1..]).lines);
      var batches := Batches(codec, cap, buf, overflow, chunks);
      assert batches[1..] == Batches(codec, cap, p.buf, p.overflow, chunks[1..]);
    }
  }

  lemma {:induction false} ParsedPrinted(codec: Codec, cap: nat, messages: seq<Inbound>)
    requires forall m | m in messages :: Carries(codec, cap, m)
    ensures Parsed(codec, Printed(codec, messages)) == messages
    ensures forall t | t in Printed(codec, messages) :: Sendable(cap, t)
  {
    if messages != [] {
      assert messages[0] in messages;
      ParsedPrinted(codec, cap, messages[1..]);
      assert messages == [messages[0]] + messages[1..];
    }
  }

  /** The pipe delivers the messages written, in order, whatever the chunks, and never drops
      the connection for a line too long. */
  lemma PipeDelivers(codec: Codec, cap: nat, messages: seq<Inbound>, chunks: seq<Text>)
    requires forall m | m in messages :: Carries(codec, cap, m)
    requires Flatten(chunks) == Terminated(LF, Printed(codec, messages))
    ensures Flatten(Batches(codec, cap, [], false, chunks)) == messages
    ensures !PushAll(cap, [], false, chunks).tooLong
  {
    ParsedPrinted(codec, cap, messages);
    BatchesParseAll(codec, cap, [], false, chunks);
    hide Sendable, PushAll, Batches, Printed, Parsed, Terminated;
    MessagesRoundTrip(cap, Printed(codec, messages), chunks);
  }

  // ---- where a message arrives ----

  function BatchOf(e: ClientEvent): seq<seq<Inbound>> {
    if e.Batch? then [e.lines] else []
  }

  /** The batches of a client's run, in order. */
  function BatchesOf(events: seq<ClientEvent>): seq<seq<Inbound>> {
    FlatMap(BatchOf, events)
  }

  lemma {:induction false} BatchesHoldMessages(events: seq<ClientEvent>)
    ensures Flatten(BatchesOf(events)) == MessagesOf(events)
  {
    if events != [] {
      var e, rest := events[0], events[1..];
      BatchesHoldMessages(rest);
      FlatMapAppend<seq<Inbound>, Inbound>(Same, BatchOf(e), BatchesOf(rest));
      assert BatchesOf(events) == BatchOf(e) + BatchesOf(rest);
      if e.Batch? {
        FlatMapOne<seq<Inbound>, Inbound>(Same, e.lines);
      }
    }
  }

  /** Event `e` brings message number n of the run. */
  predicate Brings(e: ClientEvent, n: nat) {
    n < |LinesOfEvent(e)|
  }

  /** The requests open when message number n of the run is handled. */
  function PendingAt(cl: Client, events: seq<ClientEvent>, n: nat): map<nat, SessionId>
    decreases |events|
  {
    if events == [] then cl.pending
    else if Brings(events[0], n) then PendingAll(cl.pending, LinesOfEvent(events[0])[..n])
    else PendingAt(ClientStep(cl, events[0]), events[1..], n - |LinesOfEvent(events[0])|)
  }

  /** What its chunk brings after message number n. */
  function SharedAfter(events: seq<ClientEvent>, n: nat): seq<Inbound>
    decreases |events|
  {
    if events == [] then []
    else if Brings(events[0], n) then LinesOfEvent(events[0])[n + 1..]
    else SharedAfter(events[1..], n - |LinesOfEvent(events[0])|)
  }

  /** The events after the one that brings message number n. */
  function EventsAfter(events: seq<ClientEvent>, n: nat): seq<ClientEvent>
    decreases |events|
  {
    if events == [] then []
    else if Brings(events[0], n) then events[1..]
    else EventsAfter(events[1..], n - |LinesOfEvent(events[0])|)
  }

  lemma {:induction false} SplitAt(cl: Client, events: seq<ClientEvent>, n: nat)
    returns (pre: seq<ClientEvent>, before: seq<Inbound>)
    requires n < |MessagesOf(events)|
    ensures var batch := before + [MessagesOf(events)[n]] + SharedAfter(events, n);
            && ClientRun(cl, events) == ClientRun(Receive(ClientRun(cl, pre), batch), EventsAfter(events, n))
            && PendingAt(cl, events, n) == PendingAll(ClientRun(cl, pre).pending, before)
            && MessagesOf(events)[n + 1..] == SharedAfter(events, n) + MessagesOf(EventsAfter(events, n))
    decreases |events|
  {
    hide Receive, StartSubscribe, Unsubscribed, Closed, PendingAll;
    var e, rest := events[0], events[1..];
    var lines := LinesOfEvent(e);
    assert MessagesOf(events) == lines + MessagesOf(rest);
    hide MessagesOf;
    if Brings(e, n) {
      pre, before := [], lines[..n];
      assert lines == before + [lines[n]] + lines[n + 1..];
      assert (lines + MessagesOf(rest))[n + 1..] == lines[n + 1..] + MessagesOf(rest);
    } else {
      var k := n - |lines|;
      assert (lines + MessagesOf(rest))[n] == MessagesOf(rest)[k];
      assert (lines + MessagesOf(rest))[n + 1..] == MessagesOf(rest)[k + 1..];
      var tail;
      tail, before := SplitAt(ClientStep(cl, e), rest, k);
      pre := [e] + tail;
      assert pre[1..] == tail;
    }
  }

  // ---- frames and messages ----

  function FrameOf(m: Inbound): seq<Frame> { [m.frame] }

  function FramesOf(messages: seq<Inbound>): seq<Frame> {
    FlatMap(FrameOf, messages)
  }

  lemma {:induction false} SameText(messages: seq<Inbound>, s: SessionId)
    ensures BatchText(messages, s) == OutputText(FramesOf(messages), s)
  {
    if messages != [] {
      SameText(messages[1..], s);
      var frames := FramesOf(messages);
      assert frames == [messages[0].frame] + FramesOf(messages[1..]);
      assert frames[0] == messages[0].frame && frames[1..] == FramesOf(messages[1..]);
    }
  }

  lemma {:induction false} NotRemoved(st: State, events: seq<Event>, c: ConnId, s: SessionId)
    requires Stays(events, c, s)
    ensures forall f | f in RunFrames(st, events, c) :: f != RemovedFrame(s)
    decreases |events|
  {
    if events != [] {
      assert events[0] in events;
      assert forall f | f in Frames(st, events[0], c) :: f != RemovedFrame(s);
      hide Frames, Step;
      NotRemoved(Step(st, events[0]), events[1..], c, s);
    }
  }

  lemma {:induction false} FramesKept(messages: seq<Inbound>, s: SessionId)
    ensures Removes(messages, s) <==> RemovedFrame(s) in FramesOf(messages)
  {
    if messages != [] {
      var m, rest := messages[0], messages[1..];
      FramesKept(rest, s);
      assert messages == [m] + rest && FramesOf(messages) == [m.frame] + FramesOf(rest);
    }
  }

  lemma TailOfTail<T>(whole: seq<T>, part: seq<T>, t: seq<T>)
    requires EndsWith(whole, part) && |t| <= |part|
    ensures EndsWith(whole, t) <==> EndsWith(part, t)
  {
    assert whole[|whole| - |t|..] == part[|part| - |t|..];
  }

  /** End to end. A connection has carried any frames; the supervisor serves one more subscribe
      and runs on in any way that keeps it. Everything crosses the pipe in any chunks to a
      gateway in any state, which may open and drop other sessions meanwhile. Let the reply be
      the last to a request pending for the session, and the gateway keep the session after it.
      The mirror has then been fed the snapshot and everything produced since if and only if
      the chunk that completed the reply completed no output of the session. And it shows a
      tail of all the session ever produced if and only if it no longer starts with the
      snapshot, or the loss does not show in a text as long as the snapshot. */
  lemma MirrorFollowsSession(st: State, c: ConnId, s: SessionId, congested: set<ConnId>, events: seq<Event>,
                             cl: Client, calls: seq<ClientEvent>, id: nat, earlier: seq<Inbound>, tagged: seq<Inbound>,
                             codec: Codec, cap: nat, chunks: seq<Text>)
    requires Inv(st) && Open(st, c) && st.conns[c].authenticated && s in st.sessions && c !in congested
    requires Stays(events, c, s) && Open(Run(AfterSubscribe(st, c, s, congested), events), c)
    requires c in st.wire && FramesOf(earlier) == st.wire[c]
    requires FramesOf(tagged) == RunFrames(AfterSubscribe(st, c, s, congested), events, c)
    requires s in st.scrollback
    requires var messages := earlier + [ReplyTo(id, s, st.scrollback[s])] + tagged;
             && (forall m | m in messages :: Carries(codec, cap, m))
             && Flatten(chunks) == Terminated(LF, Printed(codec, messages))
    requires Sound(cl) && BatchesOf(calls) == Batches(codec, cap, [], false, chunks)
    requires var pending := PendingAt(cl, calls, |earlier|);
             && Answers(pending, ReplyTo(id, s, st.scrollback[s]), s)
             && Unanswered(pending - {id}, tagged, s)
    requires forall e | e in EventsAfter(calls, |earlier|) :: e != Drop(s) && e != PipeClosed
    ensures var end := Run(AfterSubscribe(st, c, s, congested), events);
            var after := ClientRun(cl, calls);
            var snapshot := Snapshot(st.scrollback[s]);
            var lost := BatchText(SharedAfter(calls, |earlier|), s);
            var fed := OutputChunks(MessagesOf(EventsAfter(calls, |earlier|)), s);
            && s in end.produced && s in after.local && Represents(after.local[s], Seed(snapshot) + fed)
            && DataOf(events, s) == lost + TextOf(fed)
            && (TextOf(Seed(snapshot) + fed) == snapshot + DataOf(events, s) <==> lost == [])
            && (EndsWith(TextOf(end.produced[s]), Snapshot(after.local[s]))
                <==> !KeepsSnapshot(snapshot, fed) || EndsWith(snapshot + lost, snapshot))
  {
    hide *;
    var reply, snapshot, n := ReplyTo(id, s, st.scrollback[s]), Snapshot(st.scrollback[s]), |earlier|;
    var messages := earlier + [reply] + tagged;
    var later := Handover(st, c, s, congested, events);
    PipeDelivers(codec, cap, messages, chunks);
    BatchesHoldMessages(calls);
    assert messages[n] == reply && messages[n + 1..] == tagged;
    var pre, before := SplitAt(cl, calls, n);
    var rest, post := SharedAfter(calls, n), EventsAfter(calls, n);
    NotRemoved(AfterSubscribe(st, c, s, congested), events, c, s);
    SameText(tagged, s);
    FramesKept(tagged, s);
    LaterKept(post, rest, tagged, s);
    RunSound(cl, pre);
    ReplyShape(id, s, st.scrollback[s]);
    MirrorIsStreamIff(ClientRun(cl, pre), before, id, s, snapshot, rest, post);
    BatchTextAppend(rest, MessagesOf(post), s);
    ChunksText(MessagesOf(post), s);
    var lost, fed := BatchText(rest, s), OutputChunks(MessagesOf(post), s);
    assert snapshot + lost + TextOf(fed) == snapshot + (lost + TextOf(fed));
    var end, after := Run(AfterSubscribe(st, c, s, congested), events), ClientRun(cl, calls);
    ShownLength(after.local[s], snapshot, lost, fed);
    TailOfTail(TextOf(end.produced[s]), snapshot + OutputText(later, s), Snapshot(after.local[s]));
  }

  function ReplyTo(id: nat, s: SessionId, buf: Buffer): Inbound {
    Inbound(Some(id), SubscribedFrame(s, Snapshot(buf)))
  }

  lemma ReplyShape(id: nat, s: SessionId, buf: Buffer)
    ensures ReplyTo(id, s, buf) == Inbound(Some(id), SubscribedFrame(s, Snapshot(buf)))
  {
  }

  lemma LaterKept(post: seq<ClientEvent>, rest: seq<Inbound>, tagged: seq<Inbound>, s: SessionId)
    requires tagged == rest + MessagesOf(post) && !Removes(tagged, s)
    requires forall e | e in post :: e != Drop(s) && e != PipeClosed
    ensures Keeps(post, s)
  {
    hide MessagesOf;
    assert forall m | m in MessagesOf(post) :: m in tagged;
  }

  lemma BatchTextAppend(a: seq<Inbound>, b: seq<Inbound>, s: SessionId)
    ensures BatchText(a + b, s) == BatchText(a, s) + BatchText(b, s)
  {
    FlatMapAppend(InboundText(s), a, b);
  }

  lemma ShownLength(buf: Buffer, snapshot: Text, lost: Text, fed: seq<Chunk>)
    requires Represents(buf, Seed(snapshot) + fed)
    ensures |Snapshot(buf)| <= |snapshot + (lost + TextOf(fed))|
  {
    MirrorShows(buf, snapshot, fed);
    hide Represents, Snapshot, TextOf, Seed, KeepsSnapshot;
  }
}
