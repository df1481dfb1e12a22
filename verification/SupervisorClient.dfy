/**
 The gateway's side of the IPC pipe: it subscribes on demand and mirrors the scrollback of
 every subscribed session, so that further viewers need no round trip.
 */
module SupervisorClient {
  import opened Wrappers
  import opened Sequences
  import opened Scrollback
  import opened SupervisorProtocol

  /** A frame read from the pipe, with the id of the request it answers. */
  datatype Inbound = Inbound(id: Option<nat>, frame: Frame)

  datatype Outbound = SubscribeRequest(id: nat, sid: SessionId) | UnsubscribeRequest(sid: SessionId)

  /** An `ensureSubscribed` that was answered and whose continuation has not run yet. */
  datatype Answered = Answered(sid: SessionId, scrollback: Text)

  /** `pending` holds the open subscribe requests, `queue` the continuations waiting for the
      current batch of lines to be done. `history` is what was put into each mirror; the
      program does not keep it. */
  datatype Client = Client(
    nextReqId: nat,
    pending: map<nat, SessionId>,
    cache: set<SessionId>,
    subscribed: set<SessionId>,
    local: map<SessionId, Buffer>,
    queue: seq<Answered>,
    sent: seq<Outbound>,
    history: map<SessionId, seq<Chunk>>)

  function AppendLocal(cl: Client, s: SessionId, data: Text): Client {
    if s !in cl.local then cl
    else cl.(local := cl.local[s := Appended(cl.local[s], data)],
             history := if s in cl.history then cl.history[s := cl.history[s] + [MakeChunk(data)]] else cl.history)
  }

  function Handle(cl: Client, m: Inbound): Client {
    match m.frame
    case SubscribedFrame(s, scrollback) =>
      var known := cl.(cache := cl.cache + {s});
      if m.id.Some? && m.id.value in cl.pending then
        known.(pending := cl.pending - {m.id.value},
               queue := cl.queue + [Answered(cl.pending[m.id.value], scrollback)])
      else known
    case OutputFrame(s, data) => if s in cl.subscribed then AppendLocal(cl, s, data) else cl
    case RemovedFrame(s) =>
      cl.(cache := cl.cache - {s}, subscribed := cl.subscribed - {s}, local := cl.local - {s}, history := cl.history - {s})
    case ErrorFrame(_) =>
      if m.id.Some? then cl.(pending := cl.pending - {m.id.value}) else cl
    case SessionsFrame(ids) => cl.(cache := ids)
    case CreatedFrame(s) => cl.(cache := cl.cache + {s})
    case HelloFrame => cl
    case UnsubscribedFrame(_) => cl
    case ExitFrame(_) => cl
  }

  function Seeded(cl: Client, s: SessionId): Client {
    cl.(subscribed := cl.subscribed + {s}, cache := cl.cache + {s},
        local := cl.local[s := EMPTY_BUFFER], history := cl.history[s := []])
  }

  /** The code after `await`: remember the subscription and seed the mirror. */
  function Continue(cl: Client, a: Answered): Client {
    if a.scrollback == [] then Seeded(cl, a.sid) else AppendLocal(Seeded(cl, a.sid), a.sid, a.scrollback)
  }

  function HandleAll(cl: Client, batch: seq<Inbound>): Client
    decreases |batch|
  {
    if batch == [] then cl else HandleAll(Handle(cl, batch[0]), batch[1..])
  }

  function ContinueAll(cl: Client, queue: seq<Answered>): Client
    decreases |queue|
  {
    if queue == [] then cl else ContinueAll(Continue(cl, queue[0]), queue[1..])
  }

  /** One `data` event of the socket: every line it completed is handled in a row, and only
      then do the continuations that the replies resolved get to run. */
  function Receive(cl: Client, batch: seq<Inbound>): Client {
    var handled := HandleAll(cl, batch);
    ContinueAll(handled.(queue := []), handled.queue)
  }

  function StartSubscribe(cl: Client, s: SessionId): Client {
    if s in cl.subscribed then cl
    else cl.(nextReqId := cl.nextReqId + 1, pending := cl.pending[cl.nextReqId := s],
             sent := cl.sent + [SubscribeRequest(cl.nextReqId, s)])
  }

  function Unsubscribed(cl: Client, s: SessionId): Client {
    if s !in cl.subscribed then cl
    else cl.(subscribed := cl.subscribed - {s}, local := cl.local - {s}, history := cl.history - {s},
             sent := cl.sent + [UnsubscribeRequest(s)])
  }

  function Closed(cl: Client): Client {
    cl.(subscribed := {}, local := map[], history := map[], pending := map[])
  }

  /** Every mirror is exactly the ring of what was put into it, and exists only while subscribed. */
  ghost predicate Mirrors(cl: Client) {
    cl.local.Keys == cl.subscribed == cl.history.Keys && AllRepresent(cl.local, cl.history)
  }

  lemma AppendLocalKeepsMirrors(cl: Client, s: SessionId, data: Text)
    requires Mirrors(cl)
    ensures Mirrors(AppendLocal(cl, s, data))
  {
    if s in cl.local {
      AppendOneOfMany(cl.local, cl.history, s, data);
    }
    hide Represents, Appended;
  }

  lemma HandleKeepsMirrors(cl: Client, m: Inbound)
    requires Mirrors(cl)
    ensures Mirrors(Handle(cl, m))
  {
    hide Represents, AppendLocal;
    if m.frame.OutputFrame? {
      AppendLocalKeepsMirrors(cl, m.frame.sid, m.frame.data);
    }
  }

  lemma ContinueKeepsMirrors(cl: Client, a: Answered)
    requires Mirrors(cl)
    ensures Mirrors(Continue(cl, a))
  {
    hide AllRepresent, AppendLocal;
    AddEmpty(cl.local, cl.history, a.sid);
    assert Mirrors(Seeded(cl, a.sid));
    AppendLocalKeepsMirrors(Seeded(cl, a.sid), a.sid, a.scrollback);
  }

  lemma {:induction false} HandleAllKeepsMirrors(cl: Client, batch: seq<Inbound>)
    requires Mirrors(cl)
    ensures Mirrors(HandleAll(cl, batch))
    decreases |batch|
  {
    hide Handle, Mirrors;
    if batch != [] {
      HandleKeepsMirrors(cl, batch[0]);
      HandleAllKeepsMirrors(Handle(cl, batch[0]), batch[1..]);
    }
  }

  lemma {:induction false} ContinueAllKeepsMirrors(cl: Client, queue: seq<Answered>)
    requires Mirrors(cl)
    ensures Mirrors(ContinueAll(cl, queue))
    decreases |queue|
  {
    hide Continue, Mirrors;
    if queue != [] {
      ContinueKeepsMirrors(cl, queue[0]);
      ContinueAllKeepsMirrors(Continue(cl, queue[0]), queue[1..]);
    }
  }

  /** Every event keeps the mirrors exact; unsubscribing and a lost pipe clear them. What a
      removal does is `RemovalClearsIff`. */
  lemma EventsKeepMirrors(cl: Client, batch: seq<Inbound>, s: SessionId)
    requires Mirrors(cl)
    ensures Mirrors(Receive(cl, batch)) && Mirrors(StartSubscribe(cl, s))
    ensures Mirrors(Unsubscribed(cl, s)) && s !in Unsubscribed(cl, s).local
    ensures Mirrors(Closed(cl)) && Closed(cl).local == map[]
  {
    HandleAllKeepsMirrors(cl, batch);
    var handled := HandleAll(cl, batch);
    ContinueAllKeepsMirrors(handled.(queue := []), handled.queue);
    hide Represents, HandleAll, ContinueAll;
  }

  // ---- one session seen alone ----

  /** What the mirror of `s` has been fed, if there is one. */
  function Fed(cl: Client, s: SessionId): Option<seq<Chunk>> {
    if s in cl.subscribed && s in cl.history then Some(cl.history[s]) else None
  }

  function InboundChunks(s: SessionId): Inbound -> seq<Chunk> {
    (m: Inbound) => if m.frame.OutputFrame? && m.frame.sid == s then [MakeChunk(m.frame.data)] else []
  }

  /** The output of `s` that some messages carry. */
  function OutputChunks(messages: seq<Inbound>, s: SessionId): seq<Chunk> {
    FlatMap(InboundChunks(s), messages)
  }

  predicate Removes(messages: seq<Inbound>, s: SessionId) {
    exists m | m in messages :: m.frame == RemovedFrame(s)
  }

  /** The effect of messages on what a mirror has been fed, continuations apart. */
  function FedBy(fed: Option<seq<Chunk>>, messages: seq<Inbound>, s: SessionId): Option<seq<Chunk>> {
    if fed.None? || Removes(messages, s) then None else Some(fed.value + OutputChunks(messages, s))
  }

  /** The message answers a request pending for `s`. */
  predicate Answers(pending: map<nat, SessionId>, m: Inbound, s: SessionId) {
    m.frame.SubscribedFrame? && m.id.Some? && m.id.value in pending && pending[m.id.value] == s
  }

  /** The message settles the request `id`: no later message can answer it. */
  predicate Settles(m: Inbound, id: nat) {
    m.id == Some(id) && (m.frame.SubscribedFrame? || m.frame.ErrorFrame?)
  }

  function PendingAfter(pending: map<nat, SessionId>, m: Inbound): map<nat, SessionId> {
    if m.id.Some? && Settles(m, m.id.value) then pending - {m.id.value} else pending
  }

  function PendingAll(pending: map<nat, SessionId>, messages: seq<Inbound>): map<nat, SessionId>
    decreases |messages|
  {
    if messages == [] then pending else PendingAll(PendingAfter(pending, messages[0]), messages[1..])
  }

  function ReplyText(pending: map<nat, SessionId>, m: Inbound, s: SessionId): seq<Text> {
    if Answers(pending, m, s) then [m.frame.scrollback] else []
  }

  /** The snapshots with which messages answer requests pending for `s`. */
  function Replies(pending: map<nat, SessionId>, messages: seq<Inbound>, s: SessionId): seq<Text>
    decreases |messages|
  {
    if messages == [] then []
    else ReplyText(pending, messages[0], s) + Replies(PendingAfter(pending, messages[0]), messages[1..], s)
  }

  /** A fresh mirror holding a snapshot. */
  function Seed(snapshot: Text): seq<Chunk> {
    if snapshot == [] then [] else [MakeChunk(snapshot)]
  }

  function EntryText(s: SessionId): Answered -> seq<Text> {
    (a: Answered) => if a.sid == s then [a.scrollback] else []
  }

  function QueuedFor(queue: seq<Answered>, s: SessionId): seq<Text> {
    FlatMap(EntryText(s), queue)
  }

  lemma HandleFed(cl: Client, m: Inbound, s: SessionId)
    requires Mirrors(cl)
    ensures var next := Handle(cl, m);
            && next.pending == PendingAfter(cl.pending, m)
            && Fed(next, s) == (if m.frame == RemovedFrame(s) then None
                                else if Fed(cl, s).Some? then Some(Fed(cl, s).value + InboundChunks(s)(m)) else None)
            && QueuedFor(next.queue, s) == QueuedFor(cl.queue, s) + ReplyText(cl.pending, m, s)
  {
    if m.frame.SubscribedFrame? && m.id.Some? && m.id.value in cl.pending {
      FlatMapSnoc(EntryText(s), cl.queue, Answered(cl.pending[m.id.value], m.frame.scrollback));
    }
    assert m.id.Some? && m.id.value !in cl.pending ==> cl.pending - {m.id.value} == cl.pending;
    assert Fed(cl, s).Some? ==> Fed(cl, s).value + [] == Fed(cl, s).value;
    assert QueuedFor(cl.queue, s) + [] == QueuedFor(cl.queue, s);
    hide AllRepresent, Appended, QueuedFor;
  }

  lemma FedByFirst(fed: Option<seq<Chunk>>, messages: seq<Inbound>, s: SessionId)
    requires messages != []
    ensures var m := messages[0];
            var next := if m.frame == RemovedFrame(s) then None
                        else if fed.Some? then Some(fed.value + InboundChunks(s)(m)) else None;
            FedBy(fed, messages, s) == FedBy(next, messages[1..], s)
  {
    var m, rest := messages[0], messages[1..];
    assert messages == [m] + rest;
    assert OutputChunks(messages, s) == InboundChunks(s)(m) + OutputChunks(rest, s);
    hide InboundChunks, OutputChunks;
    if fed.Some? {
      assert (fed.value + InboundChunks(s)(m)) + OutputChunks(rest, s) == fed.value + (InboundChunks(s)(m) + OutputChunks(rest, s));
    }
  }

  lemma FedByNone(fed: Option<seq<Chunk>>, s: SessionId)
    ensures FedBy(fed, [], s) == fed
  {
    assert OutputChunks([], s) == [];
    assert fed.Some? ==> fed.value + [] == fed.value;
  }

  lemma {:induction false} HandleAllFed(cl: Client, batch: seq<Inbound>, s: SessionId)
    requires Mirrors(cl)
    ensures var after := HandleAll(cl, batch);
            && Mirrors(after) && after.pending == PendingAll(cl.pending, batch)
            && Fed(after, s) == FedBy(Fed(cl, s), batch, s)
            && QueuedFor(after.queue, s) == QueuedFor(cl.queue, s) + Replies(cl.pending, batch, s)
    decreases |batch|
  {
    hide Handle, Mirrors, Fed, FedBy, QueuedFor, ReplyText, PendingAfter, InboundChunks;
    if batch == [] {
      FedByNone(Fed(cl, s), s);
    } else {
      var m, next, rest := batch[0], Handle(cl, batch[0]), batch[1..];
      HandleKeepsMirrors(cl, m);
      HandleFed(cl, m, s);
      FedByFirst(Fed(cl, s), batch, s);
      HandleAllFed(next, rest, s);
      var q, r := QueuedFor(cl.queue, s), ReplyText(cl.pending, m, s);
      assert (q + r) + Replies(next.pending, rest, s) == q + (r + Replies(next.pending, rest, s));
    }
  }

  lemma ContinueFed(cl: Client, a: Answered, s: SessionId)
    requires Mirrors(cl)
    ensures var next := Continue(cl, a);
            && next.pending == cl.pending && next.queue == cl.queue
            && Fed(next, s) == if a.sid == s then Some(Seed(a.scrollback)) else Fed(cl, s)
  {
    assert [] + [MakeChunk(a.scrollback)] == [MakeChunk(a.scrollback)];
    hide AllRepresent, Appended;
  }

  /** Of several continuations for one session the last decides. */
  lemma {:induction false} ContinueAllFed(cl: Client, queue: seq<Answered>, s: SessionId)
    requires Mirrors(cl)
    ensures var after := ContinueAll(cl, queue);
            var texts := QueuedFor(queue, s);
            && Mirrors(after) && after.pending == cl.pending && after.queue == cl.queue
            && Fed(after, s) == if texts == [] then Fed(cl, s) else Some(Seed(texts[|texts| - 1]))
    decreases |queue|
  {
    hide Continue, Mirrors, Fed, Seed;
    if queue != [] {
      var a, next, rest := queue[0], Continue(cl, queue[0]), queue[1..];
      ContinueKeepsMirrors(cl, a);
      ContinueFed(cl, a, s);
      ContinueAllFed(next, rest, s);
      assert QueuedFor(queue, s) == EntryText(s)(a) + QueuedFor(rest, s);
    }
  }

  /** A state between two events: every mirror is exact and no continuation is waiting. */
  ghost predicate Sound(cl: Client) {
    Mirrors(cl) && cl.queue == []
  }

  /** What a batch does to one session, exactly and whatever else it carries. If it answers a
      request for the session, the mirror is afterwards seeded afresh with the last such
      snapshot, and nothing else in the batch counts, neither output nor removal. If not, a
      removal clears the mirror, and otherwise it is fed the batch's output of the session. */
  lemma ReceiveExact(cl: Client, batch: seq<Inbound>, s: SessionId)
    requires Sound(cl)
    ensures var after := Receive(cl, batch);
            var replies := Replies(cl.pending, batch, s);
            && Sound(after) && after.pending == PendingAll(cl.pending, batch)
            && Fed(after, s) == if replies != [] then Some(Seed(replies[|replies| - 1])) else FedBy(Fed(cl, s), batch, s)
  {
    hide AllRepresent, FedBy, Replies, HandleAll, ContinueAll, PendingAll, EntryText;
    HandleAllFed(cl, batch, s);
    var handled := HandleAll(cl, batch);
    assert QueuedFor(cl.queue, s) == [];
    hide QueuedFor;
    assert [] + Replies(cl.pending, batch, s) == Replies(cl.pending, batch, s);
    assert Mirrors(handled.(queue := [])) && Fed(handled.(queue := []), s) == Fed(handled, s);
    hide Mirrors, Fed;
    ContinueAllFed(handled.(queue := []), handled.queue, s);
  }

  // ---- removal ----

  /** Some message is the first to settle a request pending for `s`, and answers it. */
  ghost predicate SomeReply(pending: map<nat, SessionId>, messages: seq<Inbound>, s: SessionId) {
    exists i | 0 <= i < |messages| :: AnswersAt(pending, messages, s, i)
  }

  predicate AnswersAt(pending: map<nat, SessionId>, messages: seq<Inbound>, s: SessionId, i: nat)
    requires i < |messages|
  {
    Answers(pending, messages[i], s) && forall j | 0 <= j < i :: !Settles(messages[j], messages[i].id.value)
  }

  lemma {:induction false} RepliesIff(pending: map<nat, SessionId>, messages: seq<Inbound>, s: SessionId)
    ensures Replies(pending, messages, s) != [] <==> SomeReply(pending, messages, s)
    decreases |messages|
  {
    if messages != [] {
      var m, rest := messages[0], messages[1..];
      var next := PendingAfter(pending, m);
      RepliesIff(next, rest, s);
      assert forall j | 0 <= j < |rest| :: rest[j] == messages[j + 1];
      if Answers(pending, m, s) {
        assert AnswersAt(pending, messages, s, 0);
      } else {
        if i: nat :| i < |rest| && AnswersAt(next, rest, s, i) {
          assert AnswersAt(pending, messages, s, i + 1);
        }
        if i: nat :| i < |messages| && AnswersAt(pending, messages, s, i) {
          assert i > 0 && AnswersAt(next, rest, s, i - 1);
        }
      }
    }
  }

  /** A removal clears the mirror, unless its batch also answers a request for the session:
      then the continuation runs after the removal and mirrors a dead session. */
  lemma RemovalClearsIff(cl: Client, batch: seq<Inbound>, s: SessionId)
    requires Sound(cl) && Removes(batch, s)
    ensures var after := Receive(cl, batch);
            && (s in after.local <==> SomeReply(cl.pending, batch, s))
            && (s in after.subscribed <==> s in after.local)
  {
    ReceiveExact(cl, batch, s);
    RepliesIff(cl.pending, batch, s);
    hide Receive, Replies, SomeReply, AllRepresent;
  }

  /** The case: reply and removal in one chunk, in that order. */
  lemma RemovedSessionRevived(cl: Client, id: nat, s: SessionId, snapshot: Text)
    requires Sound(cl) && id in cl.pending && cl.pending[id] == s
    ensures var after := Receive(cl, [Inbound(Some(id), SubscribedFrame(s, snapshot)), Inbound(None, RemovedFrame(s))]);
            s in after.local && s in after.subscribed && s in after.cache
  {
    var reply, removed := Inbound(Some(id), SubscribedFrame(s, snapshot)), Inbound(None, RemovedFrame(s));
    var batch := [reply, removed];
    assert AnswersAt(cl.pending, batch, s, 0) && batch[1] == removed;
    RemovalClearsIff(cl, batch, s);
    var handled := Handle(Handle(cl, reply), removed);
    HandleTwo(cl, reply, removed);
    assert handled.queue == [Answered(s, snapshot)];
    hide Handle, HandleAll, Continue;
    ContinueOne(handled.(queue := []), Answered(s, snapshot));
    ContinueCaches(handled.(queue := []), Answered(s, snapshot));
  }

  lemma HandleTwo(cl: Client, a: Inbound, b: Inbound)
    ensures HandleAll(cl, [a, b]) == Handle(Handle(cl, a), b)
  {
    hide Handle;
    assert [a, b][1..] == [b] && [b][1..] == [];
    assert HandleAll(Handle(cl, a), [b]) == Handle(Handle(cl, a), b);
  }

  lemma ContinueOne(cl: Client, a: Answered)
    ensures ContinueAll(cl, [a]) == Continue(cl, a)
  {
    hide Continue;
    assert [a][1..] == [];
  }

  lemma ContinueCaches(cl: Client, a: Answered)
    ensures a.sid in Continue(cl, a).cache
  {
    hide Appended;
  }

  // ---- runs ----

  datatype ClientEvent = Batch(lines: seq<Inbound>) | Ensure(sid: SessionId) | Drop(sid: SessionId) | PipeClosed

  function ClientStep(cl: Client, e: ClientEvent): Client {
    match e
    case Batch(lines) => Receive(cl, lines)
    case Ensure(s) => StartSubscribe(cl, s)
    case Drop(s) => Unsubscribed(cl, s)
    case PipeClosed => Closed(cl)
  }

  function ClientRun(cl: Client, events: seq<ClientEvent>): Client
    decreases |events|
  {
    if events == [] then cl else ClientRun(ClientStep(cl, events[0]), events[1..])
  }

  lemma StepSound(cl: Client, e: ClientEvent)
    requires Sound(cl)
    ensures Sound(ClientStep(cl, e))
  {
    hide Mirrors, Receive;
    match e {
      case Batch(lines) => ReceiveExact(cl, lines, "");
      case Ensure(s) => EventsKeepMirrors(cl, [], s);
      case Drop(s) => EventsKeepMirrors(cl, [], s);
      case PipeClosed => EventsKeepMirrors(cl, [], "");
    }
  }

  /** In every reachable state each mirror is the ring of what it was fed. */
  lemma {:induction false} RunSound(cl: Client, events: seq<ClientEvent>)
    requires Sound(cl)
    ensures Sound(ClientRun(cl, events))
    decreases |events|
  {
    hide ClientStep, Sound;
    if events != [] {
      StepSound(cl, events[0]);
      RunSound(ClientStep(cl, events[0]), events[1..]);
    }
  }

  function LinesOfEvent(e: ClientEvent): seq<Inbound> {
    if e.Batch? then e.lines else []
  }

  /** All messages of a run, in order. */
  function MessagesOf(events: seq<ClientEvent>): seq<Inbound> {
    FlatMap(LinesOfEvent, events)
  }

  /** Nothing in the run ends a subscription to `s`. */
  predicate Keeps(events: seq<ClientEvent>, s: SessionId) {
    && (forall e | e in events :: e != Drop(s) && e != PipeClosed)
    && !Removes(MessagesOf(events), s)
  }

  /** No message answers a request pending for `s`. */
  predicate Unanswered(pending: map<nat, SessionId>, messages: seq<Inbound>, s: SessionId) {
    forall m | m in messages :: !Answers(pending, m, s)
  }

  /** Every request for `s` in `next` is already in `pending`. */
  predicate NoneNew(pending: map<nat, SessionId>, next: map<nat, SessionId>, s: SessionId) {
    forall id | id in next && next[id] == s :: id in pending && pending[id] == s
  }

  lemma {:induction false} UnansweredNoReplies(pending: map<nat, SessionId>, messages: seq<Inbound>, s: SessionId)
    requires Unanswered(pending, messages, s)
    ensures Replies(pending, messages, s) == [] && NoneNew(pending, PendingAll(pending, messages), s)
    decreases |messages|
  {
    if messages != [] {
      assert messages[0] in messages;
      var next := PendingAfter(pending, messages[0]);
      assert NoneNew(pending, next, s);
      assert forall m | m in messages[1..] :: m in messages && (Answers(next, m, s) ==> Answers(pending, m, s));
      UnansweredNoReplies(next, messages[1..], s);
    }
  }

  lemma KeptBatch(cl: Client, lines: seq<Inbound>, s: SessionId)
    requires Sound(cl) && Fed(cl, s).Some? && !Removes(lines, s) && Unanswered(cl.pending, lines, s)
    ensures var next := Receive(cl, lines);
            && NoneNew(cl.pending, next.pending, s)
            && Fed(next, s) == Some(Fed(cl, s).value + OutputChunks(lines, s))
  {
    hide Sound, Receive, Fed, OutputChunks, PendingAll, Unanswered;
    ReceiveExact(cl, lines, s);
    UnansweredNoReplies(cl.pending, lines, s);
  }

  lemma KeptCall(cl: Client, t: SessionId, s: SessionId)
    requires Sound(cl) && Fed(cl, s).Some?
    ensures var next := StartSubscribe(cl, t);
            NoneNew(cl.pending, next.pending, s) && Fed(next, s) == Fed(cl, s)
    ensures t != s ==> Fed(Unsubscribed(cl, t), s) == Fed(cl, s) && Unsubscribed(cl, t).pending == cl.pending
  {
    hide AllRepresent;
  }

  lemma KeptStep(cl: Client, e: ClientEvent, s: SessionId)
    requires Sound(cl) && Fed(cl, s).Some?
    requires e != Drop(s) && e != PipeClosed && !Removes(LinesOfEvent(e), s) && Unanswered(cl.pending, LinesOfEvent(e), s)
    ensures var next := ClientStep(cl, e);
            && Sound(next) && NoneNew(cl.pending, next.pending, s)
            && Fed(next, s) == Some(Fed(cl, s).value + OutputChunks(LinesOfEvent(e), s))
  {
    StepSound(cl, e);
    NothingFed(cl, s);
    hide Sound, Receive, StartSubscribe, Unsubscribed, Fed, OutputChunks, Unanswered, Removes;
    match e {
      case Batch(lines) => KeptBatch(cl, lines, s);
      case Ensure(t) => KeptCall(cl, t, s);
      case Drop(t) => KeptCall(cl, t, s);
      case PipeClosed =>
    }
  }

  lemma NothingFed(cl: Client, s: SessionId)
    ensures OutputChunks([], s) == [] && (Fed(cl, s).Some? ==> Fed(cl, s).value + [] == Fed(cl, s).value)
  {
  }

  lemma KeepsParts(events: seq<ClientEvent>, pending: map<nat, SessionId>, next: map<nat, SessionId>, s: SessionId)
    requires events != [] && Keeps(events, s) && Unanswered(pending, MessagesOf(events), s)
    ensures var e, rest := events[0], events[1..];
            && MessagesOf(events) == LinesOfEvent(e) + MessagesOf(rest)
            && e != Drop(s) && e != PipeClosed && !Removes(LinesOfEvent(e), s) && Unanswered(pending, LinesOfEvent(e), s)
            && Keeps(rest, s) && (NoneNew(pending, next, s) ==> Unanswered(next, MessagesOf(rest), s))
  {
    var e, rest := events[0], events[1..];
    assert e in events && forall x | x in rest :: x in events;
    assert MessagesOf(events) == LinesOfEvent(e) + MessagesOf(rest);
    hide MessagesOf, LinesOfEvent;
    assert forall m | m in LinesOfEvent(e) || m in MessagesOf(rest) :: m in MessagesOf(events);
    assert NoneNew(pending, next, s) ==> forall m :: Answers(next, m, s) ==> Answers(pending, m, s);
  }

  /** While a session stays mirrored and no further request for it is answered, whatever other
      sessions do, its mirror is fed exactly its own output. */
  lemma {:induction false} KeptRun(cl: Client, events: seq<ClientEvent>, s: SessionId)
    requires Sound(cl) && Fed(cl, s).Some? && Keeps(events, s) && Unanswered(cl.pending, MessagesOf(events), s)
    ensures var after := ClientRun(cl, events);
            Sound(after) && Fed(after, s) == Some(Fed(cl, s).value + OutputChunks(MessagesOf(events), s))
    decreases |events|
  {
    hide ClientStep, Sound, Fed, InboundChunks;
    if events == [] {
      NothingFed(cl, s);
    } else {
      var e, rest := events[0], events[1..];
      KeepsParts(events, cl.pending, ClientStep(cl, e).pending, s);
      FlatMapAppend(InboundChunks(s), LinesOfEvent(e), MessagesOf(rest));
      hide FlatMap, LinesOfEvent, MessagesOf, Keeps, Unanswered, NoneNew, Removes;
      KeptStep(cl, e, s);
      KeptRun(ClientStep(cl, e), rest, s);
      var a, b, c := Fed(cl, s).value, OutputChunks(LinesOfEvent(e), s), OutputChunks(MessagesOf(rest), s);
      assert (a + b) + c == a + (b + c);
    }
  }

  // ---- is the mirror the session's stream? ----

  function InboundText(s: SessionId): Inbound -> Text {
    (m: Inbound) => if m.frame.OutputFrame? && m.frame.sid == s then m.frame.data else []
  }

  /** The text of `s` that messages carry. */
  function BatchText(messages: seq<Inbound>, s: SessionId): Text {
    FlatMap(InboundText(s), messages)
  }

  lemma {:induction false} ChunksText(messages: seq<Inbound>, s: SessionId)
    ensures TextOf(OutputChunks(messages, s)) == BatchText(messages, s)
  {
    if messages != [] {
      var m, rest := messages[0], messages[1..];
      ChunksText(rest, s);
      FlatMapAppend(ChunkText, InboundChunks(s)(m), OutputChunks(rest, s));
      assert OutputChunks(messages, s) == InboundChunks(s)(m) + OutputChunks(rest, s);
      if m.frame.OutputFrame? && m.frame.sid == s {
        FlatMapOne(ChunkText, MakeChunk(m.frame.data));
      }
    }
  }

  lemma SeedText(snapshot: Text)
    ensures TextOf(Seed(snapshot)) == snapshot
  {
    if snapshot != [] {
      FlatMapOne(ChunkText, MakeChunk(snapshot));
    }
  }

  /** The mirror still starts with its snapshot: there is one, and it and the later output fit. */
  predicate KeepsSnapshot(snapshot: Text, later: seq<Chunk>) {
    && snapshot != []
    && (later == [] || Utf8Length(snapshot) + Total(ChunkBytes, later) <= SCROLLBACK_BYTES_PER_SESSION)
  }

  /** A ring holds its whole history exactly when that fits or is a single chunk. */
  lemma HoldsAllIff<T>(weight: T -> nat, cap: nat, history: seq<T>, kept: seq<T>)
    requires IsRetained(weight, cap, history, kept)
    ensures kept == history <==> Total(weight, history) <= cap || |history| <= 1
  {
    assert history[0..] == history;
    if |kept| < |history| {
      assert Overfull(weight, cap, history, 0);
    }
    assert |kept| == |history| ==> kept == history;
  }

  /** What the ring then shows: all of it, or a tail of the later output. */
  lemma MirrorShows(buf: Buffer, snapshot: Text, later: seq<Chunk>)
    requires Represents(buf, Seed(snapshot) + later)
    ensures if KeepsSnapshot(snapshot, later) then Snapshot(buf) == snapshot + TextOf(later)
            else EndsWith(TextOf(later), Snapshot(buf))
  {
    var history := Seed(snapshot) + later;
    HoldsAllIff(ChunkBytes, SCROLLBACK_BYTES_PER_SESSION, history, buf.chunks);
    SeedTotal(snapshot, later);
    FlatMapAppend(ChunkText, Seed(snapshot), later);
    SeedText(snapshot);
    hide Total, FlatMap, IsRetained;
    if KeepsSnapshot(snapshot, later) {
      assert buf.chunks == history;
    } else {
      assert EndsWith(history, buf.chunks) && |buf.chunks| <= |later| by { RetainedTail(buf, history); }
      TailOfRight(Seed(snapshot), later, buf.chunks);
      TextOfSuffix(later, buf.chunks);
    }
  }

  lemma RetainedTail(buf: Buffer, history: seq<Chunk>)
    requires Represents(buf, history)
    ensures EndsWith(history, buf.chunks)
  {
  }

  lemma SeedTotal(snapshot: Text, later: seq<Chunk>)
    ensures Total(ChunkBytes, Seed(snapshot) + later) == (if snapshot == [] then 0 else Utf8Length(snapshot)) + Total(ChunkBytes, later)
  {
    TotalAppend(ChunkBytes, Seed(snapshot), later);
    assert snapshot != [] ==> Seed(snapshot)[1..] == [];
  }

  lemma TailOfRight<T>(a: seq<T>, b: seq<T>, t: seq<T>)
    requires EndsWith(a + b, t) && |t| <= |b|
    ensures EndsWith(b, t)
  {
    assert (a + b)[|a| + |b| - |t|..] == b[|b| - |t|..];
  }

  /** When a text from which `lost` was dropped is still a tail of the whole. */
  lemma TailDespiteLoss(whole: Text, snapshot: Text, lost: Text, later: Text)
    requires EndsWith(whole, snapshot + lost + later)
    ensures EndsWith(whole, snapshot + later) <==> EndsWith(snapshot + lost, snapshot)
    ensures forall t | EndsWith(later, t) :: EndsWith(whole, t)
  {
    var all := snapshot + lost + later;
    var n, k := |whole|, |later|;
    assert whole[n - |all|..] == all;
    assert all[|all| - k..] == later && whole[n - k..] == later;
    var part := whole[n - k - |snapshot|..n - k];
    assert part == (snapshot + lost)[|lost|..] by {
      assert part == all[|lost|..|all| - k];
    }
    assert whole[n - k - |snapshot|..] == part + later;
    assert part + later == snapshot + later <==> part == snapshot by {
      if part + later == snapshot + later {
        assert part == (part + later)[..|snapshot|] && snapshot == (snapshot + later)[..|snapshot|];
      }
    }
    forall t | EndsWith(later, t) ensures EndsWith(whole, t) {
      EndsWithTransitive(whole, later, t);
    }
  }

  /** The mirror theorem, for any reply that is the last to a request for the session. It comes
      somewhere in a batch, after and before any messages; then any events follow that do not
      end the subscription. What the socket carried is the snapshot, the output `lost` that
      shared the batch, and the later output. The mirror has been fed all of it if and only
      if nothing was lost; and it shows a tail of it if and only if, should it still hold the
      snapshot, the loss does not show in a text as long as the snapshot. */
  lemma MirrorIsStreamIff(cl: Client, before: seq<Inbound>, id: nat, s: SessionId, snapshot: Text, rest: seq<Inbound>, events: seq<ClientEvent>)
    requires Sound(cl) && Keeps(events, s)
    requires Answers(PendingAll(cl.pending, before), Inbound(Some(id), SubscribedFrame(s, snapshot)), s)
    requires Unanswered(PendingAll(cl.pending, before) - {id}, rest + MessagesOf(events), s)
    ensures var after := ClientRun(Receive(cl, before + [Inbound(Some(id), SubscribedFrame(s, snapshot))] + rest), events);
            var lost, chunks := BatchText(rest, s), OutputChunks(MessagesOf(events), s);
            var stream := snapshot + lost + TextOf(chunks);
            && s in after.local && Represents(after.local[s], Seed(snapshot) + chunks)
            && Fed(after, s) == Some(Seed(snapshot) + chunks)
            && (TextOf(Seed(snapshot) + chunks) == stream <==> lost == [])
            && (EndsWith(stream, Snapshot(after.local[s])) <==> !KeepsSnapshot(snapshot, chunks) || EndsWith(snapshot + lost, snapshot))
  {
    var reply := Inbound(Some(id), SubscribedFrame(s, snapshot));
    var batch := before + [reply] + rest;
    var first := Receive(cl, batch);
    var chunks := OutputChunks(MessagesOf(events), s);
    UnansweredParts(PendingAll(cl.pending, before) - {id}, rest, MessagesOf(events), PendingAll(cl.pending, batch), s);
    hide Sound, Fed, Receive, ClientRun, PendingAll, Replies, Keeps, Answers, Unanswered, NoneNew;
    hide OutputChunks, BatchText, MessagesOf, Seed, KeepsSnapshot, Snapshot, Represents;
    ReplyDecides(cl, before, reply, rest, s);
    ReceiveExact(cl, batch, s);
    KeptRun(first, events, s);
    var after := ClientRun(first, events);
    FedRepresents(after, s);
    StreamVerdict(after.local[s], snapshot, BatchText(rest, s), chunks);
  }

  lemma UnansweredParts(pending: map<nat, SessionId>, a: seq<Inbound>, b: seq<Inbound>, next: map<nat, SessionId>, s: SessionId)
    requires Unanswered(pending, a + b, s)
    ensures Unanswered(pending, a, s) && (NoneNew(pending, next, s) ==> Unanswered(next, b, s))
  {
    assert forall m | m in a || m in b :: m in a + b;
    assert NoneNew(pending, next, s) ==> forall m :: Answers(next, m, s) ==> Answers(pending, m, s);
  }

  lemma FedRepresents(cl: Client, s: SessionId)
    requires Sound(cl) && Fed(cl, s).Some?
    ensures s in cl.local && Represents(cl.local[s], Fed(cl, s).value)
  {
  }

  lemma StreamVerdict(buf: Buffer, snapshot: Text, lost: Text, chunks: seq<Chunk>)
    requires Represents(buf, Seed(snapshot) + chunks)
    ensures var stream := snapshot + lost + TextOf(chunks);
            && (TextOf(Seed(snapshot) + chunks) == stream <==> lost == [])
            && (EndsWith(stream, Snapshot(buf)) <==> !KeepsSnapshot(snapshot, chunks) || EndsWith(snapshot + lost, snapshot))
  {
    var later := TextOf(chunks);
    var stream := snapshot + lost + later;
    FlatMapAppend(ChunkText, Seed(snapshot), chunks);
    SeedText(snapshot);
    MirrorShows(buf, snapshot, chunks);
    hide Represents, Seed, FlatMap, Snapshot, KeepsSnapshot;
    assert EndsWith(stream, stream);
    TailDespiteLoss(stream, snapshot, lost, later);
    assert lost == [] ==> snapshot + lost == snapshot;
    assert |snapshot + lost + later| == |snapshot + later| + |lost|;
  }

  lemma {:induction false} RepliesAppend(pending: map<nat, SessionId>, a: seq<Inbound>, b: seq<Inbound>, s: SessionId)
    ensures Replies(pending, a + b, s) == Replies(pending, a, s) + Replies(PendingAll(pending, a), b, s)
    ensures PendingAll(pending, a + b) == PendingAll(PendingAll(pending, a), b)
    decreases |a|
  {
    hide ReplyText, PendingAfter;
    if a == [] {
      assert a + b == b;
    } else {
      var next := PendingAfter(pending, a[0]);
      assert (a + b)[0] == a[0] && (a + b)[1..] == a[1..] + b;
      RepliesAppend(next, a[1..], b, s);
      var r := ReplyText(pending, a[0], s);
      assert (r + Replies(next, a[1..], s)) + Replies(PendingAll(next, a[1..]), b, s)
          == r + (Replies(next, a[1..], s) + Replies(PendingAll(next, a[1..]), b, s));
    }
  }

  /** A reply that no other in its batch follows is the one that counts. */
  lemma ReplyDecides(cl: Client, before: seq<Inbound>, reply: Inbound, rest: seq<Inbound>, s: SessionId)
    requires Answers(PendingAll(cl.pending, before), reply, s)
    requires Unanswered(PendingAll(cl.pending, before) - {reply.id.value}, rest, s)
    ensures var replies := Replies(cl.pending, before + [reply] + rest, s);
            replies != [] && replies[|replies| - 1] == reply.frame.scrollback
    ensures NoneNew(PendingAll(cl.pending, before) - {reply.id.value}, PendingAll(cl.pending, before + [reply] + rest), s)
  {
    var p := PendingAll(cl.pending, before);
    RepliesAppend(cl.pending, before + [reply], rest, s);
    RepliesAppend(cl.pending, before, [reply], s);
    assert [reply][1..] == [];
    assert PendingAll(p, [reply]) == p - {reply.id.value};
    assert Replies(p, [reply], s) == [reply.frame.scrollback];
    UnansweredNoReplies(p - {reply.id.value}, rest, s);
  }

  lemma {:induction false} ContinueAllQueue(cl: Client, queue: seq<Answered>)
    ensures ContinueAll(cl, queue).queue == cl.queue
    decreases |queue|
  {
    if queue != [] {
      ContinueAllQueue(Continue(cl, queue[0]), queue[1..]);
    }
  }

  // ---- the class ----

  class SupervisorClient {
    var nextReqId: nat
    var pending: map<nat, SessionId>
    var sessionCache: set<SessionId>
    var subscribed: set<SessionId>
    var localScrollback: map<SessionId, Buffer>
    var queue: seq<Answered>
    var sent: seq<Outbound>
    ghost var history: map<SessionId, seq<Chunk>>

    ghost function Current(): Client
      reads this
    {
      Client(nextReqId, pending, sessionCache, subscribed, localScrollback, queue, sent, history)
    }

    ghost predicate Valid()
      reads this
    {
      Mirrors(Current())
    }

    constructor ()
      ensures Valid() && subscribed == {} && queue == []
    {
      nextReqId, pending, sessionCache, subscribed := 1, map[], {}, {};
      localScrollback, queue, sent, history := map[], [], [], map[];
    }

    method AppendLocalScrollback(s: SessionId, data: Text)
      requires Valid()
      modifies this`localScrollback, this`history
      ensures Valid() && Current() == AppendLocal(old(Current()), s, data)
    {
      hide Represents, Appended;
      AppendLocalKeepsMirrors(Current(), s, data);
      if s !in localScrollback { return; }
      var appended := AppendScrollback(localScrollback[s], data, history[s]);
      localScrollback := localScrollback[s := appended];
      history := history[s := history[s] + [MakeChunk(data)]];
    }

    method HandleMessage(m: Inbound)
      requires Valid()
      modifies this
      ensures Valid() && Current() == Handle(old(Current()), m)
    {
      hide Represents, AppendLocal;
      HandleKeepsMirrors(Current(), m);
      match m.frame {
        case SubscribedFrame(s, scrollback) =>
          sessionCache := sessionCache + {s};
          if m.id.Some? && m.id.value in pending {
            queue := queue + [Answered(pending[m.id.value], scrollback)];
            pending := pending - {m.id.value};
          }
        case OutputFrame(s, data) =>
          if s in subscribed {
            AppendLocalScrollback(s, data);
          }
        case RemovedFrame(s) =>
          sessionCache := sessionCache - {s};
          subscribed := subscribed - {s};
          localScrollback := localScrollback - {s};
          history := history - {s};
        case ErrorFrame(_) =>
          if m.id.Some? {
            pending := pending - {m.id.value};
          }
        case SessionsFrame(ids) => sessionCache := ids;
        case CreatedFrame(s) => sessionCache := sessionCache + {s};
        case HelloFrame =>
        case UnsubscribedFrame(_) =>
        case ExitFrame(_) =>
      }
    }

    /** The part of `ensureSubscribed` after its `await`. */
    method AfterAwait(a: Answered)
      requires Valid()
      modifies this
      ensures Valid() && Current() == Continue(old(Current()), a)
    {
      hide Represents, AppendLocal;
      ContinueKeepsMirrors(Current(), a);
      AddEmpty(localScrollback, history, a.sid);
      subscribed := subscribed + {a.sid};
      sessionCache := sessionCache + {a.sid};
      localScrollback := localScrollback[a.sid := EMPTY_BUFFER];
      history := history[a.sid := []];
      if a.scrollback != [] {
        AppendLocalScrollback(a.sid, a.scrollback);
      }
    }

    method OnSocketData(batch: seq<Inbound>)
      requires Valid() && queue == []
      modifies this
      ensures Valid() && queue == [] && Current() == Receive(old(Current()), batch)
    {
      hide Handle, Continue, AllRepresent;
      var i := 0;
      while i < |batch|
        invariant 0 <= i <= |batch| && Valid()
        invariant HandleAll(old(Current()), batch) == HandleAll(Current(), batch[i..])
      {
        HandleMessage(batch[i]);
        assert batch[i..][1..] == batch[i + 1..];
        i := i + 1;
      }
      assert batch[i..] == [];
      assert Current() == HandleAll(old(Current()), batch);
      var continuations := queue;
      queue := [];
      ghost var handled := Current();
      ContinueAllQueue(handled, continuations);
      i := 0;
      while i < |continuations|
        invariant 0 <= i <= |continuations| && Valid()
        invariant ContinueAll(handled, continuations) == ContinueAll(Current(), continuations[i..])
      {
        AfterAwait(continuations[i]);
        assert continuations[i..][1..] == continuations[i + 1..];
        i := i + 1;
      }
    }

    /** `ensureSubscribed` up to its `await`: a session already mirrored is served from the
        mirror, for any other a request goes out. `None` stands for the exception thrown when
        the session is not cached, and for waiting. */
    method EnsureSubscribed(s: SessionId) returns (served: Option<Text>)
      requires Valid()
      modifies this
      ensures Valid() && Current() == StartSubscribe(old(Current()), s)
      ensures served == if s in subscribed && s in sessionCache then Some(Snapshot(localScrollback[s])) else None
    {
      hide Represents;
      EventsKeepMirrors(Current(), [], s);
      if s in subscribed {
        return if s in sessionCache then Some(Snapshot(localScrollback[s])) else None;
      }
      pending := pending[nextReqId := s];
      sent := sent + [SubscribeRequest(nextReqId, s)];
      nextReqId := nextReqId + 1;
      return None;
    }

    /** The socket's `close`: nothing stays subscribed, mirrored or pending. */
    method OnSocketClose()
      requires Valid()
      modifies this
      ensures Valid() && Current() == Closed(old(Current()))
    {
      hide Represents;
      subscribed, localScrollback, pending, history := {}, map[], map[], map[];
    }

    method Unsubscribe(s: SessionId)
      requires Valid()
      modifies this
      ensures Valid() && Current() == Unsubscribed(old(Current()), s)
    {
      hide Represents;
      EventsKeepMirrors(Current(), [], s);
      if s !in subscribed { return; }
      subscribed := subscribed - {s};
      localScrollback := localScrollback - {s};
      history := history - {s};
      sent := sent + [UnsubscribeRequest(s)];
    }
  }
}
