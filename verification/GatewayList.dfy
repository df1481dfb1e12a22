/**
 The gateway's list of sessions against the supervisor's: what the frames of the pipe tell,
 what the client makes of them, the one race in which the two differ, and what the client asks.
 */
module GatewayList {
  import opened Wrappers
  import opened Sequences
  import opened Scrollback
  import opened SupervisorProtocol
  import opened SupervisorLifecycle
  import opened SupervisorClient

  // ---- what the supervisor writes ----

  /** A subscribed frame names a session that the frames before it tell of. */
  ghost predicate NamesListed(frames: seq<Frame>) {
    forall k | 0 <= k < |frames| && frames[k].SubscribedFrame? :: frames[k].sid in Told(frames[..k])
  }

  lemma NamesAppend(frames: seq<Frame>, more: seq<Frame>)
    requires NamesListed(frames)
    requires (forall f | f in more :: !f.SubscribedFrame?) || (|more| == 1 && more[0].SubscribedFrame? && more[0].sid in Told(frames))
    ensures NamesListed(frames + more)
  {
    var all := frames + more;
    forall k | 0 <= k < |all| && all[k].SubscribedFrame? ensures all[k].sid in Told(all[..k]) {
      if k < |frames| {
        assert all[..k] == frames[..k];
      } else {
        assert all[k] == more[k - |frames|] && all[k] in more;
        assert all[..k] == frames;
      }
    }
  }

  ghost predicate AllName(st: State) {
    forall c :: NamesListed(OnWire(st, c))
  }

  lemma StepNames(st: State, e: Event, c: ConnId)
    requires Inv(st) && AllTold(st) && NamesListed(OnWire(st, c))
    ensures NamesListed(OnWire(Step(st, e), c))
  {
    StepWires(st, e, c);
    FramesName(st, e, c);
    hide *;
    NamesAppend(OnWire(st, c), Frames(st, e, c));
  }

  lemma FramesName(st: State, e: Event, c: ConnId)
    requires AllTold(st)
    ensures var more := Frames(st, e, c);
            (forall f | f in more :: !f.SubscribedFrame?)
            || (|more| == 1 && more[0].SubscribedFrame? && more[0].sid in Told(OnWire(st, c)))
  {
    hide OnWire, Told, SnapshotOf, SubscribersOf;
  }

  /** On every wire of every run, a reply to a subscribe names a session told of before. */
  lemma {:induction false} RunNames(st: State, events: seq<Event>)
    requires Inv(st) && AllTold(st) && AllName(st)
    ensures AllName(Run(st, events))
    decreases |events|
  {
    hide Step, Inv, AllTold, NamesListed, OnWire;
    if events != [] {
      StepKeepsInv(st, events[0]);
      StepTells(st, events[0]);
      forall c ensures NamesListed(OnWire(Step(st, events[0]), c)) { StepNames(st, events[0], c); }
      RunNames(Step(st, events[0]), events[1..]);
    }
  }

  // ---- what the client makes of it ----

  function FramesOf(messages: seq<Inbound>): seq<Frame> {
    if messages == [] then [] else [messages[0].frame] + FramesOf(messages[1..])
  }

  /** The cache after one frame: as told, and a subscribed frame lists its session too. */
  function CacheBy(cache: set<SessionId>, f: Frame): set<SessionId> {
    if f.SubscribedFrame? then cache + {f.sid} else ToldBy(cache, f)
  }

  function CacheAll(cache: set<SessionId>, frames: seq<Frame>): set<SessionId>
    decreases |frames|
  {
    if frames == [] then cache else CacheAll(CacheBy(cache, frames[0]), frames[1..])
  }

  lemma HandleCaches(cl: Client, m: Inbound)
    ensures Handle(cl, m).cache == CacheBy(cl.cache, m.frame)
  {
    hide Appended;
  }

  lemma {:induction false} HandleAllCaches(cl: Client, batch: seq<Inbound>)
    ensures HandleAll(cl, batch).cache == CacheAll(cl.cache, FramesOf(batch))
    decreases |batch|
  {
    hide Handle, CacheBy;
    if batch != [] {
      HandleCaches(cl, batch[0]);
      HandleAllCaches(Handle(cl, batch[0]), batch[1..]);
      var frames := FramesOf(batch);
      assert frames[0] == batch[0].frame && frames[1..] == FramesOf(batch[1..]);
    }
  }

  lemma {:induction false} ContinueAllCachesOne(cl: Client, queue: seq<Answered>, s: SessionId)
    ensures s in ContinueAll(cl, queue).cache <==> s in cl.cache || QueuedFor(queue, s) != []
    decreases |queue|
  {
    if queue != [] {
      var a, next := queue[0], Continue(cl, queue[0]);
      assert next.cache == cl.cache + {a.sid} by { hide Appended; }
      assert QueuedFor(queue, s) == EntryText(s)(a) + QueuedFor(queue[1..], s);
      hide Continue, QueuedFor;
      ContinueAllCachesOne(next, queue[1..], s);
    }
  }

  /** A batch lists what its frames list, and every session for which it answers a request. */
  lemma ReceiveCaches(cl: Client, batch: seq<Inbound>, s: SessionId)
    requires Sound(cl)
    ensures s in Receive(cl, batch).cache <==> s in CacheAll(cl.cache, FramesOf(batch)) || SomeReply(cl.pending, batch, s)
  {
    HandleAllFed(cl, batch, s);
    HandleAllCaches(cl, batch);
    RepliesIff(cl.pending, batch, s);
    var handled := HandleAll(cl, batch);
    ContinueAllCachesOne(handled.(queue := []), handled.queue, s);
    assert QueuedFor([], s) == [];
    hide QueuedFor, HandleAll, ContinueAll, CacheAll, SomeReply, FedBy, Fed, Mirrors;
  }

  lemma {:induction false} CacheIsTold(before: seq<Frame>, frames: seq<Frame>)
    requires NamesListed(before + frames)
    ensures CacheAll(Told(before), frames) == Told(before + frames)
    decreases |frames|
  {
    if frames == [] {
      assert before + frames == before;
    } else {
      var f, rest, all := frames[0], frames[1..], before + frames;
      assert all[|before|] == f && all[..|before|] == before;
      assert (before + [f]) + rest == all;
      ToldOne(before, f);
      assert CacheBy(Told(before), f) == Told(before + [f]);
      hide Told, NamesListed;
      CacheIsTold(before + [f], rest);
    }
  }

  lemma {:induction false} FramesAppend(a: seq<Inbound>, b: seq<Inbound>)
    ensures FramesOf(a + b) == FramesOf(a) + FramesOf(b)
  {
    if a == [] {
      assert a + b == b;
    } else {
      assert (a + b)[0] == a[0] && (a + b)[1..] == a[1..] + b;
      FramesAppend(a[1..], b);
    }
  }

  /** No batch answers a request for a session that is gone when the batch ends. */
  ghost predicate Timely(pending: map<nat, SessionId>, before: seq<Frame>, batch: seq<Inbound>) {
    forall s | SomeReply(pending, batch, s) :: s in Told(before + FramesOf(batch))
  }

  /** Exactly when the list is right after a batch, given that it was right before. */
  lemma ListRightIff(cl: Client, before: seq<Frame>, batch: seq<Inbound>)
    requires Sound(cl) && cl.cache == Told(before) && NamesListed(before + FramesOf(batch))
    ensures Receive(cl, batch).cache == Told(before + FramesOf(batch)) <==> Timely(cl.pending, before, batch)
  {
    CacheIsTold(before, FramesOf(batch));
    forall s ensures s in Receive(cl, batch).cache <==>
                     s in CacheAll(cl.cache, FramesOf(batch)) || SomeReply(cl.pending, batch, s)
    {
      ReceiveCaches(cl, batch, s);
    }
    hide Sound, Receive, CacheAll, Told, SomeReply, FramesOf, NamesListed;
  }

  /** Every batch of the run is timely. */
  ghost predicate AllTimely(cl: Client, before: seq<Frame>, events: seq<ClientEvent>)
    decreases |events|
  {
    events == [] ||
    (Timely(cl.pending, before, LinesOfEvent(events[0]))
     && AllTimely(ClientStep(cl, events[0]), before + FramesOf(LinesOfEvent(events[0])), events[1..]))
  }

  lemma CallsKeepCache(cl: Client, e: ClientEvent)
    requires !e.Batch?
    ensures ClientStep(cl, e).cache == cl.cache
  {
  }

  lemma NamesPrefix(frames: seq<Frame>, rest: seq<Frame>)
    requires NamesListed(frames + rest)
    ensures NamesListed(frames)
  {
    forall k | 0 <= k < |frames| && frames[k].SubscribedFrame? ensures frames[k].sid in Told(frames[..k]) {
      assert (frames + rest)[k] == frames[k] && (frames + rest)[..k] == frames[..k];
    }
  }

  lemma {:induction false} ListRun(cl: Client, before: seq<Frame>, events: seq<ClientEvent>)
    requires Sound(cl) && cl.cache == Told(before) && NamesListed(before + FramesOf(MessagesOf(events)))
    requires AllTimely(cl, before, events)
    ensures ClientRun(cl, events).cache == Told(before + FramesOf(MessagesOf(events)))
    decreases |events|
  {
    hide ClientStep, Sound, Timely, Told, NamesListed;
    if events == [] {
      assert before + FramesOf(MessagesOf(events)) == before;
    } else {
      var e, rest := events[0], events[1..];
      var lines, later := LinesOfEvent(e), MessagesOf(rest);
      assert MessagesOf(events) == lines + later;
      FramesAppend(lines, later);
      Associative(before, FramesOf(lines), FramesOf(later));
      NamesPrefix(before + FramesOf(lines), FramesOf(later));
      StepSound(cl, e);
      if e.Batch? {
        ListRightIff(cl, before, lines);
        BatchStep(cl, lines);
      } else {
        CallsKeepCache(cl, e);
        assert before + FramesOf(lines) == before;
      }
      hide MessagesOf, FramesOf, LinesOfEvent;
      ListRun(ClientStep(cl, e), before + FramesOf(lines), rest);
    }
  }

  lemma BatchStep(cl: Client, lines: seq<Inbound>)
    ensures ClientStep(cl, Batch(lines)) == Receive(cl, lines)
  {
  }

  /** The list theorem. A supervisor runs; a gateway's client reads what was written to its
      connection, in any batches, between any calls of its own. If every batch is timely, the list
      the client holds is exactly the set of live sessions. */
  lemma GatewayListsSessions(events: seq<Event>, c: ConnId, cl: Client, heard: seq<ClientEvent>)
    requires Open(Run(INITIAL, events), c) && c in Authenticated(Run(INITIAL, events))
    requires Sound(cl) && cl.cache == {} && AllTimely(cl, [], heard)
    requires FramesOf(MessagesOf(heard)) == OnWire(Run(INITIAL, events), c)
    ensures ClientRun(cl, heard).cache == Run(INITIAL, events).sessions.Keys
  {
    GatewaysKnowSessions(events, c);
    assert AllName(INITIAL) && AllTold(INITIAL) && Inv(INITIAL);
    RunNames(INITIAL, events);
    var frames := FramesOf(MessagesOf(heard));
    assert [] + frames == frames && Told([]) == {};
    assert Told(frames) == Run(INITIAL, events).sessions.Keys;
    assert NamesListed(frames);
    hide Told, NamesListed, AllTimely, Sound, Run, ClientRun, FramesOf, MessagesOf;
    ListRun(cl, [], heard);
  }

  // ---- what the client asks ----

  /** Request ids are used once, in ascending order, and an open request was sent for its session. */
  ghost predicate Asked(cl: Client) {
    && (forall o | o in cl.sent && o.SubscribeRequest? :: o.id < cl.nextReqId)
    && (forall i, j | 0 <= i < j < |cl.sent| && cl.sent[i].SubscribeRequest? && cl.sent[j].SubscribeRequest? ::
          cl.sent[i].id < cl.sent[j].id)
    && (forall id | id in cl.pending :: SubscribeRequest(id, cl.pending[id]) in cl.sent)
  }

  lemma ContinueAsksNothing(cl: Client, a: Answered)
    ensures var next := Continue(cl, a);
            next.sent == cl.sent && next.nextReqId == cl.nextReqId && next.pending == cl.pending
  {
    hide Appended;
  }

  lemma {:induction false} ContinueAllAsksNothing(cl: Client, queue: seq<Answered>)
    ensures var next := ContinueAll(cl, queue);
            next.sent == cl.sent && next.nextReqId == cl.nextReqId && next.pending == cl.pending
    decreases |queue|
  {
    hide Continue;
    if queue != [] {
      ContinueAsksNothing(cl, queue[0]);
      ContinueAllAsksNothing(Continue(cl, queue[0]), queue[1..]);
    }
  }

  lemma HandleAsksNothing(cl: Client, m: Inbound)
    ensures var next := Handle(cl, m);
            && next.sent == cl.sent && next.nextReqId == cl.nextReqId
            && forall id | id in next.pending :: id in cl.pending && next.pending[id] == cl.pending[id]
  {
    hide Appended;
  }

  lemma {:induction false} HandleAllAsksNothing(cl: Client, batch: seq<Inbound>)
    ensures var next := HandleAll(cl, batch);
            && next.sent == cl.sent && next.nextReqId == cl.nextReqId
            && forall id | id in next.pending :: id in cl.pending && next.pending[id] == cl.pending[id]
    decreases |batch|
  {
    hide Handle;
    if batch != [] {
      HandleAsksNothing(cl, batch[0]);
      HandleAllAsksNothing(Handle(cl, batch[0]), batch[1..]);
    }
  }

  lemma ReceiveAsksNothing(cl: Client, batch: seq<Inbound>)
    ensures var next := Receive(cl, batch);
            && next.sent == cl.sent && next.nextReqId == cl.nextReqId
            && forall id | id in next.pending :: id in cl.pending && next.pending[id] == cl.pending[id]
  {
    HandleAllAsksNothing(cl, batch);
    var handled := HandleAll(cl, batch);
    ContinueAllAsksNothing(handled.(queue := []), handled.queue);
    hide HandleAll, ContinueAll;
  }

  /** What each event sends: a call for a session without a mirror sends one request, under an id
      never used before; giving up a mirrored session sends one unsubscribe; nothing else sends. */
  lemma SendsExactly(cl: Client, e: ClientEvent)
    requires Sound(cl) && Asked(cl)
    ensures var next := ClientStep(cl, e);
            && Asked(next)
            && match e
               case Ensure(s) =>
                 if s in cl.local then next.sent == cl.sent
                 else exists id: nat ::
                   && next.sent == cl.sent + [SubscribeRequest(id, s)] && id in next.pending && next.pending[id] == s
                   && forall o | o in cl.sent :: !(o.SubscribeRequest? && o.id == id)
               case Drop(s) => next.sent == cl.sent + if s in cl.local then [UnsubscribeRequest(s)] else []
               case _ => next.sent == cl.sent
  {
    hide AllRepresent, Receive;
    match e {
      case Batch(lines) => ReceiveAsksNothing(cl, lines);
      case Ensure(s) =>
        var next := ClientStep(cl, e);
        if s !in cl.local {
          assert next.sent == cl.sent + [SubscribeRequest(cl.nextReqId, s)];
          assert forall id | id in cl.pending :: SubscribeRequest(id, cl.pending[id]) in next.sent;
          assert SubscribeRequest(cl.nextReqId, s) in next.sent;
        }
      case Drop(s) =>
        assert cl.sent + [] == cl.sent;
        assert forall o | o in cl.sent :: o in cl.sent + [UnsubscribeRequest(s)];
      case PipeClosed =>
    }
  }

  /** So over every run an answer belongs to one request, sent for the session it seeds. */
  lemma {:induction false} RunAsks(cl: Client, events: seq<ClientEvent>)
    requires Sound(cl) && Asked(cl)
    ensures Asked(ClientRun(cl, events))
    decreases |events|
  {
    if events != [] {
      StepSound(cl, events[0]);
      SendsExactly(cl, events[0]);
      hide ClientStep, Sound, Asked;
      RunAsks(ClientStep(cl, events[0]), events[1..]);
    }
  }
}
