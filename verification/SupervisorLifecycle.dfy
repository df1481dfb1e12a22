/**
 The life of a session on the wires of the supervisor, over whole runs: an exit is told once
 and makes the removal happen, the removal is told to every gateway and leaves nothing, and
 what a gateway has been told is always the set of live sessions.
 */
module SupervisorLifecycle {
  import opened Sequences
  import opened Scrollback
  import opened SupervisorProtocol

  /** What has been written to a connection, which may not exist yet. */
  function OnWire(st: State, c: ConnId): seq<Frame> {
    if c in st.wire then st.wire[c] else []
  }

  function Count(frames: seq<Frame>, f: Frame): nat {
    multiset(frames)[f]
  }

  lemma CountJoin(a: seq<Frame>, b: seq<Frame>, f: Frame)
    ensures Count(a + b, f) == Count(a, f) + Count(b, f)
  {
    assert multiset(a + b) == multiset(a) + multiset(b);
  }

  /** A frame that is not in the list, or is the whole of it. */
  lemma CountSmall(frames: seq<Frame>, f: Frame)
    ensures (forall g | g in frames :: g != f) ==> Count(frames, f) == 0
    ensures frames == [f] ==> Count(frames, f) == 1
  {
    assert f in multiset(frames) <==> f in frames;
  }

  lemma RunAppend(st: State, a: seq<Event>, b: seq<Event>)
    ensures Run(st, a + b) == Run(Run(st, a), b)
    decreases |a|
  {
    hide Step;
    if a == [] {
      assert a + b == b;
    } else {
      assert (a + b)[0] == a[0] && (a + b)[1..] == a[1..] + b;
      RunAppend(Step(st, a[0]), a[1..], b);
    }
  }

  // ---- every wire, also of connections still to come ----

  lemma WriteWires(st: State, targets: set<ConnId>, f: Frame, congested: set<ConnId>)
    ensures Write(st, targets, f, congested).wire.Keys == st.wire.Keys
  {
  }

  lemma ServeWires(st: State, d: ConnId, r: Request, congested: set<ConnId>)
    requires d in st.conns
    ensures Serve(st, d, r, congested).wire.Keys == st.wire.Keys
  {
  }

  lemma GreetWires(st: State, d: ConnId, congested: set<ConnId>)
    requires d in st.conns
    ensures Greet(st, d, congested).wire.Keys == st.wire.Keys
  {
  }

  /** A connection first gets a wire when it connects, an empty one. */
  lemma NewWire(st: State, e: Event, c: ConnId)
    requires c !in st.wire
    ensures OnWire(Step(st, e), c) == []
  {
    hide Serve, Greet, Write;
    match e.action {
      case Hello(d, _) =>
        WriteWires(st, {d}, ErrorFrame(Unauthorized), e.congested);
        if d in st.conns { GreetWires(st, d, e.congested); }
      case Ask(d, r) =>
        WriteWires(st, {d}, ErrorFrame(Unauthorized), e.congested);
        if d in st.conns { ServeWires(st, d, r, e.congested); }
      case BadLine(d, code) => WriteWires(st, {d}, ErrorFrame(code), e.congested);
      case Data(s, data) => WriteWires(Keep(st, s, data), SubscribersOf(st, s), OutputFrame(s, data), e.congested);
      case Exit(s) => WriteWires(st, SubscribersOf(st, s), ExitFrame(s), {});
      case Removed(s) => WriteWires(Forget(st, s), Authenticated(st), RemovedFrame(s), e.congested);
      case _ =>
    }
  }

  lemma StepWires(st: State, e: Event, c: ConnId)
    requires Inv(st)
    ensures OnWire(Step(st, e), c) == OnWire(st, c) + Frames(st, e, c)
  {
    if !Open(st, c) { ClosedFrames(st, e, c); }
    assert OnWire(st, c) + [] == OnWire(st, c);
    if c !in st.wire {
      assert c !in st.conns;
      NewWire(st, e, c);
    } else if Open(st, c) {
      StepAppends(st, e, c);
    } else {
      ClosedStep(st, e, c);
    }
    hide Step, Frames, Inv;
  }

  // ---- one step of a session's life ----

  predicate Live(st: State, s: SessionId) {
    s in st.sessions
  }

  predicate Exited(st: State, s: SessionId) {
    s in st.sessions && st.sessions[s]
  }

  lemma ServeLife(st: State, d: ConnId, r: Request, congested: set<ConnId>, s: SessionId)
    requires d in st.conns && Live(st, s)
    ensures var next := Serve(st, d, r, congested);
            Live(next, s) && next.sessions[s] == st.sessions[s]
  {
    hide Written;
  }

  /** Exits are remembered, and only an exited session is removed. */
  lemma StepLife(st: State, e: Event, s: SessionId)
    requires Live(st, s)
    ensures Live(Step(st, e), s) <==> !(e.action == Removed(s) && Exited(st, s))
    ensures Live(Step(st, e), s) ==> (Exited(Step(st, e), s) <==> Exited(st, s) || e.action == Exit(s))
  {
    hide Serve, Written;
    if e.action.Ask? && e.action.conn in st.conns {
      ServeLife(st, e.action.conn, e.action.request, e.congested, s);
    }
  }

  lemma {:induction false} RunExited(st: State, events: seq<Event>, s: SessionId)
    requires Live(st, s) && (Exited(st, s) ==> forall e | e in events :: e.action != Removed(s))
    requires !Exited(st, s) ==> forall e | e in events :: e.action != Exit(s)
    ensures Live(Run(st, events), s) && (Exited(Run(st, events), s) <==> Exited(st, s))
    decreases |events|
  {
    hide Step, Live, Exited;
    if events != [] {
      StepLife(st, events[0], s);
      assert events[0] in events;
      ExitedIsLive(Step(st, events[0]), s);
      RunExited(Step(st, events[0]), events[1..], s);
    }
  }

  lemma ExitedIsLive(st: State, s: SessionId)
    ensures Exited(st, s) ==> Live(st, s)
  {
  }

  // ---- the two announcements, counted ----

  lemma FrameCounts(st: State, e: Event, c: ConnId, s: SessionId)
    ensures Count(Frames(st, e, c), RemovedFrame(s)) ==
            if e.action == Removed(s) && Exited(st, s) && Open(st, c) && st.conns[c].authenticated then 1 else 0
    ensures Count(Frames(st, e, c), ExitFrame(s)) ==
            if e.action == Exit(s) && Live(st, s) && !Exited(st, s) && Open(st, c) && c in SubscribersOf(st, s) then 1 else 0
  {
    CountSmall(Frames(st, e, c), RemovedFrame(s));
    CountSmall(Frames(st, e, c), ExitFrame(s));
    hide Count;
  }

  /** While a session neither exits nor is removed, no wire tells that it did; once it has
      exited, no wire tells so again. */
  lemma {:induction false} RunTellsNothing(st: State, events: seq<Event>, c: ConnId, s: SessionId)
    requires Inv(st) && Live(st, s) && (Exited(st, s) ==> forall e | e in events :: e.action != Removed(s))
    requires !Exited(st, s) ==> forall e | e in events :: e.action != Exit(s)
    ensures Count(OnWire(Run(st, events), c), RemovedFrame(s)) == Count(OnWire(st, c), RemovedFrame(s))
    ensures Count(OnWire(Run(st, events), c), ExitFrame(s)) == Count(OnWire(st, c), ExitFrame(s))
    decreases |events|
  {
    hide Step, Live, Exited, Frames, OnWire, Count, Inv, Open, SubscribersOf;
    if events != [] {
      var e := events[0];
      assert e in events;
      StepKeepsInv(st, e);
      StepLife(st, e, s);
      ExitedIsLive(Step(st, e), s);
      CountStep(st, e, c, s);
      RunTellsNothing(Step(st, e), events[1..], c, s);
    }
  }

  /** What one step adds to the counts on a wire. */
  lemma CountStep(st: State, e: Event, c: ConnId, s: SessionId)
    requires Inv(st)
    ensures Count(OnWire(Step(st, e), c), RemovedFrame(s)) == Count(OnWire(st, c), RemovedFrame(s)) +
            if e.action == Removed(s) && Exited(st, s) && Open(st, c) && st.conns[c].authenticated then 1 else 0
    ensures Count(OnWire(Step(st, e), c), ExitFrame(s)) == Count(OnWire(st, c), ExitFrame(s)) +
            if e.action == Exit(s) && Live(st, s) && !Exited(st, s) && Open(st, c) && c in SubscribersOf(st, s) then 1 else 0
  {
    StepWires(st, e, c);
    CountJoin(OnWire(st, c), Frames(st, e, c), RemovedFrame(s));
    CountJoin(OnWire(st, c), Frames(st, e, c), ExitFrame(s));
    FrameCounts(st, e, c, s);
    hide *;
  }

  /** A session's end. Let a live session run until it exits for the first time, and then until
      the first removal after that. The exit is remembered, and one more exit frame is on the wires
      of its open subscribers alone; the removal leaves nothing of the session, and one more
      removed frame is on the wires of the open authenticated connections alone. Whatever else
      happens before, between, in whatever order, adds no such frame and undoes nothing. */
  lemma ExitThenRemoval(st: State, before: seq<Event>, exit: Event, between: seq<Event>, removal: Event, c: ConnId, s: SessionId)
    requires Inv(st) && Live(st, s) && !Exited(st, s)
    requires exit.action == Exit(s) && forall e | e in before :: e.action != Exit(s)
    requires removal.action == Removed(s) && forall e | e in between :: e.action != Removed(s)
    ensures var atExit := Run(st, before);
            var atRemoval := Run(Step(atExit, exit), between);
            var end := Run(st, before + [exit] + between + [removal]);
            && s in atExit.sessions && !atExit.sessions[s] && s in atRemoval.sessions && atRemoval.sessions[s]
            && s !in end.sessions && s !in end.subscribers && s !in end.scrollback && s !in end.produced
            && Count(OnWire(end, c), ExitFrame(s)) == Count(OnWire(st, c), ExitFrame(s)) +
                 (if Open(atExit, c) && s in atExit.subscribers && c in atExit.subscribers[s] then 1 else 0)
            && Count(OnWire(end, c), RemovedFrame(s)) == Count(OnWire(st, c), RemovedFrame(s)) +
                 (if Open(atRemoval, c) && atRemoval.conns[c].authenticated then 1 else 0)
  {
    var atExit := Run(st, before);
    var told := Step(atExit, exit);
    var atRemoval := Run(told, between);
    RunKeepsInv(st, before);
    RunExited(st, before, s);
    RunTellsNothing(st, before, c, s);
    StepLife(atExit, exit, s);
    StepKeepsInv(atExit, exit);
    CountStep(atExit, exit, c, s);
    RunKeepsInv(told, between);
    ExitedIsLive(told, s);
    RunExited(told, between, s);
    RunTellsNothing(told, between, c, s);
    CountStep(atRemoval, removal, c, s);
    RemovalLeavesNothing(atRemoval, removal, s);
    LifeRun(st, before, exit, between, removal);
    assert SubscribersOf(atExit, s) == if s in atExit.subscribers then atExit.subscribers[s] else {};
    hide Inv, Open, OnWire, Count, Run, Step, SubscribersOf;
  }

  lemma LifeRun(st: State, before: seq<Event>, exit: Event, between: seq<Event>, removal: Event)
    ensures Run(st, before + [exit] + between + [removal]) == Step(Run(Step(Run(st, before), exit), between), removal)
  {
    RunAppend(st, before + [exit] + between, [removal]);
    RunAppend(st, before + [exit], between);
    RunAppend(st, before, [exit]);
    hide Step;
    RunOne(Run(st, before), exit);
    RunOne(Run(st, before + [exit] + between), removal);
  }

  lemma RunOne(st: State, e: Event)
    ensures Run(st, [e]) == Step(st, e)
  {
    hide Step;
    assert [e][1..] == [];
    assert Run(Step(st, e), []) == Step(st, e);
  }

  lemma RemovalLeavesNothing(st: State, e: Event, s: SessionId)
    requires Inv(st) && Exited(st, s) && e.action == Removed(s)
    ensures var end := Step(st, e);
            s !in end.sessions && s !in end.subscribers && s !in end.scrollback && s !in end.produced
  {
    hide Inv;
  }

  /** How often a run creates the session. */
  function Births(st: State, events: seq<Event>, s: SessionId): nat
    decreases |events|
  {
    if events == [] then 0
    else
      var next := Step(st, events[0]);
      (if !Live(st, s) && Live(next, s) then 1 else 0) + Births(next, events[1..], s)
  }

  /** An exit still to be told. */
  function Pending(st: State, s: SessionId): nat {
    if Live(st, s) && !Exited(st, s) then 1 else 0
  }

  /** A wire tells at most one exit for each life of a session, over any run. */
  lemma {:induction false} OneExitPerLife(st: State, events: seq<Event>, c: ConnId, s: SessionId)
    requires Inv(st)
    ensures Count(OnWire(Run(st, events), c), ExitFrame(s)) + Pending(Run(st, events), s)
         <= Count(OnWire(st, c), ExitFrame(s)) + Pending(st, s) + Births(st, events, s)
    decreases |events|
  {
    hide Step, Live, Exited, OnWire, Count, Inv, Open, SubscribersOf;
    if events != [] {
      var e, next := events[0], Step(st, events[0]);
      StepKeepsInv(st, e);
      CountStep(st, e, c, s);
      if Live(st, s) { StepLife(st, e, s); }
      ExitedIsLive(st, s);
      ExitedIsLive(next, s);
      OneExitPerLife(next, events[1..], c, s);
    }
  }

  // ---- what a gateway knows ----

  /** The live sessions as a reader of the frames would count them. */
  function Told(frames: seq<Frame>): set<SessionId> {
    if frames == [] then {} else ToldBy(Told(frames[..|frames| - 1]), frames[|frames| - 1])
  }

  function ToldBy(known: set<SessionId>, f: Frame): set<SessionId> {
    match f
    case SessionsFrame(ids) => ids
    case CreatedFrame(s) => known + {s}
    case RemovedFrame(s) => known - {s}
    case _ => known
  }

  lemma ToldOne(frames: seq<Frame>, f: Frame)
    ensures Told(frames + [f]) == ToldBy(Told(frames), f)
  {
    assert (frames + [f])[..|frames|] == frames;
  }

  /** What two frames at most make of it. */
  function Through(known: set<SessionId>, more: seq<Frame>): set<SessionId> {
    if more == [] then known
    else if |more| == 1 then ToldBy(known, more[0])
    else ToldBy(ToldBy(known, more[0]), more[1])
  }

  lemma ToldFew(frames: seq<Frame>, more: seq<Frame>)
    requires |more| <= 2
    ensures Told(frames + more) ==
            Through(Told(frames), more)
  {
    hide Told, ToldBy;
    if more == [] {
      assert frames + more == frames;
    } else if |more| == 1 {
      assert frames + more == frames + [more[0]];
      ToldOne(frames, more[0]);
    } else {
      assert frames + more == frames + [more[0]] + [more[1]];
      ToldOne(frames, more[0]);
      ToldOne(frames + [more[0]], more[1]);
    }
  }

  /** Every open authenticated connection has been told exactly the live sessions. */
  ghost predicate AllTold(st: State) {
    forall c | Open(st, c) && c in Authenticated(st) :: Told(OnWire(st, c)) == st.sessions.Keys
  }

  /** The sessions that come and go in a step. */
  function KeysAfter(st: State, e: Event): set<SessionId> {
    match e.action
    case Removed(s) => if Exited(st, s) then st.sessions.Keys - {s} else st.sessions.Keys
    case Ask(d, Create(s, true)) =>
      if d in st.conns && st.conns[d].authenticated then st.sessions.Keys + {s} else st.sessions.Keys
    case _ => st.sessions.Keys
  }

  lemma ServeKeys(st: State, d: ConnId, r: Request, congested: set<ConnId>)
    requires d in st.conns
    ensures Serve(st, d, r, congested).sessions.Keys ==
            if r.Create? && r.spawned then st.sessions.Keys + {r.newId} else st.sessions.Keys
  {
    hide Written;
  }

  lemma StepKeys(st: State, e: Event)
    ensures Step(st, e).sessions.Keys == KeysAfter(st, e)
  {
    hide Serve, Written;
    if e.action.Ask? && e.action.conn in st.conns {
      ServeKeys(st, e.action.conn, e.action.request, e.congested);
    }
  }

  lemma ServeOpen(st: State, d: ConnId, r: Request, congested: set<ConnId>, c: ConnId)
    requires d in st.conns && c in Serve(st, d, r, congested).conns && c !in Serve(st, d, r, congested).destroyed
    ensures Open(st, c) && Serve(st, d, r, congested).conns[c].authenticated == st.conns[c].authenticated
    ensures r.Create? && r.newId !in st.sessions && r.spawned && st.conns[c].authenticated ==> c !in congested
  {
    hide Written;
  }

  lemma WriteOpen(st: State, targets: set<ConnId>, f: Frame, congested: set<ConnId>, c: ConnId)
    ensures var next := Write(st, targets, f, congested);
            next.conns == st.conns && (Open(next, c) ==> Open(st, c) && !(c in targets && c in congested))
  {
  }

  lemma GreetOpen(st: State, d: ConnId, congested: set<ConnId>, c: ConnId)
    requires d in st.conns
    ensures var next := Greet(st, d, congested);
            && next.conns == st.conns[d := st.conns[d].(authenticated := true)]
            && (Open(next, c) ==> Open(st, c) && !(c == d && c in congested))
  {
    var known := st.(conns := st.conns[d := st.conns[d].(authenticated := true)]);
    WriteOpen(known, {d}, HelloFrame, congested, c);
    WriteOpen(Write(known, {d}, HelloFrame, congested), {d}, SessionsFrame(st.sessions.Keys), congested, c);
    hide Write;
  }

  /** A connection that is open and authenticated was so before, or has just said an accepted hello. */
  lemma StepAuthenticates(st: State, e: Event, c: ConnId)
    requires Open(Step(st, e), c) && c in Authenticated(Step(st, e))
    ensures Open(st, c)
    ensures if e.action == Hello(c, true) then c !in e.congested else c in Authenticated(st)
  {
    match e.action {
      case Hello(d, accepted) =>
        if d in st.conns {
          GreetOpen(st, d, e.congested, c);
          WriteOpen(st, {d}, ErrorFrame(Unauthorized), e.congested, c);
          hide Write, Greet;
        }
      case Ask(d, r) =>
        WriteOpen(st, {d}, ErrorFrame(Unauthorized), e.congested, c);
        hide Serve, Write;
        if d in st.conns && st.conns[d].authenticated { ServeOpen(st, d, r, e.congested, c); }
      case BadLine(d, code) => WriteOpen(st, {d}, ErrorFrame(code), e.congested, c); hide Write;
      case Data(s, data) => WriteOpen(Keep(st, s, data), SubscribersOf(st, s), OutputFrame(s, data), e.congested, c); hide Write;
      case Exit(s) => WriteOpen(st, SubscribersOf(st, s), ExitFrame(s), {}, c); hide Write;
      case Removed(s) => WriteOpen(Forget(st, s), Authenticated(st), RemovedFrame(s), e.congested, c); hide Write;
      case _ =>
    }
  }

  /** The replies to a request, applied to what is known. */
  lemma RepliesTell(st: State, d: ConnId, r: Request, congested: set<ConnId>, c: ConnId)
    requires c in st.conns && st.conns[c].authenticated
    ensures |Replies(st, d, r, congested, c)| <= 2
    ensures Through(st.sessions.Keys, Replies(st, d, r, congested, c)) ==
            if r.Create? && r.spawned then st.sessions.Keys + {r.newId} else st.sessions.Keys
  {
    hide SnapshotOf;
  }

  /** What the frames of a step tell of the sessions. */
  lemma FramesThrough(st: State, e: Event, c: ConnId)
    requires Open(st, c) && c in Authenticated(st) && e.action != Hello(c, true)
    ensures |Frames(st, e, c)| <= 2
    ensures Through(st.sessions.Keys, Frames(st, e, c)) == KeysAfter(st, e)
  {
    if e.action.Ask? && e.action.conn in st.conns && st.conns[e.action.conn].authenticated {
      RepliesTell(st, e.action.conn, e.action.request, e.congested, c);
    }
    hide Replies, SubscribersOf;
  }

  lemma FramesTell(st: State, e: Event, c: ConnId)
    requires Open(st, c) && c in Authenticated(st) && Told(OnWire(st, c)) == st.sessions.Keys
    requires e.action != Hello(c, true)
    ensures Told(OnWire(st, c) + Frames(st, e, c)) == KeysAfter(st, e)
  {
    FramesThrough(st, e, c);
    ToldFew(OnWire(st, c), Frames(st, e, c));
    hide *;
  }

  lemma GreetingTells(st: State, e: Event, c: ConnId)
    requires Open(st, c) && e.action == Hello(c, true) && c !in e.congested
    ensures Told(OnWire(st, c) + Frames(st, e, c)) == st.sessions.Keys
  {
    ToldFew(OnWire(st, c), Frames(st, e, c));
    hide OnWire, Told;
  }

  lemma StepTells(st: State, e: Event)
    requires Inv(st) && AllTold(st)
    ensures AllTold(Step(st, e))
  {
    var next := Step(st, e);
    StepKeys(st, e);
    hide Step, Frames, Told, OnWire, Inv, Open, Authenticated;
    forall c | Open(next, c) && c in Authenticated(next) ensures Told(OnWire(next, c)) == next.sessions.Keys {
      StepWires(st, e, c);
      StepAuthenticates(st, e, c);
      if e.action == Hello(c, true) {
        GreetingTells(st, e, c);
      } else {
        FramesTell(st, e, c);
      }
    }
  }

  /** A gateway can keep its list from the frames alone: after any run, replaying what an open
      authenticated connection was sent gives exactly the live sessions. */
  lemma {:induction false} RunTells(st: State, events: seq<Event>)
    requires Inv(st) && AllTold(st)
    ensures AllTold(Run(st, events))
    decreases |events|
  {
    hide Step, Inv, AllTold;
    if events != [] {
      StepKeepsInv(st, events[0]);
      StepTells(st, events[0]);
      RunTells(Step(st, events[0]), events[1..]);
    }
  }

  lemma GatewaysKnowSessions(events: seq<Event>, c: ConnId)
    requires Open(Run(INITIAL, events), c) && c in Authenticated(Run(INITIAL, events))
    ensures var end := Run(INITIAL, events);
            c in end.wire && Told(end.wire[c]) == end.sessions.Keys
  {
    RunTells(INITIAL, events);
    RunKeepsInv(INITIAL, events);
    hide Run, Told;
  }

  // ---- who gets in ----

  /** Only an accepted hello of its own authenticates a connection. */
  lemma {:induction false} OnlyHelloAuthenticates(st: State, events: seq<Event>, c: ConnId)
    requires Open(Run(st, events), c) && c in Authenticated(Run(st, events))
    requires forall e | e in events :: e.action != Hello(c, true)
    ensures Open(st, c) && c in Authenticated(st)
    decreases |events|
  {
    hide Step, Open, Authenticated;
    if events != [] {
      assert events[0] in events;
      OnlyHelloAuthenticates(Step(st, events[0]), events[1..], c);
      StepAuthenticates(st, events[0], c);
    }
  }

  // ---- what is refused ----

  /** The request cannot be served: its sender has not said hello, the id to create is taken or the
      process does not start, or the session is not live. */
  predicate Refused(st: State, c: ConnId, r: Request) {
    || c !in Authenticated(st)
    || match r
       case Create(s, spawned) => Live(st, s) || !spawned
       case Subscribe(s) => !Live(st, s)
       case Control(s) => !Live(st, s)
       case _ => false
  }

  lemma ServeRefused(st: State, c: ConnId, r: Request, congested: set<ConnId>)
    requires c in st.conns && st.conns[c].authenticated && Refused(st, c, r)
    ensures var next := Serve(st, c, r, congested); next == st.(wire := next.wire, destroyed := next.destroyed)
  {
    hide Written;
  }

  /** A request is answered with an error exactly if it is refused, and then with one error alone,
      and it changes no table. */
  lemma RefusedExactly(st: State, c: ConnId, r: Request, congested: set<ConnId>)
    requires Open(st, c)
    ensures var e := Event(Ask(c, r), congested);
            && ((exists code :: Frames(st, e, c) == [ErrorFrame(code)]) <==> Refused(st, c, r))
            && (Refused(st, c, r) ==> Step(st, e) == st.(wire := Step(st, e).wire, destroyed := Step(st, e).destroyed))
  {
    var e := Event(Ask(c, r), congested);
    if st.conns[c].authenticated && Refused(st, c, r) { ServeRefused(st, c, r, congested); }
    var frames := Frames(st, e, c);
    assert Refused(st, c, r) ==> |frames| == 1 && frames[0].ErrorFrame? && frames == [ErrorFrame(frames[0].code)];
    assert !Refused(st, c, r) ==> forall f | f in frames :: !f.ErrorFrame?;
    assert forall code :: frames == [ErrorFrame(code)] ==> ErrorFrame(code) in frames;
    hide Serve, Written, Frames;
  }

  // ---- who is subscribed ----

  lemma ServeSubscription(st: State, d: ConnId, r: Request, congested: set<ConnId>, c: ConnId, s: SessionId)
    requires Inv(st) && d in st.conns
    ensures c in SubscribersOf(Serve(st, d, r, congested), s) <==>
            if d == c && r == Subscribe(s) && Live(st, s) then true
            else c in SubscribersOf(st, s) && !(d == c && r == Unsubscribe(s))
  {
    hide Written, Links, Guarded, AllRepresent;
    match r {
      case Create(t, spawned) =>
        if t !in st.sessions && spawned {
          assert Serve(st, d, r, congested).subscribers == Admit(st, t).subscribers;
        }
      case Subscribe(t) =>
        if t in st.sessions {
          assert Serve(st, d, r, congested).subscribers == st.subscribers[t := st.subscribers[t] + {d}];
        }
      case _ =>
    }
  }

  lemma CloseSubscription(st: State, d: ConnId, c: ConnId, s: SessionId)
    requires Inv(st) && d in st.conns
    ensures c in SubscribersOf(Disconnect(st, d), s) <==> c in SubscribersOf(st, s) && c != d
  {
    assert c in SubscribersOf(st, s) ==> Linked(st, c, s);
    hide Guarded, Rings, Links;
  }

  /** Exactly what one event makes of a subscription: a subscribe of an authenticated connection to
      a live session begins it, and its unsubscribe, its close and the removal end it. */
  lemma SubscriptionExactly(st: State, e: Event, c: ConnId, s: SessionId)
    requires Inv(st)
    ensures c in SubscribersOf(Step(st, e), s) <==>
            if e.action == Ask(c, Subscribe(s)) && c in Authenticated(st) && Live(st, s) then true
            else
              && c in SubscribersOf(st, s)
              && e.action != Ask(c, Unsubscribe(s)) && e.action != Close(c) && !(e.action == Removed(s) && Exited(st, s))
  {
    assert c in SubscribersOf(st, s) ==> Linked(st, c, s);
    hide Serve, Greet, Write, Disconnect, Inv;
    match e.action {
      case Ask(d, r) =>
        WriteTouchesNoTable(st, {d}, ErrorFrame(Unauthorized), e.congested);
        if d in st.conns && st.conns[d].authenticated { ServeSubscription(st, d, r, e.congested, c, s); }
      case Data(t, data) =>
        WriteTouchesNoTable(Keep(st, t, data), SubscribersOf(st, t), OutputFrame(t, data), e.congested);
      case Hello(d, _) =>
        WriteTouchesNoTable(st, {d}, ErrorFrame(Unauthorized), e.congested);
        if d in st.conns { GreetTouchesNoSession(st, d, e.congested); }
      case BadLine(d, code) => WriteTouchesNoTable(st, {d}, ErrorFrame(code), e.congested);
      case Exit(t) => WriteTouchesNoTable(st, SubscribersOf(st, t), ExitFrame(t), {});
      case Removed(t) => WriteTouchesNoTable(Forget(st, t), Authenticated(st), RemovedFrame(t), e.congested);
      case Close(d) => if d in st.conns { CloseSubscription(st, d, c, s); }
      case _ =>
    }
  }
}
