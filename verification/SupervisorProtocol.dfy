/**
 The supervisor's IPC protocol as a state machine: PTY events and gateway requests in,
 frames on sockets out. `SupervisorServer` carries it out; the theorems about whole runs
 are stated here.
 */
module SupervisorProtocol {
  import opened Sequences
  import opened Scrollback

  type SessionId = string
  type ConnId = string

  datatype ErrorCode = Unauthorized | UnknownSession | SpawnFailed | InvalidMessage | LineTooLong

  datatype Frame =
    | HelloFrame
    | SessionsFrame(ids: set<SessionId>)
    | CreatedFrame(sid: SessionId)
    | SubscribedFrame(sid: SessionId, scrollback: Text)
    | UnsubscribedFrame(sid: SessionId)
    | OutputFrame(sid: SessionId, data: Text)
    | ExitFrame(sid: SessionId)
    | RemovedFrame(sid: SessionId)
    | ErrorFrame(code: ErrorCode)

  datatype Connection = Connection(authenticated: bool, subscriptions: set<SessionId>)

  /** `sessions` is the session manager's table, true once a session's exit was announced;
      `destroyed` holds the connections whose socket is destroyed and not yet closed.
      `wire` records every frame written to a socket and `produced` every chunk a live
      session has emitted; the program keeps neither, they are what the theorems talk about. */
  datatype State = State(
    sessions: map<SessionId, bool>,
    conns: map<ConnId, Connection>,
    destroyed: set<ConnId>,
    subscribers: map<SessionId, set<ConnId>>,
    scrollback: map<SessionId, Buffer>,
    wire: map<ConnId, seq<Frame>>,
    produced: map<SessionId, seq<Chunk>>)

  datatype Request =
    | List
    | Create(newId: SessionId, spawned: bool)
    | Subscribe(sid: SessionId)
    | Unsubscribe(sid: SessionId)
    | Control(sid: SessionId) // input, resize and kill only differ in what they do to the PTY

  datatype Action =
    | Connect(conn: ConnId)
    | Hello(conn: ConnId, tokenAccepted: bool)
    | Ask(conn: ConnId, request: Request)
    | BadLine(conn: ConnId, code: ErrorCode)
    | Data(session: SessionId, data: Text)
    | Exit(session: SessionId)
    | Removed(session: SessionId)
    | Destroy(conn: ConnId)
    | Close(conn: ConnId)

  /** An action, and the sockets whose backlog is over the limit after a write in it. */
  datatype Event = Event(action: Action, congested: set<ConnId>)

  const INITIAL := State(map[], map[], {}, map[], map[], map[], map[])

  predicate Open(st: State, c: ConnId) {
    c in st.conns && c !in st.destroyed
  }

  function Written(wire: map<ConnId, seq<Frame>>, targets: set<ConnId>, f: Frame): map<ConnId, seq<Frame>> {
    map c | c in wire :: if c in targets then wire[c] + [f] else wire[c]
  }

  /** One frame to every open target, each checked for backlog after its write. */
  function Write(st: State, targets: set<ConnId>, f: Frame, congested: set<ConnId>): State {
    var open := targets * st.conns.Keys - st.destroyed;
    st.(wire := Written(st.wire, open, f), destroyed := st.destroyed + open * congested)
  }

  function Authenticated(st: State): set<ConnId> {
    set c | c in st.conns && st.conns[c].authenticated
  }

  function SubscribersOf(st: State, s: SessionId): set<ConnId> {
    if s in st.subscribers then st.subscribers[s] else {}
  }

  function EnsureBuffers(st: State, s: SessionId): State {
    st.(subscribers := if s in st.subscribers then st.subscribers else st.subscribers[s := {}],
        scrollback := if s in st.scrollback then st.scrollback else st.scrollback[s := EMPTY_BUFFER])
  }

  function SnapshotOf(st: State, s: SessionId): Text {
    if s in st.scrollback then Snapshot(st.scrollback[s]) else []
  }

  function Admit(st: State, s: SessionId): State {
    EnsureBuffers(st.(sessions := st.sessions[s := false], produced := st.produced[s := []]), s)
  }

  function Register(st: State, c: ConnId, s: SessionId): State
    requires c in st.conns && s in st.subscribers
  {
    st.(subscribers := st.subscribers[s := st.subscribers[s] + {c}],
        conns := st.conns[c := st.conns[c].(subscriptions := st.conns[c].subscriptions + {s})])
  }

  function Unregister(st: State, c: ConnId, s: SessionId): State
    requires c in st.conns
  {
    st.(subscribers := if s in st.subscribers then st.subscribers[s := st.subscribers[s] - {c}] else st.subscribers,
        conns := st.conns[c := st.conns[c].(subscriptions := st.conns[c].subscriptions - {s})])
  }

  function Serve(st: State, c: ConnId, r: Request, congested: set<ConnId>): State
    requires c in st.conns
  {
    match r
    case List => Write(st, {c}, SessionsFrame(st.sessions.Keys), congested)
    case Create(s, spawned) =>
      if s in st.sessions || !spawned then Write(st, {c}, ErrorFrame(SpawnFailed), congested)
      else Write(Write(Admit(st, s), Authenticated(st), CreatedFrame(s), congested), {c}, CreatedFrame(s), congested)
    case Subscribe(s) =>
      if s !in st.sessions then Write(st, {c}, ErrorFrame(UnknownSession), congested)
      else Register(EnsureBuffers(Write(st, {c}, SubscribedFrame(s, SnapshotOf(st, s)), congested), s), c, s)
    case Unsubscribe(s) => Write(Unregister(st, c, s), {c}, UnsubscribedFrame(s), congested)
    case Control(s) =>
      if s in st.sessions then st else Write(st, {c}, ErrorFrame(UnknownSession), congested)
  }

  function Greet(st: State, c: ConnId, congested: set<ConnId>): State
    requires c in st.conns
  {
    var known := st.(conns := st.conns[c := st.conns[c].(authenticated := true)]);
    Write(Write(known, {c}, HelloFrame, congested), {c}, SessionsFrame(st.sessions.Keys), congested)
  }

  function Keep(st: State, s: SessionId, data: Text): State {
    st.(scrollback := if s in st.scrollback then st.scrollback[s := Appended(st.scrollback[s], data)] else st.scrollback,
        produced := if s in st.produced then st.produced[s := st.produced[s] + [MakeChunk(data)]] else st.produced)
  }

  function Forget(st: State, s: SessionId): State {
    st.(sessions := st.sessions - {s}, subscribers := st.subscribers - {s},
        scrollback := st.scrollback - {s}, produced := st.produced - {s})
  }

  function Disconnect(st: State, c: ConnId): State
    requires c in st.conns
  {
    st.(subscribers := map s | s in st.subscribers ::
          if s in st.conns[c].subscriptions then st.subscribers[s] - {c} else st.subscribers[s],
        conns := st.conns - {c})
  }

  function Step(st: State, e: Event): State {
    match e.action
    case Connect(c) => // ids are fresh UUIDs: a used one does not come back
      if c in st.wire then st
      else st.(conns := st.conns[c := Connection(false, {})], wire := st.wire[c := []], destroyed := st.destroyed - {c})
    case Hello(c, accepted) =>
      if c !in st.conns then st
      else if accepted then Greet(st, c, e.congested)
      else Write(st, {c}, ErrorFrame(Unauthorized), e.congested)
    case Ask(c, r) =>
      if c !in st.conns then st
      else if !st.conns[c].authenticated then Write(st, {c}, ErrorFrame(Unauthorized), e.congested)
      else Serve(st, c, r, e.congested)
    case BadLine(c, code) => Write(st, {c}, ErrorFrame(code), e.congested)
    case Data(s, data) => Write(Keep(st, s, data), SubscribersOf(st, s), OutputFrame(s, data), e.congested)
    case Exit(s) => // emitted once per session, with no backlog check
      if s !in st.sessions || st.sessions[s] then st
      else Write(st, SubscribersOf(st, s), ExitFrame(s), {}).(sessions := st.sessions[s := true])
    case Removed(s) => // scheduled by the exit
      if s !in st.sessions || !st.sessions[s] then st
      else Write(Forget(st, s), Authenticated(st), RemovedFrame(s), e.congested)
    case Destroy(c) => st.(destroyed := st.destroyed + {c})
    case Close(c) => if c in st.conns then Disconnect(st, c) else st
  }

  function Run(st: State, events: seq<Event>): State
    decreases |events|
  {
    if events == [] then st else Run(Step(st, events[0]), events[1..])
  }

  // ---- what every step keeps ----

  /** The four session tables have the same keys and every ring is what its session's output makes it. */
  ghost predicate Rings(st: State) {
    && st.subscribers.Keys == st.sessions.Keys
    && st.scrollback.Keys == st.sessions.Keys
    && AllRepresent(st.scrollback, st.produced)
  }

  /** A subscriber is a connected, authenticated gateway that knows of the subscription. */
  ghost predicate Links(st: State) {
    forall s | s in st.subscribers :: forall c | c in st.subscribers[s] :: Linked(st, c, s)
  }

  ghost predicate Linked(st: State, c: ConnId, s: SessionId) {
    c in st.conns && st.conns[c].authenticated && s in st.conns[c].subscriptions
  }

  /** A gateway that has not said hello has been sent nothing but errors. */
  ghost predicate Guarded(st: State) {
    st.conns.Keys <= st.wire.Keys && forall c | c in st.conns && !st.conns[c].authenticated :: OnlyErrors(st.wire[c])
  }

  predicate OnlyErrors(frames: seq<Frame>) {
    forall f | f in frames :: f.ErrorFrame?
  }

  ghost predicate Inv(st: State) {
    Rings(st) && Links(st) && Guarded(st)
  }

  /** Writing to authenticated connections, or an error to anyone, touches no table. */
  lemma WriteKeepsInv(st: State, targets: set<ConnId>, f: Frame, congested: set<ConnId>)
    requires Inv(st)
    requires f.ErrorFrame? || targets <= Authenticated(st)
    ensures Inv(Write(st, targets, f, congested))
  {
    var next := Write(st, targets, f, congested);
    assert Links(next) by {
      forall s, c | s in st.subscribers && c in st.subscribers[s] ensures Linked(next, c, s) {
        assert Linked(st, c, s);
      }
    }
    forall c | c in next.conns && !next.conns[c].authenticated ensures OnlyErrors(next.wire[c]) {
      assert OnlyErrors(st.wire[c]);
    }
  }

  lemma RegisterKeepsInv(st: State, c: ConnId, s: SessionId)
    requires Inv(st) && c in st.conns && st.conns[c].authenticated && s in st.subscribers
    ensures Inv(Register(st, c, s))
  {
    forall t, d | t in st.subscribers && d in Register(st, c, s).subscribers[t]
      ensures Linked(Register(st, c, s), d, t)
    {
      assert d in st.subscribers[t] ==> Linked(st, d, t);
    }
  }

  lemma UnregisterKeepsInv(st: State, c: ConnId, s: SessionId)
    requires Inv(st) && c in st.conns
    ensures Inv(Unregister(st, c, s))
  {
    forall t, d | t in st.subscribers && d in Unregister(st, c, s).subscribers[t]
      ensures Linked(Unregister(st, c, s), d, t)
    {
      assert d in st.subscribers[t] && Linked(st, d, t);
    }
  }

  lemma AdmitKeepsRings(st: State, s: SessionId)
    requires Rings(st) && s !in st.sessions
    ensures Rings(Admit(st, s))
  {
    hide AllRepresent;
    AddEmpty(st.scrollback, st.produced, s);
    assert st.scrollback.Keys == st.sessions.Keys;
    assert Admit(st, s).scrollback == st.scrollback[s := EMPTY_BUFFER];
  }

  lemma AdmitKeepsInv(st: State, s: SessionId)
    requires Inv(st) && s !in st.sessions
    ensures Inv(Admit(st, s))
  {
    hide AllRepresent, OnlyErrors, Linked;
    AdmitKeepsRings(st, s);
    var next := Admit(st, s);
    assert s !in st.subscribers && next.subscribers == st.subscribers[s := {}];
    assert next.conns == st.conns && next.wire == st.wire;
    hide Rings, Admit;
    forall t, d | t in next.subscribers && d in next.subscribers[t]
      ensures Linked(next, d, t)
    {
      LinkedElsewhere(st, next, d, t);
    }
  }

  lemma LinkedElsewhere(st: State, next: State, c: ConnId, s: SessionId)
    requires next.conns == st.conns && Linked(st, c, s)
    ensures Linked(next, c, s)
  {
  }

  lemma ForgetKeepsInv(st: State, s: SessionId)
    requires Inv(st)
    ensures Inv(Forget(st, s))
  {
    forall t, d | t in st.subscribers && d in st.subscribers[t]
      ensures Linked(Forget(st, s), d, t)
    {
      assert Linked(st, d, t);
    }
  }

  lemma DisconnectKeepsInv(st: State, c: ConnId)
    requires Inv(st) && c in st.conns
    ensures Inv(Disconnect(st, c))
  {
    forall t, d | t in st.subscribers && d in Disconnect(st, c).subscribers[t]
      ensures Linked(Disconnect(st, c), d, t)
    {
      assert d in st.subscribers[t] && Linked(st, d, t);
    }
  }

  lemma KeepKeepsRings(st: State, s: SessionId, data: Text)
    requires Rings(st)
    ensures Rings(Keep(st, s, data))
  {
    if s in st.scrollback {
      AppendOneOfMany(st.scrollback, st.produced, s, data);
    }
    hide Represents, Appended;
  }

  lemma KeepKeepsInv(st: State, s: SessionId, data: Text)
    requires Inv(st)
    ensures Inv(Keep(st, s, data))
  {
    KeepKeepsRings(st, s, data);
    forall t, d | t in st.subscribers && d in st.subscribers[t]
      ensures Linked(Keep(st, s, data), d, t)
    {
      assert Linked(st, d, t);
    }
  }

  lemma SubscribeKeepsInv(st: State, c: ConnId, s: SessionId, f: Frame, congested: set<ConnId>)
    requires Inv(st) && c in st.conns && st.conns[c].authenticated && s in st.sessions
    ensures Inv(Register(EnsureBuffers(Write(st, {c}, f, congested), s), c, s))
  {
    var told := Write(st, {c}, f, congested);
    WriteKeepsInv(st, {c}, f, congested);
    assert EnsureBuffers(told, s) == told;
    RegisterKeepsInv(told, c, s);
  }

  lemma CreateKeepsInv(st: State, c: ConnId, s: SessionId, congested: set<ConnId>)
    requires Inv(st) && c in st.conns && st.conns[c].authenticated && s !in st.sessions
    ensures Inv(Write(Write(Admit(st, s), Authenticated(st), CreatedFrame(s), congested), {c}, CreatedFrame(s), congested))
  {
    var admitted := Admit(st, s);
    AdmitKeepsInv(st, s);
    assert Authenticated(admitted) == Authenticated(st);
    WriteKeepsInv(admitted, Authenticated(st), CreatedFrame(s), congested);
    var told := Write(admitted, Authenticated(st), CreatedFrame(s), congested);
    assert Authenticated(told) == Authenticated(st);
    WriteKeepsInv(told, {c}, CreatedFrame(s), congested);
  }

  lemma ServeKeepsInv(st: State, c: ConnId, r: Request, congested: set<ConnId>)
    requires Inv(st) && c in st.conns && st.conns[c].authenticated
    ensures Inv(Serve(st, c, r, congested))
  {
    match r
    case List => WriteKeepsInv(st, {c}, SessionsFrame(st.sessions.Keys), congested);
    case Create(s, spawned) =>
      WriteKeepsInv(st, {c}, ErrorFrame(SpawnFailed), congested);
      if s !in st.sessions && spawned { CreateKeepsInv(st, c, s, congested); }
    case Subscribe(s) =>
      WriteKeepsInv(st, {c}, ErrorFrame(UnknownSession), congested);
      if s in st.sessions { SubscribeKeepsInv(st, c, s, SubscribedFrame(s, SnapshotOf(st, s)), congested); }
    case Unsubscribe(s) =>
      UnregisterKeepsInv(st, c, s);
      WriteKeepsInv(Unregister(st, c, s), {c}, UnsubscribedFrame(s), congested);
    case Control(s) => WriteKeepsInv(st, {c}, ErrorFrame(UnknownSession), congested);
  }

  lemma GreetKeepsInv(st: State, c: ConnId, congested: set<ConnId>)
    requires Inv(st) && c in st.conns
    ensures Inv(Greet(st, c, congested))
  {
    var known := st.(conns := st.conns[c := st.conns[c].(authenticated := true)]);
    forall t, d | t in st.subscribers && d in st.subscribers[t] ensures Linked(known, d, t) {
      assert Linked(st, d, t);
    }
    WriteKeepsInv(known, {c}, HelloFrame, congested);
    WriteKeepsInv(Write(known, {c}, HelloFrame, congested), {c}, SessionsFrame(st.sessions.Keys), congested);
  }

  lemma ConnectKeepsInv(st: State, c: ConnId)
    requires Inv(st) && c !in st.wire
    ensures Inv(Step(st, Event(Connect(c), {})))
  {
    var next := Step(st, Event(Connect(c), {}));
    forall t, d | t in st.subscribers && d in st.subscribers[t] ensures Linked(next, d, t) {
      assert Linked(st, d, t);
    }
  }

  lemma ExitKeepsInv(st: State, s: SessionId)
    requires Inv(st) && s in st.sessions
    ensures Inv(st.(sessions := st.sessions[s := true]))
  {
    forall t, d | t in st.subscribers && d in st.subscribers[t]
      ensures Linked(st.(sessions := st.sessions[s := true]), d, t)
    {
      assert Linked(st, d, t);
    }
  }

  lemma SubscribersAuthenticated(st: State, s: SessionId)
    requires Inv(st)
    ensures SubscribersOf(st, s) <= Authenticated(st)
  {
    forall c | c in SubscribersOf(st, s) ensures c in Authenticated(st) {
      assert Linked(st, c, s);
    }
  }

  lemma StepKeepsInv(st: State, e: Event)
    requires Inv(st)
    ensures Inv(Step(st, e))
  {
    match e.action
    case Connect(c) => if c !in st.wire { ConnectKeepsInv(st, c); }
    case Hello(c, accepted) =>
      WriteKeepsInv(st, {c}, ErrorFrame(Unauthorized), e.congested);
      if c in st.conns { GreetKeepsInv(st, c, e.congested); }
    case Ask(c, r) =>
      WriteKeepsInv(st, {c}, ErrorFrame(Unauthorized), e.congested);
      if c in st.conns && st.conns[c].authenticated { ServeKeepsInv(st, c, r, e.congested); }
    case BadLine(c, code) => WriteKeepsInv(st, {c}, ErrorFrame(code), e.congested);
    case Data(s, data) =>
      KeepKeepsInv(st, s, data);
      SubscribersAuthenticated(st, s);
      WriteKeepsInv(Keep(st, s, data), SubscribersOf(st, s), OutputFrame(s, data), e.congested);
    case Exit(s) =>
      SubscribersAuthenticated(st, s);
      WriteKeepsInv(st, SubscribersOf(st, s), ExitFrame(s), {});
      if s in st.sessions { ExitKeepsInv(Write(st, SubscribersOf(st, s), ExitFrame(s), {}), s); }
    case Removed(s) =>
      ForgetKeepsInv(st, s);
      WriteKeepsInv(Forget(st, s), Authenticated(st), RemovedFrame(s), e.congested);
    case Destroy(c) => DestroyKeepsInv(st, c);
    case Close(c) => if c in st.conns { DisconnectKeepsInv(st, c); }
  }

  lemma DestroyKeepsInv(st: State, c: ConnId)
    requires Inv(st)
    ensures Inv(st.(destroyed := st.destroyed + {c}))
  {
    forall t, d | t in st.subscribers && d in st.subscribers[t]
      ensures Linked(st.(destroyed := st.destroyed + {c}), d, t)
    {
      assert Linked(st, d, t);
    }
  }

  /** In every reachable state each ring holds exactly the longest fitting tail of what its
      session produced, every subscriber is a connected and authenticated gateway that lists the
      session, and a connection that has not said hello has been sent errors only. */
  lemma {:induction false} RunKeepsInv(st: State, events: seq<Event>)
    requires Inv(st)
    ensures Inv(Run(st, events))
    decreases |events|
  {
    hide Step;
    if events != [] {
      StepKeepsInv(st, events[0]);
      RunKeepsInv(Step(st, events[0]), events[1..]);
    }
  }

  // ---- the stream a subscriber sees ----

  function FrameText(s: SessionId): Frame -> Text {
    (f: Frame) => if f.OutputFrame? && f.sid == s then f.data else []
  }

  /** The text of `s` that a list of frames carries. */
  function OutputText(frames: seq<Frame>, s: SessionId): Text {
    FlatMap(FrameText(s), frames)
  }

  /** The text that `s` produces in a list of events. */
  function DataOf(events: seq<Event>, s: SessionId): Text
    decreases |events|
  {
    if events == [] then [] else StepData(events[0], s) + DataOf(events[1..], s)
  }

  function StepData(e: Event, s: SessionId): Text {
    if e.action.Data? && e.action.session == s then e.action.data else []
  }

  /** The event ends the subscription of `c` to `s`, if there is one. */
  predicate Leaves(e: Event, c: ConnId, s: SessionId) {
    e.action == Ask(c, Unsubscribe(s)) || e.action == Removed(s)
  }

  /** No event of the list does. */
  predicate Stays(events: seq<Event>, c: ConnId, s: SessionId) {
    forall e | e in events :: !Leaves(e, c, s)
  }

  /** The frames that one step writes to the socket of `c`, if it is open. */
  function Frames(st: State, e: Event, c: ConnId): seq<Frame> {
    if !Open(st, c) then []
    else match e.action
      case Connect(_) => []
      case Hello(d, accepted) =>
        if d != c then []
        else if !accepted then [ErrorFrame(Unauthorized)]
        else [HelloFrame] + (if c in e.congested then [] else [SessionsFrame(st.sessions.Keys)])
      case Ask(d, r) =>
        if d !in st.conns then []
        else if !st.conns[d].authenticated then if d == c then [ErrorFrame(Unauthorized)] else []
        else Replies(st, d, r, e.congested, c)
      case BadLine(d, code) => if d == c then [ErrorFrame(code)] else []
      case Data(s, data) => if c in SubscribersOf(st, s) then [OutputFrame(s, data)] else []
      case Exit(s) =>
        if s in st.sessions && !st.sessions[s] && c in SubscribersOf(st, s) then [ExitFrame(s)] else []
      case Removed(s) =>
        if s in st.sessions && st.sessions[s] && st.conns[c].authenticated then [RemovedFrame(s)] else []
      case Destroy(_) => []
      case Close(_) => []
  }

  function Replies(st: State, asker: ConnId, r: Request, congested: set<ConnId>, c: ConnId): seq<Frame>
    requires c in st.conns
  {
    if r.Create? && r.newId !in st.sessions && r.spawned then
      (if st.conns[c].authenticated then [CreatedFrame(r.newId)] else [])
      + (if c == asker && !(st.conns[c].authenticated && c in congested) then [CreatedFrame(r.newId)] else [])
    else if c != asker then []
    else match r
      case List => [SessionsFrame(st.sessions.Keys)]
      case Create(_, _) => [ErrorFrame(SpawnFailed)]
      case Subscribe(s) =>
        if s in st.sessions then [SubscribedFrame(s, SnapshotOf(st, s))] else [ErrorFrame(UnknownSession)]
      case Unsubscribe(s) => [UnsubscribedFrame(s)]
      case Control(s) => if s in st.sessions then [] else [ErrorFrame(UnknownSession)]
  }

  function RunFrames(st: State, events: seq<Event>, c: ConnId): seq<Frame>
    decreases |events|
  {
    if events == [] then [] else Frames(st, events[0], c) + RunFrames(Step(st, events[0]), events[1..], c)
  }

  lemma WriteAppends(st: State, targets: set<ConnId>, f: Frame, congested: set<ConnId>, c: ConnId)
    requires c in st.wire
    ensures var next := Write(st, targets, f, congested);
            && c in next.wire
            && next.wire[c] == st.wire[c] + (if Open(st, c) && c in targets then [f] else [])
            && (Open(next, c) <==> Open(st, c) && !(c in targets && c in congested))
  {
  }

  lemma ReplyAppends(st: State, d: ConnId, r: Request, congested: set<ConnId>, c: ConnId)
    requires c in st.wire && d in st.conns && Open(st, c)
    ensures var next := Serve(st, d, r, congested);
            c in next.wire && next.wire[c] == st.wire[c] + Replies(st, d, r, congested, c)
  {
    match r
    case Create(s, spawned) =>
      if s !in st.sessions && spawned {
        var admitted := Admit(st, s);
        WriteAppends(admitted, Authenticated(st), CreatedFrame(s), congested, c);
        WriteAppends(Write(admitted, Authenticated(st), CreatedFrame(s), congested), {d}, CreatedFrame(s), congested, c);
      } else {
        WriteAppends(st, {d}, ErrorFrame(SpawnFailed), congested, c);
      }
    case List => WriteAppends(st, {d}, SessionsFrame(st.sessions.Keys), congested, c);
    case Subscribe(s) =>
      WriteAppends(st, {d}, ErrorFrame(UnknownSession), congested, c);
      WriteAppends(st, {d}, SubscribedFrame(s, SnapshotOf(st, s)), congested, c);
    case Unsubscribe(s) => WriteAppends(Unregister(st, d, s), {d}, UnsubscribedFrame(s), congested, c);
    case Control(s) => WriteAppends(st, {d}, ErrorFrame(UnknownSession), congested, c);
  }

  /** No step rewrites what is on a wire: it appends those frames and nothing else. */
  lemma StepAppends(st: State, e: Event, c: ConnId)
    requires c in st.wire && Open(st, c)
    ensures c in Step(st, e).wire
    ensures Step(st, e).wire[c] == st.wire[c] + Frames(st, e, c)
  {
    hide Serve, Greet, Write, Replies;
    match e.action
    case Connect(_) =>
    case Hello(d, accepted) =>
      if d in st.conns {
        WriteAppends(st, {d}, ErrorFrame(Unauthorized), e.congested, c);
        if accepted { GreetAppends(st, d, e.congested, c); }
      }
    case Ask(d, r) =>
      if d in st.conns {
        WriteAppends(st, {d}, ErrorFrame(Unauthorized), e.congested, c);
        if st.conns[d].authenticated { ReplyAppends(st, d, r, e.congested, c); }
      }
    case Data(s, data) => WriteAppends(Keep(st, s, data), SubscribersOf(st, s), OutputFrame(s, data), e.congested, c);
    case Exit(s) => WriteAppends(st, SubscribersOf(st, s), ExitFrame(s), {}, c);
    case Removed(s) => WriteAppends(Forget(st, s), Authenticated(st), RemovedFrame(s), e.congested, c);
    case BadLine(d, code) => WriteAppends(st, {d}, ErrorFrame(code), e.congested, c);
    case Destroy(_) =>
    case Close(_) =>
  }

  lemma GreetAppends(st: State, d: ConnId, congested: set<ConnId>, c: ConnId)
    requires c in st.wire && d in st.conns
    ensures var next := Greet(st, d, congested);
            && c in next.wire
            && (c != d || !Open(st, c) ==> next.wire[c] == st.wire[c])
            && (c == d && Open(st, c) ==>
                  next.wire[c] ==
                    st.wire[c] + [HelloFrame] + (if c in congested then [] else [SessionsFrame(st.sessions.Keys)]))
            && (!Open(st, c) ==> !Open(next, c))
  {
    var known := st.(conns := st.conns[d := st.conns[d].(authenticated := true)]);
    WriteAppends(known, {d}, HelloFrame, congested, c);
    WriteAppends(Write(known, {d}, HelloFrame, congested), {d}, SessionsFrame(st.sessions.Keys), congested, c);
  }

  lemma ClosedReply(st: State, d: ConnId, r: Request, congested: set<ConnId>, c: ConnId)
    requires c in st.wire && d in st.conns && !Open(st, c)
    ensures var next := Serve(st, d, r, congested);
            c in next.wire && next.wire[c] == st.wire[c] && !Open(next, c)
  {
    match r
    case Create(s, spawned) =>
      WriteAppends(st, {d}, ErrorFrame(SpawnFailed), congested, c);
      if s !in st.sessions && spawned {
        WriteAppends(Admit(st, s), Authenticated(st), CreatedFrame(s), congested, c);
        WriteAppends(Write(Admit(st, s), Authenticated(st), CreatedFrame(s), congested), {d}, CreatedFrame(s), congested, c);
      }
    case List => WriteAppends(st, {d}, SessionsFrame(st.sessions.Keys), congested, c);
    case Subscribe(s) =>
      WriteAppends(st, {d}, ErrorFrame(UnknownSession), congested, c);
      WriteAppends(st, {d}, SubscribedFrame(s, SnapshotOf(st, s)), congested, c);
    case Unsubscribe(s) => WriteAppends(Unregister(st, d, s), {d}, UnsubscribedFrame(s), congested, c);
    case Control(s) => WriteAppends(st, {d}, ErrorFrame(UnknownSession), congested, c);
  }

  /** A socket that is gone gets nothing more and does not come back. */
  lemma ClosedStep(st: State, e: Event, c: ConnId)
    requires c in st.wire && !Open(st, c)
    ensures c in Step(st, e).wire && Step(st, e).wire[c] == st.wire[c] && !Open(Step(st, e), c)
  {
    hide Serve, Greet, Write;
    match e.action
    case Connect(_) =>
    case Hello(d, accepted) =>
      if d in st.conns {
        WriteAppends(st, {d}, ErrorFrame(Unauthorized), e.congested, c);
        GreetAppends(st, d, e.congested, c);
      }
    case Ask(d, r) =>
      if d in st.conns {
        WriteAppends(st, {d}, ErrorFrame(Unauthorized), e.congested, c);
        ClosedReply(st, d, r, e.congested, c);
      }
    case Data(s, data) => WriteAppends(Keep(st, s, data), SubscribersOf(st, s), OutputFrame(s, data), e.congested, c);
    case Exit(s) => WriteAppends(st, SubscribersOf(st, s), ExitFrame(s), {}, c);
    case Removed(s) => WriteAppends(Forget(st, s), Authenticated(st), RemovedFrame(s), e.congested, c);
    case BadLine(d, code) => WriteAppends(st, {d}, ErrorFrame(code), e.congested, c);
    case Destroy(_) =>
    case Close(_) =>
  }

  lemma ClosedFrames(st: State, e: Event, c: ConnId)
    requires !Open(st, c)
    ensures Frames(st, e, c) == []
  {
  }

  lemma {:induction false} RunAppends(st: State, events: seq<Event>, c: ConnId)
    requires c in st.wire
    ensures c in Run(st, events).wire
    ensures Run(st, events).wire[c] == st.wire[c] + RunFrames(st, events, c)
    ensures !Open(st, c) ==> !Open(Run(st, events), c) && RunFrames(st, events, c) == []
    decreases |events|
  {
    hide Step, Frames;
    if events != [] {
      var next := Step(st, events[0]);
      if Open(st, c) {
        StepAppends(st, events[0], c);
      } else {
        ClosedStep(st, events[0], c);
      }
      if !Open(st, c) { ClosedFrames(st, events[0], c); }
      RunAppends(next, events[1..], c);
      var frames, rest := Frames(st, events[0], c), RunFrames(next, events[1..], c);
      assert st.wire[c] + (frames + rest) == (st.wire[c] + frames) + rest;
    }
  }

  lemma {:induction false} NoOutput(frames: seq<Frame>, s: SessionId)
    requires forall f | f in frames :: !(f.OutputFrame? && f.sid == s)
    ensures OutputText(frames, s) == []
  {
    if frames != [] {
      NoOutput(frames[1..], s);
    }
  }

  /** Who gets the output of `s` in a step: the open subscribers, once each, and nobody else. */
  lemma OutputToSubscribersOnly(st: State, e: Event, c: ConnId, s: SessionId)
    ensures Open(st, c) && c in SubscribersOf(st, s) ==> OutputText(Frames(st, e, c), s) == StepData(e, s)
    ensures c !in SubscribersOf(st, s) ==> forall f | f in Frames(st, e, c) :: !(f.OutputFrame? && f.sid == s)
  {
    if Open(st, c) && c in SubscribersOf(st, s) {
      var frames := Frames(st, e, c);
      if e.action.Data? && e.action.session == s {
        FlatMapOne(FrameText(s), OutputFrame(s, e.action.data));
      } else {
        NoOutput(frames, s);
      }
    }
  }

  lemma WriteTouchesNoTable(st: State, targets: set<ConnId>, f: Frame, congested: set<ConnId>)
    ensures var next := Write(st, targets, f, congested);
            && next.sessions == st.sessions && next.subscribers == st.subscribers
            && next.produced == st.produced && next.conns == st.conns
  {
  }

  lemma ServeTables(st: State, d: ConnId, r: Request, congested: set<ConnId>, c: ConnId, s: SessionId)
    requires Inv(st) && d in st.conns
    ensures var next := Serve(st, d, r, congested);
            && (s in st.sessions ==> s in next.sessions && s in next.produced && next.produced[s] == st.produced[s])
            && (c in SubscribersOf(st, s) && !(d == c && r == Unsubscribe(s)) ==> c in SubscribersOf(next, s))
            && (c !in SubscribersOf(st, s) && !(d == c && r == Subscribe(s)) ==> c !in SubscribersOf(next, s))
  {
    hide Written, Linked, Represents;
    match r
    case Create(t, spawned) =>
      if t !in st.sessions && spawned {
        var admitted := Admit(st, t);
        var next := Serve(st, d, r, congested);
        assert next.sessions == admitted.sessions && next.produced == admitted.produced;
        assert next.subscribers == admitted.subscribers;
      }
    case Subscribe(t) =>
      if t in st.sessions {
        var next := Serve(st, d, r, congested);
        assert next.sessions == st.sessions && next.produced == st.produced;
        assert next.subscribers == st.subscribers[t := st.subscribers[t] + {d}];
      }
    case _ =>
  }

  /** What one step does to the subscription of `c` to `s`. */
  lemma StepSubscription(st: State, e: Event, c: ConnId, s: SessionId)
    requires Inv(st)
    ensures c in SubscribersOf(st, s) && !Leaves(e, c, s) && e.action != Close(c) ==> c in SubscribersOf(Step(st, e), s)
    ensures c !in SubscribersOf(st, s) && e.action != Ask(c, Subscribe(s)) ==> c !in SubscribersOf(Step(st, e), s)
  {
    hide Serve, Greet, Write, Represents, Linked, Guarded;
    match e.action
    case Ask(d, r) =>
      WriteTouchesNoTable(st, {d}, ErrorFrame(Unauthorized), e.congested);
      if d in st.conns && st.conns[d].authenticated { ServeTables(st, d, r, e.congested, c, s); }
    case Data(t, data) =>
      WriteTouchesNoTable(Keep(st, t, data), SubscribersOf(st, t), OutputFrame(t, data), e.congested);
    case Hello(d, _) =>
      WriteTouchesNoTable(st, {d}, ErrorFrame(Unauthorized), e.congested);
      if d in st.conns { GreetTouchesNoSession(st, d, e.congested); }
    case BadLine(d, code) => WriteTouchesNoTable(st, {d}, ErrorFrame(code), e.congested);
    case Exit(t) => WriteTouchesNoTable(st, SubscribersOf(st, t), ExitFrame(t), {});
    case Removed(t) => WriteTouchesNoTable(Forget(st, t), Authenticated(st), RemovedFrame(t), e.congested);
    case Connect(_) =>
    case Destroy(_) =>
    case Close(_) =>
  }

  /** What one step adds to the stream of a live session. */
  lemma DataProduced(st: State, t: SessionId, data: Text, congested: set<ConnId>, s: SessionId)
    requires Rings(st) && s in st.sessions
    ensures var next := Step(st, Event(Data(t, data), congested));
            && s in next.sessions && s in next.produced
            && TextOf(next.produced[s]) == TextOf(st.produced[s]) + if t == s then data else []
  {
    hide AllRepresent;
    assert s in st.produced by { ProducedKeys(st); }
    WriteTouchesNoTable(Keep(st, t, data), SubscribersOf(st, t), OutputFrame(t, data), congested);
    FlatMapSnoc(ChunkText, st.produced[s], MakeChunk(data));
    hide Write, Rings;
    assert TextOf(st.produced[s]) + [] == TextOf(st.produced[s]);
  }

  lemma ProducedKeys(st: State)
    requires Rings(st)
    ensures st.produced.Keys == st.sessions.Keys
  {
  }

  lemma StepProduced(st: State, e: Event, s: SessionId)
    requires Inv(st) && s in st.sessions && e.action != Removed(s)
    ensures var next := Step(st, e);
            && s in next.sessions && s in next.produced
            && TextOf(next.produced[s]) == TextOf(st.produced[s]) + StepData(e, s)
  {
    hide Serve, Greet, Write, AllRepresent, Links, Guarded, TextOf;
    ProducedKeys(st);
    if e.action.Data? {
      DataProduced(st, e.action.session, e.action.data, e.congested, s);
      assert Event(Data(e.action.session, e.action.data), e.congested) == e;
      hide Step, Rings;
    } else {
      NothingProduced(st, e, s);
      assert TextOf(st.produced[s]) + [] == TextOf(st.produced[s]);
      hide Step, Rings;
    }
  }

  lemma NothingProduced(st: State, e: Event, s: SessionId)
    requires Inv(st) && s in st.sessions && s in st.produced && e.action != Removed(s) && !e.action.Data?
    ensures var next := Step(st, e);
            s in next.sessions && s in next.produced && next.produced[s] == st.produced[s]
  {
    hide Serve, Greet, Write, Rings, Links, Guarded, Inv;
    match e.action
    case Ask(d, r) =>
      WriteTouchesNoTable(st, {d}, ErrorFrame(Unauthorized), e.congested);
      if d in st.conns && st.conns[d].authenticated { ServeTables(st, d, r, e.congested, d, s); }
    case Hello(d, _) =>
      WriteTouchesNoTable(st, {d}, ErrorFrame(Unauthorized), e.congested);
      if d in st.conns { GreetTouchesNoSession(st, d, e.congested); }
    case BadLine(d, code) => WriteTouchesNoTable(st, {d}, ErrorFrame(code), e.congested);
    case Exit(t) => WriteTouchesNoTable(st, SubscribersOf(st, t), ExitFrame(t), {});
    case Removed(t) => WriteTouchesNoTable(Forget(st, t), Authenticated(st), RemovedFrame(t), e.congested);
    case _ =>
  }

  lemma GreetTouchesNoSession(st: State, d: ConnId, congested: set<ConnId>)
    requires d in st.conns
    ensures var next := Greet(st, d, congested);
            next.sessions == st.sessions && next.subscribers == st.subscribers && next.produced == st.produced
  {
  }

  lemma CloseCloses(st: State, e: Event, c: ConnId)
    requires Open(Step(st, e), c)
    ensures e.action != Close(c)
  {
  }

  lemma {:induction false} SubscribedRun(st: State, events: seq<Event>, c: ConnId, s: SessionId)
    requires Inv(st) && Open(st, c) && s in st.sessions && c in SubscribersOf(st, s)
    requires Stays(events, c, s) && Open(Run(st, events), c)
    ensures c in SubscribersOf(Run(st, events), s)
    ensures OutputText(RunFrames(st, events, c), s) == DataOf(events, s)
    ensures s in Run(st, events).produced
    ensures TextOf(Run(st, events).produced[s]) == TextOf(st.produced[s]) + DataOf(events, s)
    decreases |events|
  {
    hide Step, Frames, StepData, Links, Represents;
    if events != [] {
      var e, next := events[0], Step(st, events[0]);
      StepKeepsInv(st, e);
      StepAppends(st, e, c);
      RunAppends(next, events[1..], c);
      CloseCloses(st, e, c);
      assert e in events && !Leaves(e, c, s);
      StepSubscription(st, e, c, s);
      StepProduced(st, e, s);
      OutputToSubscribersOnly(st, e, c, s);
      SubscribedRun(next, events[1..], c, s);
      FlatMapAppend(FrameText(s), Frames(st, e, c), RunFrames(next, events[1..], c));
      assert TextOf(st.produced[s]) + (StepData(e, s) + DataOf(events[1..], s))
          == (TextOf(st.produced[s]) + StepData(e, s)) + DataOf(events[1..], s);
    }
  }

  /** The frames a subscribe step puts on the subscriber's socket: the snapshot, first and alone. */
  lemma SubscribeStep(st: State, c: ConnId, s: SessionId, congested: set<ConnId>)
    requires Inv(st) && Open(st, c) && st.conns[c].authenticated && s in st.sessions && c !in congested
    ensures var next := Step(st, Event(Ask(c, Subscribe(s)), congested));
            && Open(next, c) && s in next.subscribers && c in next.subscribers[s]
            && c in next.wire && next.wire[c] == st.wire[c] + [SubscribedFrame(s, Snapshot(st.scrollback[s]))]
            && next.produced == st.produced && next.sessions == st.sessions
  {
    hide Write, Represents, Linked;
    WriteTouchesNoTable(st, {c}, SubscribedFrame(s, SnapshotOf(st, s)), congested);
    WriteAppends(st, {c}, SubscribedFrame(s, SnapshotOf(st, s)), congested, c);
    StepAppends(st, Event(Ask(c, Subscribe(s)), congested), c);
  }

  function AfterSubscribe(st: State, c: ConnId, s: SessionId, congested: set<ConnId>): State {
    Step(st, Event(Ask(c, Subscribe(s)), congested))
  }

  /** The handover theorem. Subscribe at any reachable point, then let anything happen that
      does not unsubscribe, remove the session or lose the socket. The socket then carries the
      snapshot followed by exactly the data produced since: together one contiguous tail of
      everything the session ever produced. A second subscribe in `events` changes nothing. */
  lemma Handover(st: State, c: ConnId, s: SessionId, congested: set<ConnId>, events: seq<Event>)
    returns (later: seq<Frame>)
    requires Inv(st) && Open(st, c) && st.conns[c].authenticated && s in st.sessions && c !in congested
    requires Stays(events, c, s) && Open(Run(AfterSubscribe(st, c, s, congested), events), c)
    ensures var end := Run(AfterSubscribe(st, c, s, congested), events);
            var snapshot := Snapshot(st.scrollback[s]);
            && c in end.wire && s in end.produced
            && later == RunFrames(AfterSubscribe(st, c, s, congested), events, c)
            && end.wire[c] == st.wire[c] + [SubscribedFrame(s, snapshot)] + later
            && OutputText(later, s) == DataOf(events, s)
            && TextOf(end.produced[s]) == TextOf(st.produced[s]) + OutputText(later, s)
            && EndsWith(TextOf(end.produced[s]), snapshot + OutputText(later, s))
  {
    hide Step, Frames, Links;
    var next := AfterSubscribe(st, c, s, congested);
    SubscribeStep(st, c, s, congested);
    StepKeepsInv(st, Event(Ask(c, Subscribe(s)), congested));
    RunAppends(next, events, c);
    SubscribedRun(next, events, c, s);
    later := RunFrames(next, events, c);
    assert Represents(st.scrollback[s], st.produced[s]);
    TextOfSuffix(st.produced[s], st.scrollback[s].chunks);
    EndsWithAppend(TextOf(st.produced[s]), Snapshot(st.scrollback[s]), OutputText(later, s));
  }

  /** Before the first subscribe, and after an unsubscribe or a removal until the next one, no
      output frame of the session is written: `subscribed` always comes first. */
  lemma {:induction false} SilentUnlessSubscribed(st: State, events: seq<Event>, c: ConnId, s: SessionId)
    requires Inv(st) && c !in SubscribersOf(st, s)
    requires forall e | e in events :: e.action != Ask(c, Subscribe(s))
    ensures forall f | f in RunFrames(st, events, c) :: !(f.OutputFrame? && f.sid == s)
    decreases |events|
  {
    hide Step, Inv, Frames;
    if events != [] {
      var next := Step(st, events[0]);
      StepKeepsInv(st, events[0]);
      StepSubscription(st, events[0], c, s);
      OutputToSubscribersOnly(st, events[0], c, s);
      SilentUnlessSubscribed(next, events[1..], c, s);
    }
  }

  // ---- what a connection's own list holds ----

  /** The sessions that count the connection among their subscribers. */
  function SubscribedTo(st: State, c: ConnId): set<SessionId> {
    set s | s in st.subscribers && c in st.subscribers[s]
  }

  /** The stale ids in a connection's list: of sessions removed while it was subscribed to them,
      and for which it has asked neither a subscribe that succeeded nor an unsubscribe since. */
  function StaleAfter(st: State, stale: set<SessionId>, e: Event, c: ConnId): set<SessionId> {
    match e.action
    case Connect(d) => if d == c && c !in st.wire then {} else stale
    case Removed(s) => if s in st.sessions && st.sessions[s] && c in SubscribersOf(st, s) then stale + {s} else stale
    case Ask(d, r) =>
      if d != c || c !in st.conns || !st.conns[c].authenticated then stale
      else if r.Unsubscribe? then stale - {r.sid}
      else if r.Subscribe? && r.sid in st.sessions then stale - {r.sid}
      else stale
    case _ => stale
  }

  function StaleRun(st: State, stale: set<SessionId>, events: seq<Event>, c: ConnId): set<SessionId>
    decreases |events|
  {
    if events == [] then stale else StaleRun(Step(st, events[0]), StaleAfter(st, stale, events[0], c), events[1..], c)
  }

  /** The list of a connection is its subscriptions and the stale ids, which are apart. */
  ghost predicate Lists(st: State, c: ConnId, stale: set<SessionId>) {
    c in st.conns ==> st.conns[c].subscriptions == SubscribedTo(st, c) + stale && SubscribedTo(st, c) !! stale
  }

  lemma ListsElsewhere(st: State, next: State, c: ConnId, stale: set<SessionId>)
    requires Lists(st, c, stale) && next.subscribers == st.subscribers
    requires c in next.conns ==> c in st.conns && next.conns[c].subscriptions == st.conns[c].subscriptions
    ensures Lists(next, c, stale)
  {
  }

  lemma ServeLists(st: State, d: ConnId, r: Request, congested: set<ConnId>, c: ConnId, stale: set<SessionId>)
    requires Inv(st) && Lists(st, c, stale) && d in st.conns && st.conns[d].authenticated
    ensures Lists(Serve(st, d, r, congested), c, StaleAfter(st, stale, Event(Ask(d, r), congested), c))
  {
    var next := Serve(st, d, r, congested);
    match r {
      case Subscribe(s) =>
        if s in st.sessions {
          var replied := Write(st, {d}, SubscribedFrame(s, SnapshotOf(st, s)), congested);
          WriteTouchesNoTable(st, {d}, SubscribedFrame(s, SnapshotOf(st, s)), congested);
          assert replied.conns == st.conns && replied.subscribers == st.subscribers && s in st.subscribers;
          hide Write, AllRepresent, Linked, OnlyErrors;
          RegisterLists(replied, EnsureBuffers(replied, s), d, s, c, stale);
        } else {
          WriteTouchesNoTable(st, {d}, ErrorFrame(UnknownSession), congested);
          hide Write;
          ListsElsewhere(st, next, c, stale);
        }
      case Unsubscribe(s) =>
        var left := Unregister(st, d, s);
        WriteTouchesNoTable(left, {d}, UnsubscribedFrame(s), congested);
        UnregisterLists(st, d, s, c, stale);
        hide Write, Unregister;
        ListsElsewhere(left, next, c, if d == c then stale - {s} else stale);
      case Create(s, spawned) => CreateLists(st, d, s, spawned, congested, c, stale);
      case List =>
        WriteTouchesNoTable(st, {d}, SessionsFrame(st.sessions.Keys), congested);
        hide Write;
        ListsElsewhere(st, next, c, stale);
      case Control(s) =>
        WriteTouchesNoTable(st, {d}, ErrorFrame(UnknownSession), congested);
        hide Write;
        ListsElsewhere(st, next, c, stale);
    }
  }

  lemma RegisterLists(st: State, ready: State, d: ConnId, s: SessionId, c: ConnId, stale: set<SessionId>)
    requires Lists(st, c, stale) && ready.conns == st.conns && ready.subscribers == st.subscribers
    requires d in st.conns && s in st.subscribers
    ensures Lists(Register(ready, d, s), c, if d == c then stale - {s} else stale)
  {
    var next := Register(ready, d, s);
    assert SubscribedTo(next, c) == SubscribedTo(st, c) + if d == c then {s} else {};
  }

  lemma UnregisterLists(st: State, d: ConnId, s: SessionId, c: ConnId, stale: set<SessionId>)
    requires Lists(st, c, stale) && d in st.conns
    ensures Lists(Unregister(st, d, s), c, if d == c then stale - {s} else stale)
  {
    var next := Unregister(st, d, s);
    assert SubscribedTo(next, c) == SubscribedTo(st, c) - if d == c then {s} else {};
  }

  lemma CreateLists(st: State, d: ConnId, s: SessionId, spawned: bool, congested: set<ConnId>, c: ConnId, stale: set<SessionId>)
    requires Rings(st) && Lists(st, c, stale) && d in st.conns
    ensures Lists(Serve(st, d, Create(s, spawned), congested), c, stale)
  {
    var next := Serve(st, d, Create(s, spawned), congested);
    if s in st.sessions || !spawned {
      WriteTouchesNoTable(st, {d}, ErrorFrame(SpawnFailed), congested);
      hide Write;
      ListsElsewhere(st, next, c, stale);
    } else {
      var known := Admit(st, s);
      var told := Write(known, Authenticated(st), CreatedFrame(s), congested);
      WriteTouchesNoTable(known, Authenticated(st), CreatedFrame(s), congested);
      WriteTouchesNoTable(told, {d}, CreatedFrame(s), congested);
      assert s !in st.subscribers && known.subscribers == st.subscribers[s := {}] && known.conns == st.conns;
      hide Write, Admit, AllRepresent;
      assert SubscribedTo(next, c) == SubscribedTo(st, c);
    }
  }

  lemma RemovedLists(st: State, s: SessionId, congested: set<ConnId>, c: ConnId, stale: set<SessionId>)
    requires Rings(st) && Lists(st, c, stale)
    ensures var e := Event(Removed(s), congested);
            Lists(Step(st, e), c, StaleAfter(st, stale, e, c))
  {
    if s in st.sessions && st.sessions[s] {
      var gone := Forget(st, s);
      WriteTouchesNoTable(gone, Authenticated(st), RemovedFrame(s), congested);
      hide Write, AllRepresent;
      assert SubscribedTo(gone, c) == SubscribedTo(st, c) - {s};
      assert c in SubscribersOf(st, s) <==> s in SubscribedTo(st, c);
    }
  }

  lemma ConnectionLists(st: State, e: Event, c: ConnId, stale: set<SessionId>)
    requires Inv(st) && Lists(st, c, stale) && (e.action.Connect? || e.action.Close?)
    ensures Lists(Step(st, e), c, StaleAfter(st, stale, e, c))
  {
    hide AllRepresent, OnlyErrors;
    var next := Step(st, e);
    match e.action {
      case Connect(d) =>
        assert c !in st.wire ==> SubscribedTo(st, c) == {} by {
          assert forall s | s in SubscribedTo(st, c) :: Linked(st, c, s);
        }
        assert SubscribedTo(next, c) == SubscribedTo(st, c);
      case Close(d) =>
        assert d != c ==> SubscribedTo(next, c) == SubscribedTo(st, c);
      case _ =>
    }
  }

  lemma QuietLists(st: State, e: Event, c: ConnId, stale: set<SessionId>)
    requires Lists(st, c, stale)
    requires e.action.Hello? || e.action.BadLine? || e.action.Data? || e.action.Exit? || e.action.Destroy?
    ensures Lists(Step(st, e), c, stale)
  {
    var next := Step(st, e);
    match e.action {
      case Hello(d, accepted) =>
        if d in st.conns {
          var known := st.(conns := st.conns[d := st.conns[d].(authenticated := true)]);
          WriteTouchesNoTable(known, {d}, HelloFrame, e.congested);
          WriteTouchesNoTable(Write(known, {d}, HelloFrame, e.congested), {d}, SessionsFrame(st.sessions.Keys), e.congested);
          WriteTouchesNoTable(st, {d}, ErrorFrame(Unauthorized), e.congested);
        }
      case BadLine(d, code) => WriteTouchesNoTable(st, {d}, ErrorFrame(code), e.congested);
      case Data(s, data) => WriteTouchesNoTable(Keep(st, s, data), SubscribersOf(st, s), OutputFrame(s, data), e.congested);
      case Exit(s) => WriteTouchesNoTable(st, SubscribersOf(st, s), ExitFrame(s), {});
      case _ =>
    }
    hide Write, Lists;
    assert next.subscribers == st.subscribers;
    ListsElsewhere(st, next, c, stale);
  }

  lemma StepLists(st: State, e: Event, c: ConnId, stale: set<SessionId>)
    requires Inv(st) && Lists(st, c, stale)
    ensures Lists(Step(st, e), c, StaleAfter(st, stale, e, c))
  {
    hide Lists, Serve, Write;
    match e.action {
      case Ask(d, r) =>
        if d in st.conns && st.conns[d].authenticated {
          ServeLists(st, d, r, e.congested, c, stale);
          assert StaleAfter(st, stale, e, c) == StaleAfter(st, stale, Event(Ask(d, r), e.congested), c);
        } else if d in st.conns {
          WriteTouchesNoTable(st, {d}, ErrorFrame(Unauthorized), e.congested);
          ListsElsewhere(st, Step(st, e), c, stale);
        }
      case Removed(s) => RemovedLists(st, s, e.congested, c, stale); hide Step;
      case Connect(d) => ConnectionLists(st, e, c, stale); hide Step;
      case Close(d) => ConnectionLists(st, e, c, stale); hide Step;
      case _ => QuietLists(st, e, c, stale); hide Step;
    }
  }

  /** The exact relation between the two tables in every run: the subscriber sets name a
      connection for a session only if it lists the session, and it lists beyond that exactly
      the stale ids. */
  lemma {:induction false} RunLists(st: State, events: seq<Event>, c: ConnId, stale: set<SessionId>)
    requires Inv(st) && Lists(st, c, stale)
    ensures Lists(Run(st, events), c, StaleRun(st, stale, events, c))
    decreases |events|
  {
    hide Step, Inv, Lists, StaleAfter;
    if events != [] {
      StepKeepsInv(st, events[0]);
      StepLists(st, events[0], c, stale);
      RunLists(Step(st, events[0]), events[1..], c, StaleAfter(st, stale, events[0], c));
    }
  }

  /** Stale ids are there: a removal takes a subscribed session out of the table alone. */
  lemma RemovalLeavesStaleId(st: State, c: ConnId, s: SessionId)
    requires Inv(st) && s in st.sessions && st.sessions[s] && c in SubscribersOf(st, s)
    ensures var next := Step(st, Event(Removed(s), {}));
            c in next.conns && s in next.conns[c].subscriptions && s !in next.subscribers
  {
    assert Linked(st, c, s);
    WriteTouchesNoTable(Forget(st, s), Authenticated(st), RemovedFrame(s), {});
    hide Write, AllRepresent;
  }
}
