/**
 The backend's registry: live sessions, updates and events waiting for a session to be
 created, tombstones of removed sessions, and the map from shell sessions to sessions.
 */
module SessionRegistry {
  import opened Wrappers
  import opened Sequences
  import opened SessionEntries

  const MAX_PENDING_TERMINAL_EVENTS_PER_SESSION: nat := 200

  datatype State<P> = State(
    sessions: map<string, Entry<P>>,
    pendingUpdates: map<string, TerminalUpdate>,
    pendingEvents: map<string, seq<TerminalEvent>>,
    removed: set<string>,
    byShell: map<string, string>)

  /** The requests that change what is modelled of the registry. A posted event carries the id
      it was resolved to, and the time of the request. A creation request carries the id it asks
      for or "", the shell session it belongs to or "", the UUID drawn if needed, and the time.
      The status of an agent report is None when it is not a known one. */
  datatype Request =
    | Update(update: TerminalUpdate)
    | Posted(event: TerminalEvent, now: int)
    | Create(requestedId: string, shellSessionId: string, uuid: string, now: int)
    | Remove(id: string)
    | Pause(id: string, now: int)
    | Touch(id: string, now: int)
    | AgentStatus(shellSessionId: string, status: Option<SessionStatus>, occurredAt: int)
    | ClientMetadata(shellSessionId: string)

  /** The newest `n`. */
  function Last<T>(n: nat, s: seq<T>): seq<T> {
    if |s| <= n then s else s[|s| - n..]
  }

  function HandleTerminalUpdate<P>(st: State<P>, u: TerminalUpdate): State<P> {
    if u.id in st.removed then st
    else if u.id in st.sessions then st.(sessions := st.sessions[u.id := UpdateTerminalState(st.sessions[u.id], u)])
    else st.(pendingUpdates := st.pendingUpdates[u.id := u])
  }

  function Waiting<P>(st: State<P>, id: string): seq<TerminalEvent> {
    if id in st.pendingEvents then st.pendingEvents[id] else []
  }

  function HandleTerminalEvent<P>(p: Parser<P>, st: State<P>, e: TerminalEvent): State<P> {
    if e.id in st.removed then st
    else if e.id in st.sessions then st.(sessions := st.sessions[e.id := UpdateTerminalEvent(p, st.sessions[e.id], e)])
    else st.(pendingEvents := st.pendingEvents[e.id := Last(MAX_PENDING_TERMINAL_EVENTS_PER_SESSION, Waiting(st, e.id) + [e])])
  }

  function EventsApplied<P>(p: Parser<P>, en: Entry<P>, events: seq<TerminalEvent>): Entry<P>
    decreases |events|
  {
    if events == [] then en else EventsApplied(p, UpdateTerminalEvent(p, en, events[0]), events[1..])
  }

  function FlushUpdates<P>(st: State<P>, id: string): State<P> {
    if id in st.pendingUpdates && id in st.sessions then
      st.(sessions := st.sessions[id := UpdateTerminalState(st.sessions[id], st.pendingUpdates[id])],
          pendingUpdates := st.pendingUpdates - {id})
    else st
  }

  function FlushEvents<P>(p: Parser<P>, st: State<P>, id: string): State<P> {
    if id in st.pendingEvents && id in st.sessions then
      st.(sessions := st.sessions[id := EventsApplied(p, st.sessions[id], st.pendingEvents[id])],
          pendingEvents := st.pendingEvents - {id})
    else st
  }

  /** `sessionManager.createSession` under a known id. */
  function Opened<P>(p: Parser<P>, st: State<P>, id: string, shellSessionId: string, now: int): State<P> {
    st.(sessions := st.sessions[id := if id in st.sessions then Recreated(p, st.sessions[id], now) else NewEntry(p, now)],
        removed := st.removed - {id},
        byShell := if shellSessionId != "" then st.byShell[shellSessionId := id] else st.byShell)
  }

  predicate Skipped<P>(st: State<P>, requestedId: string, shellSessionId: string) {
    (requestedId != "" && requestedId in st.removed) || (shellSessionId != "" && shellSessionId in st.removed)
  }

  function CreateSession<P>(p: Parser<P>, st: State<P>, requestedId: string, shellSessionId: string, uuid: string, now: int): State<P> {
    if Skipped(st, requestedId, shellSessionId) then st
    else
      var id := if requestedId != "" then requestedId else uuid;
      FlushEvents(p, FlushUpdates(Opened(p, st, id, shellSessionId, now), id), id)
  }

  function RemoveSession<P>(st: State<P>, id: string): State<P> {
    State(st.sessions - {id}, st.pendingUpdates - {id}, st.pendingEvents - {id}, st.removed + {id},
          map s | s in st.byShell && st.byShell[s] != id :: st.byShell[s])
  }

  function PauseIn<P>(st: State<P>, id: string, now: int): State<P> {
    if id in st.sessions then st.(sessions := st.sessions[id := PauseSession(st.sessions[id], now)]) else st
  }

  function TouchIn<P>(st: State<P>, id: string, now: int): State<P> {
    if id in st.sessions then st.(sessions := st.sessions[id := TouchSession(st.sessions[id], now)]) else st
  }

  /** Parsing the request of an event binds the session, if it is live, before anything else. */
  function BindIn<P>(p: Parser<P>, st: State<P>, e: TerminalEvent, now: int): State<P> {
    if e.id in st.sessions then st.(sessions := st.sessions[e.id := BindSession(p, st.sessions[e.id], e, now)]) else st
  }

  function PostTerminalEvent<P>(p: Parser<P>, st: State<P>, e: TerminalEvent, now: int): State<P> {
    HandleTerminalEvent(p, BindIn(p, st, e, now), e)
  }

  /** Finds the session of a shell session, remembering a direct hit. */
  function Resolve<P>(st: State<P>, shellSessionId: string): (State<P>, Option<string>) {
    if shellSessionId in st.byShell then (st, Some(st.byShell[shellSessionId]))
    else if shellSessionId in st.sessions then (st.(byShell := st.byShell[shellSessionId := shellSessionId]), Some(shellSessionId))
    else (st, None)
  }

  function ReportStatus<P>(st: State<P>, shellSessionId: string, status: Option<SessionStatus>, at: int): State<P> {
    var (known, id) := Resolve(st, shellSessionId);
    if id.None? || status.None? then known
    else HandleTerminalUpdate(known, TerminalUpdate(id.value, status.value, at, None, None))
  }

  function Step<P>(p: Parser<P>, st: State<P>, r: Request): State<P> {
    match r
    case Update(u) => HandleTerminalUpdate(st, u)
    case Posted(e, now) => PostTerminalEvent(p, st, e, now)
    case Create(requestedId, shellSessionId, uuid, now) => CreateSession(p, st, requestedId, shellSessionId, uuid, now)
    case Remove(id) => RemoveSession(st, id)
    case Pause(id, now) => PauseIn(st, id, now)
    case Touch(id, now) => TouchIn(st, id, now)
    case AgentStatus(shellSessionId, status, at) => ReportStatus(st, shellSessionId, status, at)
    case ClientMetadata(shellSessionId) => Resolve(st, shellSessionId).0
  }

  function Run<P>(p: Parser<P>, st: State<P>, requests: seq<Request>): State<P>
    decreases |requests|
  {
    if requests == [] then st else Run(p, Step(p, st, requests[0]), requests[1..])
  }

  /** Tombstones, live sessions and waiting queues never overlap; queues are bounded and hold
      only their own events; every shell session known belongs to a live session. */
  ghost predicate Inv<P>(st: State<P>) {
    && st.removed !! st.sessions.Keys
    && st.pendingUpdates.Keys !! st.sessions.Keys + st.removed
    && st.pendingEvents.Keys !! st.sessions.Keys + st.removed
    && (forall id | id in st.pendingUpdates :: st.pendingUpdates[id].id == id)
    && (forall id | id in st.pendingEvents ::
          && st.pendingEvents[id] != [] && |st.pendingEvents[id]| <= MAX_PENDING_TERMINAL_EVENTS_PER_SESSION
          && forall e | e in st.pendingEvents[id] :: e.id == id)
    && (forall s | s in st.byShell :: st.byShell[s] in st.sessions)
  }

  /** The backend's start: the stored sessions are live, and each is its own shell session. */
  function Started<P>(sessions: map<string, Entry<P>>): State<P> {
    State(sessions, map[], map[], {}, map id | id in sessions :: id)
  }

  /** A UUID has not been in use. */
  predicate FreshUuid<P>(st: State<P>, r: Request) {
    r.Create? ==> r.uuid !in st.removed
  }

  lemma StartedInv<P>(sessions: map<string, Entry<P>>)
    ensures Inv(Started(sessions))
  {
  }

  lemma FlushesClear<P>(p: Parser<P>, st: State<P>, id: string)
    requires id in st.sessions
    ensures var after := FlushEvents(p, FlushUpdates(st, id), id);
            && after.sessions.Keys == st.sessions.Keys && after.removed == st.removed && after.byShell == st.byShell
            && after.pendingUpdates == st.pendingUpdates - {id} && after.pendingEvents == st.pendingEvents - {id}
            && forall z | z in st.sessions && z != id :: after.sessions[z] == st.sessions[z]
  {
    hide UpdateTerminalState, EventsApplied;
  }

  /** What creating a session under `id` does to the tables. */
  lemma Created<P>(p: Parser<P>, st: State<P>, r: Request)
    requires r.Create? && !Skipped(st, r.requestedId, r.shellSessionId)
    ensures var id := if r.requestedId != "" then r.requestedId else r.uuid;
            var after := Step(p, st, r);
            && after.sessions.Keys == st.sessions.Keys + {id} && after.removed == st.removed - {id}
            && after.byShell == (if r.shellSessionId != "" then st.byShell[r.shellSessionId := id] else st.byShell)
            && after.pendingUpdates == st.pendingUpdates - {id} && after.pendingEvents == st.pendingEvents - {id}
            && forall z | z in st.sessions && z != id :: after.sessions[z] == st.sessions[z]
  {
    var id := if r.requestedId != "" then r.requestedId else r.uuid;
    hide FlushEvents, FlushUpdates, Recreated, NewEntry;
    FlushesClear(p, Opened(p, st, id, r.shellSessionId, r.now), id);
  }

  lemma CreateKeepsInv<P>(p: Parser<P>, st: State<P>, r: Request)
    requires Inv(st) && r.Create?
    ensures Inv(Step(p, st, r))
  {
    if Skipped(st, r.requestedId, r.shellSessionId) {
      assert Step(p, st, r) == st;
    } else {
      Created(p, st, r);
      hide Step;
    }
  }

  lemma EventKeepsInv<P>(p: Parser<P>, st: State<P>, e: TerminalEvent)
    requires Inv(st)
    ensures Inv(HandleTerminalEvent(p, st, e))
  {
    hide UpdateTerminalEvent;
    var queue := Last(MAX_PENDING_TERMINAL_EVENTS_PER_SESSION, Waiting(st, e.id) + [e]);
    assert forall x | x in queue :: x in Waiting(st, e.id) || x == e;
  }

  lemma BindKeepsInv<P>(p: Parser<P>, st: State<P>, e: TerminalEvent, now: int)
    requires Inv(st)
    ensures Inv(BindIn(p, st, e, now)) && BindIn(p, st, e, now).sessions.Keys == st.sessions.Keys
  {
    hide BindSession;
  }

  lemma EntryKeepsInv<P>(st: State<P>, id: string, en: Entry<P>)
    requires Inv(st) && id in st.sessions
    ensures Inv(st.(sessions := st.sessions[id := en]))
  {
  }

  lemma UpdateKeepsInv<P>(st: State<P>, u: TerminalUpdate)
    requires Inv(st)
    ensures Inv(HandleTerminalUpdate(st, u))
  {
    hide UpdateTerminalState;
    if u.id !in st.removed && u.id in st.sessions {
      EntryKeepsInv(st, u.id, UpdateTerminalState(st.sessions[u.id], u));
    }
  }

  lemma ResolveKeepsInv<P>(st: State<P>, shellSessionId: string)
    requires Inv(st)
    ensures Inv(Resolve(st, shellSessionId).0)
  {
  }

  lemma RemoveKeepsInv<P>(st: State<P>, id: string)
    requires Inv(st)
    ensures Inv(RemoveSession(st, id))
  {
  }

  lemma StepKeepsInv<P>(p: Parser<P>, st: State<P>, r: Request)
    requires Inv(st)
    ensures Inv(Step(p, st, r))
  {
    match r {
      case Create(_, _, _, _) => CreateKeepsInv(p, st, r); hide *;
      case Posted(e, now) => BindKeepsInv(p, st, e, now); EventKeepsInv(p, BindIn(p, st, e, now), e); hide *;
      case Update(u) => UpdateKeepsInv(st, u); hide *;
      case Remove(id) => RemoveKeepsInv(st, id); hide *;
      case Pause(id, now) =>
        hide Inv, PauseSession;
        if id in st.sessions {
          EntryKeepsInv(st, id, PauseSession(st.sessions[id], now));
        }
      case Touch(id, now) =>
        hide Inv, TouchSession;
        if id in st.sessions {
          EntryKeepsInv(st, id, TouchSession(st.sessions[id], now));
        }
      case AgentStatus(shellSessionId, status, at) =>
        hide Inv, HandleTerminalUpdate, Resolve;
        ResolveKeepsInv(st, shellSessionId);
        var (known, id) := Resolve(st, shellSessionId);
        if id.Some? && status.Some? {
          UpdateKeepsInv(known, TerminalUpdate(id.value, status.value, at, None, None));
        }
      case ClientMetadata(shellSessionId) => ResolveKeepsInv(st, shellSessionId); hide *;
    }
  }

  lemma {:induction false} RunKeepsInv<P>(p: Parser<P>, st: State<P>, requests: seq<Request>)
    requires Inv(st)
    ensures Inv(Run(p, st, requests))
    decreases |requests|
  {
    if requests != [] {
      StepKeepsInv(p, st, requests[0]);
      hide Step, Inv;
      RunKeepsInv(p, Step(p, st, requests[0]), requests[1..]);
    }
  }

  // ---- tombstones ----

  /** The UUIDs a run draws for new sessions are not among the removed ids. */
  predicate Draws<P>(p: Parser<P>, st: State<P>, requests: seq<Request>)
    decreases |requests|
  {
    requests == [] || (FreshUuid(st, requests[0]) && Draws(p, Step(p, st, requests[0]), requests[1..]))
  }

  lemma RemovedStep<P>(p: Parser<P>, st: State<P>, r: Request)
    requires FreshUuid(st, r)
    ensures st.removed <= Step(p, st, r).removed
  {
    if r.Create? && !Skipped(st, r.requestedId, r.shellSessionId) {
      Created(p, st, r);
      hide Step;
    } else {
      hide UpdateTerminalState, UpdateTerminalEvent, BindSession, PauseSession;
    }
  }

  /** A removed id is never live again, and nothing waits for it, whatever is requested later. */
  lemma {:induction false} RemovedForever<P>(p: Parser<P>, st: State<P>, requests: seq<Request>, id: string)
    requires Inv(st) && id in st.removed && Draws(p, st, requests)
    ensures var end := Run(p, st, requests);
            id in end.removed && id !in end.sessions && id !in end.pendingUpdates && id !in end.pendingEvents
    decreases |requests|
  {
    if requests != [] {
      StepKeepsInv(p, st, requests[0]);
      RemovedStep(p, st, requests[0]);
      hide Step, Inv, FreshUuid;
      RemovedForever(p, Step(p, st, requests[0]), requests[1..], id);
    }
  }

  /** So it stays removed for the rest of the backend's life. */
  lemma RemoveIsFinal<P>(p: Parser<P>, sessions: map<string, Entry<P>>, before: seq<Request>, id: string, after: seq<Request>)
    requires Draws(p, Run(p, Started(sessions), before + [Remove(id)]), after)
    ensures var end := Run(p, Run(p, Started(sessions), before + [Remove(id)]), after);
            id !in end.sessions && id !in end.pendingUpdates && id !in end.pendingEvents && id !in end.byShell.Values
  {
    var st := Run(p, Started(sessions), before);
    StartedInv(sessions);
    RunSnoc(p, Started(sessions), before, Remove(id));
    RunKeepsInv(p, Started(sessions), before);
    StepKeepsInv(p, st, Remove(id));
    var gone := Step(p, st, Remove(id));
    assert id in gone.removed;
    hide Step;
    RemovedForever(p, gone, after, id);
    RunKeepsInv(p, gone, after);
  }

  lemma {:induction false} RunSnoc<P>(p: Parser<P>, st: State<P>, requests: seq<Request>, r: Request)
    ensures Run(p, st, requests + [r]) == Step(p, Run(p, st, requests), r)
    decreases |requests|
  {
    hide Step;
    if requests == [] {
      assert [r][1..] == [];
    } else {
      assert (requests + [r])[1..] == requests[1..] + [r];
      RunSnoc(p, Step(p, st, requests[0]), requests[1..], r);
    }
  }

  // ---- queueing ----

  /** The events for one session among the requests, in order of arrival. */
  function EventsFor(requests: seq<Request>, id: string): seq<TerminalEvent> {
    if requests == [] then []
    else (if requests[0].Posted? && requests[0].event.id == id then [requests[0].event] else []) + EventsFor(requests[1..], id)
  }

  lemma LastSnoc<T>(n: nat, all: seq<T>, x: T)
    requires n > 0
    ensures Last(n, Last(n, all) + [x]) == Last(n, all + [x])
  {
  }

  lemma {:induction false} EventsForSnoc(requests: seq<Request>, r: Request, id: string)
    ensures EventsFor(requests + [r], id)
         == EventsFor(requests, id) + if r.Posted? && r.event.id == id then [r.event] else []
  {
    if requests == [] {
      assert [r][1..] == [];
    } else {
      assert (requests + [r])[1..] == requests[1..] + [r];
      EventsForSnoc(requests[1..], r, id);
    }
  }

  lemma CreateKeepsQueues<P>(p: Parser<P>, st: State<P>, r: Request, id: string)
    requires r.Create? && id !in Step(p, st, r).sessions && id !in Step(p, st, r).removed
    ensures id !in st.sessions && id !in st.removed && Waiting(Step(p, st, r), id) == Waiting(st, id)
  {
    if Skipped(st, r.requestedId, r.shellSessionId) {
      assert Step(p, st, r) == st;
    } else {
      Created(p, st, r);
      hide Step;
    }
  }

  lemma PostKeepsQueues<P>(p: Parser<P>, st: State<P>, e: TerminalEvent, now: int, id: string)
    requires id !in st.sessions && id !in st.removed
    ensures var next := PostTerminalEvent(p, st, e, now);
            && next.sessions.Keys == st.sessions.Keys && next.removed == st.removed
            && Waiting(next, id) == if e.id == id then Last(MAX_PENDING_TERMINAL_EVENTS_PER_SESSION, Waiting(st, id) + [e]) else Waiting(st, id)
  {
    hide Last, UpdateTerminalEvent, BindSession;
  }

  lemma UpdateKeepsQueues<P>(st: State<P>, u: TerminalUpdate, id: string)
    ensures var next := HandleTerminalUpdate(st, u);
            next.sessions.Keys == st.sessions.Keys && next.removed == st.removed && Waiting(next, id) == Waiting(st, id)
  {
    hide UpdateTerminalState;
  }

  lemma ResolveKeepsQueues<P>(st: State<P>, shellSessionId: string, id: string)
    ensures var next := Resolve(st, shellSessionId).0;
            next.sessions == st.sessions && next.removed == st.removed && Waiting(next, id) == Waiting(st, id)
  {
  }

  /** Requests other than creations and posts leave the queue of an id alone that is not removed. */
  lemma OthersKeepQueues<P>(p: Parser<P>, st: State<P>, r: Request, id: string)
    requires !r.Create? && !r.Posted?
    ensures var next := Step(p, st, r);
            && next.sessions.Keys <= st.sessions.Keys && st.removed <= next.removed
            && (id in st.sessions ==> id in next.sessions || id in next.removed)
            && (id !in next.removed ==> Waiting(next, id) == Waiting(st, id))
  {
    hide HandleTerminalUpdate, Resolve, PauseSession, TouchSession;
    match r {
      case Update(u) => UpdateKeepsQueues(st, u, id); hide Waiting;
      case AgentStatus(shellSessionId, status, at) =>
        hide Waiting;
        ResolveKeepsQueues(st, shellSessionId, id);
        var (known, found) := Resolve(st, shellSessionId);
        if found.Some? && status.Some? {
          UpdateKeepsQueues(known, TerminalUpdate(found.value, status.value, at, None, None), id);
        }
      case ClientMetadata(shellSessionId) => ResolveKeepsQueues(st, shellSessionId, id); hide Waiting;
      case _ =>
    }
  }

  lemma PostKeepsKeys<P>(p: Parser<P>, st: State<P>, e: TerminalEvent, now: int)
    ensures var next := PostTerminalEvent(p, st, e, now);
            next.sessions.Keys == st.sessions.Keys && next.removed == st.removed
  {
    hide Last, UpdateTerminalEvent, BindSession;
  }

  /** One request leaves the queue of an id that stays unknown alone, or adds its own event. */
  lemma QueueStep<P>(p: Parser<P>, st: State<P>, r: Request, id: string)
    requires id !in Step(p, st, r).sessions && id !in Step(p, st, r).removed
    ensures id !in st.sessions && id !in st.removed
    ensures Waiting(Step(p, st, r), id) == if r.Posted? && r.event.id == id
                                           then Last(MAX_PENDING_TERMINAL_EVENTS_PER_SESSION, Waiting(st, id) + [r.event])
                                           else Waiting(st, id)
  {
    hide Last, Waiting, PostTerminalEvent, CreateSession;
    if r.Create? {
      CreateKeepsQueues(p, st, r, id);
    } else if r.Posted? {
      PostKeepsKeys(p, st, r.event, r.now);
      PostKeepsQueues(p, st, r.event, r.now, id);
    } else {
      OthersKeepQueues(p, st, r, id);
      hide Step;
    }
  }

  /** Until its session is created, an id has waiting exactly the last 200 events that arrived for it. */
  lemma {:induction false} QueueIsLast200<P>(p: Parser<P>, sessions: map<string, Entry<P>>, requests: seq<Request>, id: string)
    requires Draws(p, Started(sessions), requests)
    requires var end := Run(p, Started(sessions), requests); id !in end.sessions && id !in end.removed
    ensures Waiting(Run(p, Started(sessions), requests), id) == Last(MAX_PENDING_TERMINAL_EVENTS_PER_SESSION, EventsFor(requests, id))
    decreases |requests|
  {
    if requests != [] {
      var before, r := requests[..|requests| - 1], requests[|requests| - 1];
      assert requests == before + [r];
      var start := Started(sessions);
      var st := Run(p, start, before);
      RunSnoc(p, start, before, r);
      StartedInv(sessions);
      RunKeepsInv(p, start, before);
      DrawsPrefix(p, start, before, r);
      QueueStep(p, st, r, id);
      RemovedStep(p, st, r);
      EventsForSnoc(before, r, id);
      hide Step, Inv, Draws, Run, FreshUuid, EventsFor;
      QueueIsLast200(p, sessions, before, id);
      if r.Posted? && r.event.id == id {
        LastSnoc(MAX_PENDING_TERMINAL_EVENTS_PER_SESSION, EventsFor(before, id), r.event);
      }
    }
  }

  lemma {:induction false} DrawsPrefix<P>(p: Parser<P>, st: State<P>, requests: seq<Request>, r: Request)
    requires Draws(p, st, requests + [r])
    ensures Draws(p, st, requests) && FreshUuid(Run(p, st, requests), r)
    decreases |requests|
  {
    hide Step, FreshUuid;
    if requests != [] {
      assert (requests + [r])[1..] == requests[1..] + [r];
      DrawsPrefix(p, Step(p, st, requests[0]), requests[1..], r);
    }
  }

  // ---- queueing before creation against delivery after it ----

  /** The update that arrived last among the requests, as a request; it need not be the newest. */
  function LastUpdate(requests: seq<Request>): seq<Request> {
    if requests == [] then []
    else if requests[|requests| - 1].Update? then [requests[|requests| - 1]]
    else LastUpdate(requests[..|requests| - 1])
  }

  predicate DeliversTo(requests: seq<Request>, id: string) {
    forall r | r in requests :: (r.Update? && r.update.id == id) || (r.Posted? && r.event.id == id)
  }

  ghost predicate Unknown<P>(st: State<P>, id: string) {
    id !in st.sessions && id !in st.removed && id !in st.pendingUpdates && id !in st.pendingEvents
  }

  function Queued<P>(st: State<P>, id: string, update: seq<Request>, events: seq<TerminalEvent>): State<P>
    requires update != [] ==> update[0].Update?
  {
    st.(pendingUpdates := if update == [] then st.pendingUpdates else st.pendingUpdates[id := update[0].update],
        pendingEvents := if events == [] then st.pendingEvents
                         else st.pendingEvents[id := Last(MAX_PENDING_TERMINAL_EVENTS_PER_SESSION, events)])
  }

  lemma QueuedSnoc<P>(p: Parser<P>, st: State<P>, id: string, update: seq<Request>, events: seq<TerminalEvent>, r: Request)
    requires Unknown(st, id) && (update != [] ==> update[0].Update?)
    requires (r.Update? && r.update.id == id) || (r.Posted? && r.event.id == id)
    ensures Step(p, Queued(st, id, update, events), r)
         == if r.Update? then Queued(st, id, [r], events) else Queued(st, id, update, events + [r.event])
  {
    hide Last, UpdateTerminalState, UpdateTerminalEvent, BindSession;
    if r.Posted? {
      var q, e := Queued(st, id, update, events), r.event;
      assert BindIn(p, q, e, r.now) == q;
      LastSnoc(MAX_PENDING_TERMINAL_EVENTS_PER_SESSION, events, e);
      assert [] + [e] == [e];
      assert events == [] ==> Waiting(q, id) == [];
      LastFew(MAX_PENDING_TERMINAL_EVENTS_PER_SESSION, [e]);
      hide BindIn;
    }
  }

  lemma LastFew<T>(n: nat, s: seq<T>)
    requires |s| <= n
    ensures Last(n, s) == s
  {
  }

  /** For an unknown session, deliveries do nothing but queue. */
  lemma {:induction false} DeliveriesQueue<P>(p: Parser<P>, st: State<P>, id: string, requests: seq<Request>)
    requires Unknown(st, id) && DeliversTo(requests, id)
    ensures LastUpdate(requests) != [] ==> LastUpdate(requests)[0].Update? && LastUpdate(requests)[0].update.id == id
    ensures Run(p, st, requests) == Queued(st, id, LastUpdate(requests), EventsFor(requests, id))
    decreases |requests|
  {
    if requests != [] {
      var before, r := requests[..|requests| - 1], requests[|requests| - 1];
      assert requests == before + [r] && r in requests;
      assert DeliversTo(before, id) by { assert forall x | x in before :: x in requests; }
      RunSnoc(p, st, before, r);
      EventsForSnoc(before, r, id);
      assert LastUpdate(requests) == if r.Update? then [r] else LastUpdate(before);
      assert EventsFor(before, id) + [] == EventsFor(before, id);
      hide Run, Step, Queued, Unknown, EventsFor, LastUpdate;
      DeliveriesQueue(p, st, id, before);
      QueuedSnoc(p, st, id, LastUpdate(before), EventsFor(before, id), r);
    }
  }

  /** A live entry after some posts for it. */
  function EventsPosted<P>(p: Parser<P>, en: Entry<P>, posts: seq<Request>): Entry<P>
    requires forall r | r in posts :: r.Posted?
    decreases |posts|
  {
    if posts == [] then en else EventsPosted(p, PostEvent(p, en, posts[0].event, posts[0].now), posts[1..])
  }

  lemma PostLive<P>(p: Parser<P>, st: State<P>, e: TerminalEvent, now: int)
    requires e.id in st.sessions && e.id !in st.removed
    ensures Step(p, st, Posted(e, now)) == st.(sessions := st.sessions[e.id := PostEvent(p, st.sessions[e.id], e, now)])
  {
    var bound := BindSession(p, st.sessions[e.id], e, now);
    hide BindSession, UpdateTerminalEvent;
    assert st.sessions[e.id := bound][e.id := UpdateTerminalEvent(p, bound, e)] == st.sessions[e.id := UpdateTerminalEvent(p, bound, e)];
  }

  lemma {:induction false} PostsApply<P>(p: Parser<P>, st: State<P>, id: string, posts: seq<Request>)
    requires id in st.sessions && id !in st.removed && forall r | r in posts :: r.Posted? && r.event.id == id
    ensures Run(p, st, posts) == st.(sessions := st.sessions[id := EventsPosted(p, st.sessions[id], posts)])
    decreases |posts|
  {
    if posts == [] {
      assert st.sessions[id := st.sessions[id]] == st.sessions;
    } else {
      var r, rest := posts[0], posts[1..];
      assert r in posts && r == Posted(r.event, r.now);
      PostLive(p, st, r.event, r.now);
      hide Step, PostEvent;
      var next := Step(p, st, r);
      PostsApply(p, next, id, rest);
      var en := EventsPosted(p, next.sessions[id], rest);
      assert next.sessions[id := en] == st.sessions[id := en];
    }
  }

  /** The entry a created session has once all that waited for it is applied. */
  function Caught<P>(p: Parser<P>, en: Entry<P>, update: seq<Request>, events: seq<TerminalEvent>): Entry<P>
    requires update != [] ==> update[0].Update?
  {
    EventsApplied(p, if update == [] then en else UpdateTerminalState(en, update[0].update), events)
  }

  lemma FlushesApply<P>(p: Parser<P>, st: State<P>, id: string)
    requires id in st.sessions
    ensures var en := if id in st.pendingUpdates then UpdateTerminalState(st.sessions[id], st.pendingUpdates[id]) else st.sessions[id];
            FlushEvents(p, FlushUpdates(st, id), id)
            == st.(sessions := st.sessions[id := EventsApplied(p, en, Waiting(st, id))],
                   pendingUpdates := st.pendingUpdates - {id}, pendingEvents := st.pendingEvents - {id})
  {
    hide UpdateTerminalState, UpdateTerminalEvent;
    var mid := FlushUpdates(st, id);
    assert id !in st.pendingUpdates ==> st.pendingUpdates - {id} == st.pendingUpdates;
    assert mid.pendingUpdates == st.pendingUpdates - {id} && mid.pendingEvents == st.pendingEvents;
    assert id !in st.pendingEvents ==> st.pendingEvents - {id} == st.pendingEvents;
    assert EventsApplied(p, mid.sessions[id], []) == mid.sessions[id];
    hide EventsApplied;
    var after := FlushEvents(p, mid, id);
    var en := EventsApplied(p, mid.sessions[id], Waiting(st, id));
    assert after.sessions == st.sessions[id := en];
  }

  lemma OpenedQueue<P>(p: Parser<P>, st: State<P>, c: Request, update: seq<Request>, events: seq<TerminalEvent>)
    requires c.Create? && Unknown(st, c.requestedId) && |update| <= 1 && (update != [] ==> update[0].Update?)
    ensures var id := c.requestedId;
            var live := Opened(p, Queued(st, id, update, events), id, c.shellSessionId, c.now);
            && live.sessions == st.sessions[id := NewEntry(p, c.now)] && live.removed == st.removed
            && live.byShell == (if c.shellSessionId != "" then st.byShell[c.shellSessionId := id] else st.byShell)
            && live.pendingUpdates - {id} == st.pendingUpdates && live.pendingEvents - {id} == st.pendingEvents
            && (id in live.pendingUpdates <==> update != []) && (update != [] ==> live.pendingUpdates[id] == update[0].update)
            && Waiting(live, id) == Last(MAX_PENDING_TERMINAL_EVENTS_PER_SESSION, events)
  {
    assert events == [] ==> Last(MAX_PENDING_TERMINAL_EVENTS_PER_SESSION, events) == [];
    hide Last, NewEntry, Recreated;
    assert st.removed - {c.requestedId} == st.removed;
  }

  lemma CreateAfterQueue<P>(p: Parser<P>, st: State<P>, c: Request, update: seq<Request>, events: seq<TerminalEvent>)
    requires c.Create? && Unknown(st, c.requestedId) && c.requestedId != "" && !Skipped(st, c.requestedId, c.shellSessionId)
    requires |update| <= 1 && (update != [] ==> update[0].Update? && update[0].update.id == c.requestedId)
    ensures var id := c.requestedId;
            Step(p, Queued(st, id, update, events), c)
            == st.(sessions := st.sessions[id := Caught(p, NewEntry(p, c.now), update, Last(MAX_PENDING_TERMINAL_EVENTS_PER_SESSION, events))],
                   byShell := if c.shellSessionId != "" then st.byShell[c.shellSessionId := id] else st.byShell)
  {
    var id, q := c.requestedId, Queued(st, c.requestedId, update, events);
    assert Skipped(q, c.requestedId, c.shellSessionId) == Skipped(st, c.requestedId, c.shellSessionId);
    var live := Opened(p, q, id, c.shellSessionId, c.now);
    OpenedQueue(p, st, c, update, events);
    var en := Caught(p, NewEntry(p, c.now), update, Last(MAX_PENDING_TERMINAL_EVENTS_PER_SESSION, events));
    hide Last, NewEntry, UpdateTerminalState, EventsApplied, FlushUpdates, FlushEvents, Opened, Queued, Unknown, Skipped, Waiting;
    FlushesApply(p, live, id);
    assert live.sessions[id := en] == st.sessions[id := en];
  }

  lemma CreateFirst<P>(p: Parser<P>, st: State<P>, c: Request)
    requires c.Create? && Unknown(st, c.requestedId) && c.requestedId != "" && !Skipped(st, c.requestedId, c.shellSessionId)
    ensures Step(p, st, c) == st.(sessions := st.sessions[c.requestedId := NewEntry(p, c.now)],
                                  byShell := if c.shellSessionId != "" then st.byShell[c.shellSessionId := c.requestedId] else st.byShell)
  {
    CreateAfterQueue(p, st, c, [], []);
    hide NewEntry;
    assert Queued(st, c.requestedId, [], []) == st;
  }

  /** The state in which a session has been created and has caught up. */
  function CaughtUp<P>(p: Parser<P>, st: State<P>, c: Request, update: seq<Request>, events: seq<TerminalEvent>): State<P>
    requires c.Create? && (update != [] ==> update[0].Update?)
  {
    st.(sessions := st.sessions[c.requestedId := Caught(p, NewEntry(p, c.now), update, events)],
        byShell := if c.shellSessionId != "" then st.byShell[c.shellSessionId := c.requestedId] else st.byShell)
  }

  /** What becomes of early deliveries: the created session is in the state to which the
      update that arrived last and then the last 200 events, applied when the queues are
      flushed, take a new entry; no other table remembers them. */
  lemma QueueThenCreate<P>(p: Parser<P>, st: State<P>, c: Request, requests: seq<Request>)
    requires c.Create? && Unknown(st, c.requestedId) && c.requestedId != "" && !Skipped(st, c.requestedId, c.shellSessionId)
    requires DeliversTo(requests, c.requestedId)
    ensures LastUpdate(requests) != [] ==> LastUpdate(requests)[0].Update? && LastUpdate(requests)[0].update.id == c.requestedId
    ensures Run(p, st, requests + [c])
         == CaughtUp(p, st, c, LastUpdate(requests), Last(MAX_PENDING_TERMINAL_EVENTS_PER_SESSION, EventsFor(requests, c.requestedId)))
  {
    hide Run, Step, Last, LastUpdate, EventsFor, Unknown, Skipped, Queued, Caught, NewEntry, DeliversTo;
    RunSnoc(p, st, requests, c);
    DeliveriesQueue(p, st, c.requestedId, requests);
    LastUpdateOne(requests);
    CreateAfterQueue(p, st, c, LastUpdate(requests), EventsFor(requests, c.requestedId));
  }

  /** And of late ones: each post first binds the live session. */
  lemma CreateThenPost<P>(p: Parser<P>, st: State<P>, c: Request, update: seq<Request>, posts: seq<Request>)
    requires c.Create? && Unknown(st, c.requestedId) && c.requestedId != "" && !Skipped(st, c.requestedId, c.shellSessionId)
    requires |update| <= 1 && (update != [] ==> update[0].Update? && update[0].update.id == c.requestedId)
    requires forall r | r in posts :: r.Posted? && r.event.id == c.requestedId
    ensures var en := if update == [] then NewEntry(p, c.now) else UpdateTerminalState(NewEntry(p, c.now), update[0].update);
            Run(p, Run(p, Step(p, st, c), update), posts)
            == Step(p, st, c).(sessions := st.sessions[c.requestedId := EventsPosted(p, en, posts)])
  {
    assert c.requestedId !in st.removed;
    hide Run, Step, Unknown, Skipped, NewEntry, UpdateTerminalState, EventsPosted;
    CreateFirst(p, st, c);
    var made, id := Step(p, st, c), c.requestedId;
    assert made.sessions == st.sessions[id := NewEntry(p, c.now)] && made.removed == st.removed;
    LatePosts(p, made, id, update, posts);
    var en := if update == [] then NewEntry(p, c.now) else UpdateTerminalState(NewEntry(p, c.now), update[0].update);
    SetTwice(st.sessions, id, NewEntry(p, c.now), EventsPosted(p, en, posts));
  }

  lemma SetTwice<K, V>(m: map<K, V>, k: K, v: V, w: V)
    ensures m[k := v][k := w] == m[k := w]
  {
  }

  lemma LatePosts<P>(p: Parser<P>, st: State<P>, id: string, update: seq<Request>, posts: seq<Request>)
    requires id in st.sessions && id !in st.removed
    requires |update| <= 1 && (update != [] ==> update[0].Update? && update[0].update.id == id)
    requires forall r | r in posts :: r.Posted? && r.event.id == id
    ensures var en := if update == [] then st.sessions[id] else UpdateTerminalState(st.sessions[id], update[0].update);
            Run(p, Run(p, st, update), posts) == st.(sessions := st.sessions[id := EventsPosted(p, en, posts)])
  {
    hide Run, UpdateTerminalState, EventsPosted;
    UpdateApplies(p, st, id, update);
    var mid := Run(p, st, update);
    PostsApply(p, mid, id, posts);
    SetTwice(st.sessions, id, mid.sessions[id], EventsPosted(p, mid.sessions[id], posts));
  }

  /** The events of some posts. */
  function EventsOf(posts: seq<Request>): seq<TerminalEvent>
    requires forall r | r in posts :: r.Posted?
  {
    if posts == [] then [] else [posts[0].event] + EventsOf(posts[1..])
  }

  /** In order and with nothing after a disconnection, posting is handling. */
  lemma {:induction false} PostedIsApplied<P(!new)>(p: Parser<P>, en: Entry<P>, posts: seq<Request>)
    requires Plausible(p) && (forall r | r in posts :: r.Posted?) && Orderly(EventsOf(posts), en.lastTerminalUpdateAt)
    requires posts != [] ==> en.status != Detached
    ensures EventsPosted(p, en, posts) == EventsApplied(p, en, EventsOf(posts))
    decreases |posts|
  {
    if posts != [] {
      var r, rest, events := posts[0], posts[1..], EventsOf(posts);
      assert r in posts && events[0] == r.event && events[1..] == EventsOf(rest);
      EventsCount(rest);
      PostingSame(p, en, r.event, r.now);
      OrderlyStep(p, en, r.event);
      hide PostEvent, UpdateTerminalEvent, Plausible, EventsOf;
      PostedIsApplied(p, UpdateTerminalEvent(p, en, r.event), rest);
    }
  }

  lemma {:induction false} EventsCount(posts: seq<Request>)
    requires forall r | r in posts :: r.Posted?
    ensures |EventsOf(posts)| == |posts|
    ensures forall i | 0 <= i < |posts| :: EventsOf(posts)[i] == posts[i].event
  {
    if posts != [] {
      EventsCount(posts[1..]);
      assert EventsOf(posts) == [posts[0].event] + EventsOf(posts[1..]);
    }
  }

  /** The posts for one session among the requests. */
  function PostsFor(requests: seq<Request>, id: string): seq<Request> {
    if requests == [] then []
    else (if requests[0].Posted? && requests[0].event.id == id then [requests[0]] else []) + PostsFor(requests[1..], id)
  }

  lemma {:induction false} PostsAndEvents(requests: seq<Request>, id: string)
    ensures forall r | r in PostsFor(requests, id) :: r.Posted? && r.event.id == id
    ensures EventsOf(PostsFor(requests, id)) == EventsFor(requests, id)
  {
    if requests != [] {
      PostsAndEvents(requests[1..], id);
      var r, rest := requests[0], PostsFor(requests[1..], id);
      if r.Posted? && r.event.id == id {
        assert ([r] + rest)[0] == r && ([r] + rest)[1..] == rest;
      } else {
        assert PostsFor(requests, id) == rest && EventsFor(requests, id) == EventsFor(requests[1..], id);
      }
    }
  }

  lemma LastEvents(n: nat, posts: seq<Request>)
    requires forall r | r in posts :: r.Posted?
    ensures (forall r | r in Last(n, posts) :: r in posts) && EventsOf(Last(n, posts)) == Last(n, EventsOf(posts))
  {
    EventsCount(posts);
    EventsCount(Last(n, posts));
    hide EventsOf;
    var a, b := EventsOf(Last(n, posts)), Last(n, EventsOf(posts));
    assert |a| == |b|;
    assert forall i | 0 <= i < |a| :: a[i] == b[i];
  }

  /** The time and status from which the queued events go on. */
  function Since(update: seq<Request>): int
    requires update != [] ==> update[0].Update?
  {
    if update != [] && update[0].update.occurredAt > 0 then update[0].update.occurredAt else 0
  }

  lemma SinceIsLast<P>(p: Parser<P>, now: int, u: TerminalUpdate)
    ensures var en := UpdateTerminalState(NewEntry(p, now), u);
            && en.lastTerminalUpdateAt == Since([Update(u)])
            && (en.status == Detached ==> u.status == Detached)
  {
  }

  /** Early or late: deliveries before the creation and the same update and last 200 posts
      after it end in one state, all tables included, when those events are in order from the
      update on and none follows a disconnection. */
  lemma EarlyOrLate<P(!new)>(p: Parser<P>, st: State<P>, c: Request, requests: seq<Request>)
    requires c.Create? && Unknown(st, c.requestedId) && c.requestedId != "" && !Skipped(st, c.requestedId, c.shellSessionId)
    requires DeliversTo(requests, c.requestedId) && Plausible(p)
    requires forall u | u in LastUpdate(requests) :: u.Update? && (u.update.status == Detached ==> EventsFor(requests, c.requestedId) == [])
    requires Orderly(Last(MAX_PENDING_TERMINAL_EVENTS_PER_SESSION, EventsFor(requests, c.requestedId)), Since(LastUpdate(requests)))
    ensures Run(p, st, requests + [c])
         == Run(p, Run(p, Step(p, st, c), LastUpdate(requests)),
                Last(MAX_PENDING_TERMINAL_EVENTS_PER_SESSION, PostsFor(requests, c.requestedId)))
  {
    var id, update, posts := c.requestedId, LastUpdate(requests), PostsFor(requests, c.requestedId);
    var last := Last(MAX_PENDING_TERMINAL_EVENTS_PER_SESSION, posts);
    assert update != [] ==> update[0] in update;
    PostsAndEvents(requests, id);
    LastEvents(MAX_PENDING_TERMINAL_EVENTS_PER_SESSION, posts);
    EventsCount(posts);
    LastUpdateOne(requests);
    assert posts == [] ==> last == [];
    if update != [] {
      SinceIsLast(p, c.now, update[0].update);
      assert update == [Update(update[0].update)];
    }
    var en := if update == [] then NewEntry(p, c.now) else UpdateTerminalState(NewEntry(p, c.now), update[0].update);
    assert en.lastTerminalUpdateAt == Since(update) && (last != [] ==> en.status != Detached);
    hide *;
    QueueThenCreate(p, st, c, requests);
    CreateThenPost(p, st, c, update, last);
    PostedIsApplied(p, en, last);
    CreateFirst(p, st, c);
    CaughtUpIs(p, st, c, update, EventsOf(last));
  }

  lemma CaughtUpIs<P>(p: Parser<P>, st: State<P>, c: Request, update: seq<Request>, events: seq<TerminalEvent>)
    requires c.Create? && (update != [] ==> update[0].Update?)
    ensures var en := if update == [] then NewEntry(p, c.now) else UpdateTerminalState(NewEntry(p, c.now), update[0].update);
            CaughtUp(p, st, c, update, events)
            == st.(sessions := st.sessions[c.requestedId := EventsApplied(p, en, events)],
                   byShell := if c.shellSessionId != "" then st.byShell[c.shellSessionId := c.requestedId] else st.byShell)
  {
  }

  /** In particular, up to 200 orderly posts may come before or after the creation. */
  lemma EventsBeforeOrAfter<P(!new)>(p: Parser<P>, st: State<P>, c: Request, posts: seq<Request>)
    requires c.Create? && Unknown(st, c.requestedId) && c.requestedId != "" && !Skipped(st, c.requestedId, c.shellSessionId)
    requires |posts| <= MAX_PENDING_TERMINAL_EVENTS_PER_SESSION && forall r | r in posts :: r.Posted? && r.event.id == c.requestedId
    requires Plausible(p) && Orderly(EventsOf(posts), 0)
    ensures Run(p, st, posts + [c]) == Run(p, st, [c] + posts)
  {
    NoUpdate(posts);
    AllPosts(posts, c.requestedId);
    PostsAndEvents(posts, c.requestedId);
    LastFew(MAX_PENDING_TERMINAL_EVENTS_PER_SESSION, posts);
    EventsCount(posts);
    LastFew(MAX_PENDING_TERMINAL_EVENTS_PER_SESSION, EventsOf(posts));
    hide Step, Unknown, Skipped, Plausible, Orderly, EventsOf, Last;
    EarlyOrLate(p, st, c, posts);
    assert ([c] + posts)[1..] == posts;
  }

  lemma {:induction false} AllPosts(posts: seq<Request>, id: string)
    requires forall r | r in posts :: r.Posted? && r.event.id == id
    ensures PostsFor(posts, id) == posts
  {
    if posts != [] {
      assert posts[0] in posts;
      AllPosts(posts[1..], id);
      assert posts == [posts[0]] + posts[1..];
    }
  }

  lemma {:induction false} NoUpdate(requests: seq<Request>)
    requires forall r | r in requests :: !r.Update?
    ensures LastUpdate(requests) == []
  {
    if requests != [] {
      NoUpdate(requests[..|requests| - 1]);
    }
  }

  lemma {:induction false} LastUpdateOne(requests: seq<Request>)
    ensures |LastUpdate(requests)| <= 1
  {
    if requests != [] {
      LastUpdateOne(requests[..|requests| - 1]);
    }
  }

  lemma {:induction false} EventsForId(requests: seq<Request>, id: string)
    ensures forall e | e in EventsFor(requests, id) :: e.id == id
  {
    if requests != [] {
      EventsForId(requests[1..], id);
    }
  }

  lemma UpdateApplies<P>(p: Parser<P>, st: State<P>, id: string, update: seq<Request>)
    requires id in st.sessions && id !in st.removed
    requires |update| <= 1 && (update != [] ==> update[0].Update? && update[0].update.id == id)
    ensures Run(p, st, update)
         == st.(sessions := st.sessions[id := if update == [] then st.sessions[id] else UpdateTerminalState(st.sessions[id], update[0].update)])
  {
    hide UpdateTerminalState;
    if update == [] {
      assert st.sessions[id := st.sessions[id]] == st.sessions;
    } else {
      assert update[1..] == [];
    }
  }

  // ---- where early and late differ ----

  /** Two posts for a session, before or after its creation. */
  lemma TwoPosts<P>(p: Parser<P>, st: State<P>, c: Request, a: Request, b: Request)
    requires c.Create? && Unknown(st, c.requestedId) && c.requestedId != "" && !Skipped(st, c.requestedId, c.shellSessionId)
    requires a.Posted? && b.Posted? && a.event.id == b.event.id == c.requestedId
    ensures var early, late := Run(p, st, [a, b] + [c]), Run(p, st, [c] + [a, b]);
            && c.requestedId in early.sessions && c.requestedId in late.sessions
            && early.sessions[c.requestedId] == UpdateTerminalEvent(p, UpdateTerminalEvent(p, NewEntry(p, c.now), a.event), b.event)
            && late.sessions[c.requestedId] == PostEvent(p, PostEvent(p, NewEntry(p, c.now), a.event, a.now), b.event, b.now)
  {
    var posts, id := [a, b], c.requestedId;
    NoUpdate(posts);
    AllPosts(posts, id);
    PostsAndEvents(posts, id);
    EventsCount(posts);
    assert EventsOf(posts) == [a.event, b.event];
    LastFew(MAX_PENDING_TERMINAL_EVENTS_PER_SESSION, EventsOf(posts));
    AppliedTwice(p, NewEntry(p, c.now), a, b);
    hide Step, Unknown, Skipped, NewEntry, UpdateTerminalEvent, PostEvent, EventsApplied, EventsPosted, Last, EventsOf;
    QueueThenCreate(p, st, c, posts);
    CreateThenPost(p, st, c, [], posts);
    CreateFirst(p, st, c);
    CaughtUpIs(p, st, c, [], [a.event, b.event]);
    assert ([c] + posts)[1..] == posts;
  }

  lemma AppliedTwice<P>(p: Parser<P>, en: Entry<P>, a: Request, b: Request)
    requires a.Posted? && b.Posted?
    ensures EventsApplied(p, en, [a.event, b.event]) == UpdateTerminalEvent(p, UpdateTerminalEvent(p, en, a.event), b.event)
    ensures EventsPosted(p, en, [a, b]) == PostEvent(p, PostEvent(p, en, a.event, a.now), b.event, b.now)
  {
    hide UpdateTerminalEvent, PostEvent;
    assert [a, b][1..] == [b] && [b][1..] == [];
    assert [a.event, b.event][1..] == [b.event] && [b.event][1..] == [];
    var x, y := UpdateTerminalEvent(p, en, a.event), PostEvent(p, en, a.event, a.now);
    assert EventsApplied(p, x, [b.event]) == UpdateTerminalEvent(p, x, b.event);
    assert EventsPosted(p, y, [b]) == PostEvent(p, y, b.event, b.now);
  }

  /** A parser for the examples: a disconnection detaches, anything else means running. */
  const SIMPLE: Parser<int> := Parser(0, (s: int, e: TerminalEvent, status: SessionStatus) =>
    (0, Some(TerminalUpdate(e.id, if e.kind.Disconnected? then Detached else Running, e.occurredAt, None, None))))

  const NEW_SESSION: Request := Create("s", "", "u", 0)

  /** The status can differ: an event after a disconnection finds a queued session detached, and
      brings a live one back. */
  lemma LatePostRevives() returns (a: Request, b: Request)
    ensures Plausible(SIMPLE) && a.Posted? && b.Posted? && a.event.occurredAt < b.event.occurredAt
    ensures var early, late := Run(SIMPLE, Started(map[]), [a, b] + [NEW_SESSION]), Run(SIMPLE, Started(map[]), [NEW_SESSION] + [a, b]);
            && "s" in early.sessions && early.sessions["s"].status == Detached
            && "s" in late.sessions && late.sessions["s"].status == Running
  {
    a := Posted(TerminalEvent("s", Disconnected, 10, "", None, None, "", ""), 11);
    b := Posted(TerminalEvent("s", Other("terminal_capture_state"), 20, "", None, Some("capturing"), "", ""), 21);
    hide Run;
    TwoPosts(SIMPLE, Started(map[]), NEW_SESSION, a, b);
  }

  /** The binding can differ: a stale event rebinds a live session and not a queued one. */
  lemma LatePostRebinds() returns (a: Request, b: Request)
    ensures Plausible(SIMPLE) && a.Posted? && b.Posted? && a.event.occurredAt > b.event.occurredAt
    ensures var early, late := Run(SIMPLE, Started(map[]), [a, b] + [NEW_SESSION]), Run(SIMPLE, Started(map[]), [NEW_SESSION] + [a, b]);
            && "s" in early.sessions && early.sessions["s"].binding.terminalRef == a.event.terminalRef
            && "s" in late.sessions && late.sessions["s"].binding.terminalRef == b.event.terminalRef
            && a.event.terminalRef != b.event.terminalRef
  {
    a := Posted(TerminalEvent("s", Other("terminal_opened"), 10, "A", None, None, "", ""), 11);
    b := Posted(TerminalEvent("s", Other("terminal_opened"), 5, "B", None, None, "", ""), 21);
    hide Run;
    TwoPosts(SIMPLE, Started(map[]), NEW_SESSION, a, b);
  }
}
