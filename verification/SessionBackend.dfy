/**
 The backend object: the shared tables of `SessionRegistry`, changed in place by the request
 handlers, each proved to take exactly the described step and to keep the invariant.
 */
module SessionBackend {
  import opened Wrappers
  import opened SessionEntries
  import opened SessionRegistry

  class Backend<!P> {
    const parser: Parser<P>
    var sessions: map<string, Entry<P>>
    var pendingTerminalUpdates: map<string, TerminalUpdate>
    var pendingTerminalEvents: map<string, seq<TerminalEvent>>
    var removedSessionIds: set<string>
    var multitaskerSessionIdByShellSessionId: map<string, string>

    ghost function Current(): State<P>
      reads this
    {
      State(sessions, pendingTerminalUpdates, pendingTerminalEvents, removedSessionIds, multitaskerSessionIdByShellSessionId)
    }

    ghost predicate Valid()
      reads this
    {
      Inv(Current())
    }

    /** Starts with the stored sessions live, each known as its own shell session. */
    constructor (parser: Parser<P>, stored: map<string, Entry<P>>)
      ensures Valid() && Current() == Started(stored) && this.parser == parser
    {
      this.parser, sessions := parser, stored;
      pendingTerminalUpdates, pendingTerminalEvents, removedSessionIds := map[], map[], {};
      multitaskerSessionIdByShellSessionId := map id | id in stored :: id;
    }

    method ApplyUpdate(u: TerminalUpdate) returns (applied: bool)
      modifies this`sessions
      ensures applied <==> u.id in old(sessions)
      ensures sessions == if applied then old(sessions)[u.id := UpdateTerminalState(old(sessions)[u.id], u)] else old(sessions)
    {
      if u.id !in sessions {
        return false;
      }
      sessions := sessions[u.id := UpdateTerminalState(sessions[u.id], u)];
      return true;
    }

    method ApplyEvent(e: TerminalEvent) returns (applied: bool)
      modifies this`sessions
      ensures applied <==> e.id in old(sessions)
      ensures sessions == if applied then old(sessions)[e.id := UpdateTerminalEvent(parser, old(sessions)[e.id], e)] else old(sessions)
    {
      if e.id !in sessions {
        return false;
      }
      sessions := sessions[e.id := UpdateTerminalEvent(parser, sessions[e.id], e)];
      return true;
    }

    method OnTerminalUpdate(u: TerminalUpdate)
      requires Valid()
      modifies this
      ensures Valid() && Current() == HandleTerminalUpdate(old(Current()), u)
    {
      StepKeepsInv(parser, Current(), Update(u));
      hide Inv, UpdateTerminalState;
      if u.id in removedSessionIds {
        return;
      }
      var applied := ApplyUpdate(u);
      if !applied {
        pendingTerminalUpdates := pendingTerminalUpdates[u.id := u];
      }
    }

    /** `bindSessionToTerminal`, from parsing the request of an event. */
    method BindSessionToTerminal(e: TerminalEvent, now: int)
      requires Valid()
      modifies this`sessions
      ensures Valid() && Current() == BindIn(parser, old(Current()), e, now)
    {
      BindKeepsInv(parser, Current(), e, now);
      hide Inv, Bound;
      if e.id !in sessions {
        return;
      }
      var session := sessions[e.id];
      var wasDetached := session.status == Detached;
      session := session.(binding := Bound(session.binding, e));
      if wasDetached {
        session := session.(status := INITIAL_SESSION_STATUS, statusChangedAt := now);
        session := session.(exitCode := None, exitReason := None, parser := parser.initial);
      }
      sessions := sessions[e.id := session];
    }

    /** `handleTerminalEventPost`, for a request that parses to an event. */
    method OnTerminalEventPost(e: TerminalEvent, now: int)
      requires Valid()
      modifies this
      ensures Valid() && Current() == Step(parser, old(Current()), Posted(e, now))
    {
      hide Inv, BindSession, HandleTerminalEvent;
      BindSessionToTerminal(e, now);
      OnTerminalEvent(e);
    }

    method OnTerminalEvent(e: TerminalEvent)
      requires Valid()
      modifies this
      ensures Valid() && Current() == HandleTerminalEvent(parser, old(Current()), e)
    {
      EventKeepsInv(parser, Current(), e);
      if e.id in removedSessionIds {
        return;
      }
      assert e.id in pendingTerminalEvents ==> |pendingTerminalEvents[e.id]| <= MAX_PENDING_TERMINAL_EVENTS_PER_SESSION;
      hide Inv, UpdateTerminalEvent;
      var applied := ApplyEvent(e);
      if applied {
        return;
      }
      var events := (if e.id in pendingTerminalEvents then pendingTerminalEvents[e.id] else []) + [e];
      if |events| > MAX_PENDING_TERMINAL_EVENTS_PER_SESSION {
        events := events[1..];
      }
      pendingTerminalEvents := pendingTerminalEvents[e.id := events];
    }

    method FlushPendingTerminalUpdates(id: string)
      requires id in pendingTerminalUpdates ==> pendingTerminalUpdates[id].id == id
      modifies this`sessions, this`pendingTerminalUpdates
      ensures pendingTerminalEvents == old(pendingTerminalEvents)
      ensures Current() == FlushUpdates(old(Current()), id)
    {
      hide UpdateTerminalState;
      if id !in pendingTerminalUpdates {
        return;
      }
      var applied := ApplyUpdate(pendingTerminalUpdates[id]);
      if applied {
        pendingTerminalUpdates := pendingTerminalUpdates - {id};
      }
    }

    /** Applies the waiting events in order, keeping those that find no session. */
    method FlushPendingTerminalEvents(id: string)
      requires id in pendingTerminalEvents ==> forall e | e in pendingTerminalEvents[id] :: e.id == id
      requires id in pendingTerminalEvents ==> pendingTerminalEvents[id] != []
      modifies this`sessions, this`pendingTerminalEvents
      ensures Current() == FlushEvents(parser, old(Current()), id)
    {
      if id !in pendingTerminalEvents {
        return;
      }
      var events := pendingTerminalEvents[id];
      var remaining: seq<TerminalEvent> := [];
      var live := id in sessions;
      var i := 0;
      hide UpdateTerminalEvent;
      assert events[0..] == events;
      while i < |events|
        invariant 0 <= i <= |events| && pendingTerminalEvents == old(pendingTerminalEvents)
        invariant remaining == if live then [] else events[..i]
        invariant live <==> id in sessions
        invariant !live ==> sessions == old(sessions)
        invariant live ==> id in old(sessions) && sessions == old(sessions)[id := sessions[id]]
        invariant live ==> EventsApplied(parser, sessions[id], events[i..]) == EventsApplied(parser, old(sessions)[id], events)
      {
        var event := events[i];
        assert events[i..][0] == event && events[i..][1..] == events[i + 1..] && event in events;
        var applied := ApplyEvent(event);
        if !applied {
          remaining := remaining + [event];
        }
        i := i + 1;
      }
      assert events[i..] == [] && events[..i] == events;
      if remaining == [] {
        pendingTerminalEvents := pendingTerminalEvents - {id};
      } else {
        pendingTerminalEvents := pendingTerminalEvents[id := remaining];
      }
    }

    method Open(id: string, shellSessionId: string, now: int)
      modifies this`sessions, this`removedSessionIds, this`multitaskerSessionIdByShellSessionId
      ensures Current() == Opened(parser, old(Current()), id, shellSessionId, now)
    {
      hide Recreated, NewEntry;
      sessions := sessions[id := if id in sessions then Recreated(parser, sessions[id], now) else NewEntry(parser, now)];
      removedSessionIds := removedSessionIds - {id};
      if shellSessionId != "" {
        multitaskerSessionIdByShellSessionId := multitaskerSessionIdByShellSessionId[shellSessionId := id];
      }
    }

    /** `createSessionFromPayload` with a payload that parsed. */
    method OnCreate(requestedId: string, shellSessionId: string, uuid: string, now: int)
      requires Valid()
      modifies this
      ensures Valid() && Current() == Step(parser, old(Current()), Create(requestedId, shellSessionId, uuid, now))
    {
      StepKeepsInv(parser, Current(), Create(requestedId, shellSessionId, uuid, now));
      if (requestedId != "" && requestedId in removedSessionIds) || (shellSessionId != "" && shellSessionId in removedSessionIds) {
        return;
      }
      var id := if requestedId != "" then requestedId else uuid;
      hide FlushUpdates, FlushEvents, Recreated, NewEntry;
      assert id in pendingTerminalUpdates ==> pendingTerminalUpdates[id].id == id;
      assert id in pendingTerminalEvents ==> pendingTerminalEvents[id] != [] && forall e | e in pendingTerminalEvents[id] :: e.id == id;
      hide Inv;
      Open(id, shellSessionId, now);
      FlushPendingTerminalUpdates(id);
      FlushPendingTerminalEvents(id);
    }

    /** Drops the shell sessions that point at a session. */
    method DropShellEntries(id: string)
      modifies this`multitaskerSessionIdByShellSessionId
      ensures multitaskerSessionIdByShellSessionId
           == map s | s in old(multitaskerSessionIdByShellSessionId) && old(multitaskerSessionIdByShellSessionId)[s] != id
              :: old(multitaskerSessionIdByShellSessionId)[s]
    {
      ghost var was := multitaskerSessionIdByShellSessionId;
      var left := multitaskerSessionIdByShellSessionId.Keys;
      while left != {}
        invariant left <= multitaskerSessionIdByShellSessionId.Keys
        invariant forall s :: s in multitaskerSessionIdByShellSessionId <==> s in was && (s in left || was[s] != id)
        invariant forall s | s in multitaskerSessionIdByShellSessionId :: multitaskerSessionIdByShellSessionId[s] == was[s]
        decreases left
      {
        var shellId :| shellId in left;
        left := left - {shellId};
        if multitaskerSessionIdByShellSessionId[shellId] == id {
          multitaskerSessionIdByShellSessionId := multitaskerSessionIdByShellSessionId - {shellId};
        }
      }
    }

    /** `removeSessionById`: the session, what waits for it, and its shell sessions. */
    method OnRemove(id: string)
      requires Valid()
      modifies this
      ensures Valid() && Current() == RemoveSession(old(Current()), id)
    {
      StepKeepsInv(parser, Current(), Remove(id));
      hide Inv;
      sessions := sessions - {id};
      removedSessionIds := removedSessionIds + {id};
      pendingTerminalUpdates := pendingTerminalUpdates - {id};
      pendingTerminalEvents := pendingTerminalEvents - {id};
      DropShellEntries(id);
    }

    method OnPause(id: string, now: int)
      requires Valid()
      modifies this
      ensures Valid() && Current() == PauseIn(old(Current()), id, now)
    {
      StepKeepsInv(parser, Current(), Pause(id, now));
      hide Inv, PauseSession;
      if id in sessions {
        sessions := sessions[id := PauseSession(sessions[id], now)];
      }
    }

    method OnTouch(id: string, now: int)
      requires Valid()
      modifies this
      ensures Valid() && Current() == TouchIn(old(Current()), id, now)
    {
      StepKeepsInv(parser, Current(), Touch(id, now));
      hide Inv;
      if id in sessions {
        sessions := sessions[id := sessions[id].(lastActivity := now)];
      }
    }

    /** `handleAgentStatusPost`: resolve the shell session, remember a direct hit, apply. The
        result says whether a session was found. */
    method OnAgentStatus(shellSessionId: string, status: Option<SessionStatus>, occurredAt: int) returns (mapped: bool)
      requires Valid()
      modifies this
      ensures Valid() && Current() == ReportStatus(old(Current()), shellSessionId, status, occurredAt)
      ensures mapped <==> Resolve(old(Current()), shellSessionId).1.Some?
    {
      StepKeepsInv(parser, Current(), ClientMetadata(shellSessionId));
      hide Inv, HandleTerminalUpdate;
      if shellSessionId !in multitaskerSessionIdByShellSessionId {
        if shellSessionId !in sessions {
          return false;
        }
        multitaskerSessionIdByShellSessionId := multitaskerSessionIdByShellSessionId[shellSessionId := shellSessionId];
      }
      assert Current() == Resolve(old(Current()), shellSessionId).0;
      if status.Some? {
        OnTerminalUpdate(TerminalUpdate(multitaskerSessionIdByShellSessionId[shellSessionId], status.value, occurredAt, None, None));
      }
      return true;
    }
  }
}
