/**
 What the registry holds after a run, read off the requests: which terminal a session is bound
 to, which session a shell session stands for, and what a pause and a re-creation leave.
 */
module SessionHistories {
  import opened Wrappers
  import opened Sequences
  import opened SessionEntries
  import opened SessionRegistry

  // ---- the terminal a session is bound to ----

  /** The last terminal reference posted for the session. */
  function LastRef(requests: seq<Request>, id: string, held: string): string {
    if requests == [] then held
    else
      var r := requests[|requests| - 1];
      if r.Posted? && r.event.id == id && r.event.terminalRef != "" then r.event.terminalRef
      else LastRef(requests[..|requests| - 1], id, held)
  }

  /** The last process id posted for it. */
  function LastPid(requests: seq<Request>, id: string, held: Option<int>): Option<int> {
    if requests == [] then held
    else
      var r := requests[|requests| - 1];
      if r.Posted? && r.event.id == id && r.event.terminalPid.Some? then r.event.terminalPid
      else LastPid(requests[..|requests| - 1], id, held)
  }

  /** The terminal that an entry names. */
  ghost predicate Names<P>(en: Entry<P>, ref: string, pid: Option<int>) {
    en.binding.terminalRef == ref && en.binding.terminalPid == pid
  }

  lemma UpdateNames<P>(en: Entry<P>, u: TerminalUpdate)
    ensures Names(UpdateTerminalState(en, u), en.binding.terminalRef, en.binding.terminalPid)
  {
  }

  lemma PostNames<P>(p: Parser<P>, en: Entry<P>, e: TerminalEvent, now: int)
    ensures Names(PostEvent(p, en, e, now),
                  if e.terminalRef != "" then e.terminalRef else en.binding.terminalRef,
                  if e.terminalPid.Some? then e.terminalPid else en.binding.terminalPid)
  {
    BoundTwice(en.binding, e);
  }

  predicate Makes(r: Request, id: string) {
    r.Create? && id == if r.requestedId != "" then r.requestedId else r.uuid
  }

  /** Creating a session that is live starts it afresh: as a new one, apart from the terminal it is
      bound to and the time of its last change of status. */
  lemma CreatedAgain<P>(p: Parser<P>, st: State<P>, r: Request, id: string)
    requires Inv(st) && id in st.sessions && Makes(r, id) && !Skipped(st, r.requestedId, r.shellSessionId)
    ensures id in Step(p, st, r).sessions
    ensures var en, after, made := st.sessions[id], Step(p, st, r).sessions[id], NewEntry(p, r.now);
            && Names(after, en.binding.terminalRef, en.binding.terminalPid)
            && after == made.(binding := made.binding.(terminalRef := en.binding.terminalRef, terminalPid := en.binding.terminalPid),
                               statusChangedAt := if en.status == made.status then en.statusChangedAt else r.now)
  {
    var live := Opened(p, st, id, r.shellSessionId, r.now);
    FlushesApply(p, live, id);
    hide FlushEvents, FlushUpdates;
    assert id !in live.pendingUpdates && SessionRegistry.Waiting(live, id) == [];
  }

  /** One request's effect on the terminal of a live session. */
  lemma StepNames<P>(p: Parser<P>, st: State<P>, r: Request, id: string)
    requires Inv(st) && id in st.sessions && r != Remove(id)
    ensures var b := st.sessions[id].binding;
            var next := Step(p, st, r);
            && id in next.sessions
            && Names(next.sessions[id],
                     if r.Posted? && r.event.id == id && r.event.terminalRef != "" then r.event.terminalRef else b.terminalRef,
                     if r.Posted? && r.event.id == id && r.event.terminalPid.Some? then r.event.terminalPid else b.terminalPid)
  {
    match r {
      case Update(u) => if u.id == id { UpdateNames(st.sessions[id], u); } hide UpdateTerminalState;
      case Posted(e, now) => PostedNames(p, st, e, now, id); hide *;
      case Create(_, _, _, _) => CreateNames(p, st, r, id); hide *;
      case AgentStatus(shellSessionId, status, at) =>
        var (known, found) := Resolve(st, shellSessionId);
        assert known.sessions == st.sessions && known.removed == st.removed;
        if found == Some(id) && status.Some? {
          UpdateNames(st.sessions[id], TerminalUpdate(id, status.value, at, None, None));
        }
        hide UpdateTerminalState;
      case _ =>
    }
  }

  lemma PostedNames<P>(p: Parser<P>, st: State<P>, e: TerminalEvent, now: int, id: string)
    requires Inv(st) && id in st.sessions
    ensures var b := st.sessions[id].binding;
            var next := Step(p, st, Posted(e, now));
            && id in next.sessions
            && Names(next.sessions[id],
                     if e.id == id && e.terminalRef != "" then e.terminalRef else b.terminalRef,
                     if e.id == id && e.terminalPid.Some? then e.terminalPid else b.terminalPid)
  {
    if e.id == id {
      PostLive(p, st, e, now);
      PostNames(p, st.sessions[id], e, now);
      hide Step, PostEvent;
    } else {
      hide UpdateTerminalEvent, BindSession, Last;
    }
  }

  lemma CreateNames<P>(p: Parser<P>, st: State<P>, r: Request, id: string)
    requires Inv(st) && id in st.sessions && r.Create?
    ensures id in Step(p, st, r).sessions
    ensures Names(Step(p, st, r).sessions[id], st.sessions[id].binding.terminalRef, st.sessions[id].binding.terminalPid)
  {
    if Skipped(st, r.requestedId, r.shellSessionId) {
      assert Step(p, st, r) == st;
    } else if Makes(r, id) {
      CreatedAgain(p, st, r, id);
      hide Step;
    } else {
      Created(p, st, r);
      hide Step;
    }
  }

  /** As long as it is not removed, and however often it is created again, a session is bound to the
      terminal last named by a post for it, stale posts and posts to a detached session included. */
  lemma {:induction false} BindingIsLast<P>(p: Parser<P>, st: State<P>, requests: seq<Request>, id: string)
    requires Inv(st) && id in st.sessions && forall r | r in requests :: r != Remove(id)
    ensures var b := st.sessions[id].binding;
            var end := Run(p, st, requests);
            && id in end.sessions
            && Names(end.sessions[id], LastRef(requests, id, b.terminalRef), LastPid(requests, id, b.terminalPid))
    decreases |requests|
  {
    if requests != [] {
      var before, last := requests[..|requests| - 1], requests[|requests| - 1];
      assert requests == before + [last] && last in requests;
      assert forall r | r in before :: r in requests;
      RunSnoc(p, st, before, last);
      RunKeepsInv(p, st, before);
      hide Run, Step, Inv;
      BindingIsLast(p, st, before, id);
      StepNames(p, Run(p, st, before), last, id);
    }
  }

  // ---- the session of a shell session ----

  /** The session that the last creation for the shell session made, unless it was removed since.
      A creation that is skipped does not count. */
  function Owner<P>(p: Parser<P>, st: State<P>, requests: seq<Request>, shell: string): Option<string> {
    if requests == [] then None
    else
      var before, r := requests[..|requests| - 1], requests[|requests| - 1];
      var owner := Owner(p, st, before, shell);
      match r
      case Create(requestedId, shellSessionId, uuid, _) =>
        var seen := Run(p, st, before);
        if shellSessionId != shell || (requestedId != "" && requestedId in seen.removed) || shell in seen.removed then owner
        else Some(if requestedId != "" then requestedId else uuid)
      case Remove(id) => if owner == Some(id) then None else owner
      case _ => owner
  }

  /** How the map of shell sessions stands to that. */
  ghost predicate Owns<P>(st: State<P>, shell: string, owner: Option<string>) {
    if shell in st.byShell then owner == Some(st.byShell[shell]) || (owner == None && st.byShell[shell] == shell)
    else owner == None
  }

  lemma OwnsStep<P>(p: Parser<P>, st: State<P>, r: Request, shell: string, owner: Option<string>)
    requires Inv(st) && Owns(st, shell, owner) && shell != ""
    ensures var next :=
              if r.Create? then
                if r.shellSessionId != shell || (r.requestedId != "" && r.requestedId in st.removed) || shell in st.removed then owner
                else Some(if r.requestedId != "" then r.requestedId else r.uuid)
              else if r.Remove? && owner == Some(r.id) then None
              else owner;
            Owns(Step(p, st, r), shell, next)
  {
    match r {
      case Create(_, _, _, _) =>
        if Skipped(st, r.requestedId, r.shellSessionId) {
          assert Step(p, st, r) == st;
        } else {
          Created(p, st, r);
          hide Step;
        }
      case AgentStatus(name, status, at) =>
        ResolveOwns(st, name, shell, owner);
        hide UpdateTerminalState, Resolve, Inv, Owns;
        OwnsElsewhere(Resolve(st, name).0, Step(p, st, r), shell, owner);
      case ClientMetadata(name) => ResolveOwns(st, name, shell, owner); hide Resolve, Inv, Owns;
      case Remove(id) =>
      case _ =>
        hide UpdateTerminalState, UpdateTerminalEvent, BindSession, PauseSession, Last, Inv, Owns;
        OwnsElsewhere(st, Step(p, st, r), shell, owner);
    }
  }

  lemma OwnsElsewhere<P>(st: State<P>, next: State<P>, shell: string, owner: Option<string>)
    requires Owns(st, shell, owner) && next.byShell == st.byShell
    ensures Owns(next, shell, owner)
  {
  }

  lemma ResolveOwns<P>(st: State<P>, name: string, shell: string, owner: Option<string>)
    requires Owns(st, shell, owner)
    ensures Owns(Resolve(st, name).0, shell, owner)
  {
  }

  lemma {:induction false} OwnsRun<P>(p: Parser<P>, sessions: map<string, Entry<P>>, requests: seq<Request>, shell: string)
    requires shell != ""
    ensures Owns(Run(p, Started(sessions), requests), shell, Owner(p, Started(sessions), requests, shell))
    decreases |requests|
  {
    var start := Started(sessions);
    if requests != [] {
      var before, last := requests[..|requests| - 1], requests[|requests| - 1];
      assert requests == before + [last];
      RunSnoc(p, start, before, last);
      StartedInv(sessions);
      RunKeepsInv(p, start, before);
      OwnsRun(p, sessions, before, shell);
      OwnsStep(p, Run(p, start, before), last, shell, Owner(p, start, before, shell));
      hide Step, Run, Inv, Owns;
    }
  }

  /** After any run from the stored sessions, a shell session stands for the session that the last
      creation for it made, if that was not removed since; otherwise for the session of its own
      name, if that is live; otherwise for none. */
  lemma ShellStandsFor<P>(p: Parser<P>, sessions: map<string, Entry<P>>, requests: seq<Request>, shell: string)
    requires shell != ""
    ensures var end := Run(p, Started(sessions), requests);
            var owner := Owner(p, Started(sessions), requests, shell);
            Resolve(end, shell).1 == if owner.Some? then owner else if shell in end.sessions then Some(shell) else None
  {
    StartedInv(sessions);
    RunKeepsInv(p, Started(sessions), requests);
    OwnsRun(p, sessions, requests, shell);
    hide Run, Owner;
  }

  /** A report of an agent's status is an update of the session its shell session stands for, and
      touches no session when there is none or the status is not a known one. The session found is
      remembered for the shell session, and no other entry changes. */
  lemma ReportIsUpdate<P>(p: Parser<P>, st: State<P>, shell: string, status: Option<SessionStatus>, at: int)
    ensures var after := Step(p, st, AgentStatus(shell, status, at));
            var id := Resolve(st, shell).1;
            after.sessions == if id.Some? && status.Some?
                              then Step(p, st, Update(TerminalUpdate(id.value, status.value, at, None, None))).sessions
                              else st.sessions
    ensures var after := Step(p, st, AgentStatus(shell, status, at));
            var id := Resolve(st, shell).1;
            after.byShell == if id.Some? then st.byShell[shell := id.value] else st.byShell
  {
    assert shell in st.byShell ==> st.byShell[shell := st.byShell[shell]] == st.byShell;
    hide UpdateTerminalState;
  }

  // ---- pausing ----

  /** The request may wake a paused session: it is about to run, is created again or removed, or an
      event is posted for it. */
  predicate MayWake(r: Request, id: string) {
    match r
    case Update(u) => u.id == id && u.status == Running
    case AgentStatus(_, status, _) => status == Some(Running)
    case Posted(e, _) => e.id == id
    case Create(_, _, _, _) => Makes(r, id)
    case Remove(x) => x == id
    case _ => false
  }

  lemma PausedStep<P>(p: Parser<P>, st: State<P>, r: Request, id: string)
    requires Inv(st) && id in st.sessions && st.sessions[id].status == Paused && !MayWake(r, id)
    ensures var next := Step(p, st, r);
            id in next.sessions && next.sessions[id] == st.sessions[id].(lastActivity := next.sessions[id].lastActivity)
  {
    match r {
      case Create(_, _, _, _) =>
        if Skipped(st, r.requestedId, r.shellSessionId) {
          assert Step(p, st, r) == st;
        } else {
          Created(p, st, r);
          hide Step;
        }
      case Posted(e, now) => hide UpdateTerminalEvent, BindSession, Last;
      case _ =>
    }
  }

  /** A pause holds. It takes any live session that has neither ended nor been detached; and until
      something may wake it, nothing of the session changes but the time of its last activity. */
  lemma PauseHolds<P>(p: Parser<P>, st: State<P>, id: string, now: int, requests: seq<Request>)
    requires Inv(st) && id in st.sessions && forall r | r in requests :: !MayWake(r, id)
    ensures var en := st.sessions[id];
            var end := Run(p, Step(p, st, Pause(id, now)), requests);
            && id in end.sessions
            && (en.status != Stopped && en.status != Error && en.status != Detached ==>
                  && end.sessions[id].status == Paused
                  && end.sessions[id] == en.(status := Paused, lastActivity := end.sessions[id].lastActivity,
                                             statusChangedAt := if en.status == Paused then en.statusChangedAt else now))
            && (en.status == Stopped || en.status == Error || en.status == Detached ==>
                  Step(p, st, Pause(id, now)) == st)
  {
    var paused := Step(p, st, Pause(id, now));
    StepKeepsInv(p, st, Pause(id, now));
    assert Ended(st.sessions[id].status) || st.sessions[id].status == Detached ==> paused.sessions == st.sessions;
    hide Step, Inv;
    StaysLive(p, paused, requests, id);
    if paused.sessions[id].status == Paused {
      StaysPaused(p, paused, requests, id);
    }
  }

  lemma {:induction false} StaysPaused<P>(p: Parser<P>, st: State<P>, requests: seq<Request>, id: string)
    requires Inv(st) && id in st.sessions && st.sessions[id].status == Paused && forall r | r in requests :: !MayWake(r, id)
    ensures var end := Run(p, st, requests);
            id in end.sessions && end.sessions[id] == st.sessions[id].(lastActivity := end.sessions[id].lastActivity)
    decreases |requests|
  {
    if requests != [] {
      assert requests[0] in requests;
      PausedStep(p, st, requests[0], id);
      StepKeepsInv(p, st, requests[0]);
      hide Step, Inv;
      StaysPaused(p, Step(p, st, requests[0]), requests[1..], id);
    }
  }

  lemma StaysLive<P>(p: Parser<P>, st: State<P>, requests: seq<Request>, id: string)
    requires Inv(st) && id in st.sessions && forall r | r in requests :: r != Remove(id)
    ensures id in Run(p, st, requests).sessions
  {
    BindingIsLast(p, st, requests, id);
  }
}
