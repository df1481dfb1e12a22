/**
 One session of the session manager: how terminal updates, terminal events, pausing and
 re-creation change it, and what updates that arrive in any order converge to. The parser
 that turns terminal events into updates is a parameter with a state of its own.
 */
module SessionEntries {
  import opened Wrappers

  datatype SessionStatus = Waiting | Starting | Running | NeedsAttention | Paused | Error | Stopped | Detached

  const INITIAL_SESSION_STATUS: SessionStatus := NeedsAttention

  datatype TerminalUpdate = TerminalUpdate(
    id: string,
    status: SessionStatus,
    occurredAt: int,
    exitCode: Option<int>,
    exitReason: Option<string>)

  datatype EventKind = Closed | Disconnected | Other(name: string)

  /** An empty reference or reason is an absent one; `payload` is all that only the parser reads. */
  datatype TerminalEvent = TerminalEvent(
    id: string,
    kind: EventKind,
    occurredAt: int,
    terminalRef: string,
    terminalPid: Option<int>,
    captureState: Option<string>,
    captureReason: string,
    payload: string)

  datatype Parser<!P> = Parser(initial: P, parse: (P, TerminalEvent, SessionStatus) -> (P, Option<TerminalUpdate>))

  datatype Binding = Binding(
    terminalRef: string,
    terminalPid: Option<int>,
    captureState: Option<string>,
    captureReason: string)

  const UNBOUND := Binding("", None, None, "")

  datatype Entry<P> = Entry(
    status: SessionStatus,
    lastActivity: int,
    exitCode: Option<int>,
    exitReason: Option<string>,
    binding: Binding,
    lastTerminalUpdateAt: int,
    statusChangedAt: int,
    parser: P)

  predicate Ended(s: SessionStatus) {
    s == Error || s == Stopped
  }

  function NewEntry<P>(p: Parser<P>, now: int): Entry<P> {
    Entry(INITIAL_SESSION_STATUS, now, None, None, UNBOUND, 0, now, p.initial)
  }

  /** `createSession` for an id that is already live. */
  function Recreated<P>(p: Parser<P>, en: Entry<P>, now: int): Entry<P> {
    en.(status := INITIAL_SESSION_STATUS, lastActivity := now, exitCode := None, exitReason := None,
        binding := en.binding.(captureState := None, captureReason := ""), lastTerminalUpdateAt := 0,
        statusChangedAt := if en.status != INITIAL_SESSION_STATUS then now else en.statusChangedAt,
        parser := p.initial)
  }

  /** An absent value is kept by an update that ends the session, and dropped by any other. */
  function Carried<T>(held: Option<T>, given: Option<T>, status: SessionStatus): Option<T> {
    if given.Some? then given else if Ended(status) then held else None
  }

  function ApplyTerminalUpdate<P>(en: Entry<P>, u: TerminalUpdate): Entry<P> {
    en.(status := u.status, lastActivity := u.occurredAt, lastTerminalUpdateAt := u.occurredAt,
        statusChangedAt := if en.status != u.status then u.occurredAt else en.statusChangedAt,
        exitCode := Carried(en.exitCode, u.exitCode, u.status),
        exitReason := Carried(en.exitReason, u.exitReason, u.status),
        binding := if Ended(u.status) || u.status == Detached then en.binding.(captureState := None, captureReason := "")
                   else en.binding)
  }

  function UpdateTerminalState<P>(en: Entry<P>, u: TerminalUpdate): Entry<P> {
    if en.status == Detached then en
    else if en.status == Paused && u.status != Running then en
    else if u.occurredAt < en.lastTerminalUpdateAt then en
    else ApplyTerminalUpdate(en, u)
  }

  predicate Restores<P>(en: Entry<P>, e: TerminalEvent) {
    e.kind.Other? && e.terminalRef != "" && en.binding.terminalRef == e.terminalRef
  }

  function Restored<P>(p: Parser<P>, en: Entry<P>, e: TerminalEvent): Entry<P> {
    en.(status := INITIAL_SESSION_STATUS, statusChangedAt := e.occurredAt, exitCode := None, exitReason := None, parser := p.initial)
  }

  function Bound(b: Binding, e: TerminalEvent): Binding {
    var named := b.(terminalRef := if e.terminalRef != "" then e.terminalRef else b.terminalRef,
                    terminalPid := if e.terminalPid.Some? then e.terminalPid else b.terminalPid);
    if e.captureState.Some? then named.(captureState := e.captureState, captureReason := e.captureReason) else named
  }

  function UpdateTerminalEvent<P>(p: Parser<P>, en: Entry<P>, e: TerminalEvent): Entry<P> {
    if en.status == Detached && !Restores(en, e) then en
    else
      var awake := if en.status == Detached then Restored(p, en, e) else en;
      if e.occurredAt < awake.lastTerminalUpdateAt then awake
      else
        var (parser, update) := p.parse(awake.parser, e, awake.status);
        var seen := awake.(binding := Bound(awake.binding, e), parser := parser);
        if update.None? || (awake.status == Paused && update.value.status != Running)
        then seen.(lastTerminalUpdateAt := e.occurredAt)
        else ApplyTerminalUpdate(seen, update.value)
  }

  /** `bindSessionToTerminal`: the binding, and a detached session comes back. */
  function BindSession<P>(p: Parser<P>, en: Entry<P>, e: TerminalEvent, now: int): Entry<P> {
    var bound := en.(binding := Bound(en.binding, e));
    if en.status == Detached
    then bound.(status := INITIAL_SESSION_STATUS, statusChangedAt := now, exitCode := None, exitReason := None, parser := p.initial)
    else bound
  }

  /** What posting an event does to a live session: its request is parsed, which binds the
      session however old the event is, and then the event is handled. */
  function PostEvent<P>(p: Parser<P>, en: Entry<P>, e: TerminalEvent, now: int): Entry<P> {
    UpdateTerminalEvent(p, BindSession(p, en, e, now), e)
  }

  function TouchSession<P>(en: Entry<P>, now: int): Entry<P> {
    en.(lastActivity := now)
  }

  function PauseSession<P>(en: Entry<P>, now: int): Entry<P> {
    if en.status == Paused || Ended(en.status) || en.status == Detached then en
    else en.(status := Paused, lastActivity := now, statusChangedAt := now)
  }

  // ---- posting an event against handling it ----

  lemma BoundTwice(b: Binding, e: TerminalEvent)
    ensures Bound(Bound(b, e), e) == Bound(b, e)
  {
  }

  /** Equal apart from the time of the last change of status. */
  ghost predicate Alike<P>(a: Entry<P>, b: Entry<P>) {
    a == b.(statusChangedAt := a.statusChangedAt)
  }

  /** The event reports once more the disconnection that the entry already records: not stale,
      and taken by a session just brought back, it detaches it again at the same time and to
      the same record. */
  ghost predicate Redetaches<P>(p: Parser<P>, en: Entry<P>, e: TerminalEvent) {
    && e.occurredAt >= en.lastTerminalUpdateAt
    && var (parser, update) := p.parse(p.initial, e, INITIAL_SESSION_STATUS);
       && update.Some? && update.value.status == Detached && parser == en.parser
       && update.value.occurredAt == en.lastActivity == en.lastTerminalUpdateAt
       && update.value.exitCode == en.exitCode && update.value.exitReason == en.exitReason
       && Bound(en.binding, e).(captureState := None, captureReason := "") == en.binding
  }

  /** Exactly when posting an event comes to the same as handling it: for a session that is
      attached, or that the event brings back anyway, when the event is not stale or tells no
      new binding; for any other detached session only when it repeats the disconnection. */
  lemma PostingIff<P>(p: Parser<P>, en: Entry<P>, e: TerminalEvent, now: int)
    ensures Alike(PostEvent(p, en, e, now), UpdateTerminalEvent(p, en, e)) <==>
              if en.status != Detached || Restores(en, e)
              then e.occurredAt >= en.lastTerminalUpdateAt || Bound(en.binding, e) == en.binding
              else Redetaches(p, en, e)
  {
    if en.status != Detached {
      PostingAttached(p, en, e, now);
    } else if Restores(en, e) {
      PostingRestored(p, en, e, now);
    } else {
      PostingDetached(p, en, e, now);
    }
    hide *;
  }

  lemma PostingAttached<P>(p: Parser<P>, en: Entry<P>, e: TerminalEvent, now: int)
    requires en.status != Detached
    ensures Alike(PostEvent(p, en, e, now), UpdateTerminalEvent(p, en, e)) <==>
              e.occurredAt >= en.lastTerminalUpdateAt || Bound(en.binding, e) == en.binding
  {
    BoundTwice(en.binding, e);
    if e.occurredAt >= en.lastTerminalUpdateAt {
      PostingSame(p, en, e, now);
    } else {
      assert UpdateTerminalEvent(p, en, e) == en;
      assert PostEvent(p, en, e, now) == en.(binding := Bound(en.binding, e));
    }
    hide Bound, UpdateTerminalEvent, PostEvent;
  }

  lemma PostingRestored<P>(p: Parser<P>, en: Entry<P>, e: TerminalEvent, now: int)
    requires en.status == Detached && Restores(en, e)
    ensures Alike(PostEvent(p, en, e, now), UpdateTerminalEvent(p, en, e)) <==>
              e.occurredAt >= en.lastTerminalUpdateAt || Bound(en.binding, e) == en.binding
  {
    BoundTwice(en.binding, e);
    var woken := BindSession(p, en, e, now);
    assert woken == Restored(p, en, e).(binding := Bound(en.binding, e), statusChangedAt := now);
    hide Bound;
  }

  lemma PostingDetached<P>(p: Parser<P>, en: Entry<P>, e: TerminalEvent, now: int)
    requires en.status == Detached && !Restores(en, e)
    ensures Alike(PostEvent(p, en, e, now), UpdateTerminalEvent(p, en, e)) <==> Redetaches(p, en, e)
  {
    BoundTwice(en.binding, e);
    var woken, bound := BindSession(p, en, e, now), Bound(en.binding, e);
    hide Bound;
    assert UpdateTerminalEvent(p, en, e) == en;
    var post := PostEvent(p, en, e, now);
    var (parser, update) := p.parse(p.initial, e, INITIAL_SESSION_STATUS);
    if e.occurredAt >= en.lastTerminalUpdateAt && update.Some? && update.value.status == Detached {
      assert post == ApplyTerminalUpdate(woken.(parser := parser), update.value);
      assert post.binding == bound.(captureState := None, captureReason := "");
      assert post.exitCode == update.value.exitCode && post.exitReason == update.value.exitReason;
    } else {
      assert post.status != Detached;
    }
  }

  /** An attached session takes a post that is not stale as it would take the event. */
  lemma PostingSame<P>(p: Parser<P>, en: Entry<P>, e: TerminalEvent, now: int)
    requires en.status != Detached && e.occurredAt >= en.lastTerminalUpdateAt
    ensures PostEvent(p, en, e, now) == UpdateTerminalEvent(p, en, e)
  {
    BoundTwice(en.binding, e);
    hide Bound;
  }

  /** What the program's parser of terminal events keeps to: an update is of the event's time,
      and only a disconnection detaches. */
  ghost predicate Plausible<P(!new)>(p: Parser<P>) {
    forall s, e, status ::
      var update := p.parse(s, e, status).1;
      update.Some? ==> update.value.occurredAt == e.occurredAt && (update.value.status == Detached ==> e.kind.Disconnected?)
  }

  /** Times that do not go back, and nothing after a disconnection. */
  predicate Orderly(events: seq<TerminalEvent>, since: int)
    decreases |events|
  {
    events == [] ||
    (events[0].occurredAt >= since && (events[0].kind.Disconnected? ==> |events| == 1)
     && Orderly(events[1..], events[0].occurredAt))
  }

  lemma OrderlyStep<P(!new)>(p: Parser<P>, en: Entry<P>, e: TerminalEvent)
    requires Plausible(p) && en.status != Detached && e.occurredAt >= en.lastTerminalUpdateAt
    ensures var next := UpdateTerminalEvent(p, en, e);
            next.lastTerminalUpdateAt == e.occurredAt && (next.status == Detached ==> e.kind.Disconnected?)
  {
    var update := p.parse(en.parser, e, en.status).1;
    assert update.Some? ==> update.value.occurredAt == e.occurredAt;
    hide Bound;
  }

  // ---- convergence of updates ----

  function Deliver<P>(en: Entry<P>, updates: seq<TerminalUpdate>): Entry<P>
    decreases |updates|
  {
    if updates == [] then en else Deliver(UpdateTerminalState(en, updates[0]), updates[1..])
  }

  predicate Plain(s: SessionStatus) {
    s != Paused && s != Detached
  }

  /** Updates that a time stamp identifies and that neither pause nor detach. */
  ghost predicate Stamped(updates: seq<TerminalUpdate>) {
    && (forall u | u in updates :: Plain(u.status))
    && (forall u, v | u in updates && v in updates :: u.occurredAt == v.occurredAt ==> u == v)
  }

  ghost predicate IsNewest(updates: seq<TerminalUpdate>, n: TerminalUpdate) {
    n in updates && forall u | u in updates :: u.occurredAt <= n.occurredAt
  }

  lemma PlainStays<P>(en: Entry<P>, u: TerminalUpdate)
    requires Plain(en.status) && Plain(u.status)
    ensures var after := UpdateTerminalState(en, u);
            && Plain(after.status)
            && (u.occurredAt < en.lastTerminalUpdateAt ==> after == en)
            && (u.occurredAt >= en.lastTerminalUpdateAt ==> after == ApplyTerminalUpdate(en, u))
  {
  }

  /** Updates all older than the entry's last one leave it alone. */
  lemma {:induction false} StaleIgnored<P>(en: Entry<P>, updates: seq<TerminalUpdate>)
    requires Plain(en.status) && forall u | u in updates :: Plain(u.status) && u.occurredAt < en.lastTerminalUpdateAt
    ensures Deliver(en, updates) == en
    decreases |updates|
  {
    if updates != [] {
      PlainStays(en, updates[0]);
      StaleIgnored(en, updates[1..]);
    }
  }

  /** Last writer wins: in whatever order and however often a set of updates is delivered, the
      session ends in the status and at the time of the newest, unless all are too old. An end
      clears what was captured; without one the terminal stays as it was. */
  lemma {:induction false} NewestWins<P>(en: Entry<P>, updates: seq<TerminalUpdate>, n: TerminalUpdate)
    requires Plain(en.status) && Stamped(updates) && IsNewest(updates, n)
    ensures var end := Deliver(en, updates);
            if n.occurredAt >= en.lastTerminalUpdateAt
            then && end.status == n.status && end.lastActivity == n.occurredAt && end.lastTerminalUpdateAt == n.occurredAt
                 && (n.status == Error || n.status == Stopped ==> end.binding.captureState == None && end.binding.captureReason == "")
                 && ((forall u | u in updates :: u.status != Error && u.status != Stopped) ==> end.binding == en.binding)
            else end == en
    decreases |updates|
  {
    var u, rest := updates[0], updates[1..];
    var next := UpdateTerminalState(en, u);
    PlainStays(en, u);
    assert forall v | v in rest :: v in updates;
    if n.occurredAt < en.lastTerminalUpdateAt {
      StaleIgnored(en, updates);
    } else if n in rest {
      hide UpdateTerminalState;
      NewestWins(next, rest, n);
    } else {
      assert u == n;
      hide UpdateTerminalState;
      OlderIgnored(next, rest, n);
    }
  }

  /** After the newest, older updates change nothing. */
  lemma {:induction false} OlderIgnored<P>(en: Entry<P>, updates: seq<TerminalUpdate>, n: TerminalUpdate)
    requires Plain(en.status) && en.lastTerminalUpdateAt == n.occurredAt
    requires forall u | u in updates :: Plain(u.status) && u.occurredAt < n.occurredAt
    ensures Deliver(en, updates) == en
  {
    StaleIgnored(en, updates);
  }

  ghost predicate SameUpdates(a: seq<TerminalUpdate>, b: seq<TerminalUpdate>) {
    (forall u | u in a :: u in b) && (forall u | u in b :: u in a)
  }

  lemma {:induction false} NewestExists(updates: seq<TerminalUpdate>) returns (n: TerminalUpdate)
    requires updates != []
    ensures IsNewest(updates, n)
  {
    n := updates[0];
    if |updates| > 1 {
      var m := NewestExists(updates[1..]);
      if m.occurredAt > n.occurredAt {
        n := m;
      }
      assert updates == [updates[0]] + updates[1..];
    }
  }

  lemma OrderDoesNotMatter<P>(en: Entry<P>, a: seq<TerminalUpdate>, b: seq<TerminalUpdate>)
    requires Plain(en.status) && Stamped(a) && SameUpdates(a, b)
    ensures Deliver(en, a).status == Deliver(en, b).status
    ensures Deliver(en, a).lastActivity == Deliver(en, b).lastActivity
  {
    if a != [] {
      var n := NewestExists(a);
      NewestWins(en, a, n);
      NewestWins(en, b, n);
    }
  }

  // ---- the exit code does not always converge ----

  /** Each update that is not too old would leave this exit code as it is. */
  ghost predicate LeavesExitCode(updates: seq<TerminalUpdate>, code: Option<int>, since: int) {
    forall u | u in updates && u.occurredAt >= since :: Carried(code, u.exitCode, u.status) == code
  }

  /** The newest update says itself what the exit code is: it has one, or does not end the session. */
  predicate Decides(n: TerminalUpdate) {
    n.exitCode.Some? || !Ended(n.status)
  }

  lemma {:induction false} ExitCodeKept<P>(en: Entry<P>, updates: seq<TerminalUpdate>, since: int)
    requires Plain(en.status) && Stamped(updates) && since <= en.lastTerminalUpdateAt
    requires LeavesExitCode(updates, en.exitCode, since)
    ensures Deliver(en, updates).exitCode == en.exitCode
    decreases |updates|
  {
    if updates != [] {
      PlainStays(en, updates[0]);
      hide UpdateTerminalState;
      ExitCodeKept(UpdateTerminalState(en, updates[0]), updates[1..], since);
    }
  }

  lemma {:induction false} ExitCodeDecided<P>(en: Entry<P>, updates: seq<TerminalUpdate>, n: TerminalUpdate)
    requires Plain(en.status) && Stamped(updates) && IsNewest(updates, n)
    requires n.occurredAt >= en.lastTerminalUpdateAt && Decides(n)
    ensures Deliver(en, updates).exitCode == n.exitCode
    decreases |updates|
  {
    var u, rest := updates[0], updates[1..];
    PlainStays(en, u);
    assert forall v | v in rest :: v in updates;
    var next := UpdateTerminalState(en, u);
    hide UpdateTerminalState;
    if n in rest {
      ExitCodeDecided(next, rest, n);
    } else {
      assert u == n;
      OlderIgnored(next, rest, n);
    }
  }

  ghost predicate ExitCodeConverges<P>(en: Entry<P>, updates: seq<TerminalUpdate>) {
    forall a, b | SameUpdates(a, updates) && SameUpdates(b, updates) :: Deliver(en, a).exitCode == Deliver(en, b).exitCode
  }

  lemma StampedSame(a: seq<TerminalUpdate>, b: seq<TerminalUpdate>)
    requires Stamped(a) && SameUpdates(a, b)
    ensures Stamped(b)
  {
  }

  lemma ConvergesWhen<P>(en: Entry<P>, updates: seq<TerminalUpdate>, n: TerminalUpdate)
    requires Plain(en.status) && Stamped(updates) && IsNewest(updates, n) && n.occurredAt >= en.lastTerminalUpdateAt
    requires Decides(n) || LeavesExitCode(updates, en.exitCode, en.lastTerminalUpdateAt)
    ensures ExitCodeConverges(en, updates)
  {
    forall a, b | SameUpdates(a, updates) && SameUpdates(b, updates)
      ensures Deliver(en, a).exitCode == Deliver(en, b).exitCode
    {
      StampedSame(updates, a);
      StampedSame(updates, b);
      if Decides(n) {
        ExitCodeDecided(en, a, n);
        ExitCodeDecided(en, b, n);
      } else {
        ExitCodeKept(en, a, en.lastTerminalUpdateAt);
        ExitCodeKept(en, b, en.lastTerminalUpdateAt);
      }
    }
  }

  /** Two orders of the same updates that disagree: the newest first, and u just before it. */
  lemma DivergesWhen<P>(en: Entry<P>, updates: seq<TerminalUpdate>, n: TerminalUpdate, u: TerminalUpdate)
    requires Plain(en.status) && Stamped(updates) && IsNewest(updates, n) && !Decides(n)
    requires u in updates && u.occurredAt >= en.lastTerminalUpdateAt
    requires Carried(en.exitCode, u.exitCode, u.status) != en.exitCode
    ensures SameUpdates([n] + updates, updates) && SameUpdates([u] + ([n] + updates), updates)
    ensures Deliver(en, [n] + updates).exitCode != Deliver(en, [u] + ([n] + updates)).exitCode
  {
    var late := [n] + updates;
    var early := [u] + late;
    var first, second := UpdateTerminalState(en, n), UpdateTerminalState(UpdateTerminalState(en, u), n);
    PlainStays(en, n);
    PlainStays(en, u);
    PlainStays(UpdateTerminalState(en, u), n);
    assert late[1..] == updates && early[1..] == late;
    hide UpdateTerminalState;
    RepeatsKeepExitCode(first, updates, n);
    RepeatsKeepExitCode(second, updates, n);
  }

  /** Once the newest is applied, deliveries no longer change the exit code. */
  lemma {:induction false} RepeatsKeepExitCode<P>(en: Entry<P>, updates: seq<TerminalUpdate>, n: TerminalUpdate)
    requires Plain(en.status) && en.lastTerminalUpdateAt == n.occurredAt && !Decides(n)
    requires forall u | u in updates :: Plain(u.status) && u.occurredAt <= n.occurredAt && (u.occurredAt == n.occurredAt ==> u == n)
    ensures Deliver(en, updates).exitCode == en.exitCode
    decreases |updates|
  {
    if updates != [] {
      PlainStays(en, updates[0]);
      hide UpdateTerminalState;
      RepeatsKeepExitCode(UpdateTerminalState(en, updates[0]), updates[1..], n);
    }
  }

  /** Exactly when the exit code is independent of the order of delivery: the newest update
      decides it, or no update that still counts would have changed it. */
  lemma ExitCodeConvergesIff<P>(en: Entry<P>, updates: seq<TerminalUpdate>, n: TerminalUpdate)
    requires Plain(en.status) && Stamped(updates) && IsNewest(updates, n) && n.occurredAt >= en.lastTerminalUpdateAt
    ensures ExitCodeConverges(en, updates) <==> Decides(n) || LeavesExitCode(updates, en.exitCode, en.lastTerminalUpdateAt)
  {
    hide Deliver, SameUpdates, Stamped, IsNewest, Decides;
    if Decides(n) || LeavesExitCode(updates, en.exitCode, en.lastTerminalUpdateAt) {
      ConvergesWhen(en, updates, n);
    } else {
      var u :| u in updates && u.occurredAt >= en.lastTerminalUpdateAt && Carried(en.exitCode, u.exitCode, u.status) != en.exitCode;
      DivergesWhen(en, updates, n, u);
    }
  }
}
