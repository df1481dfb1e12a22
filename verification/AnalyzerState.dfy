/**
 The agent-status analyzer: one timed state machine per session, deciding from screen
 activity whether the agent works or waits for input. The VT screen is a parameter: any
 deterministic function of the bytes written to it.
 */
module AnalyzerState {
  import opened Wrappers
  import opened Sequences
  import opened Scrollback

  const IDLE_TIMEOUT_MS: int := 5000
  const STDIN_INPUT_GRACE_MS: int := 4000
  const STATUS_CHANGE_STABILIZATION_MS: int := 500
  const WORKING_HEARTBEAT_MS: int := 1200
  const FOCUS_GUARD_MS: int := 1500
  const TYPING_GUARD_MS: int := 1200
  const NO_OUTPUT_NEEDS_INPUT_MS: int := 30000
  const INTERRUPT_OVERRIDE_RECENT_OUTPUT_MS: int := 4000
  const FLAP_WINDOW_MS: int := 30000
  const FLAP_MIN_TRANSITIONS: int := 5
  const FLAP_HOLD_MS: int := 15000
  const PENDING_BUFFER_TAIL_BYTES: nat := 1024 * 1024

  datatype AgentStatus = Working | NeedsInput

  datatype Transition = Transition(status: AgentStatus, at: int)

  /** The headless terminal: how bytes and resizes change the screen, what is visible of it,
      and whether its bottom lines match a prompt pattern or a running override. */
  datatype Vt<!S> = Vt(
    write: (S, Text) -> S,
    resize: (S, int, int) -> S,
    visible: S -> string,
    promptVisible: S -> bool,
    overrideVisible: S -> bool)

  datatype SessionState<S> = SessionState(
    term: S,
    cols: int,
    rows: int,
    lastStatus: Option<AgentStatus>,
    lastStatusChangeAt: int,
    lastUserInputAt: int,
    lastSnapshot: string,
    lastScreenChangeAt: int,
    lastWorkingHeartbeatAt: int,
    lastOutputAt: int,
    userTyping: bool,
    lastTypingSignalAt: int,
    terminalFocused: bool,
    lastFocusSignalAt: int,
    transitions: seq<Transition>,
    flappingUntil: int,
    pendingChunks: seq<Text>,
    pendingBytes: nat)

  function Fresh<S>(blank: S): SessionState<S> {
    SessionState(blank, 120, 40, None, 0, 0, "", 0, 0, 0, false, 0, false, 0, [], 0, [], 0)
  }

  /** The new state, and the status event handed to the gateway, if any. */
  datatype Outcome<S> = Outcome(st: SessionState<S>, emitted: Option<AgentStatus>)

  function Max(a: int, b: int): int { if a >= b then a else b }

  function Within(now: int): Transition -> bool {
    (t: Transition) => now - t.at <= FLAP_WINDOW_MS
  }

  function StatusOf(t: Transition): seq<AgentStatus> { [t.status] }

  /** Length of the alternating run that ends the series: the backward scan. */
  function AlternatingRun(series: seq<AgentStatus>): nat {
    if series == [] then 0
    else if |series| == 1 || series[|series| - 2] == series[|series| - 1] then 1
    else 1 + AlternatingRun(series[..|series| - 1])
  }

  function Series<S>(st: SessionState<S>, proposed: AgentStatus, now: int): seq<AgentStatus> {
    FlatMap(StatusOf, Filter(Within(now), st.transitions)) + [proposed]
  }

  predicate Flapping<S>(st: SessionState<S>, proposed: AgentStatus, now: int) {
    && st.lastStatus.Some? && st.lastStatus.value != proposed
    && |Series(st, proposed, now)| >= FLAP_MIN_TRANSITIONS
    && AlternatingRun(Series(st, proposed, now)) >= FLAP_MIN_TRANSITIONS
  }

  function Transit<S>(st: SessionState<S>, proposed: AgentStatus, now: int): Outcome<S> {
    var flapping := Flapping(st, proposed, now);
    var next := if flapping then NeedsInput else proposed;
    var held := if flapping then st.(flappingUntil := Max(st.flappingUntil, now + FLAP_HOLD_MS)) else st;
    if held.lastStatus == Some(next) then Outcome(held, None)
    else
      Outcome(held.(
        lastStatus := Some(next),
        lastStatusChangeAt := now,
        lastWorkingHeartbeatAt := if next == Working then now else held.lastWorkingHeartbeatAt,
        transitions := Filter(Within(now), held.transitions + [Transition(next, now)])), Some(next))
  }

  predicate Suppressed<S>(st: SessionState<S>, now: int) {
    || st.flappingUntil > now
    || st.userTyping
    || (st.lastTypingSignalAt > 0 && now - st.lastTypingSignalAt < TYPING_GUARD_MS)
    || (st.terminalFocused && st.lastFocusSignalAt > 0 && now - st.lastFocusSignalAt < FOCUS_GUARD_MS)
  }

  function Buffered<S>(st: SessionState<S>, data: Text, now: int): SessionState<S> {
    var chunks := Evict(CodeUnits, PENDING_BUFFER_TAIL_BYTES, st.pendingChunks + [data]);
    st.(lastOutputAt := now, pendingChunks := chunks, pendingBytes := Total(CodeUnits, chunks))
  }

  function OnOutput<S>(st: SessionState<S>, data: Text, now: int): Outcome<S> {
    if data == [] then Outcome(st, None)
    else
      var heard := Buffered(st, data, now);
      match st.lastStatus
      case Some(NeedsInput) => Outcome(heard, None)
      case None => if Suppressed(heard, now) then Outcome(heard, None) else Transit(heard, Working, now)
      case Some(Working) =>
        if now - heard.lastWorkingHeartbeatAt >= WORKING_HEARTBEAT_MS
        then Outcome(heard.(lastWorkingHeartbeatAt := now), Some(Working))
        else Outcome(heard, None)
  }

  function OnInput<S>(st: SessionState<S>, data: Text, now: int): SessionState<S> {
    if data == [] then st else st.(lastUserInputAt := now, lastTypingSignalAt := now)
  }

  function OnUserTyping<S>(st: SessionState<S>, typing: bool, now: int): SessionState<S> {
    st.(userTyping := typing, lastTypingSignalAt := now,
        lastUserInputAt := if typing then now else st.lastUserInputAt)
  }

  function OnFocus<S>(st: SessionState<S>, focused: bool, now: int): SessionState<S> {
    st.(terminalFocused := focused, lastFocusSignalAt := now)
  }

  function OnResize<S>(vt: Vt<S>, st: SessionState<S>, cols: real, rows: real): SessionState<S> {
    if cols <= 0.0 || rows <= 0.0 then st
    else
      var c, r := Max(1, cols.Floor), Max(1, rows.Floor);
      if st.cols == c && st.rows == r then st
      else st.(term := vt.resize(st.term, c, r), cols := c, rows := r, lastSnapshot := "")
  }

  /** Time since `at`, where 0 stands for never: `Infinity` in the program. */
  predicate AtLeastSince(at: int, now: int, ms: int) {
    at <= 0 || now - at >= ms
  }

  /** The write of the buffered chunks and the snapshot, which every tick takes first. */
  function Drained<S>(vt: Vt<S>, st: SessionState<S>, now: int): SessionState<S> {
    var written :=
      if st.pendingChunks == [] then st
      else st.(term := vt.write(st.term, Flatten(st.pendingChunks)), pendingChunks := [], pendingBytes := 0);
    var snapshot := vt.visible(written.term);
    if snapshot != st.lastSnapshot then written.(lastSnapshot := snapshot, lastScreenChangeAt := now) else written
  }

  predicate ScreenChanged<S>(vt: Vt<S>, st: SessionState<S>) {
    var term := if st.pendingChunks == [] then st.term else vt.write(st.term, Flatten(st.pendingChunks));
    vt.visible(term) != st.lastSnapshot
  }

  function Tick<S>(vt: Vt<S>, st: SessionState<S>, now: int): Outcome<S> {
    var seen := Drained(vt, st, now);
    if !AtLeastSince(seen.lastStatusChangeAt, now, STATUS_CHANGE_STABILIZATION_MS) then Outcome(seen, None)
    else if ScreenChanged(vt, st) then
      if seen.lastStatus != Some(Working) && !Suppressed(seen, now) then Transit(seen, Working, now) else Outcome(seen, None)
    else Judge(vt, seen, now)
  }

  /** The verdict on a screen that has not moved. */
  function Judge<S>(vt: Vt<S>, seen: SessionState<S>, now: int): Outcome<S> {
    if now - seen.lastScreenChangeAt < IDLE_TIMEOUT_MS then Outcome(seen, None)
    else if !AtLeastSince(seen.lastUserInputAt, now, STDIN_INPUT_GRACE_MS) then Outcome(seen, None)
    else if seen.lastStatus == Some(Working) && AtLeastSince(seen.lastOutputAt, now, NO_OUTPUT_NEEDS_INPUT_MS) then
      Transit(seen, NeedsInput, now)
    else if vt.overrideVisible(seen.term) && !vt.promptVisible(seen.term) then
      if AtLeastSince(seen.lastOutputAt, now, INTERRUPT_OVERRIDE_RECENT_OUTPUT_MS + 1) then Outcome(seen, None)
      else
        var refreshed := seen.(lastScreenChangeAt := now);
        if seen.lastStatus != Some(Working) then Transit(refreshed, Working, now) else Outcome(refreshed, None)
    else if seen.lastStatus == Some(NeedsInput) then Outcome(seen, None)
    else Transit(seen, NeedsInput, now)
  }

  // ---- runs ----

  datatype Signal =
    | Output(data: Text)
    | Input(data: Text)
    | Typing(active: bool)
    | Focus(focused: bool)
    | Resize(cols: real, rows: real)
    | Tick_

  datatype Event = Event(signal: Signal, at: int)

  function React<S>(vt: Vt<S>, st: SessionState<S>, e: Event): Outcome<S> {
    match e.signal
    case Output(data) => OnOutput(st, data, e.at)
    case Input(data) => Outcome(OnInput(st, data, e.at), None)
    case Typing(active) => Outcome(OnUserTyping(st, active, e.at), None)
    case Focus(focused) => Outcome(OnFocus(st, focused, e.at), None)
    case Resize(cols, rows) => Outcome(OnResize(vt, st, cols, rows), None)
    case Tick_ => Tick(vt, st, e.at)
  }

  function Run<S>(vt: Vt<S>, st: SessionState<S>, events: seq<Event>): SessionState<S>
    decreases |events|
  {
    if events == [] then st else Run(vt, React(vt, st, events[0]).st, events[1..])
  }

  /** The status changes of a run, in order. */
  function Changes<S>(vt: Vt<S>, st: SessionState<S>, events: seq<Event>): seq<Transition>
    decreases |events|
  {
    if events == [] then []
    else
      var next := React(vt, st, events[0]).st;
      (if next.lastStatus != st.lastStatus && next.lastStatus.Some?
       then [Transition(next.lastStatus.value, events[0].at)] else [])
      + Changes(vt, next, events[1..])
  }

  /** Typing and focus carry a time that the client claims; all other times are the gateway's. */
  predicate ClientTimed(e: Event) {
    e.signal.Typing? || e.signal.Focus?
  }

  /** The gateway's clock does not go back; what clients claim is not constrained. */
  predicate Clocked(events: seq<Event>, from: int)
    decreases |events|
  {
    events == [] ||
    if ClientTimed(events[0]) then Clocked(events[1..], from)
    else from <= events[0].at && Clocked(events[1..], events[0].at)
  }

  /** The gateway's time after a run. */
  function LastTime(events: seq<Event>, from: int): int
    decreases |events|
  {
    if events == [] then from
    else LastTime(events[1..], if ClientTimed(events[0]) then from else events[0].at)
  }

  // ---- flapping ----

  ghost predicate Alternating(log: seq<Transition>) {
    forall i, j | 0 <= i < j < |log| && j == i + 1 :: log[i].status != log[j].status
  }

  ghost predicate Timed(log: seq<Transition>) {
    forall i, j | 0 <= i < j < |log| :: log[i].at <= log[j].at
  }

  /** A promotion to working has fewer than four changes in the 30 s before it. */
  ghost predicate Guarded(log: seq<Transition>) {
    forall i, j | 0 <= i < j < |log| && j == i + 4 && log[j].status == Working :: log[i].at + FLAP_WINDOW_MS < log[j].at
  }

  ghost predicate Spaced(log: seq<Transition>) {
    forall i, j | 0 <= i < j < |log| :: log[j].at - log[i].at >= STATUS_CHANGE_STABILIZATION_MS
  }

  /** How the stored fields stand to the full log of changes: the stored history is the part
      of it that was at most 30 s old at the last change, and ends in the current status. */
  ghost predicate Remembers<S>(st: SessionState<S>, log: seq<Transition>) {
    && EndsWith(log, st.transitions)
    && (log == [] ==> st.lastStatus == None)
    && (log != [] ==> log[|log| - 1] == Transition(log[|log| - 1].status, st.lastStatusChangeAt)
                      && st.lastStatus == Some(log[|log| - 1].status) && st.transitions != [])
    && (forall i | 0 <= i < |log| - |st.transitions| :: log[i].at + FLAP_WINDOW_MS < st.lastStatusChangeAt)
  }

  ghost predicate Consistent<S>(st: SessionState<S>, log: seq<Transition>, now: int) {
    && Remembers(st, log)
    && Alternating(log) && Timed(log) && Guarded(log) && Spaced(log)
    && (log != [] ==> 0 < st.lastStatusChangeAt <= now)
  }
}
