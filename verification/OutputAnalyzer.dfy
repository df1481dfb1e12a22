/**
 The analyzer object: session states updated in place, each method proved to take the
 step that the per-session functions describe and to leave other sessions alone.
 */
module OutputAnalyzer {
  import opened Wrappers
  import opened Sequences
  import opened Scrollback
  import opened AnalyzerState

  datatype Report = Report(sessionId: string, status: AgentStatus)

  /** The scan for an alternating run, from the newest entry back. */
  method ScanBack(series: seq<AgentStatus>) returns (alternatingRun: nat)
    requires series != []
    ensures alternatingRun == AlternatingRun(series)
  {
    alternatingRun := 1;
    var i := |series| - 2;
    assert series[..|series|] == series;
    while i >= 0
      invariant -1 <= i <= |series| - 2 && alternatingRun == |series| - 1 - i
      invariant AlternatingRun(series) == alternatingRun - 1 + AlternatingRun(series[..i + 2])
    {
      if series[i] == series[i + 1] {
        break;
      }
      assert series[..i + 2][..i + 1] == series[..i + 1];
      alternatingRun := alternatingRun + 1;
      i := i - 1;
    }
  }

  method IsWorkingNeedsInputFlapping<S>(st: SessionState<S>, proposed: AgentStatus, now: int) returns (flapping: bool)
    ensures flapping == Flapping(st, proposed, now)
  {
    hide FlatMap, Filter, AlternatingRun;
    if st.lastStatus.None? || st.lastStatus.value == proposed {
      return false;
    }
    var series := Series(st, proposed, now);
    if |series| < FLAP_MIN_TRANSITIONS {
      return false;
    }
    var alternatingRun := ScanBack(series);
    flapping := alternatingRun >= FLAP_MIN_TRANSITIONS;
  }

  /** A tick that has visited all sessions but `left`: the visited ones have taken their step
      and reported what it emits, once; the others are as before. */
  ghost predicate Visited<S>(vt: Vt<S>, now: int, was: map<string, SessionState<S>>,
                             states: map<string, SessionState<S>>, left: set<string>, out: seq<Report>)
  {
    && states.Keys == was.Keys && left <= was.Keys
    && (forall id | id in was :: states[id] == if id in left then was[id] else Tick(vt, was[id], now).st)
    && (forall r | r in out :: r.sessionId in was && r.sessionId !in left
                               && Tick(vt, was[r.sessionId], now).emitted == Some(r.status))
    && (forall id | id in was && id !in left :: Tick(vt, was[id], now).emitted.Some? ==>
          Report(id, Tick(vt, was[id], now).emitted.value) in out)
    && (forall i, j | 0 <= i < j < |out| :: out[i].sessionId != out[j].sessionId)
  }

  lemma VisitNone<S>(vt: Vt<S>, now: int, was: map<string, SessionState<S>>)
    ensures Visited(vt, now, was, was, was.Keys, [])
  {
  }

  lemma VisitedKeys<S>(vt: Vt<S>, now: int, was: map<string, SessionState<S>>,
                       states: map<string, SessionState<S>>, left: set<string>, out: seq<Report>)
    requires Visited(vt, now, was, states, left, out)
    ensures states.Keys == was.Keys && left <= was.Keys && forall id | id in left :: states[id] == was[id]
  {
  }

  lemma VisitOne<S>(vt: Vt<S>, now: int, was: map<string, SessionState<S>>,
                    states: map<string, SessionState<S>>, left: set<string>, out: seq<Report>, id: string)
    requires Visited(vt, now, was, states, left, out) && id in left
    ensures var o := Tick(vt, was[id], now);
            Visited(vt, now, was, states[id := o.st], left - {id}, out + if o.emitted.Some? then [Report(id, o.emitted.value)] else [])
  {
    hide Tick;
    assert forall i | 0 <= i < |out| :: out[i] in out;
  }

  class OutputAnalyzer<!S> {
    const vt: Vt<S>
    const blank: S
    var states: map<string, SessionState<S>>

    ghost predicate Valid()
      reads this
    {
      forall id | id in states :: states[id].pendingBytes == Total(CodeUnits, states[id].pendingChunks)
    }

    /** What `getState` finds or creates. */
    function StateOf(id: string): SessionState<S>
      reads this
    {
      if id in states then states[id] else Fresh(blank)
    }

    constructor (vt: Vt<S>, blank: S)
      ensures Valid() && states == map[] && this.vt == vt && this.blank == blank
    {
      this.vt, this.blank, states := vt, blank, map[];
    }

    method Transition(id: string, status: AgentStatus, now: int) returns (change: Option<AgentStatus>)
      requires Valid() && id in states
      modifies this
      ensures Valid() && states == old(states)[id := Transit(old(states[id]), status, now).st]
      ensures change == Transit(old(states[id]), status, now).emitted
    {
      var state := states[id];
      var next := status;
      var flapping := IsWorkingNeedsInputFlapping(state, status, now);
      hide Flapping, Filter;
      if flapping {
        next := NeedsInput;
        state := state.(flappingUntil := Max(state.flappingUntil, now + FLAP_HOLD_MS));
      }
      if state.lastStatus == Some(next) {
        states := states[id := state];
        return None;
      }
      state := state.(lastStatus := Some(next), lastStatusChangeAt := now);
      if next == Working {
        state := state.(lastWorkingHeartbeatAt := now);
      }
      state := state.(transitions := state.transitions + [AnalyzerState.Transition(next, now)]);
      state := state.(transitions := Filter(Within(now), state.transitions));
      states := states[id := state];
      return Some(next);
    }

    /** Queues a chunk for the next tick and drops from the front what no longer fits. */
    method Enqueue(id: string, data: Text, now: int)
      requires Valid()
      modifies this
      ensures Valid() && states == old(states)[id := Buffered(old(StateOf(id)), data, now)]
    {
      var state := StateOf(id);
      var chunks := state.pendingChunks + [data];
      var bytes := state.pendingBytes + |data|;
      TotalAppend(CodeUnits, state.pendingChunks, [data]);
      while bytes > PENDING_BUFFER_TAIL_BYTES && |chunks| > 1
        invariant chunks != [] && bytes == Total(CodeUnits, chunks)
        invariant Evict(CodeUnits, PENDING_BUFFER_TAIL_BYTES, chunks)
               == Evict(CodeUnits, PENDING_BUFFER_TAIL_BYTES, state.pendingChunks + [data])
        decreases |chunks|
      {
        var dropped := chunks[0];
        chunks := chunks[1..];
        bytes := bytes - |dropped|;
      }
      states := states[id := state.(lastOutputAt := now, pendingChunks := chunks, pendingBytes := bytes)];
    }

    /** The hot path: queue the chunk and promote at once if allowed. */
    method OnOutput(id: string, data: Text, now: int) returns (change: Option<AgentStatus>)
      requires Valid()
      modifies this
      ensures Valid()
      ensures states == if data == [] then old(states)
                        else old(states)[id := AnalyzerState.OnOutput(old(StateOf(id)), data, now).st]
      ensures change == AnalyzerState.OnOutput(old(StateOf(id)), data, now).emitted
    {
      if data == [] {
        return None;
      }
      ghost var was := StateOf(id);
      hide Transit, Suppressed, Evict, Total;
      Enqueue(id, data, now);
      assert was.lastStatus == Buffered(was, data, now).lastStatus;
      hide Buffered;
      var state := states[id];
      if state.lastStatus == Some(NeedsInput) {
        return None;
      }
      if state.lastStatus != Some(Working) {
        if Suppressed(state, now) {
          return None;
        }
        change := Transition(id, Working, now);
        return;
      }
      if now - state.lastWorkingHeartbeatAt >= WORKING_HEARTBEAT_MS {
        states := states[id := state.(lastWorkingHeartbeatAt := now)];
        return Some(Working);
      }
      return None;
    }

    method OnInput(id: string, data: Text, now: int)
      requires Valid()
      modifies this
      ensures Valid()
      ensures states == if data == [] then old(states) else old(states)[id := AnalyzerState.OnInput(old(StateOf(id)), data, now)]
    {
      if data != [] {
        states := states[id := StateOf(id).(lastUserInputAt := now, lastTypingSignalAt := now)];
      }
    }

    method OnUserTyping(id: string, isTyping: bool, now: int)
      requires Valid()
      modifies this
      ensures Valid() && states == old(states)[id := AnalyzerState.OnUserTyping(old(StateOf(id)), isTyping, now)]
    {
      var state := StateOf(id).(userTyping := isTyping, lastTypingSignalAt := now);
      if isTyping {
        state := state.(lastUserInputAt := now);
      }
      states := states[id := state];
    }

    method OnTerminalFocus(id: string, focused: bool, now: int)
      requires Valid()
      modifies this
      ensures Valid() && states == old(states)[id := OnFocus(old(StateOf(id)), focused, now)]
    {
      states := states[id := StateOf(id).(terminalFocused := focused, lastFocusSignalAt := now)];
    }

    method Resize(id: string, cols: real, rows: real)
      requires Valid()
      modifies this
      ensures Valid()
      ensures states == if cols <= 0.0 || rows <= 0.0 then old(states)
                        else old(states)[id := OnResize(vt, old(StateOf(id)), cols, rows)]
    {
      if cols <= 0.0 || rows <= 0.0 {
        return;
      }
      var state := StateOf(id);
      var c, r := Max(1, cols.Floor), Max(1, rows.Floor);
      if state.cols != c || state.rows != r {
        state := state.(term := vt.resize(state.term, c, r));
        state := state.(cols := c, rows := r);
        state := state.(lastSnapshot := "");
      }
      states := states[id := state];
    }

    /** Lets the screen catch up with the queued chunks and notes whether it moved. */
    method Refresh(id: string, now: int) returns (screenChanged: bool)
      requires Valid() && id in states
      modifies this
      ensures Valid() && states == old(states)[id := Drained(vt, old(states[id]), now)]
      ensures screenChanged == ScreenChanged(vt, old(states[id]))
    {
      var state := states[id];
      if state.pendingChunks != [] {
        var merged := Flatten(state.pendingChunks);
        state := state.(pendingChunks := [], pendingBytes := 0);
        state := state.(term := vt.write(state.term, merged));
      }
      var snapshot := vt.visible(state.term);
      screenChanged := snapshot != state.lastSnapshot;
      if screenChanged {
        state := state.(lastSnapshot := snapshot, lastScreenChangeAt := now);
      }
      states := states[id := state];
    }

    method JudgeStable(id: string, now: int) returns (change: Option<AgentStatus>)
      requires Valid() && id in states
      modifies this
      ensures Valid() && states == old(states)[id := Judge(vt, old(states[id]), now).st]
      ensures change == Judge(vt, old(states[id]), now).emitted
    {
      hide Transit, AtLeastSince, Total;
      var state := states[id];
      var inInputGrace := !AtLeastSince(state.lastUserInputAt, now, STDIN_INPUT_GRACE_MS);
      if now - state.lastScreenChangeAt < IDLE_TIMEOUT_MS || inInputGrace {
        return None;
      }
      if state.lastStatus == Some(Working) && AtLeastSince(state.lastOutputAt, now, NO_OUTPUT_NEEDS_INPUT_MS) {
        change := Transition(id, NeedsInput, now);
        return;
      }
      if vt.overrideVisible(state.term) && !vt.promptVisible(state.term) {
        if AtLeastSince(state.lastOutputAt, now, INTERRUPT_OVERRIDE_RECENT_OUTPUT_MS + 1) {
          return None;
        }
        states := states[id := state.(lastScreenChangeAt := now)];
        if state.lastStatus == Some(Working) {
          return None;
        }
        change := Transition(id, Working, now);
        return;
      }
      if state.lastStatus == Some(NeedsInput) {
        return None;
      }
      change := Transition(id, NeedsInput, now);
    }

    /** One session's part of a tick. */
    method TickOne(id: string, now: int) returns (change: Option<AgentStatus>)
      requires Valid() && id in states
      modifies this
      ensures Valid() && states == old(states)[id := Tick(vt, old(states[id]), now).st]
      ensures change == Tick(vt, old(states[id]), now).emitted
    {
      hide Drained, ScreenChanged, Transit, Suppressed, AtLeastSince, Judge, Total;
      var screenChanged := Refresh(id, now);
      var state := states[id];
      if !AtLeastSince(state.lastStatusChangeAt, now, STATUS_CHANGE_STABILIZATION_MS) {
        return None;
      }
      if screenChanged {
        if state.lastStatus == Some(Working) || Suppressed(state, now) {
          return None;
        }
        change := Transition(id, Working, now);
        return;
      }
      change := JudgeStable(id, now);
    }

    /** A tick visits every session once; each takes its own step and reports by itself. */
    method TickAll(now: int) returns (out: seq<Report>)
      requires Valid()
      modifies this
      ensures Valid() && Visited(vt, now, old(states), states, {}, out)
    {
      hide Tick, Total, Visited;
      out := [];
      var left := states.Keys;
      VisitNone(vt, now, states);
      while left != {}
        invariant Valid() && Visited(vt, now, old(states), states, left, out)
        decreases left
      {
        VisitedKeys(vt, now, old(states), states, left, out);
        var id :| id in left;
        VisitOne(vt, now, old(states), states, left, out, id);
        var change := TickOne(id, now);
        left := left - {id};
        out := out + if change.Some? then [Report(id, change.value)] else [];
      }
    }

    method Reset(id: string)
      requires Valid()
      modifies this
      ensures Valid() && states == old(states) - {id}
    {
      states := states - {id};
    }
  }
}
