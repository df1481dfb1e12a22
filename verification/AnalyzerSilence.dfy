/**
 Silence settles: without output, input, typing or resizes, a working session ends in
 needs_input within 30 s of the first tick, and nothing changes or is reported after that.
 */
module AnalyzerSilence {
  import opened Wrappers
  import opened Sequences
  import opened Scrollback
  import opened AnalyzerState
  import opened AnalyzerRuns

  /** Nothing the state remembers is later than `now`. */
  predicate NotAfter<S>(st: SessionState<S>, now: int) {
    && st.lastOutputAt <= now && st.lastUserInputAt <= now
    && st.lastScreenChangeAt <= now && st.lastStatusChangeAt <= now
    && (st.lastStatus == None ==> st.lastStatusChangeAt <= 0)
  }

  lemma JudgeNotAfter<S>(vt: Vt<S>, seen: SessionState<S>, at: int, now: int)
    requires NotAfter(seen, now) && at <= now
    ensures NotAfter(Judge(vt, seen, at).st, now)
  {
    TransitSets(seen, NeedsInput, at);
    TransitSets(seen.(lastScreenChangeAt := at), Working, at);
    hide Transit, AtLeastSince;
  }

  lemma TickNotAfter<S>(vt: Vt<S>, st: SessionState<S>, at: int, now: int)
    requires NotAfter(st, now) && at <= now
    ensures NotAfter(Tick(vt, st, at).st, now)
  {
    var seen := Drained(vt, st, at);
    TransitSets(seen, Working, at);
    assert NotAfter(seen, now);
    JudgeNotAfter(vt, seen, at, now);
    hide Drained, Transit, Judge, Suppressed, ScreenChanged, AtLeastSince;
  }

  lemma OutputNotAfter<S>(st: SessionState<S>, data: Text, at: int, now: int)
    requires NotAfter(st, now) && at <= now
    ensures NotAfter(OnOutput(st, data, at).st, now)
  {
    var heard := Buffered(st, data, at);
    TransitSets(heard, Working, at);
    assert NotAfter(heard, now);
    hide Transit, Suppressed, Buffered;
  }

  lemma {:induction false} RunNotAfter<S>(vt: Vt<S>, st: SessionState<S>, events: seq<Event>, now: int)
    requires NotAfter(st, now) && forall e | e in events :: e.at <= now || e.signal.Focus?
    ensures NotAfter(Run(vt, st, events), now)
    decreases |events|
  {
    if events != [] {
      var e, next := events[0], React(vt, st, events[0]).st;
      match e.signal {
        case Tick_ => TickNotAfter(vt, st, e.at, now);
        case Output(data) => OutputNotAfter(st, data, e.at, now);
        case _ => assert NotAfter(next, now);
      }
      hide React, NotAfter;
      RunNotAfter(vt, next, events[1..], now);
    }
  }

  /** Neither output nor input nor typing nor a resize. */
  predicate Quiet(e: Event) {
    e.signal == Tick_ || e.signal.Focus?
  }

  /** What holds from the first tick `t1` of a silence on: the screen is drained and seen, and
      only the running override, which needs output at most 4 s old, may still act. */
  ghost predicate Calm<S>(vt: Vt<S>, st: SessionState<S>, t1: int) {
    && st.pendingChunks == [] && vt.visible(st.term) == st.lastSnapshot
    && st.lastOutputAt <= t1 && st.lastUserInputAt <= t1
    && st.lastScreenChangeAt <= t1 + INTERRUPT_OVERRIDE_RECENT_OUTPUT_MS
    && (st.lastStatus == Some(Working) ==> st.lastStatusChangeAt <= t1 + INTERRUPT_OVERRIDE_RECENT_OUTPUT_MS)
    && (st.lastStatus == None ==> st.lastStatusChangeAt <= 0)
  }

  lemma DrainedIsCalm<S>(vt: Vt<S>, st: SessionState<S>, t1: int)
    requires NotAfter(st, t1)
    ensures var seen := Drained(vt, st, t1);
            Calm(vt, seen, t1) && Calm(vt, seen.(lastScreenChangeAt := t1), t1)
  {
  }

  lemma JudgeIsCalm<S>(vt: Vt<S>, seen: SessionState<S>, t1: int)
    requires Calm(vt, seen, t1) && Calm(vt, seen.(lastScreenChangeAt := t1), t1)
    ensures Calm(vt, Judge(vt, seen, t1).st, t1)
  {
    TransitSets(seen, NeedsInput, t1);
    TransitSets(seen.(lastScreenChangeAt := t1), Working, t1);
    hide Transit, AtLeastSince;
  }

  /** The first tick of a silence. */
  lemma FirstTick<S>(vt: Vt<S>, st: SessionState<S>, t1: int)
    requires NotAfter(st, t1)
    ensures Calm(vt, Tick(vt, st, t1).st, t1)
  {
    var seen := Drained(vt, st, t1);
    DrainedIsCalm(vt, st, t1);
    TransitSets(seen, Working, t1);
    JudgeIsCalm(vt, seen, t1);
    hide Drained, Transit, Judge, Suppressed, ScreenChanged, AtLeastSince;
  }

  lemma QuietStep<S>(vt: Vt<S>, st: SessionState<S>, e: Event, t1: int)
    requires Calm(vt, st, t1) && Quiet(e) && (t1 <= e.at || e.signal.Focus?)
    ensures Calm(vt, React(vt, st, e).st, t1)
  {
    if e.signal == Tick_ {
      assert Drained(vt, st, e.at) == st && !ScreenChanged(vt, st);
      TransitSets(st, NeedsInput, e.at);
      TransitSets(st.(lastScreenChangeAt := e.at), Working, e.at);
      hide Drained, ScreenChanged, Transit, Suppressed;
    }
  }

  /** The state in which a silence ends: waiting for input, or a session whose agent never
      showed a status and whose screen still carries the running affordance. */
  ghost predicate Settled<S>(vt: Vt<S>, st: SessionState<S>) {
    || st.lastStatus == Some(NeedsInput)
    || (st.lastStatus == None && Unsettled(vt, st))
  }

  /** A tick 30 s into the silence settles the session. */
  lemma LateTick<S>(vt: Vt<S>, st: SessionState<S>, now: int, t1: int)
    requires Calm(vt, st, t1) && 0 < t1 && t1 + NO_OUTPUT_NEEDS_INPUT_MS <= now
    ensures Settled(vt, Tick(vt, st, now).st)
    ensures st.lastStatus == Some(Working) ==> Tick(vt, st, now) == Transit(st, NeedsInput, now) && Tick(vt, st, now).emitted == Some(NeedsInput)
  {
    assert Drained(vt, st, now) == st && !ScreenChanged(vt, st);
    TransitSets(st, NeedsInput, now);
    assert st.lastStatus == Some(Working) ==> Transit(st, NeedsInput, now).emitted == Some(NeedsInput);
    hide Drained, ScreenChanged, Transit, Suppressed;
  }

  /** The screen that leaves a session without a status: the affordance shows, and no prompt. */
  predicate Unsettled<S>(vt: Vt<S>, st: SessionState<S>) {
    vt.overrideVisible(st.term) && !vt.promptVisible(st.term)
  }

  /** A late tick leaves a session without a status exactly when it has none on such a screen. */
  lemma NeverAStatus<S>(vt: Vt<S>, st: SessionState<S>, now: int, t1: int)
    requires Calm(vt, st, t1) && 0 < t1 && t1 + NO_OUTPUT_NEEDS_INPUT_MS <= now
    ensures Tick(vt, st, now).st.lastStatus == None <==> st.lastStatus == None && Unsettled(vt, st)
  {
    assert Drained(vt, st, now) == st && !ScreenChanged(vt, st);
    TransitSets(st, NeedsInput, now);
    TransitSets(st.(lastScreenChangeAt := now), Working, now);
    hide Drained, ScreenChanged, Transit, Suppressed;
  }

  /** And there is one: a session that never had output, input or a prompt. */
  lemma SilenceWithoutStatus() returns (vt: Vt<int>)
    ensures Tick(vt, Fresh(0), 40000).st.lastStatus == None && Calm(vt, Fresh(0), 1)
  {
    vt := Vt((s: int, t: Text) => s, (s: int, c: int, r: int) => s, (s: int) => "", (s: int) => false, (s: int) => true);
    hide Flapping, Filter, Suppressed;
  }

  /** What settling means for each status the session had. */
  lemma SettledOutcome<S>(vt: Vt<S>, st: SessionState<S>, now: int, t1: int)
    requires Calm(vt, st, t1) && 0 < t1 && t1 + NO_OUTPUT_NEEDS_INPUT_MS <= now
    ensures var last := Tick(vt, st, now);
            && Calm(vt, last.st, t1) && Settled(vt, last.st) && last.st.lastStatus != Some(Working)
            && (st.lastStatus == Some(Working) ==> last.emitted == Some(NeedsInput))
            && (st.lastStatus.Some? ==> last.st.lastStatus == Some(NeedsInput))
            && (last.st.lastStatus == None <==> st.lastStatus == None && Unsettled(vt, st))
  {
    NeverAStatus(vt, st, now, t1);
    LateTick(vt, st, now, t1);
    QuietStep(vt, st, Event(Tick_, now), t1);
    TransitSets(st, NeedsInput, now);
    if st.lastStatus == Some(NeedsInput) {
      SettledStep(vt, st, Event(Tick_, now), t1);
    }
    hide Tick, Transit, Calm;
  }

  lemma SettledStep<S>(vt: Vt<S>, st: SessionState<S>, e: Event, t1: int)
    requires Calm(vt, st, t1) && Quiet(e) && Settled(vt, st)
    requires t1 + INTERRUPT_OVERRIDE_RECENT_OUTPUT_MS < e.at || e.signal.Focus?
    ensures var r := React(vt, st, e);
            && r.emitted == None && r.st.lastStatus == st.lastStatus && Settled(vt, r.st)
  {
    if e.signal == Tick_ {
      assert Drained(vt, st, e.at) == st && !ScreenChanged(vt, st);
      hide Drained, ScreenChanged, Transit, Suppressed;
    }
  }

  lemma {:induction false} CalmRun<S>(vt: Vt<S>, st: SessionState<S>, events: seq<Event>, t1: int, from: int)
    requires Calm(vt, st, t1) && Clocked(events, from) && t1 <= from && forall e | e in events :: Quiet(e)
    ensures Calm(vt, Run(vt, st, events), t1)
    decreases |events|
  {
    hide React, Calm;
    if events != [] {
      QuietStep(vt, st, events[0], t1);
      CalmRun(vt, React(vt, st, events[0]).st, events[1..], t1, if ClientTimed(events[0]) then from else events[0].at);
    }
  }

  /** Once settled, a silence stays silent. */
  lemma {:induction false} SettledRun<S>(vt: Vt<S>, st: SessionState<S>, events: seq<Event>, t1: int, from: int)
    requires Calm(vt, st, t1) && Settled(vt, st) && forall e | e in events :: Quiet(e)
    requires Clocked(events, from) && t1 + INTERRUPT_OVERRIDE_RECENT_OUTPUT_MS < from
    ensures Emissions(vt, st, events) == [] && Changes(vt, st, events) == []
    ensures Run(vt, st, events).lastStatus == st.lastStatus
    decreases |events|
  {
    hide React, Calm, Settled;
    if events != [] {
      QuietStep(vt, st, events[0], t1);
      SettledStep(vt, st, events[0], t1);
      SettledRun(vt, React(vt, st, events[0]).st, events[1..], t1, if ClientTimed(events[0]) then from else events[0].at);
    }
  }

  lemma {:induction false} RunAppend<S>(vt: Vt<S>, st: SessionState<S>, a: seq<Event>, b: seq<Event>)
    ensures Run(vt, st, a + b) == Run(vt, Run(vt, st, a), b)
    decreases |a|
  {
    hide React;
    if a == [] {
      assert a + b == b;
    } else {
      assert (a + b)[0] == a[0] && (a + b)[1..] == a[1..] + b;
      RunAppend(vt, React(vt, st, a[0]).st, a[1..], b);
    }
  }

  lemma RunTick<S>(vt: Vt<S>, st: SessionState<S>, history: seq<Event>, t: int)
    ensures Run(vt, st, history + [Event(Tick_, t)]) == Tick(vt, Run(vt, st, history), t).st
  {
    RunAppend(vt, st, history, [Event(Tick_, t)]);
    hide Tick;
    assert [Event(Tick_, t)][1..] == [];
  }

  /** Convergence. After any history, let a silence begin whose first tick is at t1. A tick at
      or after t1 + 30 s takes a working session to needs_input, reporting it; and from then on
      nothing is reported and the status stays, however long the silence lasts. */
  lemma SilenceConverges<S>(vt: Vt<S>, blank: S, history: seq<Event>, t1: int, between: seq<Event>, t2: int, rest: seq<Event>)
    requires 0 < t1 && forall e | e in history :: e.at <= t1 || e.signal.Focus?
    requires Clocked(between, t1) && t1 + NO_OUTPUT_NEEDS_INPUT_MS <= t2 && Clocked(rest, t2)
    requires (forall e | e in between :: Quiet(e)) && (forall e | e in rest :: Quiet(e))
    ensures var before := Run(vt, Fresh(blank), history + [Event(Tick_, t1)] + between);
            var last := Tick(vt, before, t2);
            && last.st.lastStatus != Some(Working)
            && (before.lastStatus == Some(Working) ==> last.emitted == Some(NeedsInput))
            && (before.lastStatus.Some? ==> last.st.lastStatus == Some(NeedsInput))
            && (last.st.lastStatus == None <==> before.lastStatus == None && Unsettled(vt, before))
            && Emissions(vt, last.st, rest) == [] && Changes(vt, last.st, rest) == []
            && Run(vt, last.st, rest).lastStatus == last.st.lastStatus
  {
    var st0 := Run(vt, Fresh(blank), history);
    RunNotAfter(vt, Fresh(blank), history, t1);
    RunTick(vt, Fresh(blank), history, t1);
    RunAppend(vt, Fresh(blank), history + [Event(Tick_, t1)], between);
    FirstTick(vt, st0, t1);
    var st1 := Tick(vt, st0, t1).st;
    var before := Run(vt, st1, between);
    hide Clocked, LastTime, NotAfter, Calm, Tick, Run, Emissions, Changes;
    CalmRun(vt, st1, between, t1, t1);
    SettledOutcome(vt, before, t2, t1);
    SettledRun(vt, Tick(vt, before, t2).st, rest, t1, t2);
  }
}
