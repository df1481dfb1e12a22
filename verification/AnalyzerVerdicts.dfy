/**
 Exactly when the analyzer promotes a session to working, takes it to needs_input, repeats
 that it works and holds it back, with every guard spelled out; and what the guards read, told
 by the signals of the run.
 */
module AnalyzerVerdicts {
  import opened Wrappers
  import opened Sequences
  import opened Scrollback
  import opened AnalyzerState
  import opened AnalyzerRuns

  /** The terminal once the output heard since the last tick is written to it. */
  function Shown<S>(vt: Vt<S>, st: SessionState<S>): S {
    if st.pendingChunks == [] then st.term else vt.write(st.term, Flatten(st.pendingChunks))
  }

  /** What is visible is not what the last tick saw. */
  predicate Moved<S>(vt: Vt<S>, st: SessionState<S>) {
    vt.visible(Shown(vt, st)) != st.lastSnapshot
  }

  /** No change of status within the last half second. */
  predicate Stable<S>(st: SessionState<S>, now: int) {
    st.lastStatusChangeAt <= 0 || now - st.lastStatusChangeAt >= 500
  }

  /** No hold runs, the user neither types nor typed within 1.2 s, and the terminal is not focused
      or was focused at least 1.5 s ago. */
  predicate Undisturbed<S>(st: SessionState<S>, now: int) {
    && st.flappingUntil <= now
    && !st.userTyping
    && (st.lastTypingSignalAt <= 0 || now - st.lastTypingSignalAt >= 1200)
    && (!st.terminalFocused || st.lastFocusSignalAt <= 0 || now - st.lastFocusSignalAt >= 1500)
  }

  /** The screen has not moved for five seconds, and the last input is four seconds old. */
  predicate Idle<S>(vt: Vt<S>, st: SessionState<S>, now: int) {
    && !Moved(vt, st) && now - st.lastScreenChangeAt >= 5000
    && (st.lastUserInputAt <= 0 || now - st.lastUserInputAt >= 4000)
  }

  /** The interrupt affordance shows and no prompt does. */
  predicate Affords<S>(vt: Vt<S>, st: SessionState<S>) {
    vt.overrideVisible(Shown(vt, st)) && !vt.promptVisible(Shown(vt, st))
  }

  predicate HeardWithin<S>(st: SessionState<S>, now: int, ms: int) {
    st.lastOutputAt > 0 && now - st.lastOutputAt <= ms
  }

  /** One change more would make five within 30 s. */
  predicate Restless(log: seq<Transition>, now: int) {
    |log| >= 4 && now - log[|log| - 4].at <= 30000
  }

  /** Counting the recent changes amounts to looking at the fourth last. */
  lemma RestlessIsCount<S>(st: SessionState<S>, log: seq<Transition>, now: int)
    requires Consistent(st, log, now)
    ensures Restless(log, now) <==> st.lastStatus.Some? && |Filter(Within(now), log)| >= 4
  {
    RecentIsTail(log, now);
    var recent := Filter(Within(now), log);
    hide Filter;
    assert recent != [] ==> recent[0] == log[|log| - |recent|];
    assert |recent| >= 4 ==> recent[|recent| - 4] == log[|log| - 4];
  }

  /** The event speaks for working: output of a session without a status, a moved screen, or an
      idle one that still affords an interrupt and was heard within four seconds. */
  predicate SpeaksForWorking<S>(vt: Vt<S>, st: SessionState<S>, e: Event) {
    || (e.signal.Output? && e.signal.data != [] && st.lastStatus == None && Undisturbed(st, e.at))
    || (e.signal == Tick_ && Stable(st, e.at) && Moved(vt, st) && Undisturbed(st, e.at))
    || (e.signal == Tick_ && Stable(st, e.at) && Idle(vt, st, e.at) && Affords(vt, st) && HeardWithin(st, e.at, 4000))
  }

  /** The event speaks for needs_input: an idle screen of a working session not heard for 30 s, or
      an idle screen that affords no interrupt. */
  predicate SpeaksForInput<S>(vt: Vt<S>, st: SessionState<S>, e: Event) {
    && e.signal == Tick_ && Stable(st, e.at) && Idle(vt, st, e.at)
    && (!Affords(vt, st) || (st.lastStatus == Some(Working) && !HeardWithin(st, e.at, 29999)))
  }

  lemma TransitDecides<S>(st: SessionState<S>, seen: SessionState<S>, proposed: AgentStatus, log: seq<Transition>, now: int)
    requires Consistent(st, log, now) && st.lastStatus != Some(proposed)
    requires seen.lastStatus == st.lastStatus && seen.lastStatusChangeAt == st.lastStatusChangeAt && seen.transitions == st.transitions
    requires seen.flappingUntil == st.flappingUntil
    ensures var t := Transit(seen, proposed, now);
            && t.st.lastStatus == Some(if Restless(log, now) then NeedsInput else proposed)
            && t.emitted == (if t.st.lastStatus != st.lastStatus then t.st.lastStatus else None)
            && t.st.flappingUntil == if Restless(log, now) then Max(st.flappingUntil, now + 15000) else st.flappingUntil
  {
    assert Consistent(seen, log, now);
    FlappingIsCount(seen, proposed, log, now);
    RestlessIsCount(st, log, now);
    hide Restless, Consistent, Flapping, Filter;
  }

  /** The statuses before and after, the report and the hold of one event, from what it speaks for. */
  ghost predicate Decided<S>(vt: Vt<S>, st: SessionState<S>, log: seq<Transition>, e: Event, r: Outcome<S>) {
    var status := st.lastStatus;
    var up := status != Some(Working) && SpeaksForWorking(vt, st, e);
    var down := status != Some(NeedsInput) && SpeaksForInput(vt, st, e);
    && r.st.lastStatus ==
         (if up && !Restless(log, e.at) then Some(Working)
          else if down || up then Some(NeedsInput)
          else status)
    && r.st.flappingUntil ==
         (if (up || down) && Restless(log, e.at) then Max(st.flappingUntil, e.at + 15000) else st.flappingUntil)
  }

  lemma DrainedShows<S>(vt: Vt<S>, st: SessionState<S>, now: int)
    ensures var seen := Drained(vt, st, now);
            && seen.term == Shown(vt, st) && ScreenChanged(vt, st) == Moved(vt, st)
            && seen.lastScreenChangeAt == (if Moved(vt, st) then now else st.lastScreenChangeAt)
            && seen == st.(term := seen.term, pendingChunks := [], pendingBytes := seen.pendingBytes,
                           lastSnapshot := vt.visible(seen.term), lastScreenChangeAt := seen.lastScreenChangeAt)
  {
  }

  lemma MovedDecides<S>(vt: Vt<S>, st: SessionState<S>, log: seq<Transition>, now: int)
    requires Consistent(st, log, now) && Moved(vt, st)
    ensures Decided(vt, st, log, Event(Tick_, now), Tick(vt, st, now))
  {
    var seen := Drained(vt, st, now);
    DrainedShows(vt, st, now);
    if st.lastStatus != Some(Working) {
      TransitDecides(st, seen, Working, log, now);
    }
    hide Drained, ScreenChanged, Moved, Shown, Transit, Judge, Consistent, Restless, Affords;
  }

  /** The verdict on an idle screen, from what was heard and what shows. */
  lemma JudgeAsks<S>(vt: Vt<S>, seen: SessionState<S>, now: int)
    ensures var idle := now - seen.lastScreenChangeAt >= 5000 && (seen.lastUserInputAt <= 0 || now - seen.lastUserInputAt >= 4000);
            var affords := vt.overrideVisible(seen.term) && !vt.promptVisible(seen.term);
            var refreshed := seen.(lastScreenChangeAt := now);
            Judge(vt, seen, now) ==
              if !idle then Outcome(seen, None)
              else if seen.lastStatus == Some(Working) && !HeardWithin(seen, now, 29999) then Transit(seen, NeedsInput, now)
              else if affords && !HeardWithin(seen, now, 4000) then Outcome(seen, None)
              else if affords && seen.lastStatus == Some(Working) then Outcome(refreshed, None)
              else if affords then Transit(refreshed, Working, now)
              else if seen.lastStatus == Some(NeedsInput) then Outcome(seen, None)
              else Transit(seen, NeedsInput, now)
  {
    hide Transit;
  }

  /** What is decided when nothing is called for, and when a change is. */
  lemma KeptDecides<S>(vt: Vt<S>, st: SessionState<S>, log: seq<Transition>, e: Event, r: Outcome<S>)
    requires r.st.lastStatus == st.lastStatus && r.st.flappingUntil == st.flappingUntil
    requires st.lastStatus == Some(Working) || !SpeaksForWorking(vt, st, e)
    requires st.lastStatus == Some(NeedsInput) || !SpeaksForInput(vt, st, e)
    ensures Decided(vt, st, log, e, r)
  {
  }

  lemma UpDecides<S>(vt: Vt<S>, st: SessionState<S>, seen: SessionState<S>, log: seq<Transition>, e: Event)
    requires Consistent(st, log, e.at) && st.lastStatus != Some(Working) && SpeaksForWorking(vt, st, e)
    requires seen.lastStatus == st.lastStatus && seen.lastStatusChangeAt == st.lastStatusChangeAt && seen.transitions == st.transitions
    requires seen.flappingUntil == st.flappingUntil && !SpeaksForInput(vt, st, e)
    ensures Decided(vt, st, log, e, Transit(seen, Working, e.at))
  {
    TransitDecides(st, seen, Working, log, e.at);
    hide Transit, Consistent, SpeaksForWorking, SpeaksForInput, Restless;
  }

  lemma DownDecides<S>(vt: Vt<S>, st: SessionState<S>, seen: SessionState<S>, log: seq<Transition>, e: Event)
    requires Consistent(st, log, e.at) && st.lastStatus != Some(NeedsInput) && SpeaksForInput(vt, st, e)
    requires seen.lastStatus == st.lastStatus && seen.lastStatusChangeAt == st.lastStatusChangeAt && seen.transitions == st.transitions
    requires seen.flappingUntil == st.flappingUntil && (st.lastStatus == Some(Working) || !SpeaksForWorking(vt, st, e))
    ensures Decided(vt, st, log, e, Transit(seen, NeedsInput, e.at))
  {
    TransitDecides(st, seen, NeedsInput, log, e.at);
    hide Transit, Consistent, SpeaksForWorking, SpeaksForInput, Restless;
  }

  lemma StillDecides<S>(vt: Vt<S>, st: SessionState<S>, log: seq<Transition>, now: int)
    requires Consistent(st, log, now) && !Moved(vt, st) && Stable(st, now)
    ensures Decided(vt, st, log, Event(Tick_, now), Judge(vt, Drained(vt, st, now), now))
  {
    var e, seen := Event(Tick_, now), Drained(vt, st, now);
    var refreshed := seen.(lastScreenChangeAt := now);
    var r := Judge(vt, seen, now);
    DrainedShows(vt, st, now);
    JudgeAsks(vt, seen, now);
    hide Judge, Drained, ScreenChanged, Moved, Shown, Transit, Consistent, Restless, Undisturbed, Decided;
    if st.lastStatus != Some(Working) && SpeaksForWorking(vt, st, e) {
      UpDecides(vt, st, refreshed, log, e);
    } else if st.lastStatus != Some(NeedsInput) && SpeaksForInput(vt, st, e) {
      DownDecides(vt, st, seen, log, e);
    } else {
      KeptDecides(vt, st, log, e, r);
    }
  }

  lemma TickDecides<S>(vt: Vt<S>, st: SessionState<S>, log: seq<Transition>, now: int)
    requires Consistent(st, log, now)
    ensures Decided(vt, st, log, Event(Tick_, now), Tick(vt, st, now))
  {
    DrainedShows(vt, st, now);
    if Moved(vt, st) {
      MovedDecides(vt, st, log, now);
    } else if Stable(st, now) {
      StillDecides(vt, st, log, now);
      hide Decided;
    }
    hide Drained, ScreenChanged, Moved, Shown, Judge, Consistent, Restless;
  }

  lemma OutputDecides<S>(vt: Vt<S>, st: SessionState<S>, log: seq<Transition>, data: Text, now: int)
    requires Consistent(st, log, now)
    ensures Decided(vt, st, log, Event(Output(data), now), OnOutput(st, data, now))
  {
    var heard := Buffered(st, data, now);
    if st.lastStatus == None {
      TransitDecides(st, heard, Working, log, now);
    }
    hide Transit, Consistent, Restless, Moved, Evict, Total;
  }

  lemma ReactDecides<S>(vt: Vt<S>, st: SessionState<S>, log: seq<Transition>, e: Event)
    requires Consistent(st, log, e.at)
    ensures Decided(vt, st, log, e, React(vt, st, e))
  {
    match e.signal {
      case Tick_ => TickDecides(vt, st, log, e.at); assert e == Event(Tick_, e.at); hide Tick, Decided;
      case Output(data) => OutputDecides(vt, st, log, data, e.at); assert e == Event(Output(data), e.at); hide OnOutput, Decided;
      case _ => hide Consistent, Restless;
    }
  }

  // ---- the verdicts ----

  /** Exactly when a session that is not working becomes working, and says so: something speaks
      for it, and it has not changed four times within the last 30 s. */
  lemma PromotedIff<S>(vt: Vt<S>, st: SessionState<S>, e: Event, log: seq<Transition>)
    requires Consistent(st, log, e.at) && st.lastStatus != Some(Working)
    ensures var r := React(vt, st, e);
            && (r.st.lastStatus == Some(Working) <==> SpeaksForWorking(vt, st, e) && !Restless(log, e.at))
            && (r.emitted == Some(Working) <==> r.st.lastStatus == Some(Working))
  {
    ReactDecides(vt, st, log, e);
    ReportStep(vt, st, e);
    hide React, SpeaksForWorking, SpeaksForInput, Restless, Consistent;
  }

  /** So in every run: what the session has of its changes is the run's own log of them. */
  lemma PromotedInRuns<S>(vt: Vt<S>, blank: S, events: seq<Event>, e: Event)
    requires Clocked(events, 1) && LastTime(events, 1) <= e.at
    ensures var st, log := Run(vt, Fresh(blank), events), Changes(vt, Fresh(blank), events);
            && st.lastStatus == (if log == [] then None else Some(log[|log| - 1].status))
            && (log != [] ==> st.lastStatusChangeAt == log[|log| - 1].at)
            && (st.lastStatus != Some(Working) ==>
                  (React(vt, st, e).emitted == Some(Working) <==> SpeaksForWorking(vt, st, e) && !Restless(log, e.at)))
  {
    var st, log := Run(vt, Fresh(blank), events), Changes(vt, Fresh(blank), events);
    FreshConsistent(blank);
    hide *;
    RunConsistent(vt, Fresh(blank), events, [], 1);
    assert [] + log == log;
    ConsistentTells(st, log, LastTime(events, 1), e.at);
    if st.lastStatus != Some(Working) {
      PromotedIff(vt, st, e, log);
    }
  }

  lemma FreshConsistent<S>(blank: S)
    ensures Consistent(Fresh(blank), [], 1)
  {
  }

  lemma ConsistentTells<S>(st: SessionState<S>, log: seq<Transition>, last: int, now: int)
    requires Consistent(st, log, last) && last <= now
    ensures Consistent(st, log, now)
    ensures st.lastStatus == if log == [] then None else Some(log[|log| - 1].status)
    ensures log != [] ==> st.lastStatusChangeAt == log[|log| - 1].at
  {
    hide Alternating, Timed, Guarded, Spaced;
  }

  /** On a moved screen, guard by guard. */
  lemma PromotedOnMove<S>(vt: Vt<S>, st: SessionState<S>, now: int, log: seq<Transition>)
    requires Consistent(st, log, now) && st.lastStatus != Some(Working)
    requires vt.visible(if st.pendingChunks == [] then st.term else vt.write(st.term, Flatten(st.pendingChunks))) != st.lastSnapshot
    ensures var r := React(vt, st, Event(Tick_, now));
            r.st.lastStatus == Some(Working) && r.emitted == Some(Working) <==>
              && (st.lastStatusChangeAt <= 0 || now - st.lastStatusChangeAt >= 500)
              && st.flappingUntil <= now
              && !st.userTyping
              && (st.lastTypingSignalAt <= 0 || now - st.lastTypingSignalAt >= 1200)
              && (!st.terminalFocused || st.lastFocusSignalAt <= 0 || now - st.lastFocusSignalAt >= 1500)
              && (|log| < 4 || now - log[|log| - 4].at > 30000)
  {
    PromotedIff(vt, st, Event(Tick_, now), log);
    hide React, Consistent;
  }

  /** Exactly when a session that does not wait for input comes to wait for it, and says so. */
  lemma WaitsIff<S>(vt: Vt<S>, st: SessionState<S>, e: Event, log: seq<Transition>)
    requires Consistent(st, log, e.at) && st.lastStatus != Some(NeedsInput)
    ensures var r := React(vt, st, e);
            && (r.st.lastStatus == Some(NeedsInput) <==> SpeaksForInput(vt, st, e))
            && (r.emitted == Some(NeedsInput) <==> r.st.lastStatus == Some(NeedsInput))
  {
    ReactDecides(vt, st, log, e);
    ReportStep(vt, st, e);
    assert st.lastStatus == None ==> log == [];
    hide React, SpeaksForWorking, SpeaksForInput, Consistent;
  }

  /** A working session repeats its status exactly on output 1.2 s after it last reported it. */
  lemma HeartbeatIff<S>(vt: Vt<S>, st: SessionState<S>, e: Event)
    requires st.lastStatus == Some(Working)
    ensures React(vt, st, e).emitted == Some(Working)
        <==> e.signal.Output? && e.signal.data != [] && e.at - st.lastWorkingHeartbeatAt >= 1200
  {
    ReportStep(vt, st, e);
    if e.signal == Tick_ {
      TickReports(vt, st, e.at);
      hide Tick;
    } else {
      hide Transit, Suppressed, Evict, Total;
    }
  }

  /** A hold of 15 s starts, or is prolonged, exactly when a change is called for that would be the
      fifth within 30 s; nothing else touches it. */
  lemma HoldExactly<S>(vt: Vt<S>, st: SessionState<S>, e: Event, log: seq<Transition>)
    requires Consistent(st, log, e.at)
    ensures React(vt, st, e).st.flappingUntil ==
            if Restless(log, e.at) && (if st.lastStatus == Some(Working) then SpeaksForInput(vt, st, e) else SpeaksForWorking(vt, st, e))
            then Max(st.flappingUntil, e.at + 15000) else st.flappingUntil
  {
    ReactDecides(vt, st, log, e);
    assert st.lastStatus == None ==> log == [];
    hide React, SpeaksForWorking, SpeaksForInput, Consistent;
  }

  /** What a tick sees: all output heard is on the screen, the snapshot is what is visible, and the
      screen counts as moved when it did, or when an idle one affords an interrupt and was heard. */
  lemma TickSees<S>(vt: Vt<S>, st: SessionState<S>, now: int)
    ensures var after := React(vt, st, Event(Tick_, now)).st;
            && after.term == Shown(vt, st) && after.lastSnapshot == vt.visible(after.term)
            && after.lastScreenChangeAt ==
                 if Moved(vt, st) || (Stable(st, now) && Idle(vt, st, now) && Affords(vt, st) && HeardWithin(st, now, 4000))
                 then now else st.lastScreenChangeAt
  {
    var seen := Drained(vt, st, now);
    DrainedShows(vt, st, now);
    TransitSets(seen, Working, now);
    JudgeSees(vt, seen, now);
    hide Drained, ScreenChanged, Moved, Shown, Judge, Transit, Suppressed;
  }

  lemma JudgeSees<S>(vt: Vt<S>, seen: SessionState<S>, now: int)
    ensures var after := Judge(vt, seen, now).st;
            && after.term == seen.term && after.lastSnapshot == seen.lastSnapshot
            && after.lastScreenChangeAt ==
                 if now - seen.lastScreenChangeAt >= 5000 && (seen.lastUserInputAt <= 0 || now - seen.lastUserInputAt >= 4000)
                    && vt.overrideVisible(seen.term) && !vt.promptVisible(seen.term) && HeardWithin(seen, now, 4000)
                 then now else seen.lastScreenChangeAt
  {
    TransitSets(seen, NeedsInput, now);
    TransitSets(seen.(lastScreenChangeAt := now), Working, now);
    hide Transit;
  }

  // ---- what the guards read ----

  /** The time of the last event that counts, 0 if there is none. */
  function LastAt(events: seq<Event>, counts: Event -> bool): int {
    if events == [] then 0
    else if counts(events[|events| - 1]) then events[|events| - 1].at
    else LastAt(events[..|events| - 1], counts)
  }

  /** What the last event that counts says. */
  function LastSaid(events: seq<Event>, says: Event -> Option<bool>): bool {
    if events == [] then false
    else if says(events[|events| - 1]).Some? then says(events[|events| - 1]).value
    else LastSaid(events[..|events| - 1], says)
  }

  predicate IsOutput(e: Event) {
    e.signal.Output? && e.signal.data != []
  }

  predicate IsFocus(e: Event) {
    e.signal.Focus?
  }

  /** Something was typed, or the client said whether the user types. */
  predicate IsTyping(e: Event) {
    e.signal.Typing? || (e.signal.Input? && e.signal.data != [])
  }

  /** Something was typed, or the client said that the user types. */
  predicate IsInput(e: Event) {
    e.signal == Typing(true) || (e.signal.Input? && e.signal.data != [])
  }

  function TypingSaid(e: Event): Option<bool> {
    if e.signal.Typing? then Some(e.signal.active) else None
  }

  function FocusSaid(e: Event): Option<bool> {
    if e.signal.Focus? then Some(e.signal.focused) else None
  }

  ghost predicate Recalls<S>(st: SessionState<S>, events: seq<Event>) {
    && st.lastOutputAt == LastAt(events, IsOutput)
    && st.lastUserInputAt == LastAt(events, IsInput)
    && st.lastTypingSignalAt == LastAt(events, IsTyping)
    && st.lastFocusSignalAt == LastAt(events, IsFocus)
    && st.userTyping == LastSaid(events, TypingSaid)
    && st.terminalFocused == LastSaid(events, FocusSaid)
    && (st.lastStatus == None ==> st.lastStatusChangeAt == 0)
  }

  lemma TickRecalls<S>(vt: Vt<S>, st: SessionState<S>, now: int)
    ensures var after := Tick(vt, st, now).st;
            && after.lastOutputAt == st.lastOutputAt && after.lastUserInputAt == st.lastUserInputAt
            && after.lastTypingSignalAt == st.lastTypingSignalAt && after.lastFocusSignalAt == st.lastFocusSignalAt
            && after.userTyping == st.userTyping && after.terminalFocused == st.terminalFocused
            && after.cols == st.cols && after.rows == st.rows
            && (after.lastStatus == None ==> st.lastStatus == None && after.lastStatusChangeAt == st.lastStatusChangeAt)
  {
    var seen := Drained(vt, st, now);
    DrainedShows(vt, st, now);
    TransitSets(seen, Working, now);
    TransitSets(seen, NeedsInput, now);
    TransitSets(seen.(lastScreenChangeAt := now), Working, now);
    hide Drained, ScreenChanged, Moved, Shown, Transit, Suppressed, AtLeastSince;
  }

  lemma LastOne(events: seq<Event>, e: Event, counts: Event -> bool, says: Event -> Option<bool>)
    ensures LastAt(events + [e], counts) == if counts(e) then e.at else LastAt(events, counts)
    ensures LastSaid(events + [e], says) == if says(e).Some? then says(e).value else LastSaid(events, says)
  {
    assert (events + [e])[..|events|] == events;
  }

  lemma StepRecalls<S>(vt: Vt<S>, st: SessionState<S>, events: seq<Event>, e: Event)
    requires Recalls(st, events)
    ensures Recalls(React(vt, st, e).st, events + [e])
  {
    LastOne(events, e, IsOutput, TypingSaid);
    LastOne(events, e, IsInput, FocusSaid);
    LastOne(events, e, IsTyping, FocusSaid);
    LastOne(events, e, IsFocus, FocusSaid);
    hide LastAt, LastSaid;
    match e.signal {
      case Tick_ => TickRecalls(vt, st, e.at); hide Tick;
      case Output(data) =>
        TransitSets(Buffered(st, data, e.at), Working, e.at);
        hide Transit, Suppressed, Evict, Total;
      case _ =>
    }
  }

  /** What the guards read is what the signals of the run said last. */
  lemma {:induction false} RunRecalls<S>(vt: Vt<S>, blank: S, events: seq<Event>)
    ensures Recalls(Run(vt, Fresh(blank), events), events)
    decreases |events|
  {
    if events != [] {
      var before, last := events[..|events| - 1], events[|events| - 1];
      assert events == before + [last];
      RunRecalls(vt, blank, before);
      RunSnoc(vt, Fresh(blank), before, last);
      hide React, Run, Recalls;
      StepRecalls(vt, Run(vt, Fresh(blank), before), before, last);
    }
  }

  lemma {:induction false} RunSnoc<S>(vt: Vt<S>, st: SessionState<S>, events: seq<Event>, e: Event)
    ensures Run(vt, st, events + [e]) == React(vt, Run(vt, st, events), e).st
    decreases |events|
  {
    hide React;
    var more := events + [e];
    if events == [] {
      assert more[1..] == [];
    } else {
      assert more[0] == events[0] && more[1..] == events[1..] + [e];
      RunSnoc(vt, React(vt, st, events[0]).st, events[1..], e);
    }
  }

  // ---- the screen's size ----

  /** The size that the resizes of a run ask for: the last one with two positive numbers, rounded
      down to whole cells but not below one. */
  function SizeAsked(events: seq<Event>): (int, int) {
    if events == [] then (120, 40)
    else
      var e := events[|events| - 1].signal;
      if e.Resize? && e.cols > 0.0 && e.rows > 0.0 then
        (if e.cols < 1.0 then 1 else e.cols.Floor, if e.rows < 1.0 then 1 else e.rows.Floor)
      else SizeAsked(events[..|events| - 1])
  }

  /** For any terminal that keeps its size under writes and takes the one it is resized to: the
      screen judged has the size last asked for. */
  lemma {:induction false} RunResizes<S>(vt: Vt<S>, blank: S, sizeOf: S -> (int, int), events: seq<Event>)
    requires sizeOf(blank) == (120, 40)
    requires forall s, text :: sizeOf(vt.write(s, text)) == sizeOf(s)
    requires forall s, c, r :: sizeOf(vt.resize(s, c, r)) == (c, r)
    ensures var st := Run(vt, Fresh(blank), events);
            sizeOf(st.term) == SizeAsked(events) && (st.cols, st.rows) == SizeAsked(events)
    decreases |events|
  {
    if events != [] {
      var before, last := events[..|events| - 1], events[|events| - 1];
      assert events == before + [last];
      RunResizes(vt, blank, sizeOf, before);
      RunSnoc(vt, Fresh(blank), before, last);
      hide Run, React;
      StepResizes(vt, Run(vt, Fresh(blank), before), sizeOf, last);
    }
  }

  lemma StepResizes<S>(vt: Vt<S>, st: SessionState<S>, sizeOf: S -> (int, int), e: Event)
    requires sizeOf(st.term) == (st.cols, st.rows)
    requires forall s, text :: sizeOf(vt.write(s, text)) == sizeOf(s)
    requires forall s, c, r :: sizeOf(vt.resize(s, c, r)) == (c, r)
    ensures var after := React(vt, st, e).st;
            && sizeOf(after.term) == (after.cols, after.rows)
            && (after.cols, after.rows) ==
                 if e.signal.Resize? && e.signal.cols > 0.0 && e.signal.rows > 0.0 then
                   (if e.signal.cols < 1.0 then 1 else e.signal.cols.Floor, if e.signal.rows < 1.0 then 1 else e.signal.rows.Floor)
                 else (st.cols, st.rows)
  {
    match e.signal {
      case Tick_ =>
        TickSees(vt, st, e.at);
        TickRecalls(vt, st, e.at);
        assert e == Event(Tick_, e.at);
        hide Tick;
      case Output(data) =>
        TransitSets(Buffered(st, data, e.at), Working, e.at);
        hide Transit, Suppressed, Evict, Total;
      case _ =>
    }
  }

  /** Only a tick and a resize to another size touch what the last tick saw: after such a resize the
      next tick takes the screen for moved, unless nothing is visible. */
  lemma ResizeForcesLook<S>(vt: Vt<S>, st: SessionState<S>, e: Event)
    requires e.signal != Tick_
    ensures var after := React(vt, st, e).st;
            && after.lastScreenChangeAt == st.lastScreenChangeAt
            && (if (after.cols, after.rows) == (st.cols, st.rows) then after.lastSnapshot == st.lastSnapshot
                else Moved(vt, after) <==> vt.visible(Shown(vt, after)) != "")
  {
    if e.signal.Output? {
      TransitSets(Buffered(st, e.signal.data, e.at), Working, e.at);
      hide Transit, Suppressed, Evict, Total;
    }
    hide Shown;
  }
}
