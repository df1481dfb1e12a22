/**
 What the analyzer keeps over whole runs: the stored history remembers enough of the full
 log of changes, changes stay rare however the screen behaves, and silence settles.
 */
module AnalyzerRuns {
  import opened Wrappers
  import opened Sequences
  import opened Scrollback
  import opened AnalyzerState

  // ---- the stored history against the full log ----

  lemma {:induction false} KeepAll<T>(keep: T -> bool, s: seq<T>)
    requires forall i | 0 <= i < |s| :: keep(s[i])
    ensures Filter(keep, s) == s
  {
    if s != [] {
      KeepAll(keep, s[1..]);
      assert s == [s[0]] + s[1..];
    }
  }

  /** `recent` is the tail of the log that lies at most 30 s before `now`. */
  ghost predicate IsRecent(log: seq<Transition>, recent: seq<Transition>, now: int) {
    && EndsWith(log, recent)
    && (forall i | 0 <= i < |log| - |recent| :: log[i].at + FLAP_WINDOW_MS < now)
    && (forall i | 0 <= i < |recent| :: now <= recent[i].at + FLAP_WINDOW_MS)
  }

  lemma RecentUnique(log: seq<Transition>, a: seq<Transition>, b: seq<Transition>, now: int)
    requires IsRecent(log, a, now) && IsRecent(log, b, now)
    ensures a == b
  {
    var i, j := |log| - |a|, |log| - |b|;
    assert b != [] ==> b[0] == log[j];
    assert a != [] ==> a[0] == log[i];
  }

  /** What is recent in a tail is recent in the whole, when all before the tail is old. */
  lemma RecentOfTail(log: seq<Transition>, tail: seq<Transition>, recent: seq<Transition>, now: int)
    requires EndsWith(log, tail) && IsRecent(tail, recent, now)
    requires forall i | 0 <= i < |log| - |tail| :: log[i].at + FLAP_WINDOW_MS < now
    ensures IsRecent(log, recent, now)
  {
    EndsWithTransitive(log, tail, recent);
    var k := |log| - |tail|;
    assert forall i | k <= i < |log| :: log[i] == tail[i - k];
  }

  lemma AllRecent(log: seq<Transition>, now: int)
    requires Timed(log) && log != [] && now - log[0].at <= FLAP_WINDOW_MS
    ensures Filter(Within(now), log) == log && IsRecent(log, log, now)
  {
    assert log[0..] == log;
    assert forall i | 0 < i < |log| :: log[0].at <= log[i].at;
    hide Timed, Filter;
    KeepAll(Within(now), log);
  }

  /** On a time-sorted log, pruning keeps exactly that tail. */
  lemma {:induction false} RecentIsTail(log: seq<Transition>, now: int)
    requires Timed(log)
    ensures IsRecent(log, Filter(Within(now), log), now)
  {
    if log == [] {
    } else if now - log[0].at <= FLAP_WINDOW_MS {
      AllRecent(log, now);
      hide Filter;
    } else {
      var tail := log[1..];
      assert Filter(Within(now), log) == Filter(Within(now), tail);
      hide Filter, IsRecent;
      TailTimed(log, tail);
      RecentIsTail(tail, now);
      RecentOfTail(log, tail, Filter(Within(now), tail), now);
    }
  }

  lemma {:induction false} AlternatingRunIsLength(series: seq<AgentStatus>)
    requires forall i, j | 0 <= i < j < |series| && j == i + 1 :: series[i] != series[j]
    ensures AlternatingRun(series) == |series|
  {
    if |series| > 1 {
      AlternatingRunIsLength(series[..|series| - 1]);
    }
  }

  lemma {:induction false} StatusesPointwise(log: seq<Transition>)
    ensures |FlatMap(StatusOf, log)| == |log|
    ensures forall i | 0 <= i < |log| :: FlatMap(StatusOf, log)[i] == log[i].status
  {
    if log != [] {
      StatusesPointwise(log[1..]);
      assert FlatMap(StatusOf, log) == [log[0].status] + FlatMap(StatusOf, log[1..]);
    }
  }

  /** Pruning the stored history gives what pruning the full log would. */
  lemma StoredIsEnough<S>(st: SessionState<S>, log: seq<Transition>, now: int)
    requires Consistent(st, log, now)
    ensures Filter(Within(now), st.transitions) == Filter(Within(now), log)
    ensures IsRecent(log, Filter(Within(now), log), now)
  {
    var stored := st.transitions;
    TailTimed(log, stored);
    RecentIsTail(log, now);
    RecentIsTail(stored, now);
    hide Filter, IsRecent;
    RecentOfTail(log, stored, Filter(Within(now), stored), now);
    RecentUnique(log, Filter(Within(now), stored), Filter(Within(now), log), now);
  }

  lemma TailTimed(log: seq<Transition>, tail: seq<Transition>)
    requires Timed(log) && EndsWith(log, tail)
    ensures Timed(tail)
  {
    var k := |log| - |tail|;
    assert forall i | 0 <= i < |tail| :: tail[i] == log[k + i];
  }

  /** A tail of an alternating log, then a status unlike its last one, alternates throughout. */
  lemma TailAlternates(log: seq<Transition>, recent: seq<Transition>, proposed: AgentStatus)
    requires Alternating(log) && EndsWith(log, recent)
    requires log != [] && log[|log| - 1].status != proposed
    ensures AlternatingRun(FlatMap(StatusOf, recent) + [proposed]) == |recent| + 1
  {
    StatusesPointwise(recent);
    hide AlternatingRun, FlatMap;
    var d, statuses := |log| - |recent|, FlatMap(StatusOf, recent);
    assert forall i | 0 <= i < |recent| :: recent[i] == log[d + i];
    var series := statuses + [proposed];
    forall i, j | 0 <= i < j < |series| && j == i + 1 ensures series[i] != series[j] {
      assert series[i] == log[d + i].status;
      assert j < |recent| ==> series[j] == log[d + j].status;
    }
    AlternatingRunIsLength(series);
  }

  /** The alternating-run scan amounts to counting: a change is flapping exactly when at
      least four of the changes so far are at most 30 s old. */
  lemma FlappingIsCount<S>(st: SessionState<S>, proposed: AgentStatus, log: seq<Transition>, now: int)
    requires Consistent(st, log, now)
    ensures Flapping(st, proposed, now) <==>
            st.lastStatus.Some? && st.lastStatus.value != proposed && |Filter(Within(now), log)| >= 4
  {
    StoredIsEnough(st, log, now);
    var recent := Filter(Within(now), log);
    hide Filter;
    if st.lastStatus.Some? && st.lastStatus.value != proposed {
      TailAlternates(log, recent, proposed);
      StatusesPointwise(recent);
      hide AlternatingRun, FlatMap, Consistent;
    }
  }

  /** A change of status, as the log records it. */
  function Change<S>(before: SessionState<S>, after: SessionState<S>, at: int): seq<Transition> {
    if after.lastStatus != before.lastStatus && after.lastStatus.Some? then [Transition(after.lastStatus.value, at)] else []
  }

  lemma LogGrows(log: seq<Transition>, next: Transition)
    requires Alternating(log) && Timed(log) && Guarded(log) && Spaced(log)
    requires log != [] ==> log[|log| - 1].status != next.status
    requires log != [] ==> next.at - log[|log| - 1].at >= STATUS_CHANGE_STABILIZATION_MS
    requires next.status == Working && |log| >= 4 ==> log[|log| - 4].at + FLAP_WINDOW_MS < next.at
    ensures Alternating(log + [next]) && Timed(log + [next]) && Guarded(log + [next]) && Spaced(log + [next])
  {
    var more := log + [next];
    assert forall i | 0 <= i < |log| :: more[i] == log[i];
    if log != [] {
      assert forall i | 0 <= i < |log| :: log[i].at <= log[|log| - 1].at;
    }
    hide Alternating, Guarded;
    assert Timed(more) && Spaced(more);
    LogAlternates(log, next);
  }

  lemma LogAlternates(log: seq<Transition>, next: Transition)
    requires Alternating(log) && Guarded(log)
    requires log != [] ==> log[|log| - 1].status != next.status
    requires next.status == Working && |log| >= 4 ==> log[|log| - 4].at + FLAP_WINDOW_MS < next.at
    ensures Alternating(log + [next]) && Guarded(log + [next])
  {
    assert forall i | 0 <= i < |log| :: (log + [next])[i] == log[i];
  }

  lemma StoredGrows(log: seq<Transition>, stored: seq<Transition>, next: Transition)
    requires EndsWith(log, stored) && Timed(log + [next])
    requires forall i | 0 <= i < |log| - |stored| :: log[i].at + FLAP_WINDOW_MS < next.at
    ensures var kept := Filter(Within(next.at), stored + [next]);
            IsRecent(log + [next], kept, next.at) && kept != []
  {
    var more, all := log + [next], stored + [next];
    EndsWithAppend(log, stored, [next]);
    TailTimed(more, all);
    RecentIsTail(all, next.at);
    var kept := Filter(Within(next.at), all);
    hide Filter, Timed;
    assert forall i | 0 <= i < |log| :: more[i] == log[i];
    assert kept != [] by { assert all[|stored|].at == next.at; }
    hide IsRecent;
    RecentOfTail(more, all, kept, next.at);
  }

  /** Recording one change that is neither too soon nor, for a promotion, one too many. */
  lemma RecordConsistent<S>(st: SessionState<S>, after: SessionState<S>, log: seq<Transition>, next: Transition)
    requires Consistent(st, log, next.at) && 0 < next.at
    requires log != [] ==> next.at - st.lastStatusChangeAt >= STATUS_CHANGE_STABILIZATION_MS
    requires st.lastStatus != Some(next.status)
    requires next.status == Working ==> |Filter(Within(next.at), log)| < 4
    requires after.lastStatus == Some(next.status) && after.lastStatusChangeAt == next.at
    requires after.transitions == Filter(Within(next.at), st.transitions + [next])
    ensures Consistent(after, log + [next], next.at)
  {
    RecentIsTail(log, next.at);
    hide Filter;
    LogGrows(log, next);
    StoredGrows(log, st.transitions, next);
    assert (log + [next])[|log|] == next;
  }

  /** A transition, where the caller has checked the stabilization interval. */
  lemma TransitConsistent<S>(st: SessionState<S>, proposed: AgentStatus, log: seq<Transition>, last: int, now: int)
    requires Consistent(st, log, last) && last <= now && 0 < now
    requires log != [] ==> now - st.lastStatusChangeAt >= STATUS_CHANGE_STABILIZATION_MS
    ensures Consistent(Transit(st, proposed, now).st, log + Change(st, Transit(st, proposed, now).st, now), now)
  {
    FlappingIsCount(st, proposed, log, now);
    var after := Transit(st, proposed, now).st;
    assert log + [] == log;
    ConsistentElsewhere(st, st, log, last, now);
    assert st.lastStatus == None ==> log == [] && |Filter(Within(now), log)| == 0;
    if after.lastStatus == st.lastStatus {
      hide Flapping, Filter, Consistent;
      ConsistentElsewhere(st, after, log, last, now);
    } else {
      var next := Transition(after.lastStatus.value, now);
      hide Flapping, Filter, Consistent;
      RecordConsistent(st, after, log, next);
    }
  }

  /** Only the fields of the transition machinery matter to consistency. */
  lemma ConsistentElsewhere<S>(st: SessionState<S>, after: SessionState<S>, log: seq<Transition>, last: int, now: int)
    requires Consistent(st, log, last) && last <= now
    requires after.lastStatus == st.lastStatus && after.lastStatusChangeAt == st.lastStatusChangeAt
    requires after.transitions == st.transitions
    ensures Consistent(after, log + Change(st, after, now), now)
  {
    assert log + [] == log;
  }

  /** The fields a transition may touch. */
  lemma TransitSets<S>(st: SessionState<S>, proposed: AgentStatus, now: int)
    ensures var t := Transit(st, proposed, now);
            && t.st == st.(flappingUntil := t.st.flappingUntil, lastStatus := t.st.lastStatus,
                           lastStatusChangeAt := t.st.lastStatusChangeAt,
                           lastWorkingHeartbeatAt := t.st.lastWorkingHeartbeatAt, transitions := t.st.transitions)
            && (t.st.lastStatus == Some(NeedsInput) || t.st.lastStatus == Some(proposed))
            && (t.st.lastStatusChangeAt == now || (t.st.lastStatusChangeAt == st.lastStatusChangeAt && t.st.lastStatus == st.lastStatus))
            && (t.emitted.Some? <==> t.st.lastStatus != st.lastStatus)
  {
    hide Flapping, Filter;
  }

  /** Every tick changes the status by at most one transition, and that one only after the
      stabilization interval. */
  lemma TickTransits<S>(vt: Vt<S>, st: SessionState<S>, now: int)
    returns (mid: SessionState<S>, proposed: AgentStatus)
    ensures mid.lastStatus == st.lastStatus && mid.lastStatusChangeAt == st.lastStatusChangeAt
    ensures mid.transitions == st.transitions && mid.pendingChunks == []
    ensures var t := Tick(vt, st, now).st;
            t == mid || (t == Transit(mid, proposed, now).st
                         && AtLeastSince(st.lastStatusChangeAt, now, STATUS_CHANGE_STABILIZATION_MS))
  {
    var seen := Drained(vt, st, now);
    var refreshed := seen.(lastScreenChangeAt := now);
    assert seen.lastStatus == st.lastStatus && seen.lastStatusChangeAt == st.lastStatusChangeAt;
    assert seen.transitions == st.transitions && seen.pendingChunks == [];
    var t := Tick(vt, st, now).st;
    hide Transit, Drained, Suppressed;
    if t == Transit(seen, Working, now).st {
      mid, proposed := seen, Working;
    } else if t == Transit(seen, NeedsInput, now).st {
      mid, proposed := seen, NeedsInput;
    } else if t == Transit(refreshed, Working, now).st {
      mid, proposed := refreshed, Working;
    } else {
      mid, proposed := t, Working;
    }
  }

  lemma TickConsistent<S>(vt: Vt<S>, st: SessionState<S>, log: seq<Transition>, last: int, now: int)
    requires Consistent(st, log, last) && last <= now && 0 < now
    ensures Consistent(Tick(vt, st, now).st, log + Change(st, Tick(vt, st, now).st, now), now)
  {
    var mid, proposed := TickTransits(vt, st, now);
    var t := Tick(vt, st, now).st;
    hide Tick, Transit;
    assert log + [] == log;
    ConsistentElsewhere(st, mid, log, last, now);
    if t != mid {
      TransitConsistent(mid, proposed, log, now, now);
    }
  }

  /** Output changes the status only of a session that never had one. */
  lemma OutputTransits<S>(st: SessionState<S>, data: Text, now: int) returns (heard: SessionState<S>)
    ensures heard.lastStatus == st.lastStatus && heard.lastStatusChangeAt == st.lastStatusChangeAt
    ensures heard.transitions == st.transitions
    ensures var after := OnOutput(st, data, now).st;
            after == heard || (st.lastStatus == None && after == Transit(heard, Working, now).st)
  {
    hide Transit, Suppressed, Evict, Total;
    var after := OnOutput(st, data, now).st;
    if data != [] && st.lastStatus == None {
      heard := Buffered(st, data, now);
      if after != Transit(heard, Working, now).st {
        heard := after;
      }
    } else {
      heard := after;
    }
  }

  lemma OutputConsistent<S>(st: SessionState<S>, data: Text, log: seq<Transition>, last: int, now: int)
    requires Consistent(st, log, last) && last <= now && 0 < now
    ensures Consistent(OnOutput(st, data, now).st, log + Change(st, OnOutput(st, data, now).st, now), now)
  {
    var heard := OutputTransits(st, data, now);
    var after := OnOutput(st, data, now).st;
    hide OnOutput, Transit;
    assert log + [] == log;
    assert st.lastStatus == None ==> log == [];
    ConsistentElsewhere(st, heard, log, last, now);
    if after != heard {
      TransitConsistent(heard, Working, log, now, now);
    }
  }

  lemma ReactConsistent<S>(vt: Vt<S>, st: SessionState<S>, e: Event, log: seq<Transition>, last: int, now: int)
    requires Consistent(st, log, last)
    requires now == if ClientTimed(e) then last else e.at
    requires ClientTimed(e) || (last <= now && 0 < now)
    ensures Consistent(React(vt, st, e).st, log + Change(st, React(vt, st, e).st, e.at), now)
  {
    var after := React(vt, st, e).st;
    hide Consistent, Tick, OnOutput;
    match e.signal {
      case Tick_ => TickConsistent(vt, st, log, last, e.at);
      case Output(data) => OutputConsistent(st, data, log, last, e.at);
      case _ =>
        ConsistentElsewhere(st, after, log, last, now);
        assert Change(st, after, e.at) == Change(st, after, now) == [];
    }
  }

  lemma RunUnfolds<S>(vt: Vt<S>, st: SessionState<S>, events: seq<Event>)
    requires events != []
    ensures var next := React(vt, st, events[0]).st;
            && Run(vt, st, events) == Run(vt, next, events[1..])
            && Changes(vt, st, events) == Change(st, next, events[0].at) + Changes(vt, next, events[1..])
  {
    hide React;
  }

  lemma {:induction false} RunConsistent<S>(vt: Vt<S>, st: SessionState<S>, events: seq<Event>, log: seq<Transition>, last: int)
    requires Consistent(st, log, last) && Clocked(events, last) && 0 < last
    ensures Consistent(Run(vt, st, events), log + Changes(vt, st, events), LastTime(events, last))
    decreases |events|
  {
    hide React, Consistent;
    if events == [] {
      assert log + [] == log;
    } else {
      var e, rest := events[0], events[1..];
      var now := if ClientTimed(e) then last else e.at;
      ReactConsistent(vt, st, e, log, last, now);
      var next := React(vt, st, e).st;
      var first := Change(st, next, e.at);
      RunUnfolds(vt, st, events);
      assert LastTime(rest, now) == LastTime(events, last) && Clocked(rest, now);
      hide Run, Changes, Clocked, LastTime;
      RunConsistent(vt, next, rest, log + first, now);
      assert (log + first) + Changes(vt, next, rest) == log + (first + Changes(vt, next, rest));
    }
  }

  // ---- the rate of changes ----

  function Inside(from: int): Transition -> bool {
    (t: Transition) => from <= t.at <= from + FLAP_WINDOW_MS
  }

  function PromotedInside(from: int): Transition -> bool {
    (t: Transition) => from <= t.at <= from + FLAP_WINDOW_MS && t.status == Working
  }

  /** Six changes, or three promotions, never fit in 30 s. */
  lemma GuardedSpread(log: seq<Transition>)
    requires Alternating(log) && Timed(log) && Guarded(log)
    ensures forall i, j | 0 <= i < j < |log| && j == i + 5 :: log[j].at - log[i].at > FLAP_WINDOW_MS
    ensures forall i, j | 0 <= i < j < |log| && j == i + 4 && log[i].status == Working :: log[j].at - log[i].at > FLAP_WINDOW_MS
  {
    forall i, j | 0 <= i < j < |log| && j == i + 4 && log[i].status == Working
      ensures log[j].at - log[i].at > FLAP_WINDOW_MS
    {
      assert log[i + 1].status != log[i].status;
      assert log[i + 2].status != log[i + 1].status;
      assert log[i + 3].status != log[i + 2].status;
      assert log[i + 4].status != log[i + 3].status;
    }
    forall i, j | 0 <= i < j < |log| && j == i + 5
      ensures log[j].at - log[i].at > FLAP_WINDOW_MS
    {
      assert log[i + 1].status != log[i].status;
      if log[i].status == Working {
        assert log[i + 4].at - log[i].at > FLAP_WINDOW_MS;
      } else {
        assert log[i + 1 + 4].at - log[i + 1].at > FLAP_WINDOW_MS;
      }
    }
  }

  /** The changes of one window are consecutive in the log. */
  lemma {:induction false} InsideIsSlice(log: seq<Transition>, from: int) returns (a: nat, b: nat)
    requires Timed(log)
    ensures a <= b <= |log| && Filter(Inside(from), log) == log[a..b]
    ensures forall i | 0 <= i < |log| :: a <= i < b <==> Inside(from)(log[i])
  {
    if log == [] {
      a, b := 0, 0;
    } else {
      assert forall i | 1 <= i < |log| :: log[i] == log[1..][i - 1];
      var a', b' := InsideIsSlice(log[1..], from);
      if Inside(from)(log[0]) {
        assert a' < b' ==> Inside(from)(log[1..][a']) && log[0].at <= log[1].at <= log[1 + a'].at;
        assert a' < b' ==> Inside(from)(log[1..][0]);
        a, b := 0, if a' < b' then b' + 1 else 1;
        SliceOfTail(log, a', b');
        assert log[0..b] == [log[0]] + log[1..][a'..b'];
      } else {
        a, b := a' + 1, b' + 1;
        SliceOfTail(log, a', b');
      }
    }
  }

  lemma {:induction false} FilterNarrower<T>(wide: T -> bool, narrow: T -> bool, s: seq<T>)
    requires forall x: T :: narrow(x) ==> wide(x)
    ensures Filter(narrow, s) == Filter(narrow, Filter(wide, s))
  {
    if s != [] {
      FilterNarrower(wide, narrow, s[1..]);
      if wide(s[0]) {
        var w := [s[0]] + Filter(wide, s[1..]);
        assert w[0] == s[0] && w[1..] == Filter(wide, s[1..]);
      }
    }
  }

  /** At most every second entry is a promotion. */
  lemma {:induction false} PromotionsHalf(part: seq<Transition>, from: int)
    requires Alternating(part)
    ensures 2 * |Filter(PromotedInside(from), part)| <= |part| + (if part != [] && part[0].status == Working then 1 else 0)
  {
    if |part| > 0 {
      assert forall i | 1 <= i < |part| :: part[i] == part[1..][i - 1];
      PromotionsHalf(part[1..], from);
      assert |part| > 1 ==> part[0].status != part[0 + 1].status;
    }
  }

  lemma FlapBound(log: seq<Transition>, from: int)
    requires Alternating(log) && Timed(log) && Guarded(log)
    ensures |Filter(Inside(from), log)| <= 5
    ensures |Filter(PromotedInside(from), log)| <= 2
  {
    GuardedSpread(log);
    var a, b := InsideIsSlice(log, from);
    var part := log[a..b];
    assert forall i | 0 <= i < |part| :: part[i] == log[a + i];
    assert |part| >= 6 ==> part[5].at - part[0].at > FLAP_WINDOW_MS;
    assert |part| == 5 ==> part[4].at - part[0].at > FLAP_WINDOW_MS || part[0].status != Working;
    assert forall i | 0 <= i < |part| :: Inside(from)(part[i]);
    FilterNarrower(Inside(from), PromotedInside(from), log);
    PromotionsHalf(part, from);
  }

  /** The promise about noise: however output, input and ticks come, a session changes status
      at most five times in any closed 30 s, is promoted to working at most twice in it, and
      never twice within half a second. */
  lemma StatusIsCalm<S>(vt: Vt<S>, blank: S, events: seq<Event>, from: int)
    requires Clocked(events, 1)
    ensures var log := Changes(vt, Fresh(blank), events);
            && |Filter(Inside(from), log)| <= 5
            && |Filter(PromotedInside(from), log)| <= 2
            && Spaced(log) && Alternating(log)
  {
    RunConsistent(vt, Fresh(blank), events, [], 1);
    var log := Changes(vt, Fresh(blank), events);
    assert [] + log == log;
    FlapBound(log, from);
  }

  // ---- the hold after flapping ----

  /** What a tick must see to promote a session in spite of the hold: the interrupt affordance
      and no prompt, on a screen still for 5 s, with output at most 4 s old, no recent input, a
      status that is 500 ms old, and fewer than four changes within the last 30 s. */
  ghost predicate Affordance<S>(vt: Vt<S>, st: SessionState<S>, log: seq<Transition>, now: int) {
    var term := Drained(vt, st, now).term;
    && AtLeastSince(st.lastStatusChangeAt, now, STATUS_CHANGE_STABILIZATION_MS)
    && !ScreenChanged(vt, st) && now - st.lastScreenChangeAt >= IDLE_TIMEOUT_MS
    && AtLeastSince(st.lastUserInputAt, now, STDIN_INPUT_GRACE_MS)
    && vt.overrideVisible(term) && !vt.promptVisible(term)
    && 0 < st.lastOutputAt && now - st.lastOutputAt <= INTERRUPT_OVERRIDE_RECENT_OUTPUT_MS
    && (st.lastStatus.Some? ==> |Filter(Within(now), log)| < 4)
  }

  /** Exactly when the hold does not keep a session from being promoted. */
  lemma HoldYieldsIff<S>(vt: Vt<S>, st: SessionState<S>, e: Event, log: seq<Transition>)
    requires Consistent(st, log, e.at) && st.flappingUntil > e.at && st.lastStatus != Some(Working)
    ensures React(vt, st, e).st.lastStatus == Some(Working) <==> e.signal == Tick_ && Affordance(vt, st, log, e.at)
  {
    hide Consistent, Tick, OnOutput, ScreenChanged;
    match e.signal {
      case Tick_ =>
        HeldTick(vt, st, e.at);
        if !ScreenChanged(vt, st) {
          UnmovedSame(vt, st, e.at);
          HeldPromotion(st, Drained(vt, st, e.at).(lastScreenChangeAt := e.at), log, e.at);
        }
        hide Drained, Transit, Filter;
      case Output(data) => HeldOutput(st, data, e.at);
      case _ =>
    }
  }

  lemma UnmovedSame<S>(vt: Vt<S>, st: SessionState<S>, now: int)
    ensures var seen := Drained(vt, st, now);
            seen.lastStatus == st.lastStatus && seen.lastStatusChangeAt == st.lastStatusChangeAt && seen.transitions == st.transitions
  {
  }

  lemma HeldOutput<S>(st: SessionState<S>, data: Text, now: int)
    requires st.flappingUntil > now && st.lastStatus != Some(Working)
    ensures OnOutput(st, data, now).st.lastStatus == st.lastStatus
  {
    hide Transit, Evict, Total;
  }

  /** A promotion goes through unless it is one change too many. */
  lemma HeldPromotion<S>(st: SessionState<S>, seen: SessionState<S>, log: seq<Transition>, now: int)
    requires Consistent(st, log, now) && st.lastStatus != Some(Working)
    requires seen.lastStatus == st.lastStatus && seen.lastStatusChangeAt == st.lastStatusChangeAt && seen.transitions == st.transitions
    ensures Transit(seen, Working, now).st.lastStatus == Some(Working)
        <==> (st.lastStatus.Some? ==> |Filter(Within(now), log)| < 4)
  {
    assert Consistent(seen, log, now);
    hide Consistent, Flapping, Filter;
    FlappingIsCount(seen, Working, log, now);
  }

  /** A held tick promotes exactly when its verdict on an unmoved screen is the affordance's. */
  lemma HeldTick<S>(vt: Vt<S>, st: SessionState<S>, now: int)
    requires st.flappingUntil > now && st.lastStatus != Some(Working)
    ensures var seen := Drained(vt, st, now);
            var refreshed := seen.(lastScreenChangeAt := now);
            Tick(vt, st, now).st.lastStatus == Some(Working) <==>
              && AtLeastSince(st.lastStatusChangeAt, now, STATUS_CHANGE_STABILIZATION_MS)
              && !ScreenChanged(vt, st) && now - st.lastScreenChangeAt >= IDLE_TIMEOUT_MS
              && AtLeastSince(st.lastUserInputAt, now, STDIN_INPUT_GRACE_MS)
              && vt.overrideVisible(seen.term) && !vt.promptVisible(seen.term)
              && !AtLeastSince(st.lastOutputAt, now, INTERRUPT_OVERRIDE_RECENT_OUTPUT_MS + 1)
              && Transit(refreshed, Working, now).st.lastStatus == Some(Working)
  {
    var seen := Drained(vt, st, now);
    assert seen.flappingUntil == st.flappingUntil && seen.lastStatus == st.lastStatus && seen.lastOutputAt == st.lastOutputAt;
    assert seen.lastStatusChangeAt == st.lastStatusChangeAt && seen.lastUserInputAt == st.lastUserInputAt;
    assert !ScreenChanged(vt, st) ==> seen.lastScreenChangeAt == st.lastScreenChangeAt;
    TransitSets(seen, NeedsInput, now);
    assert Suppressed(seen, now);
    hide Drained, ScreenChanged, Suppressed, Transit, AtLeastSince;
  }

  /** And such a tick does promote it, hold or no hold. */
  lemma HoldDoesNotStopAffordance() returns (vt: Vt<int>, st: SessionState<int>, now: int)
    ensures st.flappingUntil > now && st.lastStatus == Some(NeedsInput)
    ensures Tick(vt, st, now).emitted == Some(Working)
  {
    vt := Vt((s: int, t: Text) => s, (s: int, c: int, r: int) => s, (s: int) => "Esc to interrupt", (s: int) => false, (s: int) => true);
    st := Fresh(0).(lastStatus := Some(NeedsInput), lastStatusChangeAt := 1, lastSnapshot := "Esc to interrupt",
                    lastOutputAt := 9000, flappingUntil := 20000);
    now := 10000;
  }

  // ---- the pending buffer ----

  /** The chunks heard since the last tick. */
  function SinceTick(heard: seq<Text>, events: seq<Event>): seq<Text>
    decreases |events|
  {
    if events == [] then heard
    else
      var e := events[0].signal;
      SinceTick(if e == Tick_ then [] else if e.Output? && e.data != [] then heard + [e.data] else heard, events[1..])
  }

  lemma {:induction false} PendingRun<S>(vt: Vt<S>, st: SessionState<S>, heard: seq<Text>, events: seq<Event>)
    requires IsRetained(CodeUnits, PENDING_BUFFER_TAIL_BYTES, heard, st.pendingChunks)
    ensures IsRetained(CodeUnits, PENDING_BUFFER_TAIL_BYTES, SinceTick(heard, events), Run(vt, st, events).pendingChunks)
    decreases |events|
  {
    if events != [] {
      var e := events[0].signal;
      var next := React(vt, st, events[0]).st;
      if e.Output? && e.data != [] {
        AppendRetained(CodeUnits, PENDING_BUFFER_TAIL_BYTES, heard, st.pendingChunks, e.data);
        PendingKept(st, e.data, events[0].at);
        hide OnOutput, IsRetained;
        PendingRun(vt, next, heard + [e.data], events[1..]);
      } else {
        PendingElsewhere(vt, st, events[0]);
        hide React, IsRetained;
        PendingRun(vt, next, if e == Tick_ then [] else heard, events[1..]);
      }
    }
  }

  lemma PendingKept<S>(st: SessionState<S>, data: Text, now: int)
    requires data != []
    ensures OnOutput(st, data, now).st.pendingChunks == Evict(CodeUnits, PENDING_BUFFER_TAIL_BYTES, st.pendingChunks + [data])
  {
    hide Flapping, Suppressed, Filter, Evict, Total;
  }

  lemma PendingElsewhere<S>(vt: Vt<S>, st: SessionState<S>, e: Event)
    requires !(e.signal.Output? && e.signal.data != [])
    ensures React(vt, st, e).st.pendingChunks == if e.signal == Tick_ then [] else st.pendingChunks
  {
    if e.signal == Tick_ {
      TickPending(vt, st, e.at);
      hide Tick;
    } else {
      hide Flapping, Suppressed, Filter, Evict, Total;
    }
  }

  lemma TickPending<S>(vt: Vt<S>, st: SessionState<S>, now: int)
    ensures Tick(vt, st, now).st.pendingChunks == []
  {
    var mid, proposed := TickTransits(vt, st, now);
    TransitSets(mid, proposed, now);
    hide Tick, Transit;
  }

  /** What the next tick will write: the longest tail of whole chunks heard since the last one
      that fits 1 MiB, or the newest chunk alone. */
  lemma PendingIsRecentOutput<S>(vt: Vt<S>, blank: S, events: seq<Event>)
    ensures IsRetained(CodeUnits, PENDING_BUFFER_TAIL_BYTES, SinceTick([], events), Run(vt, Fresh(blank), events).pendingChunks)
  {
    PendingRun(vt, Fresh(blank), [], events);
  }

  // ---- what is reported ----

  /** A status handed to the gateway; a heartbeat repeats the current one. */
  datatype Emission = Emission(status: AgentStatus, at: int, heartbeat: bool)

  function Emitted<S>(vt: Vt<S>, st: SessionState<S>, e: Event): seq<Emission> {
    var r := React(vt, st, e);
    if r.emitted.Some? then [Emission(r.emitted.value, e.at, r.st.lastStatus == st.lastStatus)] else []
  }

  function Emissions<S>(vt: Vt<S>, st: SessionState<S>, events: seq<Event>): seq<Emission>
    decreases |events|
  {
    if events == [] then [] else Emitted(vt, st, events[0]) + Emissions(vt, React(vt, st, events[0]).st, events[1..])
  }

  /** A report names the status the session now has. Every report of working is remembered, and
      one that is not a change comes at least 1.2 s after the last one remembered. */
  lemma ReportStep<S>(vt: Vt<S>, st: SessionState<S>, e: Event)
    ensures var r := React(vt, st, e);
            && (r.emitted.Some? ==> r.st.lastStatus == r.emitted && !ClientTimed(e))
            && (r.st.lastStatus != st.lastStatus ==> r.emitted == r.st.lastStatus)
            && r.st.lastWorkingHeartbeatAt == (if r.emitted == Some(Working) then e.at else st.lastWorkingHeartbeatAt)
            && (r.emitted.Some? && r.st.lastStatus == st.lastStatus ==>
                  r.emitted == Some(Working) && e.at - st.lastWorkingHeartbeatAt >= WORKING_HEARTBEAT_MS)
  {
    match e.signal {
      case Tick_ =>
        TickReports(vt, st, e.at);
        hide Tick;
      case Output(data) =>
        TransitReports(Buffered(st, data, e.at), Working, e.at);
        hide Transit, Suppressed, Evict, Total;
      case _ =>
    }
  }

  lemma TransitReports<S>(st: SessionState<S>, proposed: AgentStatus, now: int)
    ensures var t := Transit(st, proposed, now);
            && t.emitted == (if t.st.lastStatus != st.lastStatus then t.st.lastStatus else None)
            && t.st.lastWorkingHeartbeatAt == (if t.emitted == Some(Working) then now else st.lastWorkingHeartbeatAt)
  {
    hide Flapping, Filter;
  }

  lemma JudgeReports<S>(vt: Vt<S>, seen: SessionState<S>, now: int)
    ensures var t := Judge(vt, seen, now);
            && t.emitted == (if t.st.lastStatus != seen.lastStatus then t.st.lastStatus else None)
            && t.st.lastWorkingHeartbeatAt == (if t.emitted == Some(Working) then now else seen.lastWorkingHeartbeatAt)
  {
    TransitReports(seen, NeedsInput, now);
    TransitReports(seen.(lastScreenChangeAt := now), Working, now);
    hide Transit, AtLeastSince;
  }

  lemma TickReports<S>(vt: Vt<S>, st: SessionState<S>, now: int)
    ensures var t := Tick(vt, st, now);
            && t.emitted == (if t.st.lastStatus != st.lastStatus then t.st.lastStatus else None)
            && t.st.lastWorkingHeartbeatAt == (if t.emitted == Some(Working) then now else st.lastWorkingHeartbeatAt)
  {
    var seen := Drained(vt, st, now);
    assert seen.lastStatus == st.lastStatus && seen.lastWorkingHeartbeatAt == st.lastWorkingHeartbeatAt;
    TransitReports(seen, Working, now);
    JudgeReports(vt, seen, now);
    hide Drained, Transit, Judge, Suppressed, ScreenChanged, AtLeastSince;
  }

  /** Reports so spaced that heartbeats stay away from `since` and from earlier reports of working. */
  ghost predicate SpacedSince(out: seq<Emission>, since: int) {
    && (forall i | 0 <= i < |out| && out[i].heartbeat ::
          out[i].status == Working && out[i].at - since >= WORKING_HEARTBEAT_MS)
    && (forall i, j | 0 <= i < j < |out| && out[i].status == Working && out[j].heartbeat ::
          out[j].at - out[i].at >= WORKING_HEARTBEAT_MS)
  }

  lemma EmissionsJoin(first: seq<Emission>, later: seq<Emission>, since: int, next: int)
    requires |first| <= 1 && since <= next && SpacedSince(later, next)
    requires forall x | x in first :: (x.status == Working ==> x.at == next)
                                      && (x.heartbeat ==> x.status == Working && x.at - since >= WORKING_HEARTBEAT_MS)
    ensures SpacedSince(first + later, since)
  {
    var out := first + later;
    assert forall i | 0 <= i < |out| :: if i < |first| then out[i] in first else out[i] == later[i - |first|];
  }

  lemma {:induction false} EmissionsAfter<S>(vt: Vt<S>, st: SessionState<S>, events: seq<Event>, last: int)
    requires Clocked(events, last) && st.lastWorkingHeartbeatAt <= last
    ensures SpacedSince(Emissions(vt, st, events), st.lastWorkingHeartbeatAt)
    decreases |events|
  {
    if events != [] {
      var e, rest := events[0], events[1..];
      var next := React(vt, st, e).st;
      ReportStep(vt, st, e);
      var now := if ClientTimed(e) then last else e.at;
      var first := Emitted(vt, st, e);
      assert Clocked(rest, now) && |first| <= 1;
      assert st.lastWorkingHeartbeatAt <= next.lastWorkingHeartbeatAt <= now;
      assert forall x | x in first :: (x.status == Working ==> x.at == next.lastWorkingHeartbeatAt)
                                      && (x.heartbeat ==> x.status == Working && x.at - st.lastWorkingHeartbeatAt >= WORKING_HEARTBEAT_MS);
      var later := Emissions(vt, next, rest);
      var out := first + later;
      assert Emissions(vt, st, events) == out;
      hide React, Clocked, Emitted, Emissions;
      EmissionsAfter(vt, next, rest, now);
      EmissionsJoin(first, later, st.lastWorkingHeartbeatAt, next.lastWorkingHeartbeatAt);
    }
  }

  /** Heartbeats are rare: none comes within 1.2 s of an earlier report of working. */
  lemma HeartbeatsAreSpaced<S>(vt: Vt<S>, blank: S, events: seq<Event>)
    requires Clocked(events, 1)
    ensures var out := Emissions(vt, Fresh(blank), events);
            forall i, j | 0 <= i < j < |out| && out[i].status == Working && out[j].heartbeat ::
              out[j].at - out[i].at >= WORKING_HEARTBEAT_MS
  {
    EmissionsAfter(vt, Fresh(blank), events, 1);
  }
}
