/**
 Output coalescing in the gateway: chunks wait per session until a scheduled callback, a full
 buffer or the session's exit flushes them as one frame to its subscribers and the analyzer.
 */
module OutputCoalescing {
  import opened Sequences
  import opened Scrollback

  type SessionId = string

  const OUTPUT_COALESCE_FLUSH_BYTES: nat := 64 * 1024

  datatype Pending = Pending(parts: seq<Text>, bytes: nat, scheduled: bool)

  /** What leaves the gateway for a session's subscribers. */
  datatype Emission = Data(data: Text) | ExitFrame(exitCode: int)

  /** `tasks` are the callbacks handed to `setImmediate`, which run in the order given;
      `emitted` went to the subscribers, `analyzed` to the analyzer. */
  datatype State = State(
    pending: map<SessionId, Pending>,
    tasks: seq<SessionId>,
    emitted: map<SessionId, seq<Emission>>,
    analyzed: map<SessionId, seq<Text>>)

  datatype Event =
    | Output(session: SessionId, data: Text)
    | Immediate
    | Exit(session: SessionId, exitCode: int)
    | Removed(session: SessionId)
    | Disconnected

  const INITIAL := State(map[], [], map[], map[])

  function EmittedFor(st: State, s: SessionId): seq<Emission> {
    if s in st.emitted then st.emitted[s] else []
  }

  function Emit(st: State, s: SessionId, e: Emission): State {
    st.(emitted := st.emitted[s := EmittedFor(st, s) + [e]])
  }

  function AnalyzedFor(st: State, s: SessionId): seq<Text> {
    if s in st.analyzed then st.analyzed[s] else []
  }

  function Analyze(st: State, s: SessionId, data: Text): State {
    st.(analyzed := st.analyzed[s := AnalyzedFor(st, s) + [data]])
  }

  function Flush(st: State, s: SessionId): State {
    if s !in st.pending then st
    else
      var rest := st.(pending := st.pending - {s});
      if st.pending[s].parts == [] then rest
      else Analyze(Emit(rest, s, Data(Flatten(st.pending[s].parts))), s, Flatten(st.pending[s].parts))
  }

  function Queued(st: State, s: SessionId, data: Text): Pending {
    var p := if s in st.pending then st.pending[s] else Pending([], 0, false);
    p.(parts := p.parts + [data], bytes := p.bytes + |data|)
  }

  function Receive(st: State, s: SessionId, data: Text): State {
    if data == [] then st
    else
      var p := Queued(st, s, data);
      if p.bytes >= OUTPUT_COALESCE_FLUSH_BYTES then Flush(st.(pending := st.pending[s := p]), s)
      else if p.scheduled then st.(pending := st.pending[s := p])
      else st.(pending := st.pending[s := p.(scheduled := true)], tasks := st.tasks + [s])
  }

  function Step(st: State, e: Event): State {
    match e
    case Output(s, data) => Receive(st, s, data)
    case Immediate => if st.tasks == [] then st else Flush(st.(tasks := st.tasks[1..]), st.tasks[0])
    case Exit(s, code) => Emit(Flush(st, s), s, ExitFrame(code))
    case Removed(s) => st.(pending := st.pending - {s})
    case Disconnected => st
  }

  function Run(st: State, events: seq<Event>): State
    decreases |events|
  {
    if events == [] then st else Run(Step(st, events[0]), events[1..])
  }

  /** What waits for a session is small, non-empty, correctly counted, and has a callback coming. */
  ghost predicate Sound(st: State, s: SessionId)
    requires s in st.pending
  {
    && st.pending[s].parts != [] && st.pending[s].scheduled && s in st.tasks
    && st.pending[s].bytes == Total(CodeUnits, st.pending[s].parts)
    && st.pending[s].bytes < OUTPUT_COALESCE_FLUSH_BYTES
  }

  ghost predicate Inv(st: State) {
    forall s | s in st.pending :: Sound(st, s)
  }

  lemma QueuedCounts(st: State, s: SessionId, data: Text)
    requires Inv(st)
    ensures Queued(st, s, data).bytes == Total(CodeUnits, Queued(st, s, data).parts)
  {
    var p := if s in st.pending then st.pending[s] else Pending([], 0, false);
    TotalAppend(CodeUnits, p.parts, [data]);
    assert Total(CodeUnits, [data]) == |data|;
  }

  lemma FlushKeepsInv(st: State, s: SessionId)
    requires forall z | z in st.pending && z != s :: Sound(st, z)
    ensures Inv(Flush(st, s))
  {
    hide Flatten, Total;
  }

  lemma ReceiveKeepsInv(st: State, s: SessionId, data: Text)
    requires Inv(st)
    ensures Inv(Receive(st, s, data))
  {
    QueuedCounts(st, s, data);
    var p := Queued(st, s, data);
    var mid := st.(pending := st.pending[s := p]);
    assert p.parts != [] && (p.scheduled ==> s in st.tasks);
    hide Queued, Total;
    assert forall z | z in mid.pending && z != s :: Sound(st, z) && Sound(mid, z);
    FlushKeepsInv(mid, s);
    hide Flush;
  }

  lemma StepKeepsInv(st: State, e: Event)
    requires Inv(st)
    ensures Inv(Step(st, e))
  {
    hide Flatten, Total;
    match e {
      case Output(s, data) => ReceiveKeepsInv(st, s, data); hide *;
      case Immediate =>
        if st.tasks != [] {
          assert st.tasks == [st.tasks[0]] + st.tasks[1..];
          FlushKeepsInv(st.(tasks := st.tasks[1..]), st.tasks[0]);
          hide Flush;
        }
      case Exit(s, code) => FlushKeepsInv(st, s); hide Flush;
      case _ =>
    }
  }

  lemma {:induction false} RunKeepsInv(st: State, events: seq<Event>)
    requires Inv(st)
    ensures Inv(Run(st, events))
    decreases |events|
  {
    if events != [] {
      StepKeepsInv(st, events[0]);
      hide Step, Inv;
      RunKeepsInv(Step(st, events[0]), events[1..]);
    }
  }

  // ---- the stream, code unit by code unit, with the exits in it ----

  datatype Item = Unit(u: CodeUnit) | Exited(exitCode: int)

  function Units(t: Text): seq<Item> {
    seq(|t|, i requires 0 <= i < |t| => Unit(t[i]))
  }

  lemma UnitsAppend(a: Text, b: Text)
    ensures Units(a + b) == Units(a) + Units(b)
  {
  }

  function EmissionItems(e: Emission): seq<Item> {
    match e
    case Data(data) => Units(data)
    case ExitFrame(code) => [Exited(code)]
  }

  /** What has left the gateway for a session. */
  function Emitted(st: State, s: SessionId): seq<Item> {
    FlatMap(EmissionItems, EmittedFor(st, s))
  }

  function Waiting(st: State, s: SessionId): seq<Item> {
    if s in st.pending then Units(Flatten(st.pending[s].parts)) else []
  }

  function EventItems(s: SessionId): Event -> seq<Item> {
    (e: Event) =>
      if e.Output? && e.session == s then Units(e.data)
      else if e.Exit? && e.session == s then [Exited(e.exitCode)]
      else []
  }

  /** What has come in for a session. */
  function Received(events: seq<Event>, s: SessionId): seq<Item> {
    FlatMap(EventItems(s), events)
  }

  lemma EmitAdds(st: State, s: SessionId, e: Emission)
    ensures Emitted(Emit(st, s, e), s) == Emitted(st, s) + EmissionItems(e)
    ensures forall z | z != s :: Emitted(Emit(st, s, e), z) == Emitted(st, z)
  {
    FlatMapSnoc(EmissionItems, EmittedFor(st, s), e);
    hide FlatMap;
  }

  lemma AnalyzeEmitsNothing(st: State, s: SessionId, data: Text)
    ensures forall z :: Emitted(Analyze(st, s, data), z) == Emitted(st, z) && Waiting(Analyze(st, s, data), z) == Waiting(st, z)
  {
  }

  lemma FlushMoves(st: State, s: SessionId)
    ensures Emitted(Flush(st, s), s) == Emitted(st, s) + Waiting(st, s) && Waiting(Flush(st, s), s) == []
    ensures forall z | z != s :: Emitted(Flush(st, s), z) == Emitted(st, z) && Waiting(Flush(st, s), z) == Waiting(st, z)
  {
    if s in st.pending {
      var rest := st.(pending := st.pending - {s});
      EmitAdds(rest, s, Data(Flatten(st.pending[s].parts)));
      AnalyzeEmitsNothing(Emit(rest, s, Data(Flatten(st.pending[s].parts))), s, Flatten(st.pending[s].parts));
      hide FlatMap, Emit, Analyze;
      assert st.pending[s].parts == [] ==> Units(Flatten(st.pending[s].parts)) == [] by { FlattenNone(); }
    }
  }

  lemma FlattenNone()
    ensures Flatten<CodeUnit>([]) == []
  {
  }

  lemma QueuedWaits(st: State, s: SessionId, data: Text)
    ensures var mid := st.(pending := st.pending[s := Queued(st, s, data)]);
            && Waiting(mid, s) == Waiting(st, s) + Units(data) && Emitted(mid, s) == Emitted(st, s)
            && forall z | z != s :: Emitted(mid, z) == Emitted(st, z) && Waiting(mid, z) == Waiting(st, z)
  {
    var parts := if s in st.pending then st.pending[s].parts else [];
    FlatMapSnoc<Text, CodeUnit>(Same, parts, data);
    UnitsAppend(Flatten(parts), data);
    FlattenNone();
    assert Units([]) == [];
    hide FlatMap, Units;
  }

  lemma ReceiveAdds(st: State, s: SessionId, data: Text)
    requires data != []
    ensures var after := Receive(st, s, data);
            && Emitted(after, s) + Waiting(after, s) == Emitted(st, s) + Waiting(st, s) + Units(data)
            && forall z | z != s :: Emitted(after, z) == Emitted(st, z) && Waiting(after, z) == Waiting(st, z)
  {
    var p := Queued(st, s, data);
    var mid := st.(pending := st.pending[s := p]);
    var after := Receive(st, s, data);
    hide Emitted, Waiting, Flush, Queued, Units;
    QueuedWaits(st, s, data);
    FlushMoves(mid, s);
    if p.bytes < OUTPUT_COALESCE_FLUSH_BYTES {
      SameParts(mid, after);
    }
    Associative(Emitted(st, s), Waiting(st, s), Units(data));
    assert (Emitted(st, s) + (Waiting(st, s) + Units(data))) + [] == Emitted(st, s) + (Waiting(st, s) + Units(data));
  }

  /** Scheduling moves no text. */
  lemma SameParts(st: State, next: State)
    requires next.emitted == st.emitted && next.pending.Keys == st.pending.Keys
    requires forall z | z in st.pending :: next.pending[z].parts == st.pending[z].parts
    ensures forall z :: Emitted(next, z) == Emitted(st, z) && Waiting(next, z) == Waiting(st, z)
  {
  }

  lemma ImmediatePreserves(st: State, s: SessionId)
    ensures Emitted(Step(st, Immediate), s) + Waiting(Step(st, Immediate), s) == Emitted(st, s) + Waiting(st, s)
  {
    if st.tasks != [] {
      var mid := st.(tasks := st.tasks[1..]);
      assert Emitted(mid, s) == Emitted(st, s) && Waiting(mid, s) == Waiting(st, s);
      FlushMoves(mid, st.tasks[0]);
      hide Flush, Emitted, Waiting;
      var e, w := Emitted(st, s), Waiting(st, s);
      assert (e + w) + [] == e + w;
    }
  }

  lemma ExitPreserves(st: State, z: SessionId, code: int, s: SessionId)
    ensures var after := Emit(Flush(st, z), z, ExitFrame(code));
            Emitted(after, s) + Waiting(after, s) == Emitted(st, s) + Waiting(st, s) + if z == s then [Exited(code)] else []
  {
    var mid := Flush(st, z);
    FlushMoves(st, z);
    EmitAdds(mid, z, ExitFrame(code));
    assert Waiting(Emit(mid, z, ExitFrame(code)), s) == Waiting(mid, s);
    hide Flush, Emit, Emitted, Waiting;
    var all := Emitted(st, s) + Waiting(st, s);
    assert all + [] == all && (all + [Exited(code)]) + [] == all + [Exited(code)];
  }

  lemma StepPreserves(st: State, e: Event, s: SessionId)
    requires e != Removed(s)
    ensures Emitted(Step(st, e), s) + Waiting(Step(st, e), s) == Emitted(st, s) + Waiting(st, s) + EventItems(s)(e)
  {
    hide Emitted, Flush, Emit, Receive;
    var all := Emitted(st, s) + Waiting(st, s);
    assert all + [] == all;
    match e {
      case Output(z, data) =>
        assert data == [] ==> Units(data) == [] && Step(st, e) == st by { ReceiveNothing(st, z); }
        if data != [] {
          ReceiveAdds(st, z, data);
        }
        hide Waiting, Units;
      case Immediate => ImmediatePreserves(st, s);
      case Exit(z, code) => ExitPreserves(st, z, code, s);
      case Removed(z) => RemovedElsewhere(st, z, s);
      case Disconnected =>
    }
  }

  lemma ReceiveNothing(st: State, s: SessionId)
    ensures Receive(st, s, []) == st
  {
  }

  lemma RemovedElsewhere(st: State, z: SessionId, s: SessionId)
    requires z != s
    ensures var after := Step(st, Removed(z));
            Emitted(after, s) == Emitted(st, s) && Waiting(after, s) == Waiting(st, s)
  {
  }

  lemma ReceivedFirst(events: seq<Event>, s: SessionId)
    requires events != []
    ensures Received(events, s) == EventItems(s)(events[0]) + Received(events[1..], s)
  {
  }

  /** Nothing is lost, repeated or reordered: what has left the gateway for a session, followed
      by what waits, is what came in, exits included, as long as the session is not removed. */
  lemma {:induction false} StreamPreserved(st: State, events: seq<Event>, s: SessionId)
    requires Removed(s) !in events
    ensures Emitted(Run(st, events), s) + Waiting(Run(st, events), s) == Emitted(st, s) + Waiting(st, s) + Received(events, s)
    decreases |events|
  {
    hide Step, Emitted, Waiting, EventItems;
    var all := Emitted(st, s) + Waiting(st, s);
    if events == [] {
      assert all + [] == all;
    } else {
      var e, rest := events[0], events[1..];
      StepPreserves(st, e, s);
      ReceivedFirst(events, s);
      hide Received;
      StreamPreserved(Step(st, e), rest, s);
      assert (all + EventItems(s)(e)) + Received(rest, s) == all + (EventItems(s)(e) + Received(rest, s));
    }
  }

  lemma {:induction false} RunSnoc(st: State, events: seq<Event>, e: Event)
    ensures Run(st, events + [e]) == Step(Run(st, events), e)
    decreases |events|
  {
    hide Step;
    if events == [] {
      assert [e][1..] == [];
    } else {
      assert (events + [e])[1..] == events[1..] + [e];
      RunSnoc(Step(st, events[0]), events[1..], e);
    }
  }

  /** An exit frame never overtakes output: once it is sent, all that came before it has been. */
  lemma ExitComesLast(events: seq<Event>, s: SessionId, code: int)
    requires Removed(s) !in events
    ensures Emitted(Run(INITIAL, events + [Exit(s, code)]), s) == Received(events, s) + [Exited(code)]
  {
    StartsEmpty(events, s);
    hide Run, Emitted, Waiting, Received, Flush, Emit;
    RunSnoc(INITIAL, events, Exit(s, code));
    var st := Run(INITIAL, events);
    FlushMoves(st, s);
    EmitAdds(Flush(st, s), s, ExitFrame(code));
  }

  /** The stream theorem from the start. */
  lemma StartsEmpty(events: seq<Event>, s: SessionId)
    requires Removed(s) !in events
    ensures Emitted(Run(INITIAL, events), s) + Waiting(Run(INITIAL, events), s) == Received(events, s)
  {
    assert Emitted(INITIAL, s) + Waiting(INITIAL, s) == [];
    hide Run, Received, Emitted, Waiting;
    StreamPreserved(INITIAL, events, s);
    assert [] + Received(events, s) == Received(events, s);
  }

  /** A removal loses exactly what was waiting. */
  lemma RemovalDropsWaiting(events: seq<Event>, s: SessionId)
    requires Removed(s) !in events
    ensures var before, after := Run(INITIAL, events), Run(INITIAL, events + [Removed(s)]);
            && Emitted(after, s) + Waiting(before, s) == Received(events, s)
            && Waiting(after, s) == []
  {
    StartsEmpty(events, s);
    hide Run, Received;
    RunSnoc(INITIAL, events, Removed(s));
  }

  // ---- the analyzer's copy ----

  function EmittedData(e: Emission): seq<Text> {
    if e.Data? then [e.data] else []
  }

  /** The analyzer has been handed exactly the strings sent to the subscribers. */
  ghost predicate SameFlushes(st: State) {
    forall s :: AnalyzedFor(st, s) == FlatMap(EmittedData, EmittedFor(st, s))
  }

  lemma EmitKeepsOrder(st: State, s: SessionId, e: Emission)
    ensures FlatMap(EmittedData, EmittedFor(Emit(st, s, e), s)) == FlatMap(EmittedData, EmittedFor(st, s)) + EmittedData(e)
    ensures forall z | z != s :: EmittedFor(Emit(st, s, e), z) == EmittedFor(st, z)
    ensures forall z :: AnalyzedFor(Emit(st, s, e), z) == AnalyzedFor(st, z)
  {
    FlatMapSnoc(EmittedData, EmittedFor(st, s), e);
    hide FlatMap;
  }

  lemma HandOnSame(st: State, s: SessionId, data: Text)
    requires SameFlushes(st)
    ensures SameFlushes(Analyze(Emit(st, s, Data(data)), s, data))
  {
    EmitKeepsOrder(st, s, Data(data));
    var sent := Emit(st, s, Data(data));
    var after := Analyze(sent, s, data);
    hide FlatMap, Emit;
    assert forall z :: EmittedFor(after, z) == EmittedFor(sent, z);
    assert forall z | z != s :: AnalyzedFor(after, z) == AnalyzedFor(sent, z);
    assert AnalyzedFor(after, s) == AnalyzedFor(sent, s) + [data];
    hide Analyze, EmittedFor, AnalyzedFor;
  }

  lemma FlushSame(st: State, s: SessionId)
    requires SameFlushes(st)
    ensures SameFlushes(Flush(st, s))
  {
    hide SameFlushes, Emit, Analyze, Flatten;
    if s in st.pending {
      var rest := st.(pending := st.pending - {s});
      SameElsewhere(st, rest);
      HandOnSame(rest, s, Flatten(st.pending[s].parts));
    }
  }

  lemma SameElsewhere(st: State, next: State)
    requires SameFlushes(st) && next.emitted == st.emitted && next.analyzed == st.analyzed
    ensures SameFlushes(next)
  {
    assert forall z :: EmittedFor(next, z) == EmittedFor(st, z) && AnalyzedFor(next, z) == AnalyzedFor(st, z);
    hide FlatMap;
  }

  lemma StepSame(st: State, e: Event)
    requires SameFlushes(st)
    ensures SameFlushes(Step(st, e))
  {
    hide SameFlushes, Queued;
    match e {
      case Output(s, data) =>
        var mid := st.(pending := st.pending[s := Queued(st, s, data)]);
        SameElsewhere(st, mid);
        FlushSame(mid, s);
        hide Flush;
        if Step(st, e) != Flush(mid, s) {
          SameElsewhere(st, Step(st, e));
        }
      case Immediate =>
        if st.tasks != [] {
          var mid := st.(tasks := st.tasks[1..]);
          SameElsewhere(st, mid);
          FlushSame(mid, st.tasks[0]);
        }
      case Exit(s, code) =>
        FlushSame(st, s);
        ExitSame(Flush(st, s), s, code);
        hide Flush, Emit;
      case _ => SameElsewhere(st, Step(st, e));
    }
  }

  lemma ExitSame(st: State, s: SessionId, code: int)
    requires SameFlushes(st)
    ensures SameFlushes(Emit(st, s, ExitFrame(code)))
  {
    EmitKeepsOrder(st, s, ExitFrame(code));
    hide FlatMap, Emit;
    assert FlatMap(EmittedData, EmittedFor(st, s)) + [] == FlatMap(EmittedData, EmittedFor(st, s));
  }

  lemma {:induction false} RunSame(st: State, events: seq<Event>)
    requires SameFlushes(st)
    ensures SameFlushes(Run(st, events))
    decreases |events|
  {
    hide Step, SameFlushes;
    if events != [] {
      StepSame(st, events[0]);
      RunSame(Step(st, events[0]), events[1..]);
    }
  }

  /** In every run the analyzer is handed the same strings, in the same order, as the subscribers. */
  lemma AnalyzerSeesTheFlushes(events: seq<Event>, s: SessionId)
    ensures var end := Run(INITIAL, events);
            AnalyzedFor(end, s) == FlatMap(EmittedData, EmittedFor(end, s))
  {
    assert SameFlushes(INITIAL);
    RunSame(INITIAL, events);
    hide Run, AnalyzedFor, EmittedFor;
  }

  // ---- delay ----

  function Immediates(events: seq<Event>): nat {
    if events == [] then 0 else (if events[0] == Immediate then 1 else 0) + Immediates(events[1..])
  }

  /** `goal` has left, or is on its way and a callback among the next `k` will send it. */
  ghost predicate Underway(st: State, s: SessionId, goal: seq<Item>, k: nat) {
    || goal <= Emitted(st, s)
    || (goal <= Emitted(st, s) + Waiting(st, s) && exists i | 0 <= i < |st.tasks| && i < k :: st.tasks[i] == s)
  }

  lemma UnderwayStep(st: State, e: Event, s: SessionId, goal: seq<Item>, k: nat)
    requires Underway(st, s, goal, k) && e != Removed(s) && (k > 0 || goal <= Emitted(st, s))
    ensures Underway(Step(st, e), s, goal, if e == Immediate && k > 0 then k - 1 else k)
  {
    hide Emitted, EventItems;
    StepPreserves(st, e, s);
    EmittedGrows(st, e, s);
    var after := Step(st, e);
    assert goal <= Emitted(st, s) + Waiting(st, s) ==> goal <= Emitted(after, s) + Waiting(after, s);
    if goal <= Emitted(st, s) {
      assert goal <= Emitted(after, s);
    } else {
      var i :| 0 <= i < |st.tasks| && i < k && st.tasks[i] == s;
      if e == Immediate {
        var mid := st.(tasks := st.tasks[1..]);
        TasksElsewhere(st, mid, s);
        FlushMoves(mid, st.tasks[0]);
        assert after.tasks == st.tasks[1..];
        hide Waiting, Flush;
        if i > 0 {
          assert after.tasks[i - 1] == s;
        }
      } else {
        TasksGrow(st, e);
        hide Step, Waiting;
        assert after.tasks[i] == s;
      }
    }
  }

  lemma TasksElsewhere(st: State, mid: State, s: SessionId)
    requires mid == st.(tasks := mid.tasks)
    ensures Emitted(mid, s) == Emitted(st, s) && Waiting(mid, s) == Waiting(st, s)
  {
  }

  lemma TasksGrow(st: State, e: Event)
    requires e != Immediate
    ensures st.tasks <= Step(st, e).tasks
  {
  }

  lemma EmittedGrows(st: State, e: Event, s: SessionId)
    ensures Emitted(st, s) <= Emitted(Step(st, e), s)
  {
    var was, now := EmittedFor(st, s), EmittedFor(Step(st, e), s);
    assert was <= now;
    assert now == was + now[|was|..];
    FlatMapAppend(EmissionItems, was, now[|was|..]);
  }

  lemma {:induction false} UnderwayRun(st: State, events: seq<Event>, s: SessionId, goal: seq<Item>, k: nat)
    requires Underway(st, s, goal, k) && Removed(s) !in events && k <= Immediates(events)
    ensures goal <= Emitted(Run(st, events), s)
    decreases |events|
  {
    hide Step, Emitted, Waiting;
    if events != [] {
      UnderwayStep(st, events[0], s, goal, k);
      UnderwayRun(Step(st, events[0]), events[1..], s, goal, if events[0] == Immediate && k > 0 then k - 1 else k);
    }
  }

  /** Delivery: once the callbacks that are queued now have run, whatever else happens in
      between, everything received so far has left the gateway. */
  lemma DeliveredInTime(history: seq<Event>, later: seq<Event>, s: SessionId)
    requires Removed(s) !in history && Removed(s) !in later
    requires |Run(INITIAL, history).tasks| <= Immediates(later)
    ensures Received(history, s) <= Emitted(Run(Run(INITIAL, history), later), s)
  {
    hide Run, Received, Emitted, Flatten, Units;
    var st := Run(INITIAL, history);
    RunKeepsInv(INITIAL, history);
    StartsEmpty(history, s);
    assert s !in st.pending ==> Emitted(st, s) + Waiting(st, s) == Emitted(st, s);
    assert Underway(st, s, Received(history, s), |st.tasks|);
    hide Underway, Waiting, Inv;
    UnderwayRun(st, later, s, Received(history, s), |st.tasks|);
  }

  // ---- how few frames ----

  function DataFrames(sent: seq<Emission>): nat {
    if sent == [] then 0 else DataFrames(sent[..|sent| - 1]) + if sent[|sent| - 1].Data? then 1 else 0
  }

  lemma DataFramesOne(sent: seq<Emission>, e: Emission)
    ensures DataFrames(sent + [e]) == DataFrames(sent) + if e.Data? then 1 else 0
  {
    assert (sent + [e])[..|sent|] == sent;
  }

  /** The data that came in for a session, in code units. */
  function HeardSize(events: seq<Event>, s: SessionId): nat
    decreases |events|
  {
    if events == [] then 0
    else (if events[0].Output? && events[0].session == s then |events[0].data| else 0) + HeardSize(events[1..], s)
  }

  /** The callbacks that ran, and the exits of the session. */
  function Occasions(events: seq<Event>, s: SessionId): nat
    decreases |events|
  {
    if events == [] then 0
    else (if events[0] == Immediate || (events[0].Exit? && events[0].session == s) then 1 else 0) + Occasions(events[1..], s)
  }

  function WaitingSize(st: State, s: SessionId): nat {
    if s in st.pending then st.pending[s].bytes else 0
  }

  lemma FlushCounts(st: State, t: SessionId, s: SessionId)
    ensures var after := Flush(st, t);
            && DataFrames(EmittedFor(after, s)) <= DataFrames(EmittedFor(st, s)) + (if t == s then 1 else 0)
            && WaitingSize(after, s) == if t == s then 0 else WaitingSize(st, s)
  {
    if t in st.pending { DataFramesOne(EmittedFor(st, t), Data(Flatten(st.pending[t].parts))); }
    hide Flatten, DataFrames;
  }

  lemma StepCounts(st: State, e: Event, s: SessionId)
    ensures var after := Step(st, e);
            65536 * DataFrames(EmittedFor(after, s)) + WaitingSize(after, s)
            <= 65536 * DataFrames(EmittedFor(st, s)) + WaitingSize(st, s)
               + (if e.Output? && e.session == s then |e.data| else 0)
               + (if e == Immediate || (e.Exit? && e.session == s) then 65536 else 0)
  {
    hide Flush, DataFrames;
    match e {
      case Output(t, data) => FlushCounts(st.(pending := st.pending[t := Queued(st, t, data)]), t, s);
      case Immediate => if st.tasks != [] { FlushCounts(st.(tasks := st.tasks[1..]), st.tasks[0], s); }
      case Exit(t, code) =>
        FlushCounts(st, t, s);
        DataFramesOne(EmittedFor(Flush(st, t), t), ExitFrame(code));
      case _ =>
    }
  }

  lemma {:induction false} RunCounts(st: State, events: seq<Event>, s: SessionId)
    ensures 65536 * DataFrames(EmittedFor(Run(st, events), s)) + WaitingSize(Run(st, events), s)
         <= 65536 * DataFrames(EmittedFor(st, s)) + WaitingSize(st, s) + HeardSize(events, s) + 65536 * Occasions(events, s)
    decreases |events|
  {
    hide Step, EmittedFor, DataFrames, WaitingSize;
    if events != [] {
      StepCounts(st, events[0], s);
      RunCounts(Step(st, events[0]), events[1..], s);
    }
  }

  /** Coalescing: over any run a session's data leaves in at most one frame for every callback that
      ran, every exit of the session and every full 64 KiB that came in, however many chunks. */
  lemma FewFrames(events: seq<Event>, s: SessionId)
    ensures DataFrames(EmittedFor(Run(INITIAL, events), s)) <= Occasions(events, s) + HeardSize(events, s) / 65536
  {
    RunCounts(INITIAL, events, s);
  }

  // ---- the object ----

  class OutputQueue {
    var pendingOutput: map<SessionId, Pending>
    var immediates: seq<SessionId>
    var emitted: map<SessionId, seq<Emission>>
    var analyzed: map<SessionId, seq<Text>>

    ghost function Current(): State
      reads this
    {
      State(pendingOutput, immediates, emitted, analyzed)
    }

    ghost predicate Valid()
      reads this
    {
      Inv(Current())
    }

    constructor ()
      ensures Valid() && Current() == INITIAL
    {
      pendingOutput, immediates, emitted, analyzed := map[], [], map[], map[];
    }

    method Send(s: SessionId, e: Emission)
      modifies this`emitted
      ensures Current() == Emit(old(Current()), s, e)
    {
      emitted := emitted[s := (if s in emitted then emitted[s] else []) + [e]];
    }

    method FlushOutput(s: SessionId)
      modifies this
      ensures Current() == Flush(old(Current()), s)
    {
      if s !in pendingOutput {
        return;
      }
      var pending := pendingOutput[s];
      pendingOutput := pendingOutput - {s};
      if pending.parts == [] {
        return;
      }
      var data := Flatten(pending.parts);
      Send(s, Data(data));
      analyzed := analyzed[s := (if s in analyzed then analyzed[s] else []) + [data]];
    }

    method Enqueue(s: SessionId, data: Text)
      modifies this`pendingOutput
      ensures pendingOutput == old(pendingOutput)[s := Queued(old(Current()), s, data)]
    {
      var pending := if s in pendingOutput then pendingOutput[s] else Pending([], 0, false);
      pending := pending.(parts := pending.parts + [data]);
      pending := pending.(bytes := pending.bytes + |data|);
      pendingOutput := pendingOutput[s := pending];
    }

    method OnOutput(s: SessionId, data: Text)
      requires Valid()
      modifies this
      ensures Valid() && Current() == Step(old(Current()), Output(s, data))
    {
      StepKeepsInv(Current(), Output(s, data));
      hide Inv, Flush, Queued;
      if data == [] {
        return;
      }
      Enqueue(s, data);
      var pending := pendingOutput[s];
      if pending.bytes >= OUTPUT_COALESCE_FLUSH_BYTES {
        FlushOutput(s);
        return;
      }
      if !pending.scheduled {
        pendingOutput := pendingOutput[s := pending.(scheduled := true)];
        immediates := immediates + [s];
      }
      assert Current() == Receive(old(Current()), s, data);
    }

    method RunImmediate()
      requires Valid()
      modifies this
      ensures Valid() && Current() == Step(old(Current()), Immediate)
    {
      StepKeepsInv(Current(), Immediate);
      hide Inv, Flatten, Flush;
      if immediates != [] {
        var s := immediates[0];
        immediates := immediates[1..];
        FlushOutput(s);
      }
    }

    method OnExit(s: SessionId, exitCode: int)
      requires Valid()
      modifies this
      ensures Valid() && Current() == Step(old(Current()), Exit(s, exitCode))
    {
      StepKeepsInv(Current(), Exit(s, exitCode));
      hide Inv, Flatten, Flush, Emit;
      FlushOutput(s);
      Send(s, ExitFrame(exitCode));
    }

    method OnRemoved(s: SessionId)
      requires Valid()
      modifies this
      ensures Valid() && Current() == Step(old(Current()), Removed(s))
    {
      StepKeepsInv(Current(), Removed(s));
      pendingOutput := pendingOutput - {s};
    }
  }
}
