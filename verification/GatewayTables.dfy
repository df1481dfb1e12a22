/**
 The gateway's tables: who is attached to or watches which session, what terminal size each
 client wants, and what the supervisor is told. Two-way tables are kept per relation; all
 else is seen one session (row) at a time.
 */
module GatewayTables {
  import opened Wrappers
  import opened Sequences

  type SessionId = string
  type ClientId = string

  // ---- a relation between clients and sessions, kept from both sides ----

  datatype TwoWay = TwoWay(bySession: map<SessionId, set<ClientId>>, byClient: map<ClientId, set<SessionId>>)

  function Members(t: TwoWay, s: SessionId): set<ClientId> {
    if s in t.bySession then t.bySession[s] else {}
  }

  function Joined(t: TwoWay, c: ClientId): set<SessionId> {
    if c in t.byClient then t.byClient[c] else {}
  }

  /** The two maps say the same, and no session is kept for nobody. */
  ghost predicate Inverse(t: TwoWay) {
    && (forall c, s :: c in Members(t, s) <==> s in Joined(t, c))
    && (forall s | s in t.bySession :: t.bySession[s] != {})
  }

  const NOBODY := TwoWay(map[], map[])

  function Link(t: TwoWay, c: ClientId, s: SessionId): TwoWay {
    TwoWay(t.bySession[s := Members(t, s) + {c}], t.byClient[c := Joined(t, c) + {s}])
  }

  function DropMember(bySession: map<SessionId, set<ClientId>>, c: ClientId, s: SessionId): map<SessionId, set<ClientId>> {
    if s !in bySession then bySession
    else if bySession[s] - {c} == {} then bySession - {s}
    else bySession[s := bySession[s] - {c}]
  }

  function Unlink(t: TwoWay, c: ClientId, s: SessionId): TwoWay {
    TwoWay(DropMember(t.bySession, c, s), if c in t.byClient then t.byClient[c := t.byClient[c] - {s}] else t.byClient)
  }

  function UnlinkSession(t: TwoWay, s: SessionId): TwoWay {
    TwoWay(t.bySession - {s}, map c | c in t.byClient :: t.byClient[c] - {s})
  }

  lemma LinkLinks(t: TwoWay, c: ClientId, s: SessionId)
    requires Inverse(t)
    ensures Inverse(Link(t, c, s))
    ensures forall z :: Members(Link(t, c, s), z) == if z == s then Members(t, z) + {c} else Members(t, z)
  {
    var u := Link(t, c, s);
    assert forall z :: Members(u, z) == if z == s then Members(t, z) + {c} else Members(t, z);
    assert forall d :: Joined(u, d) == if d == c then Joined(t, d) + {s} else Joined(t, d);
  }

  lemma UnlinkUnlinks(t: TwoWay, c: ClientId, s: SessionId)
    requires Inverse(t)
    ensures Inverse(Unlink(t, c, s))
    ensures forall z :: Members(Unlink(t, c, s), z) == if z == s then Members(t, z) - {c} else Members(t, z)
  {
    var u := Unlink(t, c, s);
    assert forall z :: Members(u, z) == if z == s then Members(t, z) - {c} else Members(t, z);
    assert forall d :: Joined(u, d) == if d == c then Joined(t, d) - {s} else Joined(t, d);
  }

  lemma UnlinkSessionUnlinks(t: TwoWay, s: SessionId)
    requires Inverse(t)
    ensures Inverse(UnlinkSession(t, s))
    ensures forall z :: Members(UnlinkSession(t, s), z) == if z == s then {} else Members(t, z)
  {
    var u := UnlinkSession(t, s);
    assert forall z :: Members(u, z) == if z == s then {} else Members(t, z);
    assert forall d :: Joined(u, d) == Joined(t, d) - {s};
  }

  /** Taking a client off every session, and then out of the other map. */
  lemma ClientGone(t: TwoWay, u: TwoWay, c: ClientId)
    requires Inverse(t) && u.byClient == t.byClient - {c}
    requires forall s :: Members(u, s) == Members(t, s) - {c}
    requires forall s | s in u.bySession :: u.bySession[s] != {}
    ensures Inverse(u)
  {
    assert forall d :: Joined(u, d) == if d == c then {} else Joined(t, d);
  }

  // ---- one session ----

  datatype Size = Size(cols: int, rows: int)

  /** What the supervisor is told about a session. */
  datatype Command = Unsubscribe | ResizePty(size: Size)

  /** All the gateway holds about one session, and the commands sent about it so far. */
  datatype Row = Row(
    subs: set<ClientId>,
    watchers: set<ClientId>,
    sizes: map<ClientId, Size>,
    effective: Option<Size>,
    sent: seq<Command>)

  /** Who needs the session's output or status. */
  function Audience(r: Row): set<ClientId> {
    r.subs + r.watchers
  }

  /** The pointwise minimum: the largest screen that fits every client's. */
  ghost predicate IsLeast(sizes: map<ClientId, Size>, z: Size) {
    && (forall c | c in sizes :: z.cols <= sizes[c].cols && z.rows <= sizes[c].rows)
    && (exists c | c in sizes :: z.cols == sizes[c].cols)
    && (exists c | c in sizes :: z.rows == sizes[c].rows)
  }

  function Smaller(a: Size, b: Size): Size {
    Size(if b.cols < a.cols then b.cols else a.cols, if b.rows < a.rows then b.rows else a.rows)
  }

  lemma LeastWith(sizes: map<ClientId, Size>, c: ClientId, z: Size)
    requires c in sizes && IsLeast(sizes - {c}, z)
    ensures IsLeast(sizes, Smaller(z, sizes[c]))
  {
    var rest := sizes - {c};
    var a :| a in rest && z.cols == rest[a].cols;
    var b :| b in rest && z.rows == rest[b].rows;
    assert a in sizes && sizes[a].cols == z.cols && b in sizes && sizes[b].rows == z.rows;
    assert forall d | d in sizes :: d == c || d in rest;
  }

  lemma {:induction false} LeastExists(sizes: map<ClientId, Size>)
    requires sizes != map[]
    ensures exists z :: IsLeast(sizes, z)
    decreases |sizes|
  {
    var c :| c in sizes;
    var rest := sizes - {c};
    if rest == map[] {
      assert forall d | d in sizes :: d == c by { assert forall d | d in sizes && d != c :: d in rest; }
      assert IsLeast(sizes, sizes[c]);
    } else {
      assert |rest| < |sizes| by { assert rest.Keys == sizes.Keys - {c}; }
      LeastExists(rest);
      var z :| IsLeast(rest, z);
      LeastWith(sizes, c, z);
    }
  }

  lemma LeastUnique(sizes: map<ClientId, Size>, a: Size, b: Size)
    requires IsLeast(sizes, a) && IsLeast(sizes, b)
    ensures a == b
  {
  }

  ghost function Least(sizes: map<ClientId, Size>): (z: Size)
    requires sizes != map[]
    ensures IsLeast(sizes, z)
  {
    LeastExists(sizes);
    var z :| IsLeast(sizes, z);
    z
  }

  ghost function Recompute(r: Row): Row
    requires r.sizes != map[]
  {
    var next := Least(r.sizes);
    if r.effective == Some(next) then r else r.(effective := Some(next), sent := r.sent + [ResizePty(next)])
  }

  ghost function Forget(r: Row, c: ClientId): Row {
    if c !in r.sizes then r
    else if r.sizes - {c} == map[] then r.(sizes := map[], effective := None)
    else Recompute(r.(sizes := r.sizes - {c}))
  }

  /** `sent` after a departure that may have left nobody. */
  function Notice(before: Row, after: Row): Row {
    if Audience(before) != {} && Audience(after) == {} then after.(sent := after.sent + [Unsubscribe]) else after
  }

  function LeaveSubs(r: Row, c: ClientId): Row {
    Notice(r, r.(subs := r.subs - {c}))
  }

  function LeaveWatch(r: Row, c: ClientId): Row {
    Notice(r, r.(watchers := r.watchers - {c}))
  }

  /** A closing client leaves where it is attached, and only there gives up its size. */
  ghost function LeaveAttached(r: Row, c: ClientId): Row {
    if c in r.subs then Forget(LeaveSubs(r, c), c) else r
  }

  ghost function Wanting(r: Row, c: ClientId, size: Size): Row {
    var wanted := r.sizes[c := size];
    assert c in wanted;
    Recompute(r.(sizes := wanted))
  }

  ghost function Resized(r: Row, c: ClientId, cols: real, rows: real): Row {
    if cols <= 0.0 || rows <= 0.0 then r else Wanting(r, c, Size(cols.Floor, rows.Floor))
  }

  function Cleared(r: Row): Row {
    Row({}, {}, map[], None, r.sent)
  }

  datatype Event =
    | Attach(client: ClientId, session: SessionId)
    | Detach(client: ClientId, session: SessionId)
    | Watch(client: ClientId, session: SessionId)
    | Unwatch(client: ClientId, session: SessionId)
    | Resize(client: ClientId, session: SessionId, cols: real, rows: real)
    | Close(client: ClientId)
    | Removed(session: SessionId)
    | Disconnected

  /** What an event does to one session's row. */
  ghost function RowStep(r: Row, s: SessionId, e: Event): Row {
    match e
    case Attach(c, t) => if t == s then r.(subs := r.subs + {c}) else r
    case Detach(c, t) => if t == s then Forget(LeaveSubs(r, c), c) else r
    case Watch(c, t) => if t == s then r.(watchers := r.watchers + {c}) else r
    case Unwatch(c, t) => if t == s then LeaveWatch(r, c) else r
    case Resize(c, t, cols, rows) => if t == s then Resized(r, c, cols, rows) else r
    case Close(c) => LeaveWatch(LeaveAttached(r, c), c)
    case Removed(t) => if t == s then Cleared(r) else r
    case Disconnected => Cleared(r)
  }

  ghost function RowRun(r: Row, s: SessionId, events: seq<Event>): Row
    decreases |events|
  {
    if events == [] then r else RowRun(RowStep(r, s, events[0]), s, events[1..])
  }

  const NEW_ROW := Row({}, {}, map[], None, [])

  // ---- what every row keeps ----

  function Resizes(sent: seq<Command>): seq<Size> {
    if sent == [] then []
    else if sent[|sent| - 1].ResizePty? then Resizes(sent[..|sent| - 1]) + [sent[|sent| - 1].size]
    else Resizes(sent[..|sent| - 1])
  }

  function Unsubscribes(sent: seq<Command>): nat {
    if sent == [] then 0
    else Unsubscribes(sent[..|sent| - 1]) + if sent[|sent| - 1] == Unsubscribe then 1 else 0
  }

  lemma SentOne(sent: seq<Command>, x: Command)
    ensures Resizes(sent + [x]) == Resizes(sent) + if x.ResizePty? then [x.size] else []
    ensures Unsubscribes(sent + [x]) == Unsubscribes(sent) + if x == Unsubscribe then 1 else 0
  {
    assert (sent + [x])[..|sent|] == sent;
  }

  /** The effective size is the least of the recorded ones, exists as long as one is recorded,
      and is the size the supervisor was last told. */
  ghost predicate Fits(r: Row) {
    && (r.effective.Some? <==> r.sizes != map[])
    && (r.effective.Some? ==> IsLeast(r.sizes, r.effective.value)
                              && Resizes(r.sent) != [] && Resizes(r.sent)[|Resizes(r.sent)| - 1] == r.effective.value)
  }

  /** The commands one event sends: one Unsubscribe exactly when the last of the audience
      leaves by itself, and one resize exactly when there is a new effective size. */
  ghost predicate SendsExactly(r: Row, after: Row, leaving: bool) {
    && Unsubscribes(after.sent) == Unsubscribes(r.sent) + (if leaving && Audience(r) != {} && Audience(after) == {} then 1 else 0)
    && Resizes(after.sent) == Resizes(r.sent)
         + (if after.effective.Some? && after.effective != r.effective then [after.effective.value] else [])
  }

  lemma RecomputeFits(r: Row)
    requires r.sizes != map[] && (r.effective.Some? ==> Resizes(r.sent) != [] && Resizes(r.sent)[|Resizes(r.sent)| - 1] == r.effective.value)
    ensures var after := Recompute(r);
            Fits(after) && SendsExactly(r, after, true) && after.subs == r.subs && after.watchers == r.watchers
  {
    SentOne(r.sent, ResizePty(Least(r.sizes)));
    hide IsLeast;
  }

  lemma ForgetFits(r: Row, c: ClientId)
    requires Fits(r)
    ensures var after := Forget(r, c);
            Fits(after) && SendsExactly(r, after, true) && after.subs == r.subs && after.watchers == r.watchers
  {
    if c in r.sizes && r.sizes - {c} != map[] {
      RecomputeFits(r.(sizes := r.sizes - {c}));
      hide Recompute;
    }
  }

  lemma NoticeSends(r: Row, after: Row)
    requires Fits(r) && after.sizes == r.sizes && after.effective == r.effective && after.sent == r.sent
    ensures Fits(Notice(r, after)) && SendsExactly(r, Notice(r, after), true)
  {
    SentOne(r.sent, Unsubscribe);
    hide IsLeast, Resizes, Unsubscribes;
  }

  /** Two departures in one event still send at most one Unsubscribe, and one resize. */
  lemma SendsCompose(a: Row, b: Row, c: Row)
    requires SendsExactly(a, b, true) && SendsExactly(b, c, true)
    requires Audience(b) <= Audience(a) && Audience(c) <= Audience(b)
    requires b.effective == a.effective || c.effective == b.effective
    ensures SendsExactly(a, c, true)
  {
    hide Resizes, Unsubscribes;
  }

  lemma ClearedFits(r: Row)
    ensures Fits(Cleared(r))
  {
  }

  predicate Departs(e: Event) {
    e.Detach? || e.Unwatch? || e.Close?
  }

  lemma DetachSends(r: Row, c: ClientId)
    requires Fits(r)
    ensures var after := Forget(LeaveSubs(r, c), c);
            && Fits(after) && SendsExactly(r, after, true)
            && after.subs == r.subs - {c} && after.watchers == r.watchers
  {
    var left := LeaveSubs(r, c);
    NoticeSends(r, r.(subs := r.subs - {c}));
    assert left.effective == r.effective && left.subs == r.subs - {c} && left.watchers == r.watchers;
    ForgetFits(left, c);
    hide Forget, Fits, SendsExactly, LeaveSubs;
    SendsCompose(r, left, Forget(left, c));
  }

  lemma WatchLeaves(r: Row, c: ClientId)
    requires Fits(r)
    ensures var after := LeaveWatch(r, c);
            && Fits(after) && SendsExactly(r, after, true)
            && after.subs == r.subs && after.watchers == r.watchers - {c} && after.effective == r.effective
  {
    NoticeSends(r, r.(watchers := r.watchers - {c}));
  }

  lemma LeaveAttachedSends(r: Row, c: ClientId)
    requires Fits(r)
    ensures var after := LeaveAttached(r, c);
            && Fits(after) && SendsExactly(r, after, true)
            && after.subs == r.subs - {c} && after.watchers == r.watchers
  {
    DetachSends(r, c);
    assert c !in r.subs ==> r.subs - {c} == r.subs;
    hide Forget, LeaveSubs, Fits;
  }

  lemma LeaveWatchAbsent(r: Row, c: ClientId)
    requires c !in r.watchers
    ensures LeaveWatch(r, c) == r
  {
    assert r.watchers - {c} == r.watchers;
  }

  lemma CloseSends(r: Row, c: ClientId)
    requires Fits(r)
    ensures var after := LeaveWatch(LeaveAttached(r, c), c);
            Fits(after) && SendsExactly(r, after, true)
  {
    var mid := LeaveAttached(r, c);
    LeaveAttachedSends(r, c);
    WatchLeaves(mid, c);
    hide LeaveAttached, Fits, SendsExactly, LeaveWatch;
    SendsCompose(r, mid, LeaveWatch(mid, c));
  }

  lemma ResizeSends(r: Row, c: ClientId, cols: real, rows: real)
    requires Fits(r)
    ensures var after := Resized(r, c, cols, rows);
            Fits(after) && SendsExactly(r, after, true) && Audience(after) == Audience(r)
  {
    var wanted := r.sizes[c := Size(cols.Floor, rows.Floor)];
    assert c in wanted;
    RecomputeFits(r.(sizes := wanted));
    hide Recompute;
  }

  /** Every event keeps a row's sizes consistent and sends exactly the due commands. */
  lemma RowStepSends(r: Row, s: SessionId, e: Event)
    requires Fits(r)
    ensures Fits(RowStep(r, s, e)) && SendsExactly(r, RowStep(r, s, e), Departs(e))
  {
    match e {
      case Detach(c, t) => DetachSends(r, c); hide *;
      case Unwatch(c, t) => WatchLeaves(r, c);
      case Close(c) => CloseSends(r, c); hide *;
      case Resize(c, t, cols, rows) => ResizeSends(r, c, cols, rows);
      case _ =>
    }
  }

  // ---- whole runs ----

  /** How often a run brings a session its first audience. */
  ghost function Arrivals(r: Row, s: SessionId, events: seq<Event>): nat
    decreases |events|
  {
    if events == [] then 0
    else
      var next := RowStep(r, s, events[0]);
      (if Audience(r) == {} && Audience(next) != {} then 1 else 0) + Arrivals(next, s, events[1..])
  }

  /** How often it ends for another reason than the audience leaving. */
  ghost function Losses(r: Row, s: SessionId, events: seq<Event>): nat
    decreases |events|
  {
    if events == [] then 0
    else
      var next := RowStep(r, s, events[0]);
      (if !Departs(events[0]) && Audience(r) != {} && Audience(next) == {} then 1 else 0) + Losses(next, s, events[1..])
  }

  function Present(r: Row): nat {
    if Audience(r) != {} then 1 else 0
  }

  /** The books balance: every arrival is matched by one Unsubscribe, one loss, or an audience
      still there. So no Unsubscribe is missed, doubled, or sent while somebody listens. */
  lemma {:induction false} SubscriptionBalance(r: Row, s: SessionId, events: seq<Event>)
    requires Fits(r)
    ensures var end := RowRun(r, s, events);
            && Fits(end)
            && Unsubscribes(end.sent) + Losses(r, s, events) + Present(end)
               == Unsubscribes(r.sent) + Arrivals(r, s, events) + Present(r)
    decreases |events|
  {
    if events != [] {
      var next := RowStep(r, s, events[0]);
      RowStepSends(r, s, events[0]);
      DepartingShrinks(r, s, events[0]);
      hide RowStep, Fits, Unsubscribes, Resizes;
      SubscriptionBalance(next, s, events[1..]);
    }
  }

  lemma DepartingShrinks(r: Row, s: SessionId, e: Event)
    ensures Departs(e) ==> Audience(RowStep(r, s, e)) <= Audience(r)
  {
  }

  /** What holds of a session in every reachable state. */
  lemma SizesFitAlways(s: SessionId, events: seq<Event>)
    ensures Fits(RowRun(NEW_ROW, s, events))
  {
    SubscriptionBalance(NEW_ROW, s, events);
  }

  // ---- sizes below one cell ----

  predicate Usable(r: Row) {
    forall c | c in r.sizes :: r.sizes[c].cols >= 1 && r.sizes[c].rows >= 1
  }

  /** A resize is accepted when both numbers are positive, but stored rounded down: the
      recorded sizes stay usable exactly when neither accepted number is below one. */
  lemma ResizeKeepsUsableIff(r: Row, c: ClientId, cols: real, rows: real)
    requires Usable(r)
    ensures Usable(Resized(r, c, cols, rows)) <==> cols <= 0.0 || rows <= 0.0 || (cols >= 1.0 && rows >= 1.0)
  {
    if cols > 0.0 && rows > 0.0 {
      var wanted := r.sizes[c := Size(cols.Floor, rows.Floor)];
      assert c in wanted;
      assert Resized(r, c, cols, rows).sizes == wanted;
      assert wanted[c] == Size(cols.Floor, rows.Floor);
      assert cols.Floor >= 1 <==> cols >= 1.0;
      assert rows.Floor >= 1 <==> rows >= 1.0;
    }
  }
}
