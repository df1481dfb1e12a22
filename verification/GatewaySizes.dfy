/**
 What the gateway's per-session tables hold, read off the list of events alone: who is
 attached or watching, whose size counts, what size the supervisor was last told, and when
 the subscription is given up.
 */
module GatewaySizes {
  import opened Wrappers
  import opened Sequences
  import opened GatewayTables

  // ---- presence ----

  predicate Begins(e: Event) {
    e.Attach? || e.Watch?
  }

  /** The event ends what an attach or a watch began. */
  predicate Ends(e: Event, begun: Event)
    requires Begins(begun)
  {
    || e == Close(begun.client) || e == Removed(begun.session) || e == Disconnected
    || e == if begun.Attach? then Detach(begun.client, begun.session) else Unwatch(begun.client, begun.session)
  }

  /** The attach or watch has happened, and nothing since has ended it. */
  ghost predicate Lasts(events: seq<Event>, begun: Event)
    requires Begins(begun)
  {
    exists i | 0 <= i < |events| :: events[i] == begun && forall j | i < j < |events| :: !Ends(events[j], begun)
  }

  ghost predicate Attached(events: seq<Event>, c: ClientId, s: SessionId) {
    Lasts(events, Attach(c, s))
  }

  ghost predicate Watching(events: seq<Event>, c: ClientId, s: SessionId) {
    Lasts(events, Watch(c, s))
  }

  lemma LastsOne(events: seq<Event>, e: Event, begun: Event)
    requires Begins(begun)
    ensures Lasts(events + [e], begun) <==> e == begun || (Lasts(events, begun) && !Ends(e, begun))
  {
    var more := events + [e];
    assert forall i | 0 <= i < |events| :: more[i] == events[i];
    assert more[|events|] == e;
    hide Ends;
    if Lasts(events, begun) && !Ends(e, begun) {
      var i :| 0 <= i < |events| && events[i] == begun && forall j | i < j < |events| :: !Ends(events[j], begun);
      assert more[i] == begun;
    }
  }

  // ---- wishes ----

  /** A resize that is not ignored. */
  predicate Accepted(e: Event, c: ClientId, s: SessionId) {
    e.Resize? && e.client == c && e.session == s && e.cols > 0.0 && e.rows > 0.0
  }

  /** The event at `k` makes the client's size count no more: a detach does, a removal, a
      disconnection, and a close of a client that is attached. */
  ghost predicate GivesUp(events: seq<Event>, k: nat, c: ClientId, s: SessionId)
    requires k < |events|
  {
    || events[k] == Detach(c, s) || events[k] == Removed(s) || events[k] == Disconnected
    || (events[k] == Close(c) && Attached(events[..k], c, s))
  }

  /** The event at `i` is the client's wish: its last accepted resize, not given up since. */
  ghost predicate IsWish(events: seq<Event>, i: nat, c: ClientId, s: SessionId) {
    && i < |events| && Accepted(events[i], c, s)
    && forall j | i < j < |events| :: !Accepted(events[j], c, s) && !GivesUp(events, j, c, s)
  }

  ghost predicate Wishes(events: seq<Event>, c: ClientId, s: SessionId) {
    exists i: nat :: IsWish(events, i, c, s)
  }

  lemma GivesUpSame(events: seq<Event>, e: Event, k: nat, c: ClientId, s: SessionId)
    requires k < |events|
    ensures GivesUp(events + [e], k, c, s) <==> GivesUp(events, k, c, s)
  {
    assert (events + [e])[..k] == events[..k];
  }

  predicate GivesUpNow(e: Event, attached: bool, c: ClientId, s: SessionId) {
    e == Detach(c, s) || e == Removed(s) || e == Disconnected || (e == Close(c) && attached)
  }

  lemma GivesUpLast(events: seq<Event>, e: Event, c: ClientId, s: SessionId)
    ensures GivesUp(events + [e], |events|, c, s) <==> GivesUpNow(e, Attached(events, c, s), c, s)
  {
    assert (events + [e])[..|events|] == events;
  }

  lemma WishOne(events: seq<Event>, e: Event, i: nat, c: ClientId, s: SessionId)
    ensures IsWish(events + [e], i, c, s) <==>
            if i == |events| then Accepted(e, c, s)
            else IsWish(events, i, c, s) && !Accepted(e, c, s) && !GivesUpNow(e, Attached(events, c, s), c, s)
  {
    var more := events + [e];
    GivesUpLast(events, e, c, s);
    forall k: nat | k < |events| ensures more[k] == events[k] && (GivesUp(more, k, c, s) <==> GivesUp(events, k, c, s)) {
      GivesUpSame(events, e, k, c, s);
    }
    hide GivesUp, GivesUpNow;
    if i < |events| {
      assert more[|events|] == e;
    }
  }

  // ---- the row against the events ----

  lemma RecomputeSizes(r: Row)
    requires r.sizes != map[]
    ensures var after := Recompute(r); after.sizes == r.sizes && after.subs == r.subs && after.watchers == r.watchers
  {
  }

  lemma ForgetSizes(r: Row, c: ClientId)
    ensures var after := Forget(r, c);
            after.sizes == r.sizes - {c} && after.subs == r.subs && after.watchers == r.watchers
  {
    if c in r.sizes && r.sizes - {c} != map[] { RecomputeSizes(r.(sizes := r.sizes - {c})); }
    assert c !in r.sizes ==> r.sizes - {c} == r.sizes;
    hide Recompute;
  }

  /** What one event does to the three tables of a row. */
  lemma RowStepTables(r: Row, s: SessionId, e: Event, c: ClientId)
    ensures var after := RowStep(r, s, e);
            && (c in after.subs <==> e == Attach(c, s) || (c in r.subs && !Ends(e, Attach(c, s))))
            && (c in after.watchers <==> e == Watch(c, s) || (c in r.watchers && !Ends(e, Watch(c, s))))
            && (c in after.sizes <==> Accepted(e, c, s) || (c in r.sizes && !GivesUpNow(e, c in r.subs, c, s)))
            && (c in after.sizes ==> after.sizes[c] == if Accepted(e, c, s) then Size(e.cols.Floor, e.rows.Floor) else r.sizes[c])
  {
    match e {
      case Detach(d, t) => ForgetSizes(LeaveSubs(r, d), d);
      case Close(d) => ForgetSizes(LeaveSubs(r, d), d);
      case Resize(d, t, cols, rows) =>
        var wanted := r.sizes[d := Size(cols.Floor, rows.Floor)];
        assert d in wanted;
        RecomputeSizes(r.(sizes := wanted));
      case _ =>
    }
    hide Recompute, Forget, Audience;
  }

  /** One client's share of the relation. */
  ghost predicate TellsOf(r: Row, events: seq<Event>, s: SessionId, c: ClientId) {
    && (c in r.subs <==> Attached(events, c, s))
    && (c in r.watchers <==> Watching(events, c, s))
    && (c in r.sizes <==> Wishes(events, c, s))
    && (forall i: nat | IsWish(events, i, c, s) ::
          c in r.sizes && r.sizes[c] == Size(events[i].cols.Floor, events[i].rows.Floor))
  }

  lemma StepTells(r: Row, events: seq<Event>, s: SessionId, e: Event, c: ClientId)
    requires TellsOf(r, events, s, c)
    ensures TellsOf(RowStep(r, s, e), events + [e], s, c)
  {
    var more := events + [e];
    RowStepTables(r, s, e, c);
    LastsOne(events, e, Attach(c, s));
    LastsOne(events, e, Watch(c, s));
    hide Lasts, Ends, RowStep;
    forall i: nat ensures IsWish(more, i, c, s) <==>
        if i == |events| then Accepted(e, c, s)
        else IsWish(events, i, c, s) && !Accepted(e, c, s) && !GivesUpNow(e, c in r.subs, c, s)
    {
      WishOne(events, e, i, c, s);
    }
    assert forall i: nat | IsWish(events, i, c, s) :: i < |events| && more[i] == events[i];
    assert more[|events|] == e;
    hide IsWish, Accepted, GivesUpNow;
  }

  lemma RowRunSnoc(r: Row, s: SessionId, events: seq<Event>, e: Event)
    ensures RowRun(r, s, events + [e]) == RowStep(RowRun(r, s, events), s, e)
    decreases |events|
  {
    hide RowStep;
    var more := events + [e];
    if events == [] {
      assert RowRun(RowStep(r, s, e), s, []) == RowStep(r, s, e);
    } else {
      assert more[0] == events[0] && more[1..] == events[1..] + [e];
      RowRunSnoc(RowStep(r, s, events[0]), s, events[1..], e);
    }
  }

  /** After any events, what the tables hold of a client is what the events say. */
  lemma {:induction false} RunTells(s: SessionId, events: seq<Event>, c: ClientId)
    ensures TellsOf(RowRun(NEW_ROW, s, events), events, s, c)
    decreases |events|
  {
    if events != [] {
      var before, last := events[..|events| - 1], events[|events| - 1];
      assert events == before + [last];
      RunTells(s, before, c);
      RowRunSnoc(NEW_ROW, s, before, last);
      hide TellsOf, RowStep, RowRun;
      StepTells(RowRun(NEW_ROW, s, before), before, s, last, c);
    }
  }

  // ---- what the supervisor is told ----

  /** The size asks for no more than any wish, and every part of it is somebody's wish: the
      least columns and the least rows, rounded down. */
  ghost predicate LeastWish(events: seq<Event>, s: SessionId, z: Size) {
    && (forall c, i: nat | IsWish(events, i, c, s) :: z.cols <= events[i].cols.Floor && z.rows <= events[i].rows.Floor)
    && (exists c, i: nat :: IsWish(events, i, c, s) && z.cols == events[i].cols.Floor)
    && (exists c, i: nat :: IsWish(events, i, c, s) && z.rows == events[i].rows.Floor)
  }

  /** The last resize command the supervisor got is this one. */
  ghost predicate LastTold(sent: seq<Command>, z: Size) {
    exists k | 0 <= k < |sent| :: sent[k] == ResizePty(z) && forall j | k < j < |sent| :: !sent[j].ResizePty?
  }

  lemma LastToldOne(sent: seq<Command>, x: Command, z: Size)
    ensures LastTold(sent + [x], z) <==> if x.ResizePty? then x.size == z else LastTold(sent, z)
  {
    var more := sent + [x];
    assert forall k | 0 <= k < |sent| :: more[k] == sent[k];
    assert more[|sent|] == x;
    if LastTold(sent, z) && !x.ResizePty? {
      var k :| 0 <= k < |sent| && sent[k] == ResizePty(z) && forall j | k < j < |sent| :: !sent[j].ResizePty?;
      assert more[k] == ResizePty(z);
    }
  }

  lemma {:induction false} LastResize(sent: seq<Command>)
    requires Resizes(sent) != []
    ensures LastTold(sent, Resizes(sent)[|Resizes(sent)| - 1])
  {
    var before, last := sent[..|sent| - 1], sent[|sent| - 1];
    assert sent == before + [last];
    hide LastTold;
    LastToldOne(before, last, Resizes(sent)[|Resizes(sent)| - 1]);
    if !last.ResizePty? {
      LastResize(before);
    }
  }

  /** The promise of one terminal for many viewers. After any events, a size is in effect exactly
      when somebody's wish counts; its columns are the least whole columns and its rows the least
      whole rows over the wishes that count; and it is what the supervisor was last told. */
  lemma SizeInEffect(s: SessionId, events: seq<Event>)
    ensures var r := RowRun(NEW_ROW, s, events);
            && (r.effective.Some? <==> exists c :: Wishes(events, c, s))
            && (r.effective.Some? ==> LeastWish(events, s, r.effective.value) && LastTold(r.sent, r.effective.value))
  {
    var r := RowRun(NEW_ROW, s, events);
    SizesFitAlways(s, events);
    if Resizes(r.sent) != [] { LastResize(r.sent); }
    forall c ensures TellsOf(r, events, s, c) { RunTells(s, events, c); }
    hide Wishes, IsWish, LastTold, RowRun, Resizes, Attached, Watching;
    forall c ensures c in r.sizes <==> Wishes(events, c, s) { assert TellsOf(r, events, s, c); }
    assert r.sizes != map[] <==> exists c :: c in r.sizes;
    if r.effective.Some? {
      WishesOf(r, events, s, r.effective.value);
    }
  }

  lemma WishesOf(r: Row, events: seq<Event>, s: SessionId, z: Size)
    requires IsLeast(r.sizes, z) && forall c :: TellsOf(r, events, s, c)
    ensures LeastWish(events, s, z)
  {
    hide GivesUp, Attached, Watching;
    var a :| a in r.sizes && z.cols == r.sizes[a].cols;
    var b :| b in r.sizes && z.rows == r.sizes[b].rows;
    assert TellsOf(r, events, s, a) && TellsOf(r, events, s, b);
    var i: nat :| IsWish(events, i, a, s);
    var j: nat :| IsWish(events, j, b, s);
    forall c, k: nat | IsWish(events, k, c, s) ensures z.cols <= events[k].cols.Floor && z.rows <= events[k].rows.Floor {
      assert TellsOf(r, events, s, c);
    }
  }

  // ---- when the subscription is given up ----

  /** Somebody is attached or watching. */
  ghost predicate Audible(events: seq<Event>, s: SessionId) {
    exists c :: Attached(events, c, s) || Watching(events, c, s)
  }

  lemma AudienceTells(s: SessionId, events: seq<Event>)
    ensures Audience(RowRun(NEW_ROW, s, events)) != {} <==> Audible(events, s)
  {
    var r := RowRun(NEW_ROW, s, events);
    forall c ensures TellsOf(r, events, s, c) { RunTells(s, events, c); }
    hide RowRun, Attached, Watching, IsWish;
    forall c ensures c in Audience(r) <==> Attached(events, c, s) || Watching(events, c, s) {
      assert TellsOf(r, events, s, c);
    }
  }

  /** The event is a departure of one client, not the end of the session or of the link. */
  predicate OneLeaves(e: Event) {
    e.Detach? || e.Unwatch? || e.Close?
  }

  /** One event makes the gateway give up its subscription exactly when it is a client's
      departure that leaves nobody attached or watching where somebody was; never otherwise. */
  lemma GivenUpExactly(s: SessionId, events: seq<Event>, e: Event)
    ensures Unsubscribes(RowRun(NEW_ROW, s, events + [e]).sent) == Unsubscribes(RowRun(NEW_ROW, s, events).sent)
            + if OneLeaves(e) && Audible(events, s) && !Audible(events + [e], s) then 1 else 0
  {
    var r := RowRun(NEW_ROW, s, events);
    SizesFitAlways(s, events);
    RowRunSnoc(NEW_ROW, s, events, e);
    RowStepSends(r, s, e);
    AudienceTells(s, events);
    AudienceTells(s, events + [e]);
    hide RowRun, RowStep, Audible, Unsubscribes, Resizes, Fits;
  }
}
