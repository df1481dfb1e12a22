/**
 The gateway object: the six tables changed in place, each operation proved to do to every
 session's row exactly what `GatewayTables` says, and to keep the two-way tables inverse.
 */
module Gateway {
  import opened Wrappers
  import opened GatewayTables

  /** The min-finding loop over a session's recorded sizes. */
  method MinSize(sizes: map<ClientId, Size>) returns (z: Size)
    requires sizes != map[]
    ensures IsLeast(sizes, z)
  {
    var min: Option<Size> := None;
    var left := sizes.Keys;
    assert left != {} by { var c :| c in sizes; }
    while left != {}
      invariant left <= sizes.Keys
      invariant min.None? <==> left == sizes.Keys
      invariant forall c | c in sizes && c !in left :: min.Some? && min.value.cols <= sizes[c].cols && min.value.rows <= sizes[c].rows
      invariant min.Some? ==> exists c | c in sizes :: min.value.cols == sizes[c].cols
      invariant min.Some? ==> exists c | c in sizes :: min.value.rows == sizes[c].rows
      decreases left
    {
      var c :| c in left;
      min := Some(if min.None? then sizes[c] else Smaller(min.value, sizes[c]));
      left := left - {c};
    }
    z := min.value;
  }

  ghost predicate NoneEmpty(bySession: map<SessionId, set<ClientId>>) {
    forall s | s in bySession :: bySession[s] != {}
  }

  class Gateway {
    var sessionSubscribers: map<SessionId, set<ClientId>>
    var clientSubscriptions: map<ClientId, set<SessionId>>
    var statusWatchers: map<SessionId, set<ClientId>>
    var clientStatusWatches: map<ClientId, set<SessionId>>
    var clientDesiredSizes: map<SessionId, map<ClientId, Size>>
    var effectiveSizes: map<SessionId, Size>
    var sent: map<SessionId, seq<Command>>

    ghost function Subs(): TwoWay
      reads this
    {
      TwoWay(sessionSubscribers, clientSubscriptions)
    }

    ghost function Watches(): TwoWay
      reads this
    {
      TwoWay(statusWatchers, clientStatusWatches)
    }

    ghost function RowAt(s: SessionId): Row
      reads this
    {
      Row(Members(Subs(), s), Members(Watches(), s),
          if s in clientDesiredSizes then clientDesiredSizes[s] else map[],
          if s in effectiveSizes then Some(effectiveSizes[s]) else None,
          if s in sent then sent[s] else [])
    }

    ghost predicate Tidy()
      reads this
    {
      && NoneEmpty(sessionSubscribers) && NoneEmpty(statusWatchers)
      && (forall s | s in clientDesiredSizes :: clientDesiredSizes[s] != map[])
      && (forall s :: Fits(RowAt(s)))
    }

    ghost predicate Valid()
      reads this
    {
      Inverse(Subs()) && Inverse(Watches()) && Tidy()
    }

    constructor ()
      ensures Valid() && forall s :: RowAt(s) == NEW_ROW
    {
      sessionSubscribers, clientSubscriptions := map[], map[];
      statusWatchers, clientStatusWatches := map[], map[];
      clientDesiredSizes, effectiveSizes, sent := map[], map[], map[];
    }

    method Tell(s: SessionId, command: Command)
      modifies this`sent
      ensures RowAt(s) == old(RowAt(s)).(sent := old(RowAt(s)).sent + [command])
      ensures forall z | z != s :: RowAt(z) == old(RowAt(z))
    {
      sent := sent[s := (if s in sent then sent[s] else []) + [command]];
    }

    method ShouldKeepSupervisorSubscription(s: SessionId) returns (keep: bool)
      ensures keep == (Audience(RowAt(s)) != {})
    {
      if s in sessionSubscribers && sessionSubscribers[s] != {} {
        return true;
      }
      keep := s in statusWatchers && statusWatchers[s] != {};
    }

    method RecomputeEffectiveSize(s: SessionId)
      requires s in clientDesiredSizes && clientDesiredSizes[s] != map[]
      modifies this`effectiveSizes, this`sent
      ensures RowAt(s) == Recompute(old(RowAt(s)))
      ensures forall z | z != s :: RowAt(z) == old(RowAt(z))
    {
      var next := MinSize(clientDesiredSizes[s]);
      LeastUnique(clientDesiredSizes[s], next, Least(clientDesiredSizes[s]));
      hide IsLeast;
      if s in effectiveSizes && effectiveSizes[s] == next {
        return;
      }
      effectiveSizes := effectiveSizes[s := next];
      Tell(s, ResizePty(next));
    }

    method ForgetClientSize(c: ClientId, s: SessionId)
      requires forall z | z in clientDesiredSizes :: clientDesiredSizes[z] != map[]
      modifies this`clientDesiredSizes, this`effectiveSizes, this`sent
      ensures RowAt(s) == Forget(old(RowAt(s)), c)
      ensures forall z | z != s :: RowAt(z) == old(RowAt(z))
      ensures forall z | z in clientDesiredSizes :: clientDesiredSizes[z] != map[]
    {
      if s !in clientDesiredSizes || c !in clientDesiredSizes[s] {
        return;
      }
      var perClient := clientDesiredSizes[s] - {c};
      if perClient == map[] {
        clientDesiredSizes := clientDesiredSizes - {s};
        effectiveSizes := effectiveSizes - {s};
        return;
      }
      clientDesiredSizes := clientDesiredSizes[s := perClient];
      RecomputeEffectiveSize(s);
    }

    method RecordClientSize(c: ClientId, s: SessionId, size: Size)
      modifies this`clientDesiredSizes
      ensures s in clientDesiredSizes && clientDesiredSizes[s] != map[]
      ensures forall z | z in clientDesiredSizes && z != s :: z in old(clientDesiredSizes) && clientDesiredSizes[z] == old(clientDesiredSizes[z])
      ensures RowAt(s) == old(RowAt(s)).(sizes := old(RowAt(s)).sizes[c := size])
      ensures forall z | z != s :: RowAt(z) == old(RowAt(z))
    {
      var perClient := (if s in clientDesiredSizes then clientDesiredSizes[s] else map[])[c := size];
      assert c in perClient;
      clientDesiredSizes := clientDesiredSizes[s := perClient];
    }

    /** The part of a resize that an accepted size reaches. */
    method SetClientSize(c: ClientId, s: SessionId, size: Size)
      requires forall z | z in clientDesiredSizes :: clientDesiredSizes[z] != map[]
      modifies this`clientDesiredSizes, this`effectiveSizes, this`sent
      ensures forall z | z in clientDesiredSizes :: clientDesiredSizes[z] != map[]
      ensures RowAt(s) == Wanting(old(RowAt(s)), c, size)
      ensures forall z | z != s :: RowAt(z) == old(RowAt(z))
    {
      hide RowAt, Recompute;
      RecordClientSize(c, s, size);
      RecomputeEffectiveSize(s);
    }

    method ApplyClientResize(c: ClientId, s: SessionId, cols: real, rows: real)
      requires Valid()
      modifies this`clientDesiredSizes, this`effectiveSizes, this`sent
      ensures Valid() && forall z :: RowAt(z) == RowStep(old(RowAt(z)), z, Resize(c, s, cols, rows))
    {
      if cols <= 0.0 || rows <= 0.0 {
        return;
      }
      hide Fits, RowAt, Inverse, Wanting;
      ResizeSends(RowAt(s), c, cols, rows);
      SetClientSize(c, s, Size(cols.Floor, rows.Floor));
      assert Subs() == old(Subs()) && Watches() == old(Watches());
      assert forall z :: Fits(RowAt(z));
    }

    method LinkSubscriber(c: ClientId, s: SessionId)
      modifies this`sessionSubscribers, this`clientSubscriptions
      ensures Subs() == Link(old(Subs()), c, s)
      ensures NoneEmpty(old(sessionSubscribers)) ==> NoneEmpty(sessionSubscribers)
      ensures RowAt(s) == old(RowAt(s)).(subs := old(RowAt(s)).subs + {c})
      ensures forall z | z != s :: RowAt(z) == old(RowAt(z))
    {
      sessionSubscribers := sessionSubscribers[s := (if s in sessionSubscribers then sessionSubscribers[s] else {}) + {c}];
      clientSubscriptions := clientSubscriptions[c := (if c in clientSubscriptions then clientSubscriptions[c] else {}) + {s}];
    }

    method LinkWatcher(c: ClientId, s: SessionId)
      modifies this`statusWatchers, this`clientStatusWatches
      ensures Watches() == Link(old(Watches()), c, s)
      ensures NoneEmpty(old(statusWatchers)) ==> NoneEmpty(statusWatchers)
      ensures RowAt(s) == old(RowAt(s)).(watchers := old(RowAt(s)).watchers + {c})
      ensures forall z | z != s :: RowAt(z) == old(RowAt(z))
    {
      statusWatchers := statusWatchers[s := (if s in statusWatchers then statusWatchers[s] else {}) + {c}];
      clientStatusWatches := clientStatusWatches[c := (if c in clientStatusWatches then clientStatusWatches[c] else {}) + {s}];
    }

    method AddSubscription(c: ClientId, s: SessionId)
      requires Valid()
      modifies this`sessionSubscribers, this`clientSubscriptions
      ensures Valid() && forall z :: RowAt(z) == RowStep(old(RowAt(z)), z, Attach(c, s))
    {
      LinkLinks(Subs(), c, s);
      RowStepSends(RowAt(s), s, Attach(c, s));
      hide Inverse, Fits, Link, RowAt;
      LinkSubscriber(c, s);
      assert Watches() == old(Watches());
      assert forall z :: Fits(RowAt(z));
    }

    method AddStatusWatch(c: ClientId, s: SessionId)
      requires Valid()
      modifies this`statusWatchers, this`clientStatusWatches
      ensures Valid() && forall z :: RowAt(z) == RowStep(old(RowAt(z)), z, Watch(c, s))
    {
      LinkLinks(Watches(), c, s);
      RowStepSends(RowAt(s), s, Watch(c, s));
      hide Inverse, Fits, Link, RowAt;
      LinkWatcher(c, s);
      assert Subs() == old(Subs());
      assert forall z :: Fits(RowAt(z));
    }

    /** Takes one subscriber off a session, and tells the supervisor if nobody is left. */
    method DropSubscriber(c: ClientId, s: SessionId)
      requires NoneEmpty(sessionSubscribers)
      modifies this`sessionSubscribers, this`sent
      ensures sessionSubscribers == DropMember(old(sessionSubscribers), c, s) && NoneEmpty(sessionSubscribers)
      ensures RowAt(s) == LeaveSubs(old(RowAt(s)), c)
      ensures forall z | z != s :: RowAt(z) == old(RowAt(z))
    {
      if s in sessionSubscribers {
        var rest := sessionSubscribers[s] - {c};
        if rest == {} {
          sessionSubscribers := sessionSubscribers - {s};
          var keep := ShouldKeepSupervisorSubscription(s);
          if !keep {
            Tell(s, Unsubscribe);
          }
        } else {
          sessionSubscribers := sessionSubscribers[s := rest];
        }
      }
    }

    method DropWatcher(c: ClientId, s: SessionId)
      requires NoneEmpty(statusWatchers)
      modifies this`statusWatchers, this`sent
      ensures statusWatchers == DropMember(old(statusWatchers), c, s) && NoneEmpty(statusWatchers)
      ensures RowAt(s) == LeaveWatch(old(RowAt(s)), c)
      ensures forall z | z != s :: RowAt(z) == old(RowAt(z))
    {
      if s in statusWatchers {
        var rest := statusWatchers[s] - {c};
        if rest == {} {
          statusWatchers := statusWatchers - {s};
          var keep := ShouldKeepSupervisorSubscription(s);
          if !keep {
            Tell(s, Unsubscribe);
          }
        } else {
          statusWatchers := statusWatchers[s := rest];
        }
      }
    }

    method ForgetJoined(c: ClientId, s: SessionId)
      modifies this`clientSubscriptions
      ensures clientSubscriptions == if c in old(clientSubscriptions)
                                     then old(clientSubscriptions)[c := old(clientSubscriptions)[c] - {s}]
                                     else old(clientSubscriptions)
      ensures forall z :: RowAt(z) == old(RowAt(z))
    {
      if c in clientSubscriptions {
        clientSubscriptions := clientSubscriptions[c := clientSubscriptions[c] - {s}];
      }
    }

    method RemoveSubscription(c: ClientId, s: SessionId)
      requires Valid()
      modifies this`sessionSubscribers, this`clientSubscriptions, this`clientDesiredSizes, this`effectiveSizes, this`sent
      ensures Valid() && forall z :: RowAt(z) == RowStep(old(RowAt(z)), z, Detach(c, s))
    {
      UnlinkUnlinks(Subs(), c, s);
      DetachSends(RowAt(s), c);
      hide Inverse, Fits, LeaveSubs, Forget, RowAt;
      DropSubscriber(c, s);
      ForgetJoined(c, s);
      ForgetClientSize(c, s);
      assert Subs() == Unlink(old(Subs()), c, s) && Watches() == old(Watches());
      assert forall z | z != s :: RowAt(z) == old(RowAt(z));
      assert forall z :: Fits(RowAt(z));
    }

    method ForgetWatched(c: ClientId, s: SessionId)
      modifies this`clientStatusWatches
      ensures clientStatusWatches == if c in old(clientStatusWatches)
                                     then old(clientStatusWatches)[c := old(clientStatusWatches)[c] - {s}]
                                     else old(clientStatusWatches)
      ensures forall z :: RowAt(z) == old(RowAt(z))
    {
      if c in clientStatusWatches {
        clientStatusWatches := clientStatusWatches[c := clientStatusWatches[c] - {s}];
      }
    }

    method RemoveStatusWatch(c: ClientId, s: SessionId)
      requires Valid()
      modifies this`statusWatchers, this`clientStatusWatches, this`sent
      ensures Valid() && forall z :: RowAt(z) == RowStep(old(RowAt(z)), z, Unwatch(c, s))
    {
      UnlinkUnlinks(Watches(), c, s);
      WatchLeaves(RowAt(s), c);
      hide Inverse, Fits, LeaveWatch, RowAt;
      DropWatcher(c, s);
      ForgetWatched(c, s);
      assert Watches() == Unlink(old(Watches()), c, s) && Subs() == old(Subs());
      assert forall z | z != s :: RowAt(z) == old(RowAt(z));
      assert forall z :: Fits(RowAt(z));
    }

    /** The loop over a client's sessions. */
    method LeaveEach(c: ClientId, sessions: set<SessionId>)
      requires NoneEmpty(sessionSubscribers)
      requires forall z | z in clientDesiredSizes :: clientDesiredSizes[z] != map[]
      requires forall z :: z in sessions <==> c in RowAt(z).subs
      modifies this`sessionSubscribers, this`clientDesiredSizes, this`effectiveSizes, this`sent
      ensures NoneEmpty(sessionSubscribers)
      ensures forall z | z in clientDesiredSizes :: clientDesiredSizes[z] != map[]
      ensures forall z :: RowAt(z) == LeaveAttached(old(RowAt(z)), c)
    {
      hide RowAt, Forget, LeaveSubs;
      var left := sessions;
      while left != {}
        invariant left <= sessions && NoneEmpty(sessionSubscribers)
        invariant forall z | z in clientDesiredSizes :: clientDesiredSizes[z] != map[]
        invariant forall z :: RowAt(z) == if z in left then old(RowAt(z)) else LeaveAttached(old(RowAt(z)), c)
        decreases left
      {
        var s :| s in left;
        DropSubscriber(c, s);
        ForgetClientSize(c, s);
        left := left - {s};
      }
    }

    /** All that closing a client changes in the subscriptions. */
    method LeaveAll(c: ClientId)
      requires NoneEmpty(sessionSubscribers) && Inverse(Subs())
      requires forall z | z in clientDesiredSizes :: clientDesiredSizes[z] != map[]
      modifies this`sessionSubscribers, this`clientSubscriptions, this`clientDesiredSizes, this`effectiveSizes, this`sent
      ensures NoneEmpty(sessionSubscribers) && clientSubscriptions == old(clientSubscriptions) - {c}
      ensures forall z | z in clientDesiredSizes :: clientDesiredSizes[z] != map[]
      ensures forall z :: RowAt(z) == LeaveAttached(old(RowAt(z)), c)
    {
      assert forall z :: z in Joined(Subs(), c) <==> c in RowAt(z).subs;
      hide LeaveSubs, Forget, Inverse;
      if c in clientSubscriptions {
        hide LeaveAttached;
        LeaveEach(c, clientSubscriptions[c]);
        clientSubscriptions := clientSubscriptions - {c};
      } else {
        assert forall z :: LeaveAttached(RowAt(z), c) == RowAt(z);
      }
    }

    method RemoveAllSubscriptions(c: ClientId)
      requires Valid()
      modifies this`sessionSubscribers, this`clientSubscriptions, this`clientDesiredSizes, this`effectiveSizes, this`sent
      ensures Valid() && forall z :: RowAt(z) == LeaveAttached(old(RowAt(z)), c)
    {
      forall z
        ensures Fits(LeaveAttached(RowAt(z), c)) && LeaveAttached(RowAt(z), c).subs == RowAt(z).subs - {c}
      {
        LeaveAttachedSends(RowAt(z), c);
      }
      hide Fits, LeaveAttached, Inverse;
      LeaveAll(c);
      forall z ensures Members(Subs(), z) == Members(old(Subs()), z) - {c} {
        assert RowAt(z).subs == old(RowAt(z)).subs - {c};
      }
      ClientGone(old(Subs()), Subs(), c);
      assert Watches() == old(Watches());
    }

    /** The loop over the sessions a client watches. */
    method UnwatchEach(c: ClientId, sessions: set<SessionId>)
      requires NoneEmpty(statusWatchers)
      requires forall z :: z in sessions <==> c in RowAt(z).watchers
      modifies this`statusWatchers, this`sent
      ensures NoneEmpty(statusWatchers)
      ensures forall z :: RowAt(z) == LeaveWatch(old(RowAt(z)), c)
    {
      forall z | z !in sessions ensures LeaveWatch(RowAt(z), c) == RowAt(z) {
        LeaveWatchAbsent(RowAt(z), c);
      }
      hide RowAt, LeaveWatch;
      var left := sessions;
      while left != {}
        invariant left <= sessions && NoneEmpty(statusWatchers)
        invariant forall z :: RowAt(z) == if z in left then old(RowAt(z)) else LeaveWatch(old(RowAt(z)), c)
        decreases left
      {
        var s :| s in left;
        DropWatcher(c, s);
        left := left - {s};
      }
    }

    /** All that closing a client changes in the watches. */
    method UnwatchAll(c: ClientId)
      requires NoneEmpty(statusWatchers) && Inverse(Watches())
      modifies this`statusWatchers, this`clientStatusWatches, this`sent
      ensures NoneEmpty(statusWatchers) && clientStatusWatches == old(clientStatusWatches) - {c}
      ensures forall z :: RowAt(z) == LeaveWatch(old(RowAt(z)), c)
    {
      assert forall z :: z in Joined(Watches(), c) <==> c in RowAt(z).watchers;
      hide Inverse;
      if c in clientStatusWatches {
        hide LeaveWatch;
        UnwatchEach(c, clientStatusWatches[c]);
        clientStatusWatches := clientStatusWatches - {c};
      } else {
        forall z ensures LeaveWatch(RowAt(z), c) == RowAt(z) {
          LeaveWatchAbsent(RowAt(z), c);
        }
      }
    }

    method RemoveAllStatusWatches(c: ClientId)
      requires Valid()
      modifies this`statusWatchers, this`clientStatusWatches, this`sent
      ensures Valid() && forall z :: RowAt(z) == LeaveWatch(old(RowAt(z)), c)
    {
      forall z
        ensures Fits(LeaveWatch(RowAt(z), c)) && LeaveWatch(RowAt(z), c).watchers == RowAt(z).watchers - {c}
      {
        WatchLeaves(RowAt(z), c);
      }
      hide Fits, LeaveWatch, Inverse;
      UnwatchAll(c);
      forall z ensures Members(Watches(), z) == Members(old(Watches()), z) - {c} {
        assert RowAt(z).watchers == old(RowAt(z)).watchers - {c};
      }
      ClientGone(old(Watches()), Watches(), c);
      assert Subs() == old(Subs());
    }

    method OnClose(c: ClientId)
      requires Valid()
      modifies this
      ensures Valid() && forall z :: RowAt(z) == RowStep(old(RowAt(z)), z, Close(c))
    {
      hide RowAt, Valid, LeaveAttached, LeaveWatch;
      RemoveAllSubscriptions(c);
      RemoveAllStatusWatches(c);
    }

    method EraseMembers(s: SessionId)
      requires NoneEmpty(sessionSubscribers) && NoneEmpty(statusWatchers)
      modifies this`sessionSubscribers, this`statusWatchers, this`clientDesiredSizes, this`effectiveSizes
      ensures sessionSubscribers == old(sessionSubscribers) - {s} && statusWatchers == old(statusWatchers) - {s}
      ensures NoneEmpty(sessionSubscribers) && NoneEmpty(statusWatchers)
      ensures clientDesiredSizes == old(clientDesiredSizes) - {s}
      ensures RowAt(s) == Cleared(old(RowAt(s)))
      ensures forall z | z != s :: RowAt(z) == old(RowAt(z))
    {
      sessionSubscribers := sessionSubscribers - {s};
      statusWatchers := statusWatchers - {s};
      clientDesiredSizes := clientDesiredSizes - {s};
      effectiveSizes := effectiveSizes - {s};
    }

    method EraseJoined(s: SessionId)
      modifies this`clientSubscriptions, this`clientStatusWatches
      ensures clientSubscriptions == map c | c in old(clientSubscriptions) :: old(clientSubscriptions)[c] - {s}
      ensures clientStatusWatches == map c | c in old(clientStatusWatches) :: old(clientStatusWatches)[c] - {s}
      ensures forall z :: RowAt(z) == old(RowAt(z))
    {
      clientSubscriptions := map c | c in clientSubscriptions :: clientSubscriptions[c] - {s};
      clientStatusWatches := map c | c in clientStatusWatches :: clientStatusWatches[c] - {s};
    }

    method EraseSession(s: SessionId)
      requires NoneEmpty(sessionSubscribers) && NoneEmpty(statusWatchers)
      modifies this`sessionSubscribers, this`statusWatchers, this`clientDesiredSizes, this`effectiveSizes,
               this`clientSubscriptions, this`clientStatusWatches
      ensures Subs() == UnlinkSession(old(Subs()), s) && Watches() == UnlinkSession(old(Watches()), s)
      ensures NoneEmpty(sessionSubscribers) && NoneEmpty(statusWatchers)
      ensures clientDesiredSizes == old(clientDesiredSizes) - {s}
      ensures RowAt(s) == Cleared(old(RowAt(s)))
      ensures forall z | z != s :: RowAt(z) == old(RowAt(z))
    {
      hide RowAt, Cleared, NoneEmpty;
      EraseMembers(s);
      EraseJoined(s);
    }

    method OnRemoved(s: SessionId)
      requires Valid()
      modifies this
      ensures Valid() && forall z :: RowAt(z) == RowStep(old(RowAt(z)), z, Removed(s))
    {
      UnlinkSessionUnlinks(Subs(), s);
      UnlinkSessionUnlinks(Watches(), s);
      ClearedFits(RowAt(s));
      hide Inverse, Fits, RowAt, Members, UnlinkSession, Cleared;
      EraseSession(s);
      assert forall z :: Fits(RowAt(z));
    }

    method EraseAll()
      modifies this`sessionSubscribers, this`clientSubscriptions, this`statusWatchers, this`clientStatusWatches,
               this`clientDesiredSizes, this`effectiveSizes
      ensures Subs() == Watches() == NOBODY && clientDesiredSizes == map[]
      ensures NoneEmpty(sessionSubscribers) && NoneEmpty(statusWatchers)
      ensures forall z :: RowAt(z) == Cleared(old(RowAt(z)))
    {
      sessionSubscribers, clientSubscriptions := map[], map[];
      statusWatchers, clientStatusWatches := map[], map[];
      clientDesiredSizes, effectiveSizes := map[], map[];
    }

    method OnDisconnected()
      requires Valid()
      modifies this
      ensures Valid() && forall z :: RowAt(z) == RowStep(old(RowAt(z)), z, Disconnected)
    {
      assert Inverse(NOBODY);
      hide RowAt, Inverse, Fits, Cleared;
      EraseAll();
      forall z ensures Fits(RowAt(z)) {
        ClearedFits(old(RowAt(z)));
      }
    }
  }
}
