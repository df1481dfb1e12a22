/**
 The supervisor's IPC server: the tables its event handlers change in place, proved to
 take exactly the steps of `SupervisorProtocol`.
 */
module SupervisorServer {
  import opened Sequences
  import opened Scrollback
  import opened SupervisorProtocol

  lemma NoneWritten(wire: map<ConnId, seq<Frame>>, f: Frame)
    ensures forall open: set<ConnId> :: Written(wire, {} * open, f) == wire
  {
  }

  /** The frame reaches one more target, if that is open. */
  lemma OneWritten(wire: map<ConnId, seq<Frame>>, done: set<ConnId>, open: set<ConnId>, c: ConnId, f: Frame)
    requires c !in done
    ensures var w := Written(wire, done * open, f);
            Written(wire, (done + {c}) * open, f) == if c in open && c in w then w[c := w[c] + [f]] else w
  {
    var w := Written(wire, done * open, f);
    var next := Written(wire, (done + {c}) * open, f);
    assert w.Keys == wire.Keys == next.Keys;
    assert forall d | d in wire && d != c :: next[d] == w[d];
  }

  class IpcServer {
    var sessions: map<SessionId, bool>
    var conns: map<ConnId, Connection>
    var destroyed: set<ConnId>
    var subscribers: map<SessionId, set<ConnId>>
    var scrollback: map<SessionId, Buffer>
    var wire: map<ConnId, seq<Frame>>
    ghost var produced: map<SessionId, seq<Chunk>>

    ghost function Current(): State
      reads this
    {
      State(sessions, conns, destroyed, subscribers, scrollback, wire, produced)
    }

    ghost predicate Valid()
      reads this
    {
      Inv(Current())
    }

    constructor ()
      ensures Valid() && Current() == INITIAL
    {
      sessions, conns, destroyed := map[], map[], {};
      subscribers, scrollback, wire, produced := map[], map[], map[], map[];
    }

    /** `fanOutOutput` and `broadcast`: one pass over the targets, skipping dead sockets. */
    method WriteTo(targets: set<ConnId>, f: Frame, congested: set<ConnId>)
      modifies this`wire, this`destroyed
      ensures Current() == Write(old(Current()), targets, f, congested)
    {
      ghost var open := targets * conns.Keys - destroyed;
      ghost var done: set<ConnId> := {};
      NoneWritten(wire, f);
      hide Written;
      var left := targets;
      while left != {}
        invariant left <= targets && done == targets - left
        invariant wire == Written(old(wire), done * open, f)
        invariant destroyed == old(destroyed) + done * open * congested
        decreases left
      {
        var c :| c in left;
        OneWritten(old(wire), done, open, c, f);
        left, done := left - {c}, done + {c};
        if c in conns && c !in destroyed {
          if c in wire {
            wire := wire[c := wire[c] + [f]];
          }
          if c in congested {
            destroyed := destroyed + {c};
          }
        }
      }
      assert done * open == open;
    }

    method OnConnection(c: ConnId)
      requires Valid() && c !in wire
      modifies this
      ensures Valid() && Current() == Step(old(Current()), Event(Connect(c), {}))
    {
      StepKeepsInv(Current(), Event(Connect(c), {}));
      conns := conns[c := Connection(false, {})];
      wire := wire[c := []];
      destroyed := destroyed - {c};
    }

    method OnHello(c: ConnId, accepted: bool, congested: set<ConnId>)
      requires Valid() && c in conns
      modifies this
      ensures Valid() && Current() == Step(old(Current()), Event(Hello(c, accepted), congested))
    {
      hide Write, Represents, Links, Guarded;
      StepKeepsInv(Current(), Event(Hello(c, accepted), congested));
      if accepted {
        conns := conns[c := conns[c].(authenticated := true)];
        WriteTo({c}, HelloFrame, congested);
        WriteTo({c}, SessionsFrame(sessions.Keys), congested);
      } else {
        WriteTo({c}, ErrorFrame(Unauthorized), congested);
      }
    }

    method EnsureBuffersFor(s: SessionId)
      modifies this`subscribers, this`scrollback
      ensures Current() == EnsureBuffers(old(Current()), s)
    {
      if s !in subscribers {
        subscribers := subscribers[s := {}];
      }
      if s !in scrollback {
        scrollback := scrollback[s := EMPTY_BUFFER];
      }
    }

    method OnCreate(c: ConnId, s: SessionId, spawned: bool, congested: set<ConnId>)
      requires Valid() && c in conns && conns[c].authenticated
      modifies this
      ensures Valid() && Current() == Step(old(Current()), Event(Ask(c, Create(s, spawned)), congested))
    {
      hide Write, Represents, Links, Guarded;
      StepKeepsInv(Current(), Event(Ask(c, Create(s, spawned)), congested));
      if s in sessions || !spawned {
        WriteTo({c}, ErrorFrame(SpawnFailed), congested);
        return;
      }
      sessions := sessions[s := false];
      produced := produced[s := []];
      EnsureBuffersFor(s);
      var everyone := set d | d in conns && conns[d].authenticated;
      assert everyone == Authenticated(old(Current()));
      WriteTo(everyone, CreatedFrame(s), congested);
      WriteTo({c}, CreatedFrame(s), congested);
    }

    /** The atomic handover: snapshot, `subscribed`, then the registration, in one handler. */
    method OnSubscribe(c: ConnId, s: SessionId, congested: set<ConnId>)
      requires Valid() && c in conns && conns[c].authenticated
      modifies this
      ensures Valid() && Current() == Step(old(Current()), Event(Ask(c, Subscribe(s)), congested))
    {
      hide Write, Represents, Links, Guarded;
      StepKeepsInv(Current(), Event(Ask(c, Subscribe(s)), congested));
      if s !in sessions {
        WriteTo({c}, ErrorFrame(UnknownSession), congested);
        return;
      }
      var snapshot := if s in scrollback then Snapshot(scrollback[s]) else [];
      WriteTo({c}, SubscribedFrame(s, snapshot), congested);
      EnsureBuffersFor(s);
      subscribers := subscribers[s := subscribers[s] + {c}];
      conns := conns[c := conns[c].(subscriptions := conns[c].subscriptions + {s})];
    }

    method OnUnsubscribe(c: ConnId, s: SessionId, congested: set<ConnId>)
      requires Valid() && c in conns && conns[c].authenticated
      modifies this
      ensures Valid() && Current() == Step(old(Current()), Event(Ask(c, Unsubscribe(s)), congested))
    {
      hide Write, Represents, Links, Guarded;
      StepKeepsInv(Current(), Event(Ask(c, Unsubscribe(s)), congested));
      if s in subscribers {
        subscribers := subscribers[s := subscribers[s] - {c}];
      }
      conns := conns[c := conns[c].(subscriptions := conns[c].subscriptions - {s})];
      WriteTo({c}, UnsubscribedFrame(s), congested);
    }

    method OnData(s: SessionId, data: Text, congested: set<ConnId>)
      requires Valid()
      modifies this
      ensures Valid() && Current() == Step(old(Current()), Event(Data(s, data), congested))
    {
      hide Write, Represents, Links, Guarded;
      StepKeepsInv(Current(), Event(Data(s, data), congested));
      if s in scrollback {
        var appended := AppendScrollback(scrollback[s], data, produced[s]);
        scrollback := scrollback[s := appended];
        produced := produced[s := produced[s] + [MakeChunk(data)]];
      }
      assert Current() == Keep(old(Current()), s, data);
      var targets := if s in subscribers then subscribers[s] else {};
      WriteTo(targets, OutputFrame(s, data), congested);
    }

    method OnExit(s: SessionId)
      requires Valid() && s in sessions && !sessions[s]
      modifies this
      ensures Valid() && Current() == Step(old(Current()), Event(Exit(s), {}))
    {
      hide Write, Represents, Links, Guarded;
      StepKeepsInv(Current(), Event(Exit(s), {}));
      var targets := if s in subscribers then subscribers[s] else {};
      WriteTo(targets, ExitFrame(s), {});
      sessions := sessions[s := true];
    }

    method OnRemoved(s: SessionId, congested: set<ConnId>)
      requires Valid() && s in sessions && sessions[s]
      modifies this
      ensures Valid() && Current() == Step(old(Current()), Event(Removed(s), congested))
    {
      hide Write, Represents, Links, Guarded;
      StepKeepsInv(Current(), Event(Removed(s), congested));
      sessions := sessions - {s};
      subscribers := subscribers - {s};
      scrollback := scrollback - {s};
      produced := produced - {s};
      var everyone := set d | d in conns && conns[d].authenticated;
      assert everyone == Authenticated(old(Current()));
      WriteTo(everyone, RemovedFrame(s), congested);
    }

    /** A closed connection leaves every subscriber set it was in, one subscription at a time. */
    method LeaveAll(c: ConnId, subscriptions: set<SessionId>)
      modifies this`subscribers
      ensures subscribers == map s | s in old(subscribers) ::
                if s in subscriptions then old(subscribers)[s] - {c} else old(subscribers)[s]
    {
      var left := subscriptions;
      while left != {}
        invariant left <= subscriptions && subscribers.Keys == old(subscribers).Keys
        invariant forall s | s in subscribers ::
                    subscribers[s] == if s in subscriptions - left then old(subscribers)[s] - {c} else old(subscribers)[s]
        decreases left
      {
        var s :| s in left;
        left := left - {s};
        if s in subscribers {
          subscribers := subscribers[s := subscribers[s] - {c}];
        }
      }
    }

    method OnClose(c: ConnId)
      requires Valid() && c in conns
      modifies this
      ensures Valid() && Current() == Step(old(Current()), Event(Close(c), {}))
    {
      hide Inv;
      StepKeepsInv(Current(), Event(Close(c), {}));
      LeaveAll(c, conns[c].subscriptions);
      conns := conns - {c};
      assert Current() == Disconnect(old(Current()), c);
    }
  }
}
