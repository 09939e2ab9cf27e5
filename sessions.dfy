/**
 * The relay's process-wide state as a value, and one transition function per
 * operation. The class in module Server holds the same four parts in mutable
 * fields; each of its methods is proved to move its state exactly as the
 * matching function here does.
 */
module Sessions {
  import opened Wrappers
  import opened Protocol

  datatype State = State(
    dialogue: seq<Record>,                        // the global conversation log
    connections: map<UserId, Channel>,            // the registry of open channels
    userDialogues: map<UserId, seq<Record>>,      // per-user histories
    lastActive: map<UserId, Time>)                // last time each user was heard from
  {
    /** The registry invariant: a channel entry exists iff a timestamp entry does. */
    predicate Consistent() {
      connections.Keys == lastActive.Keys
    }

    /** Registering a channel: overwrite any entry, stamp it, create an empty history if none. */
    function Connect(u: UserId, ch: Channel, now: Time): State {
      State(dialogue,
            connections[u := ch],
            if u in userDialogues then userDialogues else userDialogues[u := []],
            lastActive[u := now])
    }

    /** Stamping the sender of a frame; inserts a timestamp even when `u` has no channel entry. */
    function Touch(u: UserId, now: Time): State {
      this.(lastActive := lastActive[u := now])
    }

    /** The membership-guarded removal of both registry entries of `u`. */
    function Unregister(u: UserId): State {
      this.(connections := connections - {u}, lastActive := lastActive - {u})
    }

    /** Removing both registry entries of every id in `ids`. */
    function Evict(ids: set<UserId>): State {
      this.(connections := connections - ids, lastActive := lastActive - ids)
    }

    /** A broadcast's effect: registered ids whose send failed are evicted afterwards. */
    function Broadcast(failing: set<UserId>): State {
      Evict(connections.Keys * failing)
    }

    /** The ids the reaper finds idle at `now`. */
    function IdleUsers(now: Time): set<UserId> {
      set u | u in lastActive && IsIdle(now, lastActive[u])
    }

    /** One reaper scan. */
    function Reap(now: Time): State {
      Evict(IdleUsers(now))
    }

    /**
     * Whether the handler serving `u` leaves its receive loop after `frame`:
     * a non-object frame raises on lookup, a failed pong send raises, and a
     * message from a user without a history raises on the per-user append.
     */
    predicate HandlerExits(u: UserId, frame: Frame, sendOk: bool) {
      match frame
      case Message(_, _) => u !in userDialogues
      case Ping => !sendOk
      case NotAnObject => true
      case Other(_) => false
      case Malformed => false
    }

    /**
     * The effect of one received frame on the state (before any `finally`):
     * stamp the sender; for a message, append to the global log, then, if the
     * sender has a history, append to it and broadcast.
     */
    function Receive(u: UserId, frame: Frame, now: Time, failing: set<UserId>): State {
      var t := Touch(u, now);
      match frame
      case Message(role, content) =>
        var rec := ChatRecord(role, content);
        var appended := t.(dialogue := dialogue + [rec]);
        if u in userDialogues then
          appended.(userDialogues := userDialogues[u := userDialogues[u] + [rec]]).Broadcast(failing)
        else
          appended
      case _ => t
    }

    /** The administrative append: global log only, then a broadcast. */
    function AddMessage(role: Option<string>, content: Option<string>, failing: set<UserId>): State {
      this.(dialogue := dialogue + [AdminRecord(role, content)]).Broadcast(failing)
    }

    /** The administrative clear: drop the log and every per-user key, then a broadcast. */
    function Clear(failing: set<UserId>): State {
      this.(dialogue := [], userDialogues := map[]).Broadcast(failing)
    }
  }

  /** The state of a freshly started process. */
  const Initial: State := State([], map[], map[], map[])

  /** Unregistering the ids of `ids` one after another, left to right. */
  function UnregisterAll(s: State, ids: seq<UserId>): State
    decreases |ids|
  {
    if ids == [] then s else UnregisterAll(s, ids[..|ids| - 1]).Unregister(ids[|ids| - 1])
  }

  // ---------------------------------------------------------------------------
  // Properties of single operations

  lemma ConnectRegisters(s: State, u: UserId, ch: Channel, now: Time)
    ensures var r := s.Connect(u, ch, now);
      && r.connections == s.connections[u := ch]
      && r.lastActive[u] == now
      && (forall v :: v != u ==> (v in r.lastActive <==> v in s.lastActive))
      && (forall v :: v != u && v in s.lastActive ==> r.lastActive[v] == s.lastActive[v])
      && u in r.userDialogues
      && r.userDialogues[u] == (if u in s.userDialogues then s.userDialogues[u] else [])
      && (forall v :: v != u ==> (v in r.userDialogues <==> v in s.userDialogues))
      && (forall v :: v != u && v in s.userDialogues ==> r.userDialogues[v] == s.userDialogues[v])
      && r.dialogue == s.dialogue
      && (s.Consistent() ==> r.Consistent())
  {
  }

  lemma UnregisterRemoves(s: State, u: UserId)
    ensures var r := s.Unregister(u);
      && u !in r.connections && u !in r.lastActive
      && (forall v :: v != u ==> (v in r.connections <==> v in s.connections))
      && (forall v :: v != u && v in s.connections ==> r.connections[v] == s.connections[v])
      && (forall v :: v != u ==> (v in r.lastActive <==> v in s.lastActive))
      && (forall v :: v != u && v in s.lastActive ==> r.lastActive[v] == s.lastActive[v])
      && r.dialogue == s.dialogue && r.userDialogues == s.userDialogues
      && (s.Consistent() ==> r.Consistent())
  {
  }

  /** The removal is guarded by membership tests, so repeating it changes nothing. */
  lemma UnregisterIdempotent(s: State, u: UserId)
    ensures s.Unregister(u).Unregister(u) == s.Unregister(u)
    ensures u !in s.connections && u !in s.lastActive ==> s.Unregister(u) == s
  {
  }

  /** Removing ids one at a time in any order is removing the set of them at once. */
  lemma {:induction false} UnregisterAllIsEvict(s: State, ids: seq<UserId>)
    ensures UnregisterAll(s, ids) == s.Evict(Elements(ids))
    decreases |ids|
  {
    if ids == [] {
      assert s.connections - {} == s.connections;
      assert s.lastActive - {} == s.lastActive;
    } else {
      var n := |ids| - 1;
      var front := ids[..n];
      UnregisterAllIsEvict(s, front);
      assert ids == front + [ids[n]];
      assert Elements(ids) == Elements(front) + {ids[n]};
    }
  }

  lemma BroadcastEvicts(s: State, failing: set<UserId>)
    ensures var r := s.Broadcast(failing);
      && (forall v :: v in r.connections <==> v in s.connections && v !in failing)
      && (forall v :: v in r.connections ==> r.connections[v] == s.connections[v])
      && (forall v :: v in r.lastActive <==> v in s.lastActive && !(v in s.connections && v in failing))
      && (forall v :: v in r.lastActive ==> r.lastActive[v] == s.lastActive[v])
      && r.dialogue == s.dialogue && r.userDialogues == s.userDialogues
      && (s.Consistent() ==> r.Consistent())
  {
  }

  lemma ReapEvictsIdle(s: State, now: Time)
    ensures var r := s.Reap(now);
      && (forall v :: v in r.connections <==>
            v in s.connections && !(v in s.lastActive && s.lastActive[v] < now - 600))
      && (forall v :: v in r.lastActive <==> v in s.lastActive && now - s.lastActive[v] <= 600)
      && (forall v :: v in r.connections ==> r.connections[v] == s.connections[v])
      && (forall v :: v in r.lastActive ==> r.lastActive[v] == s.lastActive[v])
      && r.dialogue == s.dialogue && r.userDialogues == s.userDialogues
      && (s.Consistent() ==> r.Consistent())
  {
  }

  /** An unregistration racing a scan that already evicted the same id is a no-op. */
  lemma ReapThenUnregister(s: State, now: Time, u: UserId)
    requires u in s.IdleUsers(now)
    ensures s.Reap(now).Unregister(u) == s.Reap(now)
    ensures s.Unregister(u).Reap(now) == s.Reap(now)
  {
  }

  /**
   * A non-message frame only stamps its sender; whether the registry stays
   * consistent depends on whether the sender still has a channel entry.
   */
  lemma NonMessageOnlyTouches(s: State, u: UserId, frame: Frame, now: Time, failing: set<UserId>)
    requires !frame.Message?
    ensures var r := s.Receive(u, frame, now, failing);
      && r.lastActive == s.lastActive[u := now]
      && r.connections == s.connections
      && r.dialogue == s.dialogue && r.userDialogues == s.userDialogues
      && (s.Consistent() ==> (r.Consistent() <==> u in s.connections))
  {
  }

  /** A message from a user with a history is appended everywhere, then broadcast. */
  lemma MessageAppends(s: State, u: UserId, role: Option<string>, content: Option<string>,
                       now: Time, failing: set<UserId>)
    requires u in s.userDialogues
    ensures var rec := ChatRecord(role, content);
      var r := s.Receive(u, Message(role, content), now, failing);
      && r.dialogue == s.dialogue + [rec]
      && r.dialogue[..|s.dialogue|] == s.dialogue
      && r.userDialogues[u] == s.userDialogues[u] + [rec]
      && r.userDialogues.Keys == s.userDialogues.Keys
      && (forall v :: v in s.userDialogues && v != u ==> r.userDialogues[v] == s.userDialogues[v])
      && (forall v :: v in r.connections <==> v in s.connections && v !in failing)
      && r.connections == s.connections - failing
      && r.lastActive == s.lastActive[u := now] - (s.connections.Keys * failing)
      && (s.Consistent() && u in s.connections ==> r.Consistent())
  {
  }

  /**
   * A message from a user without a history still reaches the global log,
   * but nothing is broadcast and the handler leaves its loop.
   */
  lemma MessageWithoutHistory(s: State, u: UserId, role: Option<string>, content: Option<string>,
                              now: Time, failing: set<UserId>, sendOk: bool)
    requires u !in s.userDialogues
    ensures var r := s.Receive(u, Message(role, content), now, failing);
      && r.dialogue == s.dialogue + [ChatRecord(role, content)]
      && r.userDialogues == s.userDialogues
      && r.connections == s.connections
      && r.lastActive == s.lastActive[u := now]
      && s.HandlerExits(u, Message(role, content), sendOk)
  {
  }

  lemma AddMessageAppendsGlobally(s: State, role: Option<string>, content: Option<string>,
                                  failing: set<UserId>)
    ensures var r := s.AddMessage(role, content, failing);
      && r.dialogue == s.dialogue + [AdminRecord(role, content)]
      && r.userDialogues == s.userDialogues
      && r == s.Broadcast(failing).(dialogue := r.dialogue)
  {
  }

  lemma ClearEmpties(s: State, failing: set<UserId>)
    ensures var r := s.Clear(failing);
      && r.dialogue == [] && r.userDialogues.Keys == {}
      && r.connections == s.Broadcast(failing).connections
      && r.lastActive == s.Broadcast(failing).lastActive
  {
  }
}
