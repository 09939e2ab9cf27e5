/**
 * The relay server's in-memory state and the handler steps that change it.
 * Each method is one atomic step: the step between two `await` points of a
 * connection handler, the administrative calls, and one reaper scan.
 * `Model()` views the four fields as a `Sessions.State`, and each mutating
 * method is proved to take it to the matching transition of that module.
 */
module Server {
  import opened Wrappers
  import opened Protocol
  import opened Sessions

  class ServerState {
    var dialogue: seq<Record>
    var activeConnections: map<UserId, Channel>
    var userDialogues: map<UserId, seq<Record>>
    var userLastActive: map<UserId, Time>

    ghost function Model(): State
      reads this
    {
      State(dialogue, activeConnections, userDialogues, userLastActive)
    }

    /** Process start: everything empty. */
    constructor ()
      ensures Model() == Initial
    {
      dialogue := [];
      activeConnections := map[];
      userDialogues := map[];
      userLastActive := map[];
    }

    /**
     * A channel is accepted for `u`: register it (overwriting any live entry),
     * stamp it, create an empty history if there is none, and send the new
     * channel the per-user history. A failed send ends the handler.
     */
    method Connect(u: UserId, ch: Channel, now: Time, sendOk: bool)
      returns (sends: seq<Delivery>, status: Status)
      modifies this
      ensures Model() == old(Model()).Connect(u, ch, now)
      ensures u in userDialogues && sends == [Delivery(u, ch, UpdateDialogue(userDialogues[u]))]
      ensures status == if sendOk then Continue else Terminate
    {
      activeConnections := activeConnections[u := ch];
      userLastActive := userLastActive[u := now];
      if u !in userDialogues {
        userDialogues := userDialogues[u := []];
      }
      sends := [Delivery(u, ch, UpdateDialogue(userDialogues[u]))];
      status := if sendOk then Continue else Terminate;
    }

    /**
     * The handler's `finally` block: remove whatever entries are stored
     * under `u`, each guarded by a membership test.
     */
    method Disconnect(u: UserId)
      modifies this
      ensures Model() == old(Model()).Unregister(u)
    {
      if u in activeConnections {
        activeConnections := activeConnections - {u};
      }
      if u in userLastActive {
        userLastActive := userLastActive - {u};
      }
    }

    /** Removes the ids of `ids` in order, as the second loops of broadcast and reap do. */
    method DisconnectAll(ids: seq<UserId>)
      modifies this
      ensures Model() == old(Model()).Evict(Elements(ids))
    {
      var i := 0;
      while i < |ids|
        invariant 0 <= i <= |ids|
        invariant Model() == UnregisterAll(old(Model()), ids[..i])
      {
        assert ids[..i + 1][..i] == ids[..i];
        Disconnect(ids[i]);
        i := i + 1;
      }
      assert ids[..i] == ids;
      UnregisterAllIsEvict(old(Model()), ids);
    }

    /**
     * The send pass of a broadcast: try `msg` on every registered channel and
     * collect, without touching the registry, the ids whose send failed.
     */
    method SendPass(msg: Outbound, failing: set<UserId>)
      returns (sends: seq<Delivery>, disconnected: seq<UserId>)
      ensures FanOut(sends, activeConnections, msg)
      ensures forall u :: u in disconnected <==> u in activeConnections && u in failing
      ensures NoDuplicates(disconnected)
    {
      sends, disconnected := [], [];
      var pending := activeConnections.Keys;
      while pending != {}
        invariant pending <= activeConnections.Keys
        invariant forall i :: 0 <= i < |sends| ==>
          && sends[i].user in activeConnections.Keys - pending
          && sends[i].channel == activeConnections[sends[i].user]
          && sends[i].frame == msg
        invariant forall i, j :: 0 <= i < j < |sends| ==> sends[i].user != sends[j].user
        invariant forall u :: u in activeConnections.Keys - pending ==> SentTo(sends, u)
        invariant forall u :: u in disconnected <==> u in activeConnections.Keys - pending && u in failing
        invariant NoDuplicates(disconnected)
        decreases pending
      {
        var u :| u in pending;
        ghost var sent := sends;
        sends := sends + [Delivery(u, activeConnections[u], msg)];
        assert sends[|sends| - 1].user == u;
        forall v | SentTo(sent, v) ensures SentTo(sends, v) {
          var k :| 0 <= k < |sent| && sent[k].user == v;
          assert sends[k].user == v;
        }
        if u in failing {
          disconnected := disconnected + [u];
        }
        pending := pending - {u};
      }
    }

    /**
     * Fan `msg` out to every registered channel; afterwards evict exactly the
     * registered ids whose send failed.
     */
    method Broadcast(msg: Outbound, failing: set<UserId>) returns (sends: seq<Delivery>)
      modifies this
      ensures FanOut(sends, old(activeConnections), msg)
      ensures Model() == old(Model()).Broadcast(failing)
    {
      var disconnected;
      sends, disconnected := SendPass(msg, failing);
      assert Elements(disconnected) == activeConnections.Keys * failing;
      DisconnectAll(disconnected);
    }

    /**
     * One received frame from the handler of `u` on channel `ch`. `failing`
     * is the set of recipients whose broadcast send fails, `sendOk` whether a
     * direct reply on `ch` succeeds. A `Terminate` status means the handler
     * leaves for its `finally` block (`Disconnect`).
     */
    method ReceiveFrame(u: UserId, ch: Channel, frame: Frame, now: Time,
                        failing: set<UserId>, sendOk: bool)
      returns (sends: seq<Delivery>, status: Status)
      modifies this
      ensures Model() == old(Model()).Receive(u, frame, now, failing)
      ensures status == if old(Model()).HandlerExits(u, frame, sendOk) then Terminate else Continue
      ensures frame.Message? && u in old(userDialogues) ==>
        FanOut(sends, old(activeConnections), UpdateDialogue(dialogue))
      ensures frame.Message? && u !in old(userDialogues) ==> sends == []
      ensures frame.Ping? ==> sends == [Delivery(u, ch, Pong)]
      ensures !frame.Message? && !frame.Ping? ==> sends == []
    {
      userLastActive := userLastActive[u := now];
      sends := [];
      status := Continue;
      match frame {
        case Message(role, content) =>
          var rec := ChatRecord(role, content);
          dialogue := dialogue + [rec];
          if u in userDialogues {
            userDialogues := userDialogues[u := userDialogues[u] + [rec]];
            sends := Broadcast(UpdateDialogue(dialogue), failing);
          } else {
            status := Terminate;
          }
        case Ping =>
          sends := [Delivery(u, ch, Pong)];
          if !sendOk {
            status := Terminate;
          }
        case NotAnObject =>
          status := Terminate;
        case Other(_) =>
        case Malformed =>
      }
    }

    /** The first pass of a reaper scan: the ids whose last activity is idle at `now`. */
    method CollectIdle(now: Time) returns (inactive: seq<UserId>)
      ensures forall u :: u in inactive <==> u in userLastActive && IsIdle(now, userLastActive[u])
      ensures NoDuplicates(inactive)
    {
      inactive := [];
      var pending := userLastActive.Keys;
      while pending != {}
        invariant pending <= userLastActive.Keys
        invariant forall u :: u in inactive <==>
          u in userLastActive.Keys - pending && IsIdle(now, userLastActive[u])
        invariant NoDuplicates(inactive)
        decreases pending
      {
        var u :| u in pending;
        if IsIdle(now, userLastActive[u]) {
          inactive := inactive + [u];
        }
        pending := pending - {u};
      }
    }

    /**
     * One reaper scan at time `now`: collect the idle ids, then for each one
     * close its channel if it has one (a failing close is ignored) and remove
     * both entries. `closed` lists the ids whose channel was closed.
     */
    method ReapScan(now: Time) returns (closed: seq<UserId>)
      modifies this
      ensures Model() == old(Model()).Reap(now)
      ensures forall u :: u in closed <==> u in old(activeConnections) && u in old(Model()).IdleUsers(now)
      ensures NoDuplicates(closed)
    {
      var inactive := CollectIdle(now);
      assert Elements(inactive) == Model().IdleUsers(now);
      closed := [];
      var i := 0;
      while i < |inactive|
        invariant 0 <= i <= |inactive|
        invariant Model() == UnregisterAll(old(Model()), inactive[..i])
        invariant forall u :: u in closed <==> u in old(activeConnections) && u in inactive[..i]
        invariant NoDuplicates(closed)
      {
        var u := inactive[i];
        assert inactive[..i + 1] == inactive[..i] + [u];
        UnregisterAllIsEvict(old(Model()), inactive[..i]);
        assert u !in Elements(inactive[..i]);
        if u in activeConnections {
          closed := closed + [u];
        }
        Disconnect(u);
        i := i + 1;
      }
      assert inactive[..i] == inactive;
      UnregisterAllIsEvict(old(Model()), inactive);
    }

    /** The administrative append: global log only, then a broadcast of it. */
    method AddMessage(role: Option<string>, content: Option<string>, failing: set<UserId>)
      returns (sends: seq<Delivery>)
      modifies this
      ensures Model() == old(Model()).AddMessage(role, content, failing)
      ensures FanOut(sends, old(activeConnections),
                     UpdateDialogue(old(dialogue) + [AdminRecord(role, content)]))
    {
      dialogue := dialogue + [AdminRecord(role, content)];
      sends := Broadcast(UpdateDialogue(dialogue), failing);
    }

    /** The administrative fetch: the global log as it stands. */
    method GetDialogue() returns (d: seq<Record>)
      ensures d == dialogue
    {
      d := dialogue;
    }

    /** The administrative clear: drop the log and every per-user key, then broadcast the empty log. */
    method ClearDialogue(failing: set<UserId>) returns (sends: seq<Delivery>)
      modifies this
      ensures Model() == old(Model()).Clear(failing)
      ensures FanOut(sends, old(activeConnections), UpdateDialogue([]))
    {
      dialogue := [];
      userDialogues := map[];
      sends := Broadcast(UpdateDialogue([]), failing);
    }
  }
}
