/**
 * Runs of the relay under the single-scheduler model: one handler step,
 * administrative call or reaper scan at a time. A handler step that leaves
 * the receive loop runs its `finally` block at once, since that block does
 * not await.
 */
module Traces {
  import opened Wrappers
  import opened Protocol
  import opened Sessions

  datatype Event =
    | Open(user: UserId, channel: Channel, now: Time, sendOk: bool)          // accept + snapshot send
    | Inbound(user: UserId, frame: Frame, now: Time, failing: set<UserId>, sendOk: bool)
    | Drop(user: UserId)                    // the receive reports a disconnect or a transport error
    | Scan(now: Time)
    | Append(role: Option<string>, content: Option<string>, failing: set<UserId>)
    | ClearAll(failing: set<UserId>)

  function Step(s: State, e: Event): State {
    match e
    case Open(u, ch, now, sendOk) =>
      var r := s.Connect(u, ch, now);
      if sendOk then r else r.Unregister(u)
    case Inbound(u, frame, now, failing, sendOk) =>
      var r := s.Receive(u, frame, now, failing);
      if s.HandlerExits(u, frame, sendOk) then r.Unregister(u) else r
    case Drop(u) => s.Unregister(u)
    case Scan(now) => s.Reap(now)
    case Append(role, content, failing) => s.AddMessage(role, content, failing)
    case ClearAll(failing) => s.Clear(failing)
  }

  function Run(s: State, evs: seq<Event>): State
    decreases |evs|
  {
    if evs == [] then s else Run(Step(s, evs[0]), evs[1..])
  }

  lemma {:induction false} RunAppend(s: State, a: seq<Event>, b: seq<Event>)
    ensures Run(s, a + b) == Run(Run(s, a), b)
    decreases |a|
  {
    if a != [] {
      assert a + b != [];
      assert (a + b)[0] == a[0];
      assert (a + b)[1..] == a[1..] + b;
      RunAppend(Step(s, a[0]), a[1..], b);
    } else {
      assert a + b == b;
    }
  }

  /**
   * A frame that stamps a sender without a channel entry and does not end
   * its handler: the stamp then stands alone in the timestamp map.
   */
  predicate Stray(s: State, e: Event) {
    e.Inbound? && e.user !in s.connections && !s.HandlerExits(e.user, e.frame, e.sendOk)
  }

  /** Every step keeps the registry consistent, except exactly a stray frame. */
  lemma StepConsistency(s: State, e: Event)
    requires s.Consistent()
    ensures Step(s, e).Consistent() <==> !Stray(s, e)
  {
    match e
    case Inbound(u, frame, now, failing, sendOk) =>
      if frame.Message? && u in s.userDialogues {
        MessageAppends(s, u, frame.role, frame.content, now, failing);
        if u !in s.connections {
          assert u in Step(s, e).lastActive;
        }
      }
    case _ =>
  }

  /** No step of the run is a stray frame in the state it meets. */
  predicate NoStrays(s: State, evs: seq<Event>)
    decreases |evs|
  {
    evs == [] || (!Stray(s, evs[0]) && NoStrays(Step(s, evs[0]), evs[1..]))
  }

  lemma {:induction false} RunConsistency(s: State, evs: seq<Event>)
    requires s.Consistent() && NoStrays(s, evs)
    ensures Run(s, evs).Consistent()
    decreases |evs|
  {
    if evs != [] {
      StepConsistency(s, evs[0]);
      RunConsistency(Step(s, evs[0]), evs[1..]);
    }
  }

  predicate NoClear(evs: seq<Event>) {
    forall i :: 0 <= i < |evs| ==> !evs[i].ClearAll?
  }

  /** Every step but a clear extends the global log and each per-user history at the end. */
  lemma StepAppendOnly(s: State, e: Event)
    requires !e.ClearAll?
    ensures s.dialogue <= Step(s, e).dialogue
    ensures forall u :: u in s.userDialogues ==>
      u in Step(s, e).userDialogues && s.userDialogues[u] <= Step(s, e).userDialogues[u]
  {
    var t := Step(s, e);
    assert t.dialogue[..|s.dialogue|] == s.dialogue;
    forall u | u in s.userDialogues
      ensures u in t.userDialogues && s.userDialogues[u] <= t.userDialogues[u]
    {
      assert t.userDialogues[u][..|s.userDialogues[u]|] == s.userDialogues[u];
    }
  }

  /** Without a clear, the global log and every per-user history only grow at the end. */
  lemma {:induction false} RunAppendOnly(s: State, evs: seq<Event>)
    requires NoClear(evs)
    ensures s.dialogue <= Run(s, evs).dialogue
    ensures forall u :: u in s.userDialogues ==>
      u in Run(s, evs).userDialogues && s.userDialogues[u] <= Run(s, evs).userDialogues[u]
    decreases |evs|
  {
    if evs != [] {
      var t := Step(s, evs[0]);
      StepAppendOnly(s, evs[0]);
      assert NoClear(evs[1..]) by {
        forall i | 0 <= i < |evs[1..]| ensures !evs[1..][i].ClearAll? {
          assert evs[1..][i] == evs[i + 1];
        }
      }
      RunAppendOnly(t, evs[1..]);
    }
  }

  /** Successful opens of `ids`, in order, on channels numbered from `first`. */
  function Opens(ids: seq<UserId>, first: Channel, now: Time): seq<Event>
    decreases |ids|
  {
    if ids == [] then [] else [Open(ids[0], first, now, true)] + Opens(ids[1..], first + 1, now)
  }

  lemma RunCons(s: State, e: Event, evs: seq<Event>)
    ensures Run(s, [e] + evs) == Run(Step(s, e), evs)
  {
    assert ([e] + evs)[1..] == evs;
  }

  lemma ElementsCons(ids: seq<UserId>)
    requires ids != []
    ensures Elements(ids) == {ids[0]} + Elements(ids[1..])
    ensures NoDuplicates(ids) ==> ids[0] !in Elements(ids[1..]) && NoDuplicates(ids[1..])
  {
    assert ids == [ids[0]] + ids[1..];
    if NoDuplicates(ids) {
      forall i, j | 0 <= i < j < |ids[1..]| ensures ids[1..][i] != ids[1..][j] {
        assert ids[1..][i] == ids[i + 1] && ids[1..][j] == ids[j + 1];
      }
    }
  }

  /** A list without repeats has as many distinct elements as entries. */
  lemma {:induction false} DistinctCount(ids: seq<UserId>)
    requires NoDuplicates(ids)
    ensures |Elements(ids)| == |ids|
    decreases |ids|
  {
    if ids == [] {
      assert Elements(ids) == {};
    } else {
      ElementsCons(ids);
      DistinctCount(ids[1..]);
    }
  }

  /** Connecting each of `ids` in turn, on channels numbered from `first`. */
  function ConnectEach(s: State, ids: seq<UserId>, first: Channel, now: Time): State
    decreases |ids|
  {
    if ids == [] then s else ConnectEach(s.Connect(ids[0], first, now), ids[1..], first + 1, now)
  }

  lemma {:induction false} RunOpens(s: State, ids: seq<UserId>, first: Channel, now: Time)
    ensures Run(s, Opens(ids, first, now)) == ConnectEach(s, ids, first, now)
    decreases |ids|
  {
    if ids != [] {
      var e := Open(ids[0], first, now, true);
      assert Opens(ids, first, now) == [e] + Opens(ids[1..], first + 1, now);
      RunCons(s, e, Opens(ids[1..], first + 1, now));
      RunOpens(Step(s, e), ids[1..], first + 1, now);
    }
  }

  lemma ConnectEachCons(s: State, ids: seq<UserId>, first: Channel, now: Time)
    requires ids != []
    ensures ConnectEach(s, ids, first, now) == ConnectEach(s.Connect(ids[0], first, now), ids[1..], first + 1, now)
  {
  }

  /** Connecting each of `ids` adds exactly those ids to the registry. */
  lemma {:induction false} ConnectEachRegisters(s: State, ids: seq<UserId>, first: Channel, now: Time)
    ensures ConnectEach(s, ids, first, now).connections.Keys == s.connections.Keys + Elements(ids)
    decreases |ids|
  {
    if ids == [] {
      assert Elements(ids) == {};
    } else {
      var t := s.Connect(ids[0], first, now);
      ElementsCons(ids);
      ConnectEachRegisters(t, ids[1..], first + 1, now);
      ConnectEachCons(s, ids, first, now);
    }
  }

  function Drops(ids: seq<UserId>): seq<Event>
    decreases |ids|
  {
    if ids == [] then [] else [Drop(ids[0])] + Drops(ids[1..])
  }

  /** Disconnecting a list of ids removes exactly those ids from the registry. */
  lemma {:induction false} DropsEvict(s: State, ids: seq<UserId>)
    ensures Run(s, Drops(ids)) == s.Evict(Elements(ids))
    decreases |ids|
  {
    if ids == [] {
      assert s.connections - {} == s.connections;
      assert s.lastActive - {} == s.lastActive;
    } else {
      RunCons(s, Drop(ids[0]), Drops(ids[1..]));
      DropsEvict(s.Unregister(ids[0]), ids[1..]);
      assert Elements(ids) == {ids[0]} + Elements(ids[1..]) by {
        assert ids == [ids[0]] + ids[1..];
      }
    }
  }

  lemma {:induction false} OpensHaveNoStrays(s: State, ids: seq<UserId>, first: Channel, now: Time)
    ensures NoStrays(s, Opens(ids, first, now))
    decreases |ids|
  {
    if ids != [] {
      assert Opens(ids, first, now)[1..] == Opens(ids[1..], first + 1, now);
      OpensHaveNoStrays(s.Connect(ids[0], first, now), ids[1..], first + 1, now);
    }
  }

  /**
   * From a fresh process, N successful connects under distinct ids leave N
   * registry entries, and disconnecting all N leaves none.
   */
  lemma ConnectAllThenDisconnectAll(ids: seq<UserId>, first: Channel, now: Time)
    requires NoDuplicates(ids)
    ensures |Run(Initial, Opens(ids, first, now)).connections| == |ids|
    ensures Run(Initial, Opens(ids, first, now)).Consistent()
    ensures Run(Initial, Opens(ids, first, now) + Drops(ids)).connections == map[]
    ensures Run(Initial, Opens(ids, first, now) + Drops(ids)).lastActive == map[]
  {
    var opens := Opens(ids, first, now);
    RunOpens(Initial, ids, first, now);
    ConnectEachRegisters(Initial, ids, first, now);
    DistinctCount(ids);
    OpensHaveNoStrays(Initial, ids, first, now);
    RunConsistency(Initial, opens);
    var mid := Run(Initial, opens);
    RunAppend(Initial, opens, Drops(ids));
    DropsEvict(mid, ids);
    assert mid.connections.Keys == Elements(ids);
    assert mid.lastActive.Keys == Elements(ids);
  }

  /**
   * After a clear, a message from a user who is still connected reaches the
   * global log, but the missing per-user key ends the handler: the user is
   * unregistered and nothing else changes.
   */
  lemma MessageAfterClear(s: State, u: UserId, clearFailing: set<UserId>,
                          role: Option<string>, content: Option<string>,
                          now: Time, failing: set<UserId>, sendOk: bool)
    requires s.Consistent() && u in s.connections && u !in clearFailing
    ensures var c := Step(s, ClearAll(clearFailing));
      var r := Step(c, Inbound(u, Message(role, content), now, failing, sendOk));
      && u in c.connections
      && c.HandlerExits(u, Message(role, content), sendOk)
      && r.dialogue == [ChatRecord(role, content)]
      && r.userDialogues == map[]
      && u !in r.connections && u !in r.lastActive
      && r.connections == c.connections - {u}
      && r.Consistent()
  {
  }

  /**
   * Reconnecting under a live id overwrites the entry; when the older
   * handler later ends, its cleanup removes the newer channel's entry too.
   */
  lemma ReconnectOrphansNewer(s: State, u: UserId, ch1: Channel, t1: Time, ch2: Channel, t2: Time)
    ensures var r := Run(s, [Open(u, ch1, t1, true), Open(u, ch2, t2, true)]);
      u in r.connections && r.connections[u] == ch2 && u in r.lastActive && r.lastActive[u] == t2
    ensures var r := Run(s, [Open(u, ch1, t1, true), Open(u, ch2, t2, true), Drop(u)]);
      && u !in r.connections && u !in r.lastActive
      && r.connections == s.connections - {u}
  {
    var e1, e2 := Open(u, ch1, t1, true), Open(u, ch2, t2, true);
    RunAppend(s, [e1], [e2]);
    assert [e1] + [e2] == [e1, e2];
    RunAppend(s, [e1, e2], [Drop(u)]);
    assert [e1, e2] + [Drop(u)] == [e1, e2, Drop(u)];
    assert Run(s, [e1]) == Step(s, e1);
    assert Run(Step(s, e1), [e2]) == Step(Step(s, e1), e2);
    assert Run(Run(s, [e1, e2]), [Drop(u)]) == Step(Run(s, [e1, e2]), Drop(u));
  }

  /**
   * The newer handler of a reconnected id keeps running after the older
   * handler's cleanup removed its entry, so its next answered ping is a stray
   * frame and leaves a timestamp without a channel.
   */
  lemma ReconnectThenPingStrays(s: State, u: UserId, ch1: Channel, t1: Time, ch2: Channel, t2: Time,
                                now: Time, failing: set<UserId>)
    requires s.Consistent()
    ensures var r := Run(s, [Open(u, ch1, t1, true), Open(u, ch2, t2, true), Drop(u)]);
      var e := Inbound(u, Ping, now, failing, true);
      && r.Consistent()
      && Stray(r, e)
      && !Step(r, e).Consistent()
      && u in Step(r, e).lastActive && u !in Step(r, e).connections
  {
    var e1, e2, e3 := Open(u, ch1, t1, true), Open(u, ch2, t2, true), Drop(u);
    assert [e1, e2, e3] == [e1] + ([e2] + ([e3] + []));
    RunCons(s, e1, [e2] + ([e3] + []));
    RunCons(Step(s, e1), e2, [e3] + []);
    RunCons(Step(Step(s, e1), e2), e3, []);
    var r := Step(Step(Step(s, e1), e2), e3);
    assert Run(s, [e1, e2, e3]) == r;
    assert r == s.Connect(u, ch1, t1).Connect(u, ch2, t2).Unregister(u);
    StepConsistency(r, Inbound(u, Ping, now, failing, true));
  }

  /** A ping that is answered changes nothing but the sender's timestamp. */
  lemma PingOnlyTouches(s: State, u: UserId, now: Time, failing: set<UserId>)
    ensures Step(s, Inbound(u, Ping, now, failing, true)) == s.Touch(u, now)
    ensures Step(s, Inbound(u, Malformed, now, failing, false)) == s.Touch(u, now)
  {
  }

  /** The first exchange of a fresh process: "u1" connects and says "hi". */
  lemma FirstMessage(ch: Channel, t0: Time, t1: Time, failing: set<UserId>)
    ensures var r := Run(Initial, [Open("u1", ch, t0, true),
                                   Inbound("u1", Message(Some("user"), Some("hi")), t1, failing, true)]);
      && r.dialogue == [Record(Some("user"), Some("hi"), "", "", "", "", "")]
      && r.userDialogues == map["u1" := r.dialogue]
      && ("u1" !in failing ==> r.connections == map["u1" := ch] && r.lastActive == map["u1" := t1])
  {
    var e0 := Open("u1", ch, t0, true);
    var e1 := Inbound("u1", Message(Some("user"), Some("hi")), t1, failing, true);
    RunAppend(Initial, [e0], [e1]);
    assert [e0] + [e1] == [e0, e1];
    assert Run(Initial, [e0]) == Step(Initial, e0);
    assert Run(Step(Initial, e0), [e1]) == Step(Step(Initial, e0), e1);
  }
}
