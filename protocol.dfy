/**
 * The values exchanged by the dialogue relay: dialogue records, decoded
 * inbound frames, outbound frames and the deliveries a step produces.
 * Sockets, JSON text and clocks are abstracted away: a channel is an opaque
 * handle, a frame arrives already decoded, and time is an integer.
 */
module Protocol {
  import opened Wrappers

  type UserId = string
  /** An opaque handle standing for one accepted websocket. */
  type Channel = nat
  /** Seconds on the server clock. */
  type Time = int

  /** Seconds of inactivity after which the reaper evicts a session. */
  const IdleTimeout: int := 600

  /**
   * One dialogue entry. `role` and `content` are optional because the
   * administrative append copies them from its request without a default.
   */
  datatype Record = Record(
    role: Option<string>,
    content: Option<string>,
    startTime: string,
    endTime: string,
    audioFile: string,
    ttsFile: string,
    vadStatus: string)
  {
    /** The five placeholder fields hold the empty string. */
    predicate Blank() {
      startTime == "" && endTime == "" && audioFile == "" && ttsFile == "" && vadStatus == ""
    }
  }

  /** The record built for an inbound `message` frame: missing role is "user", missing content "". */
  function ChatRecord(role: Option<string>, content: Option<string>): Record {
    Record(Some(role.GetOr("user")), Some(content.GetOr("")), "", "", "", "", "")
  }

  /** The record built by the administrative append: role and content copied as given. */
  function AdminRecord(role: Option<string>, content: Option<string>): Record {
    Record(role, content, "", "", "", "", "")
  }

  lemma ChatRecordDefaults(role: Option<string>, content: Option<string>)
    ensures ChatRecord(role, content).Blank()
    ensures ChatRecord(role, content).role == Some(if role.Some? then role.value else "user")
    ensures ChatRecord(role, content).content == Some(if content.Some? then content.value else "")
    ensures ChatRecord(None, None) == Record(Some("user"), Some(""), "", "", "", "", "")
  {
  }

  lemma AdminRecordKeepsFields(role: Option<string>, content: Option<string>)
    ensures AdminRecord(role, content).Blank()
    ensures AdminRecord(role, content).role == role && AdminRecord(role, content).content == content
    ensures role.None? ==> AdminRecord(role, content) != ChatRecord(role, content)
  {
  }

  /**
   * An inbound text frame after JSON decoding. `Message` and `Other` carry
   * the keys that were present; `NotAnObject` is well-formed JSON that is not
   * an object (so looking up its "type" raises); `Malformed` failed to parse.
   */
  datatype Frame =
    | Message(role: Option<string>, content: Option<string>)
    | Ping
    | Other(kind: Option<string>)
    | NotAnObject
    | Malformed

  /** Outbound frames: the dialogue snapshot and the heartbeat reply. */
  datatype Outbound = UpdateDialogue(data: seq<Record>) | Pong

  /** One attempted send of `frame` to `channel`, registered under `user`. */
  datatype Delivery = Delivery(user: UserId, channel: Channel, frame: Outbound)

  /** Whether a handler's receive loop goes on or leaves for its `finally` block. */
  datatype Status = Continue | Terminate

  /** The reaper's test: strictly more than the timeout since the last activity. */
  predicate IsIdle(now: Time, lastActive: Time) {
    now - lastActive > IdleTimeout
  }

  lemma IdleThreshold(now: Time, lastActive: Time)
    ensures IsIdle(now, lastActive) <==> lastActive < now - 600
    ensures !IsIdle(lastActive + 600, lastActive) && IsIdle(lastActive + 601, lastActive)
  {
  }

  /** The users a sequence of ids mentions. */
  function Elements(ids: seq<UserId>): set<UserId> {
    set u | u in ids
  }

  predicate NoDuplicates(ids: seq<UserId>) {
    forall i, j :: 0 <= i < j < |ids| ==> ids[i] != ids[j]
  }

  /** Some attempted send in `sends` went to user `u`. */
  predicate SentTo(sends: seq<Delivery>, u: UserId) {
    exists i :: 0 <= i < |sends| && sends[i].user == u
  }

  /**
   * `sends` delivers `msg` exactly once to every entry of `registry`, on the
   * channel registered for it, and to nobody else.
   */
  predicate FanOut(sends: seq<Delivery>, registry: map<UserId, Channel>, msg: Outbound) {
    && (forall i :: 0 <= i < |sends| ==>
          sends[i].user in registry && sends[i].channel == registry[sends[i].user] && sends[i].frame == msg)
    && (forall i, j :: 0 <= i < j < |sends| ==> sends[i].user != sends[j].user)
    && (forall u :: u in registry ==> SentTo(sends, u))
  }
}
