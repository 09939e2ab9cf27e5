# Dialogue relay server: session registry, dialogue store, broadcast and idle reaper

This project models the in-memory core of a real-time dialogue relay (a FastAPI
websocket server). Clients open a channel under a client-chosen user id. They
send chat messages and heartbeats, and they receive the shared conversation log
whenever it changes. The server keeps four pieces of process-wide state:

- the global `dialogue` list;
- `active_connections`: user id to channel;
- `user_dialogues`: user id to that user's history;
- `user_last_active`: user id to last-activity time.

A background reaper evicts sessions that have been idle for more than 600 seconds.

The model has five modules:

- `Wrappers`: an `Option` type for JSON keys that may be absent.
- `Protocol`: dialogue records, decoded inbound frames
  (`Message(role?, content?) | Ping | Other(type?) | NotAnObject | Malformed`),
  outbound frames, deliveries, the idle test, and the `FanOut` predicate
  ("this message went to every registered channel exactly once, and to nobody
  else").
- `Sessions`: the four parts as one `State` value, one transition function per
  operation, and lemmas about each single operation.
- `Server`: class `ServerState`, with the four parts as mutable fields and one
  method per handler step. The broadcast and reaper methods are written as the
  source writes them: a first loop collects ids, a second loop deletes them.
  Each mutating method's `ensures` ties the new state, seen through the ghost
  `Model()`, to the matching `Sessions` function. It also states the
  deliveries the step sends.
- `Traces`: runs of events under the single-scheduler model. Each event is one
  handler step, with its `finally` cleanup applied when the handler leaves its
  loop. The module holds the properties that span several steps.

Environment inputs are parameters:

- the clock is an integer `now`;
- whether a direct send (initial snapshot, pong) succeeds is a `sendOk` flag;
- the recipients whose broadcast send fails are a set, `failing`;
- a channel is an opaque `nat` handle.

Behaviour the model reproduces as the code has it:

- The snapshot sent on connect is the user's own history, not the global log.
- The websocket path defaults a missing role to `"user"` and missing content
  to `""`. The administrative append copies both as given and writes to the
  global log only.
- Clearing deletes every per-user key. A later message from a user who is
  still connected is appended to the global log. It then fails on the missing
  per-user key, so the handler ends and its cleanup unregisters the user, and
  nothing is broadcast (`Traces.MessageAfterClear`).
- Reconnecting under a live id overwrites the entry. The older handler's
  cleanup then also removes the newer channel's entry
  (`Traces.ReconnectOrphansNewer`).
- Every received frame stores the sender's timestamp, even when the sender no
  longer has a channel entry. A running handler can lose its entry, without
  leaving its loop, in these ways:
  - a reconnect under the same id, whose older handler's cleanup removes the
    newer entry (`Traces.ReconnectThenPingStrays`);
  - a reconnect under the same id whose snapshot send fails, so that the new
    handler's cleanup removes the entry the older handler still relies on;
  - a failed broadcast send to that handler's channel;
  - a reaper eviction whose close failed.
  One would expect this "touch" to do nothing for an absent id, so that the
  two registry maps keep the same keys. Line 128 instead inserts
  unconditionally, so a frame from such a handler breaks the same-keys
  invariant. `Traces.StepConsistency` proves exactly when this happens (a
  "stray" frame). `Traces.RunConsistency` proves that the invariant holds
  across any run without one.
- A frame that is valid JSON but not an object makes the `.get` lookup raise.
  The generic handler catches it and the session ends (`NotAnObject`). A frame
  that is not valid JSON is only logged, and the loop goes on.

## Model

| member | source | states |
|---|---|---|
| `Protocol.ChatRecordDefaults` | server/server.py:137-145 | a message frame's record has role defaulting to "user", content defaulting to "", and all five placeholder fields "" |
| `Protocol.AdminRecordKeepsFields` | server/server.py:198-206 | the administrative record copies role and content as given (possibly absent, so it differs from the websocket record), placeholders "" |
| `Protocol.IdleThreshold` | server/server.py:51 | a session is idle iff strictly more than 600 s have passed; exactly 600 s is not idle, 601 s is |
| `Sessions.ConnectRegisters` | server/server.py:113-119 | connect overwrites the channel entry, stamps `now`, creates an empty history only if none exists, keeps every other entry and the global log, and preserves the same-keys invariant |
| `Sessions.UnregisterRemoves` | server/server.py:170-173 | cleanup removes both registry entries of the id, and only those, and preserves the same-keys invariant |
| `Sessions.UnregisterIdempotent` | server/server.py:170-173 | cleanup twice equals cleanup once; cleanup of an absent id changes nothing |
| `Sessions.UnregisterAllIsEvict` | server/server.py:188-192 | removing a list of ids one by one yields the state with exactly that set of ids removed, whatever the order |
| `Sessions.BroadcastEvicts` | server/server.py:177-192 | after a broadcast, exactly the registered ids whose send failed are gone from both maps; every other entry, the log and the histories are unchanged |
| `Sessions.ReapEvictsIdle` | server/server.py:47-62 | a reaper scan removes from both maps exactly the ids with `now - last > 600`; ids at or under the threshold keep their entries; the invariant is preserved |
| `Sessions.ReapThenUnregister` | server/server.py:54-62 | a handler cleanup racing the scan, before or after it, for an evicted id has the effect of the scan alone |
| `Sessions.NonMessageOnlyTouches` | server/server.py:127-162 | a ping, unknown, non-object or malformed frame only sets the sender's timestamp to `now`; the invariant survives iff the sender is still registered |
| `Sessions.MessageAppends` | server/server.py:135-152 | a message stamps the sender with `now` and appends its record at the end of the global log and of the sender's history, with earlier entries unchanged; the broadcast then removes the failed registered recipients from both maps |
| `Sessions.MessageWithoutHistory` | server/server.py:147-149 | a message from a user with no history is still appended to the global log, leaves histories and channels unchanged, and ends the handler |
| `Sessions.AddMessageAppendsGlobally` | server/server.py:198-210 | the administrative append adds one record to the global log only, leaves histories unchanged, and otherwise acts as a broadcast |
| `Sessions.ClearEmpties` | server/server.py:236-241 | clear leaves an empty global log and no history keys; the registry changes only by the broadcast's failures |
| `Server.ServerState.constructor` | server/server.py:30-36 | the process starts with an empty log and empty maps |
| `Server.ServerState.Connect` | server/server.py:112-123 | registers as `Sessions.State.Connect`; sends the new channel the user's own history; a failed send ends the handler |
| `Server.ServerState.Disconnect` | server/server.py:168-173 | the `finally` block takes the state to `Unregister` |
| `Server.ServerState.DisconnectAll` | server/server.py:188-192 | the deletion loop removes exactly the set of listed ids |
| `Server.ServerState.SendPass` | server/server.py:177-185 | the send pass, which changes no state, delivers the message once to every registered channel and to nobody else, and collects exactly the registered ids whose send failed, without repeats |
| `Server.ServerState.Broadcast` | server/server.py:175-192 | fan-out to the registry as it was at call time, then removal of exactly the failed registered ids |
| `Server.ServerState.ReceiveFrame` | server/server.py:127-162 | stamp, then per frame kind: message (append and broadcast the full new log, or end the handler when the history is missing), ping (pong to the sender's own channel only), others (nothing); the status says when the handler leaves its loop |
| `Server.ServerState.CollectIdle` | server/server.py:47-52 | the reaper's first pass lists exactly the ids whose last activity is more than 600 s before `now`, without repeats |
| `Server.ServerState.ReapScan` | server/server.py:47-62 | one scan takes the state to `Reap(now)` and closes exactly the idle ids that have a channel |
| `Server.ServerState.AddMessage` | server/server.py:194-212 | appends the administrative record to the global log and broadcasts the new log |
| `Server.ServerState.GetDialogue` | server/server.py:230-233 | returns the global log unchanged |
| `Server.ServerState.ClearDialogue` | server/server.py:235-242 | empties the log and the history map, then broadcasts an empty log to every registered channel |
| `Traces.StepConsistency` | server/server.py:125-173 | from a consistent registry, a step leaves it consistent iff the step is not a stray frame (sender unregistered, handler keeps running) |
| `Traces.RunConsistency` | server/server.py:110-192 | any run without a stray frame keeps the two registry maps on the same keys |
| `Traces.RunAppendOnly` | server/server.py:147-149 | without a clear, the global log and every existing history only grow at the end |
| `Traces.DropsEvict` | server/server.py:168-173 | disconnecting a list of ids removes exactly those ids from both maps |
| `Traces.ConnectAllThenDisconnectAll` | server/server.py:112-173 | from a fresh process, N successful connects under distinct ids give N registry entries, a consistent registry, and after disconnecting all N, empty maps |
| `Traces.MessageAfterClear` | server/server.py:147-173 | after a clear, a message from a connected user is logged, ends its handler, and unregisters the user; no history is recreated |
| `Traces.ReconnectOrphansNewer` | server/server.py:113-173 | a second connect under a live id replaces the channel and stamp; the first handler's cleanup then removes the replacement's entry |
| `Traces.ReconnectThenPingStrays` | server/server.py:113-173 | after a reconnect under the same id and the older handler's cleanup, the newer handler's next answered ping leaves a timestamp without a channel, breaking the same-keys invariant |
| `Traces.PingOnlyTouches` | server/server.py:154-162 | an answered ping, or a malformed frame, changes nothing but the sender's timestamp |
| `Traces.FirstMessage` | server/server.py:112-152 | a fresh process where "u1" connects and sends "hi" holds exactly that one record, with empty placeholders, in the log and in u1's history |

## Left out

- The browser client (`src/webrtc.ts`): a wrapper over browser media, DOM and websocket callbacks with no logic of its own.
- Framework glue: logging setup, CORS middleware, static mounts, route decorators, the index page, the `__main__` launcher (server/server.py:17-27, 81-107, 244-252).
- Text-to-speech generation and the audio directory (server/server.py:38-41, 218-228): foreign library calls and file writes that the message path never uses.
- The reaper's `while True` / 30-second sleep, and task creation and cancellation in `lifespan` (server/server.py:44-45, 67-79). One scan is one atomic method.
- Interleaving at `await` points. Each handler step, administrative call and scan is atomic. An insertion into or deletion from the registry during a broadcast's send loop, which would make the Python dict iteration raise, is therefore not modelled.
- Real sockets and JSON: frames arrive decoded, and send outcomes are inputs. `websocket.accept()` is taken to succeed. Role and content values are strings or absent; JSON `null` and non-string values are not distinguished.
- Closing an idle channel is reported only as the list of ids closed. Its effect on that channel's own handler appears only as a later `Drop` event in a trace.
- The order of sends across recipients: Python iterates dicts in insertion order, and the model delivers in an unspecified order. Each recipient still gets exactly one copy.
- The `{"status": ...}` replies of the administrative calls.
- The error branches of `add_message` (server/server.py:213-215) and of the reaper (server/server.py:64-65). They are unreachable only under the atomic-step model above. In the program, two interleavings reach them:
  - a registry insertion or deletion during the `add_message` broadcast's send loop makes the dict iteration raise, and the call returns the error status;
  - a handler's cleanup (lines 170-173) running during the reaper's `close()` await (line 57) makes the unguarded deletion at line 60 raise; line 64 catches it and leaves the rest of that scan's idle ids for the next scan.
- Log messages.
- `time.time()` floating-point seconds: time is an integer.
