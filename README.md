# notifiers: token registry and wake-up loop

This project models the decision core of the `notifiers` push service. The service keeps a registry
of mobile device tokens in a key-value store. Every interval it wakes each registered device with a
silent push notification. It also serves two HTTP endpoints: `POST /register` adds a token, and
`POST /notify` sends one visible notification to one token.

The model covers:

- the store (`Store.Db`): a map from token to marker value, with insert and remove operations that
  can fail, and a description of what one pass of its iterator yields (`Store.IsIterationOf`);
- `register_device`: inserts the token with the marker `[1]`; a failed insert or flush gives 500;
- `notify_device`: a token starting with `sandbox:` loses that prefix once and goes to the sandbox
  client, and any other token goes to the production client unchanged. The gateway result then
  maps to a status and a store change: `Ok` of any code gives 200; a response error with code 410
  removes the routed token and gives 410; any other response error, or any other error, gives 500;
- `wakeup`: takes a snapshot of the keys, skipping entries whose read failed. It sends one silent
  notification per snapshot key, in snapshot order, with the key exactly as stored. Every response
  error, whatever its code, removes that key. No outcome stops the loop;
- `start`: builds the client, which can fail. It then runs one cycle at once and one more per timer
  tick. The result records the store before and after every cycle and the sends each cycle made.

The world outside the core is given as parameters:

- for each wake-up cycle, a `Notifier.Environment`: how the store's iterator enumerates the store,
  what the gateway answers for each token, and whether each removal succeeds;
- for the handlers, the `result` parameter of `Server.NotifyDevice` (the gateway's answer) and the
  `Io` parameters of `Server.RegisterDevice` and `Server.NotifyDevice` (storage outcomes);
- for the task, the `ticks` parameter of `Notifier.Start`: how many timer ticks arrive.

Every property below holds for every choice of these parameters whose iterator satisfies
`Store.IsIterationOf`.

## Where the code departs from the evident intent (the model follows the code)

- `notify_device` shadows the raw token with the stripped one (src/server.rs:44), so a 410 removes
  the stripped token (src/server.rs:90). For `sandbox:xyz` the handler removes `xyz` and leaves the
  registration `sandbox:xyz` in place (`Server.NotifyKeepsSandboxRegistration`,
  `Scenarios.NotifyGoneSandbox`). The comment at src/server.rs:89 says the intent is to
  unsubscribe the token from heartbeat notifications, and heartbeat registrations are stored
  under the raw token (src/server.rs:33), prefix included. `Server.NotifiedIntended` models that
  intended removal.
- `wakeup` removes a token on every response error, not only on 410 (src/notifier.rs:76-81). It
  takes no routing decision either: it sends the stored key, `sandbox:` included, through the one
  client `start` was given (src/notifier.rs:56, `Scenarios.SandboxTokenInCycle`). This differs
  from `notify_device`, which routes by prefix (src/server.rs:44-49) and prunes only on 410
  (src/server.rs:85).
- `register_device` does not check that the token is non-empty (src/server.rs:33). The model
  accepts any string, the empty one included.
- A non-UTF-8 key makes `wakeup` panic at `unwrap` (src/notifier.rs:39); it is not skipped. The
  model's keys are strings, so every key decodes. That is the precondition under which the loop
  runs at all.

## Model

| member | source | states |
|---|---|---|
| Store.Db.constructor | src/state.rs:25 | the opened store holds the given contents |
| Store.Db.Insert | src/server.rs:33 | on success the key maps to the value and nothing else changes; on failure the store is unchanged |
| Store.Db.Remove | src/server.rs:90 | on success the key is gone, and removing an absent key is no error; on failure the store is unchanged |
| Server.Registered | src/server.rs:33 | after a successful insert the token maps to `[1]`; every other key keeps its presence and value; a failed insert changes nothing |
| Server.RegisterIdempotent | src/server.rs:33 | registering a token twice gives the same store as registering it once |
| Server.RegisterDevice | src/server.rs:28-37 | the store becomes the registration result; status 200 exactly when insert and flush both succeed, 500 otherwise |
| Server.Route | src/server.rs:44-49 | sandbox client exactly when the token starts with `sandbox:`, and then the token is that prefix plus the routed token; otherwise the production client and the token unchanged |
| Server.RouteTagged | src/server.rs:44-49 | routing a tagged token gives back its endpoint and gateway token, whatever follows the prefix |
| Server.TaggedRoute | src/server.rs:44-49 | tagging the routed token rebuilds the raw token, so routing loses nothing |
| Server.RouteStripsOnce | src/server.rs:44 | a doubly prefixed token keeps its second `sandbox:` |
| Server.Decide | src/server.rs:70-103 | status is one of 200, 410, 500; 200 exactly for `Ok` of any code; 410 exactly for a response error with code 410; removal exactly when the status is 410 |
| Server.Notified | src/server.rs:83-94 | the store is unchanged or loses only the routed token; that token is absent afterwards exactly when it was absent before, or a 410 came back and the removal succeeded |
| Server.NotifiedTable | src/server.rs:70-103 | `Ok`, other response errors, other errors, a failed removal and an absent key all leave the store unchanged; a 410 with a successful removal removes exactly the routed token |
| Server.NotifyDevice | src/server.rs:40-104 | one visible send to the routed client and token; status from the outcome table; store from the notify effect |
| Server.NotifyKeepsSandboxRegistration | src/server.rs:44-49 | after a 410 for `sandbox:` plus t, the stored `sandbox:` plus t survives |
| Server.NotifiedIntended | src/server.rs:89-90 | corrected effect: only the raw token can go, and it is gone exactly when it was absent or a 410 came back and the removal succeeded |
| Server.IntendedUndoesRegistration | src/server.rs:89-90 | with the corrected effect, a registration followed by a 410 leaves the store as it was without that token, for either environment |
| Notifier.Snapshot | src/notifier.rs:36-42 | the snapshot holds the key of every entry read, and only keys of entries read; with no read error it has one key per item |
| Notifier.SnapshotAppend | src/notifier.rs:36-42 | the snapshot keeps the iteration order: it distributes over concatenation |
| Notifier.SnapshotDistinct | src/notifier.rs:36-42 | entries with distinct keys give a snapshot without repetitions |
| Notifier.SnapshotOfIteration | src/notifier.rs:36-42 | the snapshot of a pass over the store holds store keys only, each once; with no read error it holds every key |
| Notifier.CycleRemoves | src/notifier.rs:67-86 | after a cycle no key is added and no value changes; a key is gone exactly when it was in the snapshot, its send came back with a response error of any code, and its removal succeeded |
| Notifier.Wakeup | src/notifier.rs:35-87 | sends are exactly one silent request per snapshot key, in snapshot order, with the full stored key; the store becomes the cycle result |
| Notifier.CycleKeeps | src/notifier.rs:67-86 | with every entry read, a key survives exactly when its send gave `Ok` of any code or a non-response error, or its removal failed |
| Notifier.CycleSendsOnce | src/notifier.rs:46-56 | sends go to store keys only, never twice to one key, and with every entry read to every key |
| Notifier.EmptyCycle | src/notifier.rs:36-46 | an empty store gives an empty snapshot and an unchanged store |
| Notifier.CycleIndependent | src/notifier.rs:46-86 | the answer for one token decides nothing about whether any other token survives |
| Notifier.RunShrinks | src/notifier.rs:23-30 | along any sequence of cycles each store is a sub-map of every earlier store |
| Notifier.Start | src/notifier.rs:9-33 | a failed client build gives an error and no cycle; otherwise n ticks give n+1 cycles, each from the previous store, each store a sub-map of every earlier one |
| Scenarios.RegisterThenDelivered | src/server.rs:28-37 | registering `abc` gives 200; a delivered cycle sends `abc` once and keeps it |
| Scenarios.SandboxTokenInCycle | src/notifier.rs:46-81 | a stored `sandbox:xyz` is sent unchanged through the loop's client and any response error prunes it |
| Scenarios.TransportFailureKeeps | src/notifier.rs:82-84 | an error without a gateway response keeps the token |
| Scenarios.EmptyStoreCycle | src/notifier.rs:36-46 | an empty store gives no send and stays empty |
| Scenarios.NotifyGone | src/server.rs:83-94 | a 410 for `def` gives Gone, sends to production as `def`, and removes `def` |
| Scenarios.NotifyGoneSandbox | src/server.rs:44-94 | a 410 for `sandbox:def` gives Gone, sends to the sandbox client as `def`, and keeps `sandbox:def` |
| Scenarios.RegisterTwice | src/server.rs:33 | registering a token twice gives the same store as once, with the token mapped to `[1]` |

## Findings

| source | as written | input that shows it | evidently intended | confidence | as-written member | corrected member |
|---|---|---|---|---|---|---|
| src/server.rs:44-49, 90 | on a 410 the handler removes the prefix-stripped token, because the stripped token shadows the raw one | `sandbox:xyz` is registered and `POST /notify` with `sandbox:xyz` gets 410: the response is Gone but `sandbox:xyz` stays registered until a cycle's send to it returns a response error | unsubscribe the token as registered, prefix included (the comment at src/server.rs:89 says the token is unsubscribed) | medium; not executed | Server.NotifyKeepsSandboxRegistration | Server.NotifiedIntended |

`Server.NotifyDevice` itself keeps the behaviour as written, because the model follows the code.
`Server.NotifiedIntended` and `Server.IntendedUndoesRegistration` give the corrected effect and its
property.

## Left out

- src/main.rs: command-line parsing and task spawning. It only logs keys, and its `State::new` call
  does not match the signature at src/state.rs:24, so it has no logic to model.
- src/state.rs: the shared holder is represented only by the store handed to each handler and by the
  endpoint of each client; opening the store and loading the certificate are library calls.
- Payload construction (titles, localisation keys, sound, `content-available`, priority, topic): a
  foreign builder with an opaque wire format. Only the payload kind is kept (`Apns.PayloadKind`).
- Network sends, TLS and PKCS#12 handling, and the APNs protocol: the gateway is an answer given per
  send (`Notifier.Environment.reply`, or the `result` parameter of `Server.NotifyDevice`).
- Request parsing (`body_json`, `body_string`), the server start-up and the listen address: HTTP
  plumbing. A request the framework cannot parse never reaches the modelled handlers.
- Durability: `flush_async` is modelled only as an outcome that can fail.
- Concurrency: the handlers, the wake-up task and sled run concurrently in the code. The model runs
  each operation to completion on its own, so a registration racing a snapshot is not modelled.
- Logging calls, and the real-time interval stream. The timer is a count of ticks.
- Notifier.Start: the code loops for as long as the interval stream yields, which is forever in
  practice. The model runs a given finite number of ticks and then returns.
- Notifier.Wakeup: sled keys are bytes, and the code decodes each one with `String::from_utf8`,
  whose `unwrap` panics on invalid input. The model's keys are strings, so the panic path is not
  modelled.
- Store.Db.Remove: the model assumes that a failed remove leaves the store unchanged; the code
  only logs the error (src/server.rs:90-92, src/notifier.rs:78-80). The assumption is that a sled
  operation reporting an error did not take effect. The "removal failed, so the key survives"
  direction of Server.Notified, Notifier.CycleRemoves and Notifier.CycleKeeps rests on it.
- Store.Db.Insert: the model assumes that a failed insert leaves the store unchanged. sled makes no
  such promise visible in this code.
