# A verified model of the jagspico MQTT client and its helpers

This project models the core of a Raspberry Pi Pico firmware library in Dafny
and proves properties of that model. The core has these parts:

- **The MQTT client engine** of `lwipxx::MqttClient`. It keeps a table of
  subscriptions. Each entry carries `want_subscribed`, `is_subscribed`,
  `has_pending_callback` and `failed_requests`, and the client sends subscribe
  and unsubscribe requests through lwIP until every entry is where it wants to
  be. It answers lwIP's completions and connection-status changes, and it
  retries failures after an exponential backoff. It also matches incoming
  topics against the subscription filters and reassembles chunked publishes
  for the matching handler.
- **The Home Assistant discovery helpers**: `JsonBuilder`, the device topics,
  the availability last will, `AddAvailabilityDiscovery`, `AddCommonInfo` and
  the cover's payloads and commands.
- **The four-digit seven-segment display**: the digit masks, the 32-bit packed
  word, and one refresh pass of the drive task.
- **`ssappendf` / `ssprintf`**: `snprintf` onto a growing `std::string`.
- **Arduino's `String::equalsIgnoreCase`.**

Stateful parts are Dafny classes whose methods are proved against
specification functions:

- `Mqtt.MqttClient`, with the subscription table, the requests in flight and
  the queued retries as `seq` fields;
- `HomeAssistant.JsonBuilder`;
- `Ssprintf.StdString`, an `array<char>` buffer with a size.

Pure parts are functions and lemmas. Calls into lwIP are parameters of type
`Mqtt.Err`. These are the outcome of `mqtt_sub_unsub`, of
`mqtt_client_connect`, and of the answer a completion brings. The client's
callbacks are methods that the environment calls.

Some design choices need stating:

- **Two readings of the client.** `Mqtt.MqttClient` has a constant
  `marksPending`.
  - With `false`, it is the source as written: a request that lwIP accepted
    leaves `has_pending_callback` false.
  - With `true`, it is the lifecycle that the comment at
    `src/lwipxx/include/lwipxx/mqtt.h:98-105` describes.
  - The table invariant is proved for the second reading. It says that ids are
    unique, that topics are unique, and that the number of outstanding actions
    per entry equals its pending flag. See "## Findings".
- **Two readings of `Unsubscribe`.** `Mqtt.MqttClient` also has a constant
  `honoursUnsubscribe`.
  - With `false`, it is the source as written: `ChangeTopic` picks the first
    entry whose filter matches, even one that no longer wants to be subscribed,
    and a publish already begun keeps its handler after `Unsubscribe` returns.
  - With `true`, `ChangeTopic` passes over entries that no longer want to be
    subscribed, and `Unsubscribe` drops the active subscription when it is the
    entry being unsubscribed. This is what the comment at
    `src/lwipxx/include/lwipxx/mqtt.h:74-76` promises. See "## Findings".
- **Two readings of `JsonBuilder`.** `HomeAssistant.JsonBuilder` likewise has
  `opensBrace`. With `false`, `EnterDict` writes no `{` (as written). With
  `true`, it writes one.
- **The topic matcher.** `Topic.MatchesClamped` is the matcher with every
  `remove_prefix` clamped to its view. `Topic.Overruns` says when a run of the
  source would remove more than the view holds, which is undefined behaviour in
  C++. It happens on ordinary inputs such as `"a/+"` against `"a/b"`.
  - The reference is `Topic.Matches`, level-by-level matching as section 4.7 of
    OASIS MQTT Version 3.1.1 describes it.
  - The source departs from it on purpose or by accident in one case: `"a/#"`
    does not match `"a"`. Section 4.7.1.2 says it should.
  - Only soundness is proved (`Topic.ClampedMatchIsSound`), not completeness.
- **Dangling references.** A callback that finds its entry gone is reported as
  `Mqtt.Outcome.Dangling`. In the source this is a use after free.
- **The reconnect loop never erases.** The range-for in `ConnectionCb`
  (`src/lwipxx/mqtt.cc:69-72`) calls `StartTransition`, which could erase an
  entry while the vector is being iterated. That cannot happen: the invariant
  keeps every idle entry non-garbage, so `StartTransition` never erases there.
  This is proved for both readings.
- **Where the code and the comments disagree, the model follows the code.**
  - The header comment speaks of an `unsubscribing` flag. The code has
    `want_subscribed`.
  - `Cover::kStoppedState` is `"closed"`, so a stopped cover is reported as
    closed (`HomeAssistant.StatePayloadsCollide`).
  - `SetAvailablityLwt` in `homeassistant.cc` sends `"offline"`, while the
    unused `HomeAssistantService::SetAvailabilityLWT` in the header sends
    `"unavailable"`. The model uses the first.

## Model

| member | source | states |
|---|---|---|
| Topic.SlashIndex | src/lwipxx/mqtt.cc:284 | `find('/')` with `npos` read as the length: no `/` before the index, and a `/` at it unless it is the end |
| Topic.MatchTurn | src/lwipxx/mqtt.cc:282-300 | one turn of the loop either returns the clamped answer, with no overrun, or moves both views strictly forward, keeping the clamped answer and accumulating the overrun flag |
| Topic.LiteralMove | src/lwipxx/mqtt.cc:290-299 | the literal-level branch: a mismatch rejects, a last level on both sides accepts, otherwise both views drop the level and its `/` without changing the answer |
| Topic.TopicMatchesSubscription | src/lwipxx/mqtt.cc:279-306 | the loop returns exactly the clamped matcher's answer and reports exactly whether the source's run overruns a view |
| Topic.MatchesClamped | src/lwipxx/mqtt.cc:279-306 | a match uses up both views: the topic is empty exactly when the filter is |
| Topic.Overruns | src/lwipxx/mqtt.cc:279-300 | an overrun needs a non-empty topic and a non-empty filter that does not start with `#` |
| Topic.EmptyFilterMatchesNothing | src/lwipxx/mqtt.cc:282-283 | an empty filter matches no non-empty topic |
| Topic.LiteralLevelMismatch | src/lwipxx/mqtt.cc:291-293 | a literal first level that differs from the topic's first level rejects |
| Topic.HashMatchesAnyRest | src/lwipxx/mqtt.cc:288-289 | a filter starting with `#` matches every non-empty topic without overrun |
| Topic.PlusConsumesOneLevel | src/lwipxx/mqtt.cc:285-287 | `+/` consumes exactly one topic level and its separator, for both the answer and the overrun report |
| Topic.LiteralLevelConsumed | src/lwipxx/mqtt.cc:291-299 | an equal literal level followed by `/` on both sides is consumed without changing the answer or the overrun report |
| Topic.LiteralStep | src/lwipxx/mqtt.cc:291-299 | equal literal first levels that are not both last reduce the match to the rest after the separators |
| Topic.WildcardFreeMatchesIffEqual | src/lwipxx/mqtt.cc:279-306 | for a filter without wildcards: an equal topic matches without overrun, and a match without overrun means the topic equals the filter |
| Topic.WildcardFreeSeparators | src/lwipxx/mqtt.cc:291-299 | equal literal levels followed by a separator on both sides: equal strings match without overrun, and a match without overrun means equal strings |
| Topic.ClampedMatchIsSound | src/lwipxx/mqtt.cc:279-306 | for a well-formed filter, a clamped match on a run without overrun is a match by the level rules of MQTT 3.1.1 section 4.7 |
| Topic.PlusMatchesOneLevel | src/lwipxx/mqtt.cc:285-287 | `a/+/c` matches `a/b/c` |
| Topic.PlusRejectsTwoLevels | src/lwipxx/mqtt.cc:285-299 | `a/+/c` does not match `a/b/b/c`: `+` takes one level only |
| Topic.PlusRejectsSecondLevel | src/lwipxx/mqtt.cc:285-293 | `+/c` does not match `b/b/c` |
| Topic.LiteralRejectsOtherLevel | src/lwipxx/mqtt.cc:291-293 | `c` does not match `b/c` |
| Topic.HashTakesDeeperTopic | src/lwipxx/mqtt.cc:288-289 | `a/#` matches `a/b/c` |
| Topic.HashRejectsParentLevel | src/lwipxx/mqtt.cc:298-305 | `a/#` does not match `a` in the source, and the run overruns, although section 4.7.1.2 of MQTT 3.1.1 says it matches |
| Topic.HashTakesEmptyLevel | src/lwipxx/mqtt.cc:282-305 | `a/#` against `a/` ends with the topic empty and the filter not, so the source rejects a topic the standard accepts |
| Topic.LiteralRejectsDeeperTopic | src/lwipxx/mqtt.cc:291-305 | `a/b` does not match `a/b/c` |
| Topic.OverrunExamples | src/lwipxx/mqtt.cc:286-299 | `a/+` on `a/b`, `a/b` on `a`, and `a` on `a/` each remove more than a view holds; the last also matches where the standard does not |
| Backoff.AttemptCap | src/lwipxx/mqtt.cc:254-255 | the cap is the largest `k` with `2^k` at most the quotient of the maximum by the minimum |
| Backoff.FloorLog2 | src/lwipxx/mqtt.cc:254-255 | the truncated `log(n)/log(2)` is the largest `k` with `2^k <= n` |
| Backoff.ShiftLeft | src/lwipxx/mqtt.cc:256 | a 32-bit `TickType_t` shift: undefined at a width of 32 or more, exact when the product fits |
| Backoff.Backoff | src/lwipxx/mqtt.cc:250-259 | the delay is `min << attempts`, the count grows only below the cap, and at or below the cap the delay is exact, at most the maximum, and the next count stays capped |
| Backoff.CappedDelayFits | src/lwipxx/mqtt.cc:254-256 | up to the cap the shift neither wraps nor exceeds the maximum |
| Backoff.CapIsLargestExponent | src/lwipxx/mqtt.cc:254-255 | the cap is the exponent of the largest `min * 2^k` not above the maximum |
| Backoff.DelayDoublesBelowCap | src/lwipxx/mqtt.cc:256-257 | below the cap each call doubles the next delay |
| Backoff.ClientSchedule | src/lwipxx/mqtt.cc:276 | for `Backoff<250, 5000>` the cap is 4 and the delays run from 250 to 4000 ticks |
| Backoff.UncappedCountOverflowsShift | src/lwipxx/mqtt.cc:225 | a `failed_requests` count of 32 or more, which the uncapped `++` can reach, makes the shift undefined |
| Mqtt.QosByte | src/lwipxx/include/lwipxx/mqtt.h:29 | every QoS level is sent as a byte of at most 2 |
| Mqtt.QosOfByte | src/lwipxx/include/lwipxx/mqtt.h:29 | exactly the bytes 0 to 2 name a QoS level |
| Mqtt.QosByteRoundTrip | src/lwipxx/mqtt.cc:120 | encoding a QoS level and decoding it back round-trips in both directions |
| Mqtt.DefaultConnectInfo | src/lwipxx/include/lwipxx/mqtt.h:31-41 | the default connect info has port 1883, a best-effort, retained will and empty strings |
| Mqtt.ConnectIgnoresWillQosAndRetain | src/lwipxx/mqtt.cc:84-93 | the options `Connect` sends take the will topic and message from the info, have a keep-alive of 60, and ignore the info's will QoS and retain flag |
| Mqtt.NewSubscription | src/lwipxx/include/lwipxx/mqtt.h:119-127 | a new entry wants to be subscribed, is not, has no pending callback and no failures |
| Mqtt.NextAction | src/lwipxx/mqtt.cc:184-199 | a request is sent exactly when no callback is pending and the wanted and actual states differ, in the wanted direction; the entry is erased exactly when it is idle, unwanted and unsubscribed |
| Mqtt.AfterSend | src/lwipxx/mqtt.cc:213-227 | after `mqtt_sub_unsub`, success leaves the pending flag as the reading says and the failure count alone, and failure clears the flag and bumps the count by one |
| Mqtt.IssuedBy | src/lwipxx/mqtt.cc:213-219 | one start issues at most one request, and one exactly when a request is due and lwIP accepts it |
| Mqtt.StartResult | src/lwipxx/mqtt.cc:184-227 | `StartTransition` fails exactly when a request was due and lwIP refused it |
| Mqtt.StartEffect | src/lwipxx/mqtt.cc:182-228 | a start never touches the retry queue, and a failed start never removes an entry |
| Mqtt.TopicIndex | src/lwipxx/mqtt.cc:143-146 | `find_if` by topic: the first entry with that topic, or none has it |
| Mqtt.IndexOfId | src/lwipxx/mqtt.cc:189-196 | the lookup by identity that `remove_if` uses: an entry with that id, or none has it |
| Mqtt.SubscribeEffect | src/lwipxx/mqtt.cc:138-165 | `Subscribe` never touches the retry queue; what it does to the table is stated by `Mqtt.SubscribeKnownTopic` and `Mqtt.SubscribeFreshTopic` |
| Mqtt.SubscribeKnownTopic | src/lwipxx/mqtt.cc:143-152 | re-subscribing a known topic overwrites its QoS and handler, makes it wanted, restarts its failure count (one when lwIP refuses at once), keeps its place, id and topic, leaves every other entry alone, and on failure returns lwIP's error with nothing sent |
| Mqtt.SubscribeFreshTopic | src/lwipxx/mqtt.cc:155-164 | a fresh topic joins the end of the table, waiting or not as the reading says, with its subscribe request in flight, only when lwIP accepts the request; otherwise the tables are unchanged and lwIP's error is returned, as mqtt.h:63-64 promises |
| Mqtt.UnsubscribeEffect | src/lwipxx/mqtt.cc:167-180 | `Unsubscribe` never touches the retry queue; what it does to the table is stated by `Mqtt.UnsubscribeUnknownTopic` and `Mqtt.UnsubscribeKnownTopic` |
| Mqtt.UnsubscribeUnknownTopic | src/lwipxx/include/lwipxx/mqtt.h:81 | unsubscribing from a topic not in the table returns `ERR_OK` and changes nothing |
| Mqtt.UnsubscribeKnownTopic | src/lwipxx/mqtt.cc:174-177 | an entry that neither waits nor is subscribed is erased at once with nothing sent; any other stays in place with its id and topic and stops wanting to be subscribed, every other entry is left alone, and on failure lwIP's error is returned with nothing sent |
| Mqtt.MarkStale | src/lwipxx/mqtt.cc:76-78 | on disconnect every entry is marked as being in the state opposite to the one it wants, and nothing else changes |
| Mqtt.ReconcileAll | src/lwipxx/mqtt.cc:69-72 | the reconnect loop treats every entry on its own, in place |
| Mqtt.IssuedAllStep | src/lwipxx/mqtt.cc:69-72 | the requests of the reconnect loop are those of each entry in table order |
| Mqtt.ReconcileAllStep | src/lwipxx/mqtt.cc:69-72 | after one more turn of the loop the entries before it are reconciled and the rest are as they were |
| Mqtt.StartInPlace | src/lwipxx/mqtt.cc:184-227 | a start on an entry that is not garbage changes that entry only, in place |
| Mqtt.BumpedStaysCapped | src/lwipxx/mqtt.cc:79 | at or below the cap, the client's backoff count stays capped and its delay is at most 5000 ticks |
| Mqtt.EraseKeepsInvariant | src/lwipxx/mqtt.cc:189-196 | erasing an idle entry keeps the table invariant |
| Mqtt.StartKeepsInvariant | src/lwipxx/mqtt.cc:182-228 | `StartTransition` on an entry with no outstanding action keeps the table invariant |
| Mqtt.SendKeepsInvariant | src/lwipxx/mqtt.cc:213-227 | sending a due request keeps the invariant when the pending flag is set on success |
| Mqtt.RescheduledKeepsInvariant | src/lwipxx/mqtt.cc:243-247 | queueing a retry for an idle entry and marking it pending keeps the invariant |
| Mqtt.FinishKeepsInvariant | src/lwipxx/mqtt.cc:230-248 | the whole of `FinishTransition` keeps the invariant |
| Mqtt.NewEntryKeepsInvariant | src/lwipxx/mqtt.cc:155-163 | adding a new entry for a fresh topic, with its request in flight, keeps the invariant |
| Mqtt.SubscribeKeepsInvariant | src/lwipxx/mqtt.cc:138-165 | `Subscribe` keeps the invariant, for both a known and a fresh topic |
| Mqtt.UnsubscribeKeepsInvariant | src/lwipxx/mqtt.cc:167-180 | `Unsubscribe` keeps the invariant |
| Mqtt.ReleaseKeepsInvariant | src/lwipxx/mqtt.cc:232 | removing an entry's outstanding action and clearing its flag leaves only that entry open to a start |
| Mqtt.ReconnectKeepsInvariant | src/lwipxx/mqtt.cc:79 | changing only reconnect retries keeps the invariant |
| Mqtt.QueueReconnectKeepsInvariant | src/lwipxx/mqtt.cc:103-105 | queueing a reconnect keeps the invariant |
| Mqtt.UnqueueRequestKeepsInvariant | src/lwipxx/mqtt.cc:208-210 | taking a completion out of the flight list and clearing its entry's flag opens only that entry |
| Mqtt.UnqueueReconnectKeepsInvariant | src/lwipxx/mqtt.cc:266-271 | taking a reconnect off the timer queue keeps the invariant |
| Mqtt.UnqueueRetryKeepsInvariant | src/lwipxx/mqtt.cc:244-246 | firing a subscription retry and clearing the flag opens only that entry |
| Mqtt.MarkStaleKeepsInvariant | src/lwipxx/mqtt.cc:76-78 | marking all entries stale keeps the invariant |
| Mqtt.CompletionFindsEntry | src/lwipxx/include/lwipxx/mqtt.h:102-105 | with the pending flag set on send, every request in flight refers to an entry still in the table |
| Mqtt.RetryFindsEntry | src/lwipxx/mqtt.cc:244-246 | with the pending flag set on send, every queued subscription retry refers to an entry still in the table |
| Mqtt.AtMostOneRequestInFlight | src/lwipxx/include/lwipxx/mqtt.h:102-105 | with the pending flag set on send, an entry has at most one request in flight, and none when its flag is clear |
| Mqtt.StartTransitionWithoutRequest | src/lwipxx/mqtt.cc:184-199 | with no request due, a start succeeds and sends nothing; a pending or wanted entry stays untouched, and an idle, unwanted and unsubscribed entry is erased |
| Mqtt.StartTransitionSends | src/lwipxx/mqtt.cc:213-227 | with a request due, a start sends one request in the wanted direction when lwIP accepts it, and otherwise counts a failure and returns the error |
| Mqtt.StaleEntriesAreResent | src/lwipxx/include/lwipxx/mqtt.h:115-118 | after a disconnect every idle entry has a request due, in the direction it wants |
| Mqtt.IssuedAllExactly | src/lwipxx/mqtt.cc:69-72 | a request is issued by the reconnect loop exactly when it is the request of an entry that had one due and whose send lwIP accepted |
| Mqtt.LastOnly | src/lwipxx/mqtt.cc:325 | the flag sequence of a publish in `n` chunks has `n` entries, of which only the last is `MQTT_DATA_FLAG_LAST` and all others are 0 |
| Mqtt.OneDeliveryPerPublish | src/lwipxx/mqtt.cc:320-347 | a publish fed in chunks with the last-fragment flag on the final one only is delivered once, as the concatenation of its chunks, and leaves nothing pending |
| Mqtt.HelloInTwoChunks | src/lwipxx/mqtt.cc:320-347 | `He` then `llo` delivers `Hello` once |
| Mqtt.FirstMatch | src/lwipxx/mqtt.cc:310-317 | the active subscription is the first entry whose filter matches and, when only wanted entries count, that still wants to be subscribed; there is none when no entry qualifies |
| Mqtt.NoneTaken | src/lwipxx/mqtt.cc:310-317 | when no entry qualifies, the scan runs to the end of the table and finds none |
| Mqtt.FirstMatchAt | src/lwipxx/mqtt.cc:310-315 | the first matching index is the one the scan stops at |
| Mqtt.OverrunBefore | src/lwipxx/mqtt.cc:310-311 | whether some filter scanned before the stop overruns a view |
| Mqtt.ScanFilters | src/lwipxx/mqtt.cc:310-317 | the scan finds the first qualifying entry and reports whether any filter it tried overran |
| Mqtt.TryFilter | src/lwipxx/mqtt.cc:311 | one turn of the scan: the entry is picked exactly when it qualifies, and its overrun is reported |
| Mqtt.MqttClient.constructor | src/lwipxx/include/lwipxx/mqtt.h:129 | a new client has no entries, no requests, no retries, no failures and no active subscription, and keeps the two readings it is given |
| Mqtt.MqttClient.FindSubscription | src/lwipxx/mqtt.cc:143-146 | the linear search returns the table index of the topic |
| Mqtt.MqttClient.StartTransition | src/lwipxx/mqtt.cc:182-228 | changes the table and the flight list as `StartEffect` says and restores the invariant |
| Mqtt.MqttClient.Settle | src/lwipxx/mqtt.cc:184-199 | the early returns: an entry waiting for a callback or already where it wants to be is left alone, unless it is unwanted and unsubscribed, when it is erased; the result is `Ok`, as `StartEffect` says |
| Mqtt.MqttClient.SendTransition | src/lwipxx/mqtt.cc:201-227 | a due request is queued in flight when lwIP accepts it, and otherwise the flag is cleared and the failure counted, as `StartEffect` says |
| Mqtt.MqttClient.WithBackoff | src/lwipxx/mqtt.cc:261-277 | queues one retry with the backoff delay of the current count and bumps the count |
| Mqtt.MqttClient.FinishTransition | src/lwipxx/mqtt.cc:230-248 | changes the state as `FinishEffect` says and restores the invariant |
| Mqtt.MqttClient.FinishAccepted | src/lwipxx/mqtt.cc:233-247 | a successful completion records the new state, starts the next transition and reschedules on failure |
| Mqtt.MqttClient.Reschedule | src/lwipxx/mqtt.cc:243-247 | marks the entry pending and queues its retry |
| Mqtt.MqttClient.CompleteRequest | src/lwipxx/mqtt.cc:208-211 | a completion removes its request and finishes its entry's transition; with the flag set on send it never dangles |
| Mqtt.MqttClient.Connect | src/lwipxx/mqtt.cc:83-106 | a refused connect queues a reconnect after a capped backoff; an accepted one changes nothing |
| Mqtt.MqttClient.Reconnected | src/lwipxx/mqtt.cc:79 | a lost connection queues a reconnect with a delay of at most 5000 ticks and bumps the count |
| Mqtt.MqttClient.FireRetry | src/lwipxx/mqtt.cc:266-271 | a due timer runs its action: a reconnect, or a restart of its entry; with the flag set on send it never dangles |
| Mqtt.MqttClient.RetryEntry | src/lwipxx/mqtt.cc:244-247 | a subscription retry clears the flag and restarts the transition |
| Mqtt.MqttClient.ConnectionCb | src/lwipxx/mqtt.cc:52-81 | on accept every idle entry is started in place; otherwise all entries are marked stale and a reconnect is queued |
| Mqtt.MqttClient.MarkAllStale | src/lwipxx/mqtt.cc:76-78 | the loop marks every entry stale and keeps the invariant |
| Mqtt.MqttClient.MarkEach | src/lwipxx/mqtt.cc:76-78 | the loop turns the table into `MarkStale` of the old table, entry by entry |
| Mqtt.MqttClient.Resubscribe | src/lwipxx/mqtt.cc:69-72 | the loop reconciles every entry and issues exactly the requests `IssuedAll` names, in order |
| Mqtt.MqttClient.ResubscribeOne | src/lwipxx/mqtt.cc:70-71 | one turn of the reconnect loop: skip a pending entry, otherwise start it in place |
| Mqtt.MqttClient.Subscribe | src/lwipxx/mqtt.cc:138-165 | changes the state as `SubscribeEffect` says, keeps the invariant, and uses a fresh id only for a new topic |
| Mqtt.MqttClient.AddSubscription | src/lwipxx/mqtt.cc:155-164 | a fresh topic gets the next id, and its entry joins the table, with its request in flight, only when lwIP accepts the request; the invariant is kept |
| Mqtt.MqttClient.Unsubscribe | src/lwipxx/mqtt.cc:167-180 | changes the state as `UnsubscribeEffect` says and keeps the invariant; in the reading that honours `Unsubscribe`, the active subscription is dropped when it is the entry unsubscribed, and otherwise it is kept |
| Mqtt.MqttClient.StopWanting | src/lwipxx/mqtt.cc:175-176 | the entry found stops wanting to be subscribed and its transition starts, as `UnsubscribeEffect` says, keeping the invariant |
| Mqtt.MqttClient.ForgetActive | src/lwipxx/include/lwipxx/mqtt.h:74-76 | the active subscription is dropped exactly when the reading honours `Unsubscribe` and it is the given entry |
| Mqtt.MqttClient.ChangeTopic | src/lwipxx/mqtt.cc:308-318 | the active subscription becomes the first qualifying entry, with its topic, or none; overruns are reported; in the reading that honours `Unsubscribe`, the active entry still wants to be subscribed |
| Mqtt.MqttClient.ReceiveMessage | src/lwipxx/mqtt.cc:320-347 | with no active subscription nothing happens; otherwise a chunk is buffered until the last fragment, which delivers the whole message once and empties the buffer |
| MqttScenarios.FirstSubscribe | src/lwipxx/mqtt.cc:155-164 | subscribing to a fresh topic adds one entry with one request in flight |
| MqttScenarios.AsWrittenUnsubscribeErasesWaitingEntry | src/lwipxx/mqtt.cc:213-227 | as written, unsubscribing before the broker answers erases the entry while its request is in flight |
| MqttScenarios.AsWrittenResubscribeSendsTwice | src/lwipxx/mqtt.cc:147-152 | as written, subscribing twice before the answer leaves two requests in flight for one entry |
| MqttScenarios.SecondSubscribe | src/lwipxx/mqtt.cc:147-152 | a second `Subscribe` of a known topic updates the entry and, as written, sends again |
| MqttScenarios.FixedUnsubscribeKeepsWaitingEntry | src/lwipxx/include/lwipxx/mqtt.h:102-105 | with the flag set on send, the same unsubscribe keeps the entry and sends nothing more |
| MqttScenarios.FixedStartsConsistent | src/lwipxx/include/lwipxx/mqtt.h:161 | the empty table satisfies the invariant |
| MqttScenarios.AsWrittenClientDangles | src/lwipxx/mqtt.cc:208-210 | on the as-written client, the completion after subscribe and unsubscribe finds its entry gone |
| MqttScenarios.FixedClientFindsEntry | src/lwipxx/mqtt.cc:208-210 | on the corrected client, the same completion finds its entry |
| MqttScenarios.ConfirmSubscribeA | src/lwipxx/mqtt.cc:230-237 | the broker's confirmation of the subscribe marks the entry subscribed and leaves nothing in flight or queued |
| MqttScenarios.UnsubscribeSubscribedA | src/lwipxx/mqtt.cc:167-180 | unsubscribing a confirmed entry sends one unsubscribe request and leaves the entry waiting for its answer |
| MqttScenarios.PickA | src/lwipxx/mqtt.cc:310-317 | a publish on `a` picks the leaving entry as written and passes over it when only wanted entries count |
| MqttScenarios.OneChunk | src/lwipxx/mqtt.cc:325-346 | a single chunk with the last-fragment flag is handed over whole and leaves nothing buffered |
| MqttScenarios.AsWrittenHandlerCalledAfterUnsubscribe | src/lwipxx/include/lwipxx/mqtt.h:74-76 | as written, once `Unsubscribe("a")` has returned, a publish on `a` still calls the handler, once |
| MqttScenarios.FixedHandlerNotCalledAfterUnsubscribe | src/lwipxx/include/lwipxx/mqtt.h:74-76 | in the reading that honours `Unsubscribe`, neither a publish begun before it returned nor one after reaches the handler |
| Mqtt.Reconcile | src/lwipxx/mqtt.cc:184-227 | a start that keeps its entry changes only the pending flag and the failure count, and nothing when no request is due |
| Mqtt.FinishEffect | src/lwipxx/mqtt.cc:230-248 | `FinishTransition` adds at most one retry, after those already queued; a failed completion adds exactly one and sends nothing |
| Mqtt.FinishOutcome | src/lwipxx/mqtt.cc:230-248 | when the completion or the follow-up start fails, the entry stays, waits again (`has_pending_callback` true), is subscribed as confirmed or as before, and exactly one retry for it joins the end of the queue; when both succeed, the entry is marked idle and in the confirmed state, the follow-up start runs on it, and no retry is queued |
| Mqtt.Rescheduled | src/lwipxx/mqtt.cc:243-247 | the entry waits again, nothing is sent, and exactly one retry for that entry joins the end of the queue |
| Mqtt.RetrySubscriptionEffect | src/lwipxx/mqtt.cc:244-246 | a fired subscription retry queues no further retry of its own |
| Mqtt.RetryRestarts | src/lwipxx/mqtt.cc:244-246 | because the retry clears the flag before `StartTransition`, an entry not in the state it wants gets its request sent: in flight when lwIP accepts it, one more failure when lwIP refuses it |
| Mqtt.Reassemble | src/lwipxx/mqtt.cc:320-346 | a chunk hands over at most one message, exactly when it carries the last-fragment flag, and then nothing stays buffered; no byte is lost or added |
| Mqtt.ConnectOptions | src/lwipxx/mqtt.cc:84-93 | the will is always sent best effort and retained |
| HomeAssistant.Document | src/homeassistant/include/homeassistant/homeassistant.h:30-33 | a finished message starts with `{` and ends with `}`, in both readings |
| HomeAssistant.OpenTextShape | src/homeassistant/include/homeassistant/homeassistant.h:28-69 | the builder's text always starts with `{`, and with no dictionary open one more `}` gives the document of the fields written |
| HomeAssistant.DocumentIsObject | src/homeassistant/include/homeassistant/homeassistant.h:60-69 | when nested dictionaries open a brace, a finished document is the rendering of one JSON object |
| HomeAssistant.AddedAll | src/homeassistant/include/homeassistant/homeassistant.h:35-58 | writing fields adds them to the innermost open dictionary and leaves the outer ones alone |
| HomeAssistant.RenderFieldsAppend | src/homeassistant/include/homeassistant/homeassistant.h:72-77 | a field appended after others is separated by `, ` |
| HomeAssistant.OpenTextAdd | src/homeassistant/include/homeassistant/homeassistant.h:35-41 | the text of the open document grows by exactly the rendering of an added field |
| HomeAssistant.OpenTextEnter | src/homeassistant/include/homeassistant/homeassistant.h:60-64 | entering a dictionary appends its key and, in the corrected reading only, a brace |
| HomeAssistant.OpenTextExit | src/homeassistant/include/homeassistant/homeassistant.h:66-69 | closing a dictionary appends `}` and turns the innermost level into one field of its parent |
| HomeAssistant.JsonBuilder.constructor | src/homeassistant/include/homeassistant/homeassistant.h:28 | a new builder holds `{` and no fields |
| HomeAssistant.JsonBuilder.Key | src/homeassistant/include/homeassistant/homeassistant.h:72-77 | writes a separator when one is wanted, then the quoted key and `: ` |
| HomeAssistant.JsonBuilder.KvString | src/homeassistant/include/homeassistant/homeassistant.h:35-41 | appends a string field to the innermost dictionary and to the text |
| HomeAssistant.JsonBuilder.AppendQuoted | src/homeassistant/include/homeassistant/homeassistant.h:37-39 | the value is appended between two quotes, with no escaping |
| HomeAssistant.JsonBuilder.KvBool | src/homeassistant/include/homeassistant/homeassistant.h:49-53 | appends a boolean field as `true` or `false` |
| HomeAssistant.JsonBuilder.KvIfString | src/homeassistant/include/homeassistant/homeassistant.h:55-58 | writes the field when the value is present and otherwise changes nothing |
| HomeAssistant.JsonBuilder.EnterDict | src/homeassistant/include/homeassistant/homeassistant.h:60-64 | opens a new innermost dictionary under the key; the text gains a brace only in the corrected reading |
| HomeAssistant.JsonBuilder.ExitDict | src/homeassistant/include/homeassistant/homeassistant.h:66-69 | appends `}`, and when a dictionary is open it becomes a field of its parent |
| HomeAssistant.JsonBuilder.Finish | src/homeassistant/include/homeassistant/homeassistant.h:30-33 | appends `}`; with no dictionary open the result is the document of the fields written |
| HomeAssistant.OptionalField | src/homeassistant/include/homeassistant/homeassistant.h:55-58 | `KvIf` contributes one field exactly when the value is present |
| HomeAssistant.BalanceAppend | src/homeassistant/include/homeassistant/homeassistant.h:30-69 | the brace balance of concatenated text is the sum of the balances |
| HomeAssistant.ValueBalance | src/homeassistant/include/homeassistant/homeassistant.h:60-69 | a rendered value is balanced in the corrected reading, and as written it has one more `}` than `{` per nested dictionary |
| HomeAssistant.FieldsBalance | src/homeassistant/include/homeassistant/homeassistant.h:60-69 | the same for a list of fields |
| HomeAssistant.DocumentBalance | src/homeassistant/include/homeassistant/homeassistant.h:28-69 | a finished document is balanced in the corrected reading and unbalanced by the number of nested dictionaries as written |
| HomeAssistant.AvailabilityBlockBalance | src/homeassistant/homeassistant.cc:29-34 | a document holding only the availability dictionary has one unmatched `}` as written and none when corrected |
| HomeAssistant.SingleField | src/homeassistant/include/homeassistant/homeassistant.h:35-69 | a one-field list is brace-free exactly when its key and value are |
| HomeAssistant.StringFieldsArePlain | src/homeassistant/include/homeassistant/homeassistant.h:35-41 | string fields with brace-free keys and texts add no nested dictionary |
| HomeAssistant.NewCommonDeviceInfo | src/homeassistant/include/homeassistant/homeassistant.h:132-145 | a new device info has only its unique id and is always available |
| HomeAssistant.BaseTopic | src/homeassistant/include/homeassistant/homeassistant.h:151-163 | the base topic ends with the unique id |
| HomeAssistant.DeviceRootTopic | src/homeassistant/homeassistant.cc:36-41 | the root topic is the base topic under `homeassistant/` |
| HomeAssistant.AbsoluteChannel | src/homeassistant/homeassistant.cc:43-51 | an absolute channel is the root topic, a `/` and the suffix |
| HomeAssistant.RelativeChannel | src/homeassistant/homeassistant.cc:53-55 | expanded against any base topic, a relative channel is that base, a `/` and the suffix |
| HomeAssistant.ChannelsAgree | src/homeassistant/homeassistant.cc:36-55 | the root topic is the base topic under `homeassistant/`, and a relative channel expanded against it is the absolute channel |
| HomeAssistant.BaseTopicEndsWithId | src/homeassistant/include/homeassistant/homeassistant.h:151-163 | the base topic ends with the unique id, after `component/` exactly when there is a component |
| HomeAssistant.SetAvailablityLwt | src/homeassistant/homeassistant.cc:22-27 | the will becomes the availability topic with `offline`, best effort and retained; the broker, client id and credentials are kept |
| HomeAssistant.AvailabilityWillIsSent | src/homeassistant/homeassistant.cc:22-27 | the will these settings describe is the one `Connect` hands to lwIP |
| HomeAssistant.AddAvailabilityDiscovery | src/homeassistant/homeassistant.cc:29-34 | adds one `availability` dictionary with the topic and both payloads, and the text grows by its rendering |
| HomeAssistant.FilledLevel | src/homeassistant/homeassistant.cc:31-33 | three fields written into a fresh dictionary fill it in order |
| HomeAssistant.AfterCloseOfEntered | src/homeassistant/homeassistant.cc:30 | closing a dictionary just entered adds it as one field of its parent |
| HomeAssistant.CommonInfoFields | src/homeassistant/homeassistant.cc:67-72 | the common fields start with `~`, always hold the unique id, and hold a name or device class exactly when the info has one |
| HomeAssistant.AddCommonInfo | src/homeassistant/homeassistant.cc:67-72 | adds exactly the common fields to the innermost dictionary |
| HomeAssistant.StateToPayload | src/homeassistant/include/homeassistant/homeassistant.h:280-294 | the payload is `closed` exactly for the closed and the stopped state |
| HomeAssistant.ReceiveCommand | src/homeassistant/include/homeassistant/homeassistant.h:307-314 | a dispatched command's text is a prefix of the payload |
| HomeAssistant.StatePayloadsCollide | src/homeassistant/include/homeassistant/homeassistant.h:271-294 | two cover states publish the same payload exactly when they are equal or are closed and stopped |
| HomeAssistant.ReceiveCommandByPrefix | src/homeassistant/include/homeassistant/homeassistant.h:307-316 | a payload dispatches a command exactly when it begins with that command's text, and none when it begins with no command text |
| Disp4Digit.SegmentsHaveNoDot | src/disp4digit/disp4digit.cc:19-23 | no segment pattern lights the decimal point |
| Disp4Digit.SegmentsDistinct | src/disp4digit/disp4digit.cc:20-23 | the ten digit patterns are pairwise different |
| Disp4Digit.Mask | src/disp4digit/disp4digit.cc:15-18 | `DigitToMask` panics exactly on digits above 9 |
| Disp4Digit.MaskBits | src/disp4digit/disp4digit.cc:19-24 | a mask lights the dot exactly when asked and otherwise holds the digit's pattern |
| Disp4Digit.MaskInjective | src/disp4digit/disp4digit.cc:20-24 | the mask determines both the digit and the dot |
| Disp4Digit.PlaceByte | src/disp4digit/disp4digit.cc:32-35 | or-ing a mask shifted by `24 - 8i` into a word sets byte `3 - i` and keeps the others |
| Disp4Digit.BytesDetermineWord | src/disp4digit/disp4digit.cc:29-37 | a 32-bit word is determined by its four bytes |
| Disp4Digit.OrPlacedBytes | src/disp4digit/disp4digit.cc:29-36 | after `k` turns the word's byte `b` holds mask `3 - b` when that mask was placed, and 0 otherwise |
| Disp4Digit.OrPlacedSnoc | src/disp4digit/disp4digit.cc:35 | one more turn ors the next mask, shifted into place, into the word |
| Disp4Digit.DigitToMask4 | src/disp4digit/disp4digit.cc:27-38 | the packed word fails exactly when a digit is above 9, and otherwise byte `b` holds the mask of digit `3 - b`, with the dot when `b` is the decimal position |
| Disp4Digit.MasksPacked | src/disp4digit/disp4digit.cc:29-36 | the four masks the loop computes land in reversed byte order |
| Disp4Digit.OneDecimalPoint | src/disp4digit/disp4digit.cc:33-34 | at most one byte lights the dot, and one does exactly when the decimal position is 0 to 3 |
| Disp4Digit.ExtractDigits | src/disp4digit/disp4digit.cc:76-80 | four digits, each at most 9 |
| Disp4Digit.SentByte | src/disp4digit/disp4digit.cc:89 | select pin 0 gets bits 24 to 31 of the word, pin 1 bits 16 to 23, pin 2 bits 8 to 15 and pin 3 bits 0 to 7 |
| Disp4Digit.ExtractedDigitsAreDecimal | src/disp4digit/disp4digit.cc:76-80 | the four digits are decimal and spell the value modulo 10000 |
| Disp4Digit.Refresh | src/disp4digit/disp4digit.cc:75-89 | one pass sends four bytes, the thousands digit first, each the mask of its digit with the dot exactly at the decimal position |
| Ssprintf.Repeat | src/util/ssprintf_test.cc:36 | `n` copies of a character |
| Ssprintf.StdString.constructor | src/util/include/util/ssprintf.h:31 | an empty string with the given capacity |
| Ssprintf.StdString.Resize | src/util/include/util/ssprintf.h:39 | `resize` truncates or pads with NUL, keeps the buffer when the size fits, and otherwise reallocates to at least twice the capacity |
| Ssprintf.StdString.Fill | src/util/ssprintf_test.cc:30 | every character becomes the given one |
| Ssprintf.StdString.Snprintf | src/util/include/util/ssprintf.h:47-48 | returns the length of the formatted text, or -1 on an encoding error, and writes at most `n - 1` characters and a NUL |
| Ssprintf.StdString.CopyText | src/util/include/util/ssprintf.h:47-48 | the first `k` characters of the text replace those from the offset on, and the rest of the buffer is unchanged |
| Ssprintf.StdString.Ssappendf | src/util/include/util/ssprintf.h:36-57 | succeeds exactly when formatting succeeds, and the string is then its old contents followed by the text, whatever the capacity |
| Ssprintf.StdString.PrintIntoSpare | src/util/include/util/ssprintf.h:38-48 | the first print fills the spare capacity, keeps the old contents, and holds the whole text when it fits |
| Ssprintf.StdString.FitToPrinted | src/util/include/util/ssprintf.h:52-56 | resizing to the printed length, and printing again when the first print was cut short, leaves exactly the old contents and the text |
| Ssprintf.StdString.Rewrite | src/util/include/util/ssprintf.h:53-56 | the second print into the resized string leaves exactly the old contents followed by the text |
| Ssprintf.FirstWrite | src/util/include/util/ssprintf.h:41-48 | the one-slot fib to `snprintf` only ever overwrites the terminating NUL |
| Ssprintf.SecondWrite | src/util/include/util/ssprintf.h:53-56 | the second print writes the whole text after the old contents |
| Ssprintf.Ssprintf | src/util/include/util/ssprintf.h:29-34 | `ssprintf` returns exactly the formatted text |
| Ssprintf.AppendCopies | src/util/ssprintf_test.cc:33-35 | appending `k` times gives the old contents followed by `k` copies |
| Ssprintf.AppendTest | src/util/ssprintf_test.cc:13-24 | `hello 42` on an empty string, and `abc hello 42` after `abc ` |
| Ssprintf.GrowthTest | src/util/ssprintf_test.cc:26-49 | half the capacity in spaces, followed by `42` for each remaining slot, is what the growth loop leaves |
| Arduino.ToLower | src/arduino/Arduino.cc:32 | the result is never an upper-case letter, and only upper-case letters change |
| Arduino.EqualRange | src/arduino/Arduino.cc:31-32 | two equal ranges compare equal |
| Arduino.ToLowerFacts | src/arduino/Arduino.cc:32 | `tolower` changes exactly the upper-case letters, sends them in order onto `a` to `z`, and is idempotent |
| Arduino.Lower | src/arduino/Arduino.cc:32 | the position-by-position lower-cased string |
| Arduino.EqualRangePointwise | src/arduino/Arduino.cc:31-32 | the `std::equal` walk succeeds exactly when every pair agrees after `tolower` |
| Arduino.LengthMismatch | src/arduino/Arduino.cc:30 | strings of different lengths never compare equal |
| Arduino.EqualsIgnoreCasePointwise | src/arduino/Arduino.cc:29-33 | equal-length strings compare equal exactly when every position agrees up to case |
| Arduino.EqualsIgnoreCaseIsLowerEqual | src/arduino/Arduino.cc:29-33 | the comparison holds exactly when the lower-cased strings are equal |
| Arduino.EqualsIgnoreCase | src/arduino/Arduino.cc:29-33 | every string equals itself |
| Arduino.Symmetric | src/arduino/Arduino.cc:29-33 | the order of the operands does not matter |
| Arduino.Transitive | src/arduino/Arduino.cc:29-33 | two strings equal to a third up to case are equal to each other |
| Arduino.Examples | src/arduino/Arduino.cc:29-33 | `ON` equals `on` and `Off` equals `oFF`, but not `on `, and `[` does not equal `{` |

## Left out

- `MqttClient::Create`, the destructor and `Publish` are left out. They are lwIP and FreeRTOS plumbing: address resolution, `mqtt_client_free`, and a publish that blocks on an event group. The model has no state they change.
- lwIP's results are `Err` arguments of the methods. `LOCK_TCPIP_CORE` is left out because the model is single-threaded, as the tcpip thread is.
- `xTimerPendFunctionCall` becomes a queued `Retry` with its delay. Timers fire when the environment calls `FireRetry`, in any order. The passage of time is not modelled.
- `pdMS_TO_TICKS` is taken as one tick per millisecond, the FreeRTOS default tick rate.
- `std::log(max/min) / std::log(2)` is replaced by the integer `FloorLog2`. For the constant 20 the floating-point quotient truncates to the same 4.
- `mqtt_set_inpub_callback`, the `MQTTDBG` traces and `printf` are left out. So are the `total_length` argument of `ChangeTopic` (never read) and the `shutdown_` flag (never set).
- A `DataHandler` is an opaque number, and a call to it is a `Delivery` recorded in `delivered`.
- The failure-handling argument of `StartTransition` is modelled, but the source never reads it.
- Backoff.Backoff: a count that reaches 32 through the uncapped `++sub.failed_requests` (mqtt.cc:225) gives `None`, which stands for undefined behaviour. The source has no value for it.
- Mqtt.CompletionFindsEntry: proved only for the reading that sets the pending flag on send. As written it fails; see "## Findings".
- Mqtt.AtMostOneRequestInFlight: proved only for the reading that sets the pending flag on send. As written it fails (`MqttScenarios.AsWrittenResubscribeSendsTwice`).
- Mqtt.RetryFindsEntry: proved only for the reading that sets the pending flag on send.
- Mqtt.MqttClient.ChangeTopic: the promise of mqtt.h:74-76 is proved per call for the reading that honours `Unsubscribe` (the active entry wants to be subscribed, and `Unsubscribe` drops the active subscription when it is the entry unsubscribed). It is shown for a whole run only on the scenario `MqttScenarios.FixedHandlerNotCalledAfterUnsubscribe`, not for every sequence of calls. "While Unsubscribe is running" has no meaning in the single-threaded model.
- Topic.ClampedMatchIsSound: proved only for well-formed filters on runs without overrun. A run that overruns is undefined behaviour in the source. Completeness does not hold (`Topic.HashRejectsParentLevel`).
- Topic.WildcardFreeMatchesIffEqual: the direction from match to equality needs a run without overrun. `a` matches `a/` on the clamped reading (`Topic.OverrunExamples`).
- `HomeAssistantService` is left out. That includes `GetAvailabilityTopic`, `SetAvailabilityLWT`, `Connect`, `AddDevice`, `Announce` and `Subscribe`. It does not compile as shown (it refers to undeclared `mqtt_client` and `root_topic`), and it is not part of this model.
- `AvailabilityTopic()` formats the board's unique id read from flash. It is a parameter here.
- `PublishAvailable`, `SetAvailable`, `Publish`, `PublishState`, `SetState` and `SetPublisher` are left out. They only hand messages to the MQTT client.
- `DeviceBase::AppendCommonDiscoveryEntries` (homeassistant.h:209-219) is left out. It repeats the availability block of `AddAvailabilityDiscovery` with the relative topic, so the same brace finding applies.
- `JsonBuilder::Kv(key, double)` is left out. `std::to_string` of a double is floating-point formatting.
- `AddCoverInfo` is left out. It refers to `topic_suffix` and `cover_payloads`, which are not part of this model.
- The `Cleanup` object that `EnterDict` returns is modelled as the caller calling `ExitDict` at the end of the scope.
- HomeAssistant.JsonBuilder.ExitDict: with no dictionary open, only the text is specified. The source then writes a stray `}`, and the field structure has no meaning.
- HomeAssistant.SetAvailablityLwt: the source updates the `ConnectInfo` in place through a reference. The model returns the updated value. There is no aliasing to capture.
- HomeAssistant.DeviceRootTopic requires a component, because the source dereferences `info.component` unchecked.
- HomeAssistant.DeviceRootTopic: the source formats `component->data()` and `unique_id.data()` with `%s` (homeassistant.cc:38-40), which reads each view up to its first NUL, not up to its size. The model takes each view to end with a NUL right after its size and to hold no NUL inside. The C-string reading of a view that is not so terminated is not modelled; for such a view the source may read past its end.
- HomeAssistant.ChannelsAgree: holds under the same assumption on the views as `HomeAssistant.DeviceRootTopic`. `BaseTopic` formats with `%.*s` and the sizes, so without that assumption the root topic and the base topic can differ.
- HomeAssistant.AbsoluteChannel: inherits the assumption on the views from `HomeAssistant.DeviceRootTopic`.
- `Cover::ReceiveMessage`'s trailing `printf` is output only, so it is left out. It prints "unexpected command payload" even after a command was dispatched.
- The `Disp4Digit` constructor, destructor, GPIO calls, `vTaskDelay`, the shutdown event bits and the endless task loop are left out. `Refresh` is one pass of the loop body, lines 75-89.
- The `off` field of `DisplayValue` is carried but has no effect, because `DriveTask` never reads it. `FromFloat` and `FromInt` are declared in the header but not defined in disp4digit.cc, so they are left out.
- `snprintf`'s formatting is abstracted: the formatted text is an `Option<seq<char>>` argument, and `None` stands for an encoding error.
- Ssprintf.StdString.Ssappendf: on an encoding error the source panics. The model returns `ok == false`, and the contents are then left unspecified.
- The `std::string` growth policy is taken as `max(n, 2 * capacity)`, the libstdc++ one. The initial capacity, which is 15 in libstdc++, is a parameter.
- `tolower` is that of the "C" locale. Other locales and negative `char` values are left out; the latter are undefined behaviour for `tolower`.
- The rest of the Arduino layer (`Serial`, `EEPROM`, `delay`, pins) is I/O and is left out.

## Findings

| source | as written | input that shows it | evidently intended | confidence | as-written member | corrected member |
|---|---|---|---|---|---|---|
| src/lwipxx/mqtt.cc:213-227 | after `mqtt_sub_unsub` accepts a request, `has_pending_callback` stays false, so the entry can be started again or erased while its request is in flight | `Subscribe("a")`, then `Unsubscribe("a")` before the broker answers: the entry is erased and the completion's `TransitionArg` refers to freed memory | set `has_pending_callback = true` when the request is sent, as mqtt.h:102-105 says ("each time we take an action") | not executed | MqttScenarios.AsWrittenUnsubscribeErasesWaitingEntry | Mqtt.CompletionFindsEntry |
| src/homeassistant/include/homeassistant/homeassistant.h:60-64 | `EnterDict` writes the key and `: ` but no `{`, while `ExitDict` writes `}` | `AddAvailabilityDiscovery` on a fresh builder, then `Finish`: the document has one unmatched `}` | `EnterDict` writes `{` after the key | not executed | HomeAssistant.AvailabilityBlockBalance | HomeAssistant.DocumentBalance |
| src/lwipxx/include/lwipxx/mqtt.h:74-76 | `Unsubscribe` only clears `want_subscribed` (mqtt.cc:175); `ChangeTopic` (mqtt.cc:310-315) still picks the entry while the broker has not answered, and `active_subscription_` keeps pointing at it | `Subscribe("a")`, the broker confirms, `Unsubscribe("a")` returns, then a publish on `a` arrives: its handler is called | the handler is not called once `Unsubscribe` has returned: `ChangeTopic` skips entries that no longer want to be subscribed and `Unsubscribe` drops the active subscription when it is that entry | not executed | MqttScenarios.AsWrittenHandlerCalledAfterUnsubscribe | MqttScenarios.FixedHandlerNotCalledAfterUnsubscribe |
