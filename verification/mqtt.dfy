/**
 * The subscription and receive engine of `lwipxx::MqttClient`.
 *
 * The client keeps a table of subscriptions and tries to make each entry's
 * `is_subscribed` equal its `want_subscribed` by sending subscribe and
 * unsubscribe requests through lwIP. lwIP's answers (a request's completion, a
 * connection status change, a timer firing, a chunk of an incoming publish) are
 * methods the environment calls, with the outcome of each lwIP call passed in
 * as an `Err` argument.
 *
 * The source's closures and `active_subscription_` hold raw pointers to table
 * entries. Here every entry carries an identity `id` (its allocation), and a
 * request, a retry or the active subscription refers to an entry by that id.
 * An id that is no longer in the table is the source's dangling pointer; the
 * methods report it as `Dangling` and change nothing the source would not.
 *
 * `marksPending` selects between the source as written (`false`: a request that
 * was sent leaves `has_pending_callback` false) and the lifecycle the header
 * describes (`true`: "each time we take an action, we set has_pending_callback
 * to true"). The invariant that at most one action is outstanding per entry,
 * and that no callback finds its entry gone, is proved for `true` only.
 */
module Mqtt {
  import opened Wrappers
  import Topic
  import Backoff

  // ---------------------------------------------------------------------------
  // Values of the header
  // ---------------------------------------------------------------------------

  /** `MqttClient::Qos`. */
  datatype Qos = BestEffort | AtLeastOnce | AtMostOnce

  /** The `uint8_t` a `Qos` is sent as. */
  function QosByte(q: Qos): (b: bv8)
    ensures b <= 2
  {
    match q
    case BestEffort => 0
    case AtLeastOnce => 1
    case AtMostOnce => 2
  }

  /** The `Qos` a byte stands for, if any. */
  function QosOfByte(b: bv8): (q: Option<Qos>)
    ensures q.Some? <==> b <= 2
  {
    if b == 0 then Some(BestEffort)
    else if b == 1 then Some(AtLeastOnce)
    else if b == 2 then Some(AtMostOnce)
    else None
  }

  /** Sending a `Qos` as a byte loses nothing, and every byte up to 2 is a `Qos`. */
  lemma QosByteRoundTrip(q: Qos, b: bv8)
    ensures QosOfByte(QosByte(q)) == Some(q)
    ensures b <= 2 ==> QosByte(QosOfByte(b).value) == b
  {
  }

  /** An lwIP `err_t`: `ERR_OK` or one of the negative error codes. */
  datatype Err = Ok | Fail(code: int)

  /** `MqttClient::ConnectInfo`; the broker address is kept in its textual form. */
  datatype ConnectInfo = ConnectInfo(
    broker: string,
    brokerPort: nat,
    clientId: string,
    user: string,
    password: string,
    lwtTopic: string,
    lwtMessage: string,
    lwtQos: Qos,
    lwtRetain: bool)

  /** A `ConnectInfo` with every member at its default. */
  function DefaultConnectInfo(): (c: ConnectInfo)
    ensures c.brokerPort == 1883 && c.lwtQos == BestEffort && c.lwtRetain
    ensures c.broker == "" && c.clientId == "" && c.lwtTopic == "" && c.lwtMessage == ""
  {
    ConnectInfo("", 1883, "", "", "", "", "", BestEffort, true)
  }

  /** The `mqtt_connect_client_info_t` that `Connect` hands to lwIP. */
  datatype ClientOptions = ClientOptions(
    clientId: string,
    user: string,
    password: string,
    keepAlive: nat,
    willTopic: string,
    willMessage: string,
    willQos: bv8,
    willRetain: bv8)

  function ConnectOptions(info: ConnectInfo): (o: ClientOptions)
    ensures QosOfByte(o.willQos) == Some(BestEffort) && o.willRetain != 0
  {
    ClientOptions(info.clientId, info.user, info.password, 60,
                  info.lwtTopic, info.lwtMessage, 0, 1)
  }

  /** `Connect` passes the will's topic and message through but not its QoS or
    * retain flag: the options are those of a best-effort retained will whatever
    * `lwt_qos` and `lwt_retain` say, so they describe the configured will
    * exactly when those two are at their defaults. */
  lemma ConnectIgnoresWillQosAndRetain(info: ConnectInfo, q: Qos, retain: bool)
    ensures ConnectOptions(info.(lwtQos := q, lwtRetain := retain)) == ConnectOptions(info)
    ensures ConnectOptions(info).willTopic == info.lwtTopic && ConnectOptions(info).willMessage == info.lwtMessage
    ensures ConnectOptions(info).keepAlive == 60
    ensures (ConnectOptions(info).willQos == QosByte(info.lwtQos) &&
             ConnectOptions(info).willRetain == (if info.lwtRetain then 1 else 0))
            <==> info.lwtQos == BestEffort && info.lwtRetain
  {
  }

  // ---------------------------------------------------------------------------
  // Subscriptions and the reconciler's decision
  // ---------------------------------------------------------------------------

  /** `MqttClient::Subscription`; `id` is the entry's identity (its address in
    * the source), `handler` names the `DataHandler`. */
  datatype Subscription = Subscription(
    id: nat,
    topic: string,
    qos: Qos,
    handler: nat,
    failedRequests: nat,
    hasPendingCallback: bool,
    wantSubscribed: bool,
    isSubscribed: bool)

  /** A freshly made entry: the header's member defaults. */
  function NewSubscription(id: nat, topic: string, qos: Qos, handler: nat): (s: Subscription)
    ensures s.id == id && s.topic == topic && s.qos == qos && s.handler == handler
    ensures s.failedRequests == 0 && !s.hasPendingCallback && s.wantSubscribed && !s.isSubscribed
  {
    Subscription(id, topic, qos, handler, 0, false, true, false)
  }

  /** `TransitionFailureHandling`; `StartTransition` never reads it. */
  datatype FailureHandling = AllowPermanentError | RetryAllErrors

  /** An entry that wants to be unsubscribed, is, and waits for nothing. */
  predicate Garbage(s: Subscription)
  {
    !s.hasPendingCallback && !s.wantSubscribed && !s.isSubscribed
  }

  /** What `StartTransition` does with an entry. */
  datatype Action = NoAction | EraseEntry | SendRequest(isSubscribe: bool)

  function NextAction(s: Subscription): (a: Action)
    ensures a.SendRequest? <==> !s.hasPendingCallback && s.wantSubscribed != s.isSubscribed
    ensures a.SendRequest? ==> a.isSubscribe == s.wantSubscribed
    ensures a == EraseEntry <==> Garbage(s)
  {
    if s.hasPendingCallback then NoAction
    else if s.wantSubscribed == s.isSubscribed then
      (if !s.wantSubscribed then EraseEntry else NoAction)
    else SendRequest(s.wantSubscribed)
  }

  /** A subscribe or unsubscribe request lwIP holds, with the `TransitionArg`
    * it will hand back: the entry and the direction. */
  datatype Request = Request(subscription: nat, topic: string, qos: Qos, isSubscribe: bool)

  function RequestFor(s: Subscription): Request
  {
    Request(s.id, s.topic, s.qos, s.wantSubscribed)
  }

  /** The entry after `mqtt_sub_unsub` answered `sent`. */
  function AfterSend(s: Subscription, sent: Err, marks: bool): (s': Subscription)
    ensures s'.id == s.id && s'.topic == s.topic && s'.qos == s.qos && s'.handler == s.handler
    ensures s'.wantSubscribed == s.wantSubscribed && s'.isSubscribed == s.isSubscribed
    ensures sent.Ok? ==> s'.hasPendingCallback == marks && s'.failedRequests == s.failedRequests
    ensures sent.Fail? ==> !s'.hasPendingCallback && s'.failedRequests == s.failedRequests + 1
  {
    if sent.Ok? then s.(hasPendingCallback := marks)
    else s.(hasPendingCallback := false, failedRequests := s.failedRequests + 1)
  }

  /** The entry after a `StartTransition` that does not erase it. */
  function Reconcile(s: Subscription, sent: Err, marks: bool): (r: Subscription)
    ensures r == s.(hasPendingCallback := r.hasPendingCallback, failedRequests := r.failedRequests)
    ensures !NextAction(s).SendRequest? ==> r == s
  {
    if NextAction(s).SendRequest? then AfterSend(s, sent, marks) else s
  }

  /** The requests such a `StartTransition` leaves with lwIP. */
  function IssuedBy(s: Subscription, sent: Err): (rs: seq<Request>)
    ensures |rs| <= 1
    ensures |rs| == 1 <==> NextAction(s).SendRequest? && sent.Ok?
  {
    if NextAction(s).SendRequest? && sent.Ok? then [RequestFor(s)] else []
  }

  /** What such a `StartTransition` returns. */
  function StartResult(s: Subscription, sent: Err): (e: Err)
    ensures e.Fail? <==> NextAction(s).SendRequest? && sent.Fail?
  {
    if NextAction(s).SendRequest? then sent else Ok
  }

  // ---------------------------------------------------------------------------
  // Scheduled retries
  // ---------------------------------------------------------------------------

  /** What a `WithBackoff` closure does when its timer fires. */
  datatype RetryTarget = RetrySubscription(subscription: nat) | Reconnect

  /** A `xTimerPendFunctionCall` waiting to run, with the ticks it waits;
    * `None` when the shift in `Backoff` is undefined. */
  datatype Retry = Retry(target: RetryTarget, delay: Option<nat>)

  function ClientCap(): nat
  {
    Backoff.AttemptCap(Backoff.MinBackoffTicks, Backoff.MaxBackoffTicks)
  }

  /** `Backoff<250, 5000>`'s delay for a count. */
  function ClientDelay(attempts: nat): Option<nat>
  {
    Backoff.ShiftLeft(Backoff.MinBackoffTicks, attempts)
  }

  /** The count `Backoff<250, 5000>` leaves behind. */
  function Bumped(attempts: nat): nat
  {
    if attempts < ClientCap() then attempts + 1 else attempts
  }

  /** Counts that start within the cap stay there and get a delay of at most
    * 5000 ticks; that holds for `connect_failures_`, which only `Backoff` bumps. */
  lemma BumpedStaysCapped(attempts: nat)
    requires attempts <= ClientCap()
    ensures Bumped(attempts) <= ClientCap() <= 4
    ensures ClientDelay(attempts).Some? && ClientDelay(attempts).value <= Backoff.MaxBackoffTicks
  {
    Backoff.ClientSchedule();
    Backoff.CappedDelayFits(Backoff.MinBackoffTicks, Backoff.MaxBackoffTicks, attempts);
  }

  // ---------------------------------------------------------------------------
  // The table, the requests and the retries, as values
  // ---------------------------------------------------------------------------

  datatype Tables = Tables(subscriptions: seq<Subscription>, inflight: seq<Request>, retries: seq<Retry>)

  function Erase(subs: seq<Subscription>, i: nat): seq<Subscription>
    requires i < |subs|
  {
    subs[..i] + subs[i + 1..]
  }

  /** `StartTransition(subscriptions_[i], …)` with `mqtt_sub_unsub` answering `sent`. */
  function StartEffect(t: Tables, i: nat, sent: Err, marks: bool): (r: (Tables, Err))
    requires i < |t.subscriptions|
    ensures r.0.retries == t.retries
    ensures r.1.Fail? ==> |r.0.subscriptions| == |t.subscriptions|
  {
    var s := t.subscriptions[i];
    if NextAction(s) == EraseEntry then
      (t.(subscriptions := Erase(t.subscriptions, i)), Ok)
    else
      (Tables(t.subscriptions[i := Reconcile(s, sent, marks)], t.inflight + IssuedBy(s, sent), t.retries),
       StartResult(s, sent))
  }

  /** `FinishTransition` after lwIP answered entry `i`'s request with `err`;
    * `sent` is what the follow-up `mqtt_sub_unsub`, if any, answers. */
  function FinishEffect(t: Tables, i: nat, isSubscribe: bool, err: Err, sent: Err, marks: bool): (r: Tables)
    requires i < |t.subscriptions|
    ensures |t.retries| <= |r.retries| <= |t.retries| + 1 && r.retries[..|t.retries|] == t.retries
    ensures err.Fail? ==> r.inflight == t.inflight && |r.retries| == |t.retries| + 1
  {
    var t0 := t.(subscriptions := t.subscriptions[i := t.subscriptions[i].(hasPendingCallback := false)]);
    if err.Ok? then
      var t1 := t0.(subscriptions := t0.subscriptions[i := t0.subscriptions[i].(isSubscribed := isSubscribe)]);
      var (t2, e) := StartEffect(t1, i, sent, marks);
      if e.Ok? then t2 else Rescheduled(t2, i)
    else
      Rescheduled(t0, i)
  }

  /** The error path of `FinishTransition`: the entry waits again, and a retry
    * with a backoff on its `failed_requests` is scheduled. */
  function Rescheduled(t: Tables, i: nat): (r: Tables)
    requires i < |t.subscriptions|
    ensures |r.subscriptions| == |t.subscriptions| && r.subscriptions[i].hasPendingCallback
    ensures r.inflight == t.inflight
    ensures |r.retries| == |t.retries| + 1 && r.retries[..|t.retries|] == t.retries
    ensures r.retries[|t.retries|].target == RetrySubscription(t.subscriptions[i].id)
  {
    var s := t.subscriptions[i];
    Tables(t.subscriptions[i := s.(hasPendingCallback := true, failedRequests := Bumped(s.failedRequests))],
           t.inflight,
           t.retries + [Retry(RetrySubscription(s.id), ClientDelay(s.failedRequests))])
  }

  /** The first index holding `topic`: `std::find_if` on the topic. */
  function TopicIndex(subs: seq<Subscription>, topic: string): (r: Option<nat>)
    ensures r.Some? ==> r.value < |subs| && subs[r.value].topic == topic
    ensures r.Some? ==> forall j :: 0 <= j < r.value ==> subs[j].topic != topic
    ensures r.None? ==> forall j :: 0 <= j < |subs| ==> subs[j].topic != topic
  {
    if |subs| == 0 then None
    else if subs[0].topic == topic then Some(0)
    else match TopicIndex(subs[1..], topic)
      case None => None
      case Some(j) => Some(j + 1)
  }

  /** Where the entry with identity `id` is, if it is still in the table. */
  function IndexOfId(subs: seq<Subscription>, id: nat): (r: Option<nat>)
    ensures r.Some? ==> r.value < |subs| && subs[r.value].id == id
    ensures r.None? ==> forall j :: 0 <= j < |subs| ==> subs[j].id != id
  {
    if |subs| == 0 then None
    else if subs[0].id == id then Some(0)
    else match IndexOfId(subs[1..], id)
      case None => None
      case Some(j) => Some(j + 1)
  }

  predicate HasId(subs: seq<Subscription>, id: nat)
  {
    IndexOfId(subs, id).Some?
  }

  /** `Subscribe(topic, qos, handler)`; `nextId` is the identity a new entry gets. */
  function SubscribeEffect(t: Tables, nextId: nat, topic: string, qos: Qos, handler: nat, sent: Err, marks: bool): (r: (Tables, Err))
    ensures r.0.retries == t.retries
  {
    match TopicIndex(t.subscriptions, topic)
    case Some(i) =>
      var s := t.subscriptions[i].(qos := qos, handler := handler, wantSubscribed := true, failedRequests := 0);
      StartEffect(t.(subscriptions := t.subscriptions[i := s]), i, sent, marks)
    case None =>
      var s := NewSubscription(nextId, topic, qos, handler);
      if sent.Ok? then
        (Tables(t.subscriptions + [AfterSend(s, sent, marks)], t.inflight + [RequestFor(s)], t.retries), Ok)
      else
        (t, sent)
  }

  /** `Unsubscribe(topic)`. */
  function UnsubscribeEffect(t: Tables, topic: string, sent: Err, marks: bool): (r: (Tables, Err))
    ensures r.0.retries == t.retries
  {
    match TopicIndex(t.subscriptions, topic)
    case Some(i) =>
      var s := t.subscriptions[i].(wantSubscribed := false);
      StartEffect(t.(subscriptions := t.subscriptions[i := s]), i, sent, marks)
    case None => (t, Ok)
  }

  /** The closure a subscription retry runs: clear the flag, then `StartTransition`
    * (whose result is dropped). */
  function RetrySubscriptionEffect(t: Tables, i: nat, sent: Err, marks: bool): (r: Tables)
    requires i < |t.subscriptions|
    ensures r.retries == t.retries
  {
    StartEffect(t.(subscriptions := t.subscriptions[i := t.subscriptions[i].(hasPendingCallback := false)]), i, sent, marks).0
  }

  /** `Subscribe` of a topic already in the table at `i`: the entry takes the new
    * QoS and handler, wants to be subscribed and restarts its failure count, which
    * is one when lwIP refuses the request at once; no other entry changes. */
  lemma SubscribeKnownTopic(t: Tables, nextId: nat, topic: string, qos: Qos, handler: nat, sent: Err, marks: bool, i: nat)
    requires TopicIndex(t.subscriptions, topic) == Some(i)
    ensures var (r, e) := SubscribeEffect(t, nextId, topic, qos, handler, sent, marks);
            |r.subscriptions| == |t.subscriptions| &&
            r.subscriptions[i].id == t.subscriptions[i].id && r.subscriptions[i].topic == topic &&
            r.subscriptions[i].qos == qos && r.subscriptions[i].handler == handler &&
            r.subscriptions[i].wantSubscribed &&
            r.subscriptions[i].failedRequests == (if e.Fail? then 1 else 0) &&
            (forall j :: 0 <= j < |t.subscriptions| && j != i ==> r.subscriptions[j] == t.subscriptions[j]) &&
            (e.Fail? ==> e == sent && r.inflight == t.inflight)
  {
    var s := t.subscriptions[i].(qos := qos, handler := handler, wantSubscribed := true, failedRequests := 0);
    var t' := t.(subscriptions := t.subscriptions[i := s]);
    if NextAction(s).SendRequest? {
      StartTransitionSends(t', i, sent, marks);
    } else {
      StartTransitionWithoutRequest(t', i, sent, marks);
    }
  }

  /** `Subscribe` of a fresh topic: the new entry joins the end of the table, with
    * its request in flight, only when lwIP accepts the request; otherwise nothing
    * changes and lwIP's error is returned. */
  lemma SubscribeFreshTopic(t: Tables, nextId: nat, topic: string, qos: Qos, handler: nat, sent: Err, marks: bool)
    requires TopicIndex(t.subscriptions, topic) == None
    ensures var (r, e) := SubscribeEffect(t, nextId, topic, qos, handler, sent, marks);
            (sent.Fail? ==> r == t && e == sent) &&
            (sent.Ok? ==>
               e == Ok && |r.subscriptions| == |t.subscriptions| + 1 &&
               r.subscriptions[..|t.subscriptions|] == t.subscriptions &&
               r.subscriptions[|t.subscriptions|] == NewSubscription(nextId, topic, qos, handler).(hasPendingCallback := marks) &&
               r.inflight == t.inflight + [Request(nextId, topic, qos, true)])
  {
    var n := |t.subscriptions|;
    var s := NewSubscription(nextId, topic, qos, handler);
    assert (t.subscriptions + [AfterSend(s, sent, marks)])[..n] == t.subscriptions;
  }

  /** `Unsubscribe` of a topic not in the table returns `ERR_OK` and changes nothing. */
  lemma UnsubscribeUnknownTopic(t: Tables, topic: string, sent: Err, marks: bool)
    requires TopicIndex(t.subscriptions, topic) == None
    ensures UnsubscribeEffect(t, topic, sent, marks) == (t, Ok)
  {
  }

  /** `Unsubscribe` of a topic in the table at `i`: an entry that neither waits nor
    * is subscribed is erased at once; any other stops wanting to be subscribed and
    * stays in place, and no other entry changes. */
  lemma UnsubscribeKnownTopic(t: Tables, topic: string, sent: Err, marks: bool, i: nat)
    requires TopicIndex(t.subscriptions, topic) == Some(i)
    ensures var (r, e) := UnsubscribeEffect(t, topic, sent, marks);
            var s := t.subscriptions[i];
            if !s.hasPendingCallback && !s.isSubscribed then
              r.subscriptions == Erase(t.subscriptions, i) && r.inflight == t.inflight && e == Ok
            else
              |r.subscriptions| == |t.subscriptions| &&
              r.subscriptions[i].id == s.id && r.subscriptions[i].topic == topic &&
              !r.subscriptions[i].wantSubscribed &&
              (forall j :: 0 <= j < |t.subscriptions| && j != i ==> r.subscriptions[j] == t.subscriptions[j]) &&
              (e.Fail? ==> e == sent && r.inflight == t.inflight)
  {
    var s := t.subscriptions[i].(wantSubscribed := false);
    var t' := t.(subscriptions := t.subscriptions[i := s]);
    if NextAction(s).SendRequest? {
      StartTransitionSends(t', i, sent, marks);
    } else {
      StartTransitionWithoutRequest(t', i, sent, marks);
    }
  }

  /** `FinishTransition` as a whole: when the completion or the follow-up start
    * fails, the entry stays, waits again, keeps the state it reached, and exactly
    * one retry for it joins the end of the queue; when both succeed, the result is
    * the follow-up start on the entry marked idle and in the confirmed state, and
    * no retry is queued. */
  lemma FinishOutcome(t: Tables, i: nat, isSubscribe: bool, err: Err, sent: Err, marks: bool)
    requires i < |t.subscriptions|
    ensures var r := FinishEffect(t, i, isSubscribe, err, sent, marks);
            var t1 := t.(subscriptions := t.subscriptions[i := t.subscriptions[i].(hasPendingCallback := false, isSubscribed := isSubscribe)]);
            var (t2, e) := StartEffect(t1, i, sent, marks);
            ((err.Fail? || e.Fail?) ==>
               |r.subscriptions| == |t.subscriptions| && r.subscriptions[i].hasPendingCallback &&
               r.subscriptions[i].id == t.subscriptions[i].id &&
               r.subscriptions[i].isSubscribed == (if err.Ok? then isSubscribe else t.subscriptions[i].isSubscribed) &&
               |r.retries| == |t.retries| + 1 && r.retries[..|t.retries|] == t.retries &&
               r.retries[|t.retries|].target == RetrySubscription(t.subscriptions[i].id)) &&
            (err.Ok? && e.Ok? ==> r == t2 && r.retries == t.retries)
  {
    var s := t.subscriptions[i];
    var t0 := t.(subscriptions := t.subscriptions[i := s.(hasPendingCallback := false)]);
    var t1 := t.(subscriptions := t.subscriptions[i := s.(hasPendingCallback := false, isSubscribed := isSubscribe)]);
    assert t0.(subscriptions := t0.subscriptions[i := t0.subscriptions[i].(isSubscribed := isSubscribe)]) == t1;
    if err.Ok? {
      var (t2, e) := StartEffect(t1, i, sent, marks);
      if e.Fail? {
        assert t2.subscriptions[i] == Reconcile(t1.subscriptions[i], sent, marks);
      }
    }
  }

  /** A subscription retry clears the flag first, so an entry that is not where it
    * wants to be gets its request sent again: in flight when lwIP accepts it, and
    * one more failure counted when lwIP refuses it. */
  lemma RetryRestarts(t: Tables, i: nat, sent: Err, marks: bool)
    requires i < |t.subscriptions|
    requires t.subscriptions[i].wantSubscribed != t.subscriptions[i].isSubscribed
    ensures var s := t.subscriptions[i].(hasPendingCallback := false);
            var r := RetrySubscriptionEffect(t, i, sent, marks);
            |r.subscriptions| == |t.subscriptions| && r.retries == t.retries &&
            (sent.Ok? ==> r.inflight == t.inflight + [RequestFor(s)] && r.subscriptions[i] == s.(hasPendingCallback := marks)) &&
            (sent.Fail? ==> r.inflight == t.inflight && r.subscriptions[i] == s.(failedRequests := s.failedRequests + 1))
  {
    var s := t.subscriptions[i].(hasPendingCallback := false);
    StartTransitionSends(t.(subscriptions := t.subscriptions[i := s]), i, sent, marks);
  }

  /** Every entry marked as being in the state it does not want (disconnect). */
  function MarkStale(subs: seq<Subscription>): (r: seq<Subscription>)
    ensures |r| == |subs|
    ensures forall j :: 0 <= j < |subs| ==> r[j] == subs[j].(isSubscribed := !subs[j].wantSubscribed)
  {
    if |subs| == 0 then [] else
    MarkStale(subs[..|subs| - 1]) + [subs[|subs| - 1].(isSubscribed := !subs[|subs| - 1].wantSubscribed)]
  }

  /** The table after the accept branch's loop, entry `j` answered by `outcomes[j]`. */
  function ReconcileAll(subs: seq<Subscription>, outcomes: seq<Err>, marks: bool): (r: seq<Subscription>)
    requires |outcomes| == |subs|
    ensures |r| == |subs|
    ensures forall j :: 0 <= j < |subs| ==> r[j] == Reconcile(subs[j], outcomes[j], marks)
  {
    if |subs| == 0 then [] else
    var n := |subs| - 1;
    ReconcileAll(subs[..n], outcomes[..n], marks) + [Reconcile(subs[n], outcomes[n], marks)]
  }

  /** The requests the accept branch's loop leaves with lwIP, in table order. */
  function IssuedAll(subs: seq<Subscription>, outcomes: seq<Err>): seq<Request>
    requires |outcomes| == |subs|
  {
    if |subs| == 0 then [] else
    var n := |subs| - 1;
    IssuedAll(subs[..n], outcomes[..n]) + IssuedBy(subs[n], outcomes[n])
  }

  /** One more entry of the accept branch's loop. */
  lemma IssuedAllStep(inf0: seq<Request>, subs: seq<Subscription>, outcomes: seq<Err>, i: nat, before: seq<Request>, after: seq<Request>)
    requires |outcomes| == |subs| && i < |subs|
    requires before == inf0 + IssuedAll(subs[..i], outcomes[..i])
    requires after == before + IssuedBy(subs[i], outcomes[i])
    ensures after == inf0 + IssuedAll(subs[..i + 1], outcomes[..i + 1])
  {
    assert subs[..i + 1][..i] == subs[..i] && outcomes[..i + 1][..i] == outcomes[..i];
  }

  /** One more entry of the accept branch's loop, on the table: the entries
    * before `i` are reconciled, the others are as they were. */
  lemma ReconcileAllStep(subs: seq<Subscription>, outcomes: seq<Err>, i: nat, marks: bool,
                         before: seq<Subscription>, after: seq<Subscription>)
    requires |outcomes| == |subs| && i < |subs|
    requires before == ReconcileAll(subs[..i], outcomes[..i], marks) + subs[i..]
    requires after == before[i := Reconcile(before[i], outcomes[i], marks)]
    ensures after == ReconcileAll(subs[..i + 1], outcomes[..i + 1], marks) + subs[i + 1..]
  {
    var done := ReconcileAll(subs[..i], outcomes[..i], marks);
    assert subs[..i + 1][..i] == subs[..i] && outcomes[..i + 1][..i] == outcomes[..i];
    assert ReconcileAll(subs[..i + 1], outcomes[..i + 1], marks) == done + [Reconcile(subs[i], outcomes[i], marks)];
    assert before[i] == subs[i];
    assert subs[i..] == [subs[i]] + subs[i + 1..];
    assert after == done + [Reconcile(subs[i], outcomes[i], marks)] + subs[i + 1..];
  }

  /** The accept branch's loop after its last entry. */
  lemma LoopDone(subs: seq<Subscription>, outcomes: seq<Err>, marks: bool, after: seq<Subscription>)
    requires |outcomes| == |subs|
    requires after == ReconcileAll(subs[..|subs|], outcomes[..|subs|], marks) + subs[|subs|..]
    ensures after == ReconcileAll(subs, outcomes, marks)
    ensures IssuedAll(subs[..|subs|], outcomes[..|subs|]) == IssuedAll(subs, outcomes)
  {
    assert subs[..|subs|] == subs && outcomes[..|subs|] == outcomes && subs[|subs|..] == [];
  }

  /** A `StartTransition` on an entry that is not garbage keeps it in place. */
  lemma StartInPlace(t: Tables, i: nat, sent: Err, marks: bool)
    requires i < |t.subscriptions| && !Garbage(t.subscriptions[i])
    ensures StartEffect(t, i, sent, marks).0 ==
            Tables(t.subscriptions[i := Reconcile(t.subscriptions[i], sent, marks)],
                   t.inflight + IssuedBy(t.subscriptions[i], sent), t.retries)
  {
  }

  // ---------------------------------------------------------------------------
  // The invariant
  // ---------------------------------------------------------------------------

  predicate UniqueIds(subs: seq<Subscription>)
  {
    forall j, k :: 0 <= j < k < |subs| ==> subs[j].id != subs[k].id
  }

  predicate UniqueTopics(subs: seq<Subscription>)
  {
    forall j, k :: 0 <= j < k < |subs| ==> subs[j].topic != subs[k].topic
  }

  predicate TableOk(subs: seq<Subscription>, nextId: nat)
  {
    (forall j :: 0 <= j < |subs| ==> subs[j].id < nextId) && UniqueIds(subs) && UniqueTopics(subs)
  }

  /** No entry but the one at `except` is garbage. */
  predicate NoGarbageExcept(subs: seq<Subscription>, except: int)
  {
    forall j :: 0 <= j < |subs| && j != except ==> !Garbage(subs[j])
  }

  function RequestRefs(inf: seq<Request>): (refs: seq<nat>)
    ensures |refs| == |inf|
    ensures forall r :: 0 <= r < |inf| ==> refs[r] == inf[r].subscription
  {
    if |inf| == 0 then [] else RequestRefs(inf[..|inf| - 1]) + [inf[|inf| - 1].subscription]
  }

  function RetryRef(r: Retry): Option<nat>
  {
    match r.target
    case RetrySubscription(id) => Some(id)
    case Reconnect => None
  }

  function RetryRefs(ret: seq<Retry>): (refs: seq<Option<nat>>)
    ensures |refs| == |ret|
    ensures forall r :: 0 <= r < |ret| ==> refs[r] == RetryRef(ret[r])
  {
    if |ret| == 0 then [] else RetryRefs(ret[..|ret| - 1]) + [RetryRef(ret[|ret| - 1])]
  }

  /** Requests and retries that will still call back into entry `id`. */
  function Outstanding(inf: seq<Request>, ret: seq<Retry>, id: nat): nat
  {
    multiset(RequestRefs(inf))[id] + multiset(RetryRefs(ret))[Some(id)]
  }

  function PendingCount(s: Subscription): nat
  {
    if s.hasPendingCallback then 1 else 0
  }

  /** The lifecycle of the header: an entry waits for a callback exactly when one
    * action on it is outstanding, and every outstanding action's entry exists. */
  ghost predicate Consistent(subs: seq<Subscription>, inf: seq<Request>, ret: seq<Retry>)
  {
    (forall j :: 0 <= j < |subs| ==> Outstanding(inf, ret, subs[j].id) == PendingCount(subs[j])) &&
    (forall x: nat :: Outstanding(inf, ret, x) > 0 ==> HasId(subs, x))
  }

  ghost predicate Invariant(t: Tables, nextId: nat, except: int, marks: bool)
  {
    TableOk(t.subscriptions, nextId) && NoGarbageExcept(t.subscriptions, except) &&
    (marks ==> Consistent(t.subscriptions, t.inflight, t.retries))
  }

  // ---------------------------------------------------------------------------
  // Counting outstanding actions
  // ---------------------------------------------------------------------------

  lemma OutstandingAppendRequest(inf: seq<Request>, ret: seq<Retry>, q: Request)
    ensures forall x: nat :: Outstanding(inf + [q], ret, x) == Outstanding(inf, ret, x) + (if q.subscription == x then 1 else 0)
  {
    assert RequestRefs(inf + [q]) == RequestRefs(inf) + [q.subscription];
  }

  lemma OutstandingRemoveRequest(inf: seq<Request>, ret: seq<Retry>, k: nat)
    requires k < |inf|
    ensures forall x: nat :: Outstanding(inf[..k] + inf[k + 1..], ret, x) ==
                             Outstanding(inf, ret, x) - (if inf[k].subscription == x then 1 else 0)
    ensures Outstanding(inf, ret, inf[k].subscription) >= 1
  {
    var refs := RequestRefs(inf);
    assert RequestRefs(inf[..k] + inf[k + 1..]) == refs[..k] + refs[k + 1..];
    assert refs == refs[..k] + [refs[k]] + refs[k + 1..];
  }

  lemma OutstandingAppendRetry(inf: seq<Request>, ret: seq<Retry>, q: Retry)
    ensures forall x: nat :: Outstanding(inf, ret + [q], x) == Outstanding(inf, ret, x) + (if RetryRef(q) == Some(x) then 1 else 0)
  {
    assert RetryRefs(ret + [q]) == RetryRefs(ret) + [RetryRef(q)];
  }

  lemma OutstandingRemoveRetry(inf: seq<Request>, ret: seq<Retry>, k: nat)
    requires k < |ret|
    ensures forall x: nat :: Outstanding(inf, ret[..k] + ret[k + 1..], x) ==
                             Outstanding(inf, ret, x) - (if RetryRef(ret[k]) == Some(x) then 1 else 0)
    ensures RetryRef(ret[k]).Some? ==> Outstanding(inf, ret, RetryRef(ret[k]).value) >= 1
  {
    var refs := RetryRefs(ret);
    assert RetryRefs(ret[..k] + ret[k + 1..]) == refs[..k] + refs[k + 1..];
    assert refs == refs[..k] + [refs[k]] + refs[k + 1..];
  }

  // ---------------------------------------------------------------------------
  // The invariant under each change to the table
  // ---------------------------------------------------------------------------

  /** Entry `i` replaced by one with the same identity, with the outstanding
    * actions changing only for that identity. */
  lemma TableOkAfterChange(subs: seq<Subscription>, nextId: nat, i: nat, s': Subscription)
    requires TableOk(subs, nextId) && i < |subs|
    requires s'.id == subs[i].id && s'.topic == subs[i].topic
    ensures TableOk(subs[i := s'], nextId)
  {
    var subs' := subs[i := s'];
    assert forall j :: 0 <= j < |subs| ==> subs'[j].id == subs[j].id && subs'[j].topic == subs[j].topic;
  }

  lemma NoGarbageAfterChange(subs: seq<Subscription>, i: nat, s': Subscription)
    requires NoGarbageExcept(subs, i) && i < |subs| && !Garbage(s')
    ensures NoGarbageExcept(subs[i := s'], -1)
  {
  }

  lemma ConsistentAfterChange(subs: seq<Subscription>, inf: seq<Request>, ret: seq<Retry>, i: nat, s': Subscription,
                              inf': seq<Request>, ret': seq<Retry>)
    requires UniqueIds(subs) && i < |subs| && Consistent(subs, inf, ret)
    requires s'.id == subs[i].id
    requires forall x: nat :: x != s'.id ==> Outstanding(inf', ret', x) == Outstanding(inf, ret, x)
    requires Outstanding(inf', ret', s'.id) == PendingCount(s')
    ensures Consistent(subs[i := s'], inf', ret')
  {
    var subs' := subs[i := s'];
    forall j | 0 <= j < |subs'| ensures Outstanding(inf', ret', subs'[j].id) == PendingCount(subs'[j]) {
      if j != i {
        assert subs[j].id != s'.id;
      }
    }
    forall x: nat | Outstanding(inf', ret', x) > 0 ensures HasId(subs', x) {
      if x == s'.id {
        assert subs'[i].id == x;
      } else {
        var k := IndexOfId(subs, x).value;
        assert subs'[k].id == x;
      }
    }
  }

  /** Entries replaced by ones with the same identities and flags. */
  lemma SameShape(subs: seq<Subscription>, subs': seq<Subscription>, t: Tables, nextId: nat, except: int, marks: bool)
    requires |subs'| == |subs| && t.subscriptions == subs
    requires forall j :: 0 <= j < |subs| ==> subs'[j].id == subs[j].id && subs'[j].topic == subs[j].topic &&
                                             subs'[j].hasPendingCallback == subs[j].hasPendingCallback
    requires forall j :: 0 <= j < |subs| && j != except && !Garbage(subs[j]) ==> !Garbage(subs'[j])
    requires Invariant(t, nextId, except, marks)
    ensures Invariant(t.(subscriptions := subs'), nextId, except, marks)
  {
    if marks {
      forall x: nat | Outstanding(t.inflight, t.retries, x) > 0 ensures HasId(subs', x) {
        var k := IndexOfId(subs, x).value;
        assert subs'[k].id == x;
      }
    }
  }

  lemma EraseKeepsInvariant(t: Tables, nextId: nat, i: nat, marks: bool)
    requires i < |t.subscriptions| && Invariant(t, nextId, i, marks)
    requires !t.subscriptions[i].hasPendingCallback
    ensures Invariant(t.(subscriptions := Erase(t.subscriptions, i)), nextId, -1, marks)
  {
    var subs := t.subscriptions;
    var subs' := Erase(subs, i);
    assert forall j :: 0 <= j < i ==> subs'[j] == subs[j];
    assert forall j :: i <= j < |subs'| ==> subs'[j] == subs[j + 1];
    if marks {
      forall x: nat | Outstanding(t.inflight, t.retries, x) > 0 ensures HasId(subs', x) {
        var k := IndexOfId(subs, x).value;
        if k < i {
          assert subs'[k].id == x;
        } else {
          assert k != i;
          assert subs'[k - 1].id == x;
        }
      }
    }
  }

  lemma StartKeepsInvariant(t: Tables, nextId: nat, i: nat, sent: Err, marks: bool)
    requires i < |t.subscriptions| && Invariant(t, nextId, i, marks)
    ensures Invariant(StartEffect(t, i, sent, marks).0, nextId, -1, marks)
  {
    var s := t.subscriptions[i];
    var r := StartEffect(t, i, sent, marks).0;
    if NextAction(s) == EraseEntry {
      assert r == t.(subscriptions := Erase(t.subscriptions, i));
      EraseKeepsInvariant(t, nextId, i, marks);
    } else if NextAction(s).SendRequest? {
      assert r == Tables(t.subscriptions[i := AfterSend(s, sent, marks)], t.inflight + IssuedBy(s, sent), t.retries);
      SendKeepsInvariant(t, nextId, i, sent, marks);
    } else {
      assert r == t;
    }
  }

  lemma SendKeepsInvariant(t: Tables, nextId: nat, i: nat, sent: Err, marks: bool)
    requires i < |t.subscriptions| && Invariant(t, nextId, i, marks)
    requires NextAction(t.subscriptions[i]).SendRequest?
    ensures Invariant(Tables(t.subscriptions[i := AfterSend(t.subscriptions[i], sent, marks)],
                             t.inflight + IssuedBy(t.subscriptions[i], sent), t.retries), nextId, -1, marks)
  {
    var s := t.subscriptions[i];
    var s' := AfterSend(s, sent, marks);
    var inf' := t.inflight + IssuedBy(s, sent);
    var subs' := t.subscriptions[i := s'];
    assert TableOk(subs', nextId);
    assert NoGarbageExcept(subs', -1);
    if marks {
      if sent.Ok? {
        OutstandingAppendRequest(t.inflight, t.retries, RequestFor(s));
      } else {
        assert inf' == t.inflight;
      }
      ConsistentAfterChange(t.subscriptions, t.inflight, t.retries, i, s', inf', t.retries);
    }
  }

  lemma RescheduledKeepsInvariant(t: Tables, nextId: nat, i: nat, marks: bool)
    requires i < |t.subscriptions| && Invariant(t, nextId, i, marks)
    requires !t.subscriptions[i].hasPendingCallback
    ensures Invariant(Rescheduled(t, i), nextId, -1, marks)
  {
    var s := t.subscriptions[i];
    var s' := s.(hasPendingCallback := true, failedRequests := Bumped(s.failedRequests));
    var q := Retry(RetrySubscription(s.id), ClientDelay(s.failedRequests));
    assert Rescheduled(t, i) == Tables(t.subscriptions[i := s'], t.inflight, t.retries + [q]);
    TableOkAfterChange(t.subscriptions, nextId, i, s');
    NoGarbageAfterChange(t.subscriptions, i, s');
    if marks {
      OutstandingAppendRetry(t.inflight, t.retries, q);
      ConsistentAfterChange(t.subscriptions, t.inflight, t.retries, i, s', t.inflight, t.retries + [q]);
    }
  }

  lemma FinishKeepsInvariant(t: Tables, nextId: nat, i: nat, isSubscribe: bool, err: Err, sent: Err, marks: bool)
    requires i < |t.subscriptions|
    requires Invariant(t.(subscriptions := t.subscriptions[i := t.subscriptions[i].(hasPendingCallback := false)]), nextId, i, marks)
    ensures Invariant(FinishEffect(t, i, isSubscribe, err, sent, marks), nextId, -1, marks)
  {
    var t0 := t.(subscriptions := t.subscriptions[i := t.subscriptions[i].(hasPendingCallback := false)]);
    if err.Ok? {
      var t1 := t0.(subscriptions := t0.subscriptions[i := t0.subscriptions[i].(isSubscribed := isSubscribe)]);
      SameShape(t0.subscriptions, t1.subscriptions, t0, nextId, i, marks);
      StartKeepsInvariant(t1, nextId, i, sent, marks);
      var (t2, e) := StartEffect(t1, i, sent, marks);
      if e.Fail? {
        assert t2.subscriptions[i] == AfterSend(t1.subscriptions[i], sent, marks);
        RescheduledKeepsInvariant(t2, nextId, i, marks);
      }
    } else {
      RescheduledKeepsInvariant(t0, nextId, i, marks);
    }
  }

  lemma NewEntryKeepsInvariant(t: Tables, nextId: nat, topic: string, qos: Qos, handler: nat, marks: bool)
    requires Invariant(t, nextId, -1, marks)
    requires TopicIndex(t.subscriptions, topic).None?
    ensures var s := NewSubscription(nextId, topic, qos, handler);
            Invariant(Tables(t.subscriptions + [AfterSend(s, Ok, marks)], t.inflight + [RequestFor(s)], t.retries),
                      nextId + 1, -1, marks)
  {
    var s := NewSubscription(nextId, topic, qos, handler);
    var s' := AfterSend(s, Ok, marks);
    NewEntryTableOk(t.subscriptions, nextId, s');
    if marks {
      NewEntryConsistent(t, nextId, s', RequestFor(s));
    }
  }

  lemma NewEntryTableOk(subs: seq<Subscription>, nextId: nat, s: Subscription)
    requires TableOk(subs, nextId) && NoGarbageExcept(subs, -1)
    requires s.id == nextId && TopicIndex(subs, s.topic).None? && !Garbage(s)
    ensures TableOk(subs + [s], nextId + 1) && NoGarbageExcept(subs + [s], -1)
  {
    var subs' := subs + [s];
    assert forall j :: 0 <= j < |subs| ==> subs'[j] == subs[j];
  }

  lemma NewEntryConsistent(t: Tables, nextId: nat, s: Subscription, q: Request)
    requires TableOk(t.subscriptions, nextId) && Consistent(t.subscriptions, t.inflight, t.retries)
    requires s.id == nextId && s.hasPendingCallback && q.subscription == nextId
    ensures Consistent(t.subscriptions + [s], t.inflight + [q], t.retries)
  {
    var subs := t.subscriptions;
    var subs' := subs + [s];
    var inf' := t.inflight + [q];
    OutstandingAppendRequest(t.inflight, t.retries, q);
    assert !HasId(subs, nextId);
    forall j | 0 <= j < |subs'| ensures Outstanding(inf', t.retries, subs'[j].id) == PendingCount(subs'[j]) {
      if j < |subs| {
        assert subs'[j] == subs[j];
        assert subs[j].id != nextId;
      }
    }
    forall x: nat | Outstanding(inf', t.retries, x) > 0 ensures HasId(subs', x) {
      if x == nextId {
        assert subs'[|subs|].id == x;
      } else {
        var k := IndexOfId(subs, x).value;
        assert subs'[k].id == x;
      }
    }
  }

  lemma SubscribeKeepsInvariant(t: Tables, nextId: nat, topic: string, qos: Qos, handler: nat, sent: Err, marks: bool)
    requires Invariant(t, nextId, -1, marks)
    ensures Invariant(SubscribeEffect(t, nextId, topic, qos, handler, sent, marks).0,
                      if TopicIndex(t.subscriptions, topic).None? then nextId + 1 else nextId, -1, marks)
  {
    match TopicIndex(t.subscriptions, topic)
    case Some(i) =>
      var s := t.subscriptions[i].(qos := qos, handler := handler, wantSubscribed := true, failedRequests := 0);
      SameShape(t.subscriptions, t.subscriptions[i := s], t, nextId, -1, marks);
      StartKeepsInvariant(t.(subscriptions := t.subscriptions[i := s]), nextId, i, sent, marks);
    case None =>
      if sent.Ok? {
        NewEntryKeepsInvariant(t, nextId, topic, qos, handler, marks);
      }
  }

  lemma UnsubscribeKeepsInvariant(t: Tables, nextId: nat, topic: string, sent: Err, marks: bool)
    requires Invariant(t, nextId, -1, marks)
    ensures Invariant(UnsubscribeEffect(t, topic, sent, marks).0, nextId, -1, marks)
  {
    match TopicIndex(t.subscriptions, topic)
    case Some(i) =>
      var s := t.subscriptions[i].(wantSubscribed := false);
      SameShape(t.subscriptions, t.subscriptions[i := s], t, nextId, i, marks);
      StartKeepsInvariant(t.(subscriptions := t.subscriptions[i := s]), nextId, i, sent, marks);
    case None =>
  }

  /** Entry `i` stops waiting as one of its outstanding actions is used up. */
  lemma ReleaseKeepsInvariant(t: Tables, nextId: nat, i: nat, inf': seq<Request>, ret': seq<Retry>, marks: bool)
    requires i < |t.subscriptions| && Invariant(t, nextId, -1, marks)
    requires forall x: nat :: x != t.subscriptions[i].id ==> Outstanding(inf', ret', x) == Outstanding(t.inflight, t.retries, x)
    requires Outstanding(inf', ret', t.subscriptions[i].id) + 1 == Outstanding(t.inflight, t.retries, t.subscriptions[i].id)
    ensures Invariant(Tables(t.subscriptions[i := t.subscriptions[i].(hasPendingCallback := false)], inf', ret'), nextId, i, marks)
  {
    var s' := t.subscriptions[i].(hasPendingCallback := false);
    TableOkAfterChange(t.subscriptions, nextId, i, s');
    if marks {
      ConsistentAfterChange(t.subscriptions, t.inflight, t.retries, i, s', inf', ret');
    }
  }

  /** A `Reconnect` retry refers to no entry. */
  lemma ReconnectKeepsInvariant(t: Tables, nextId: nat, ret': seq<Retry>, marks: bool)
    requires Invariant(t, nextId, -1, marks)
    requires forall x: nat :: Outstanding(t.inflight, ret', x) == Outstanding(t.inflight, t.retries, x)
    ensures Invariant(t.(retries := ret'), nextId, -1, marks)
  {
  }

  /** A queued `Reconnect` retry refers to no entry. */
  lemma QueueReconnectKeepsInvariant(t: Tables, nextId: nat, delay: Option<nat>, marks: bool)
    requires Invariant(t, nextId, -1, marks)
    ensures Invariant(t.(retries := t.retries + [Retry(Reconnect, delay)]), nextId, -1, marks)
  {
    OutstandingAppendRetry(t.inflight, t.retries, Retry(Reconnect, delay));
    ReconnectKeepsInvariant(t, nextId, t.retries + [Retry(Reconnect, delay)], marks);
  }

  /** An answered request leaves lwIP and its entry stops waiting. */
  lemma UnqueueRequestKeepsInvariant(t: Tables, nextId: nat, k: nat, i: nat, marks: bool)
    requires Invariant(t, nextId, -1, marks) && k < |t.inflight| && i < |t.subscriptions|
    requires t.inflight[k].subscription == t.subscriptions[i].id
    ensures var u := t.(inflight := t.inflight[..k] + t.inflight[k + 1..]);
            Invariant(u.(subscriptions := u.subscriptions[i := u.subscriptions[i].(hasPendingCallback := false)]), nextId, i, marks)
  {
    OutstandingRemoveRequest(t.inflight, t.retries, k);
    ReleaseKeepsInvariant(t, nextId, i, t.inflight[..k] + t.inflight[k + 1..], t.retries, marks);
  }

  /** A firing `Reconnect` retry leaves the queue. */
  lemma UnqueueReconnectKeepsInvariant(t: Tables, nextId: nat, k: nat, marks: bool)
    requires Invariant(t, nextId, -1, marks) && k < |t.retries| && t.retries[k].target.Reconnect?
    ensures Invariant(t.(retries := t.retries[..k] + t.retries[k + 1..]), nextId, -1, marks)
  {
    OutstandingRemoveRetry(t.inflight, t.retries, k);
    ReconnectKeepsInvariant(t, nextId, t.retries[..k] + t.retries[k + 1..], marks);
  }

  /** A firing subscription retry leaves the queue and its entry stops waiting. */
  lemma UnqueueRetryKeepsInvariant(t: Tables, nextId: nat, k: nat, i: nat, marks: bool)
    requires Invariant(t, nextId, -1, marks) && k < |t.retries| && i < |t.subscriptions|
    requires t.retries[k].target == RetrySubscription(t.subscriptions[i].id)
    ensures var u := t.(retries := t.retries[..k] + t.retries[k + 1..]);
            Invariant(u.(subscriptions := u.subscriptions[i := u.subscriptions[i].(hasPendingCallback := false)]), nextId, i, marks)
  {
    OutstandingRemoveRetry(t.inflight, t.retries, k);
    ReleaseKeepsInvariant(t, nextId, i, t.inflight, t.retries[..k] + t.retries[k + 1..], marks);
  }

  lemma MarkStaleKeepsInvariant(t: Tables, nextId: nat, marks: bool)
    requires Invariant(t, nextId, -1, marks)
    ensures Invariant(t.(subscriptions := MarkStale(t.subscriptions)), nextId, -1, marks)
  {
    SameShape(t.subscriptions, MarkStale(t.subscriptions), t, nextId, -1, marks);
  }

  // ---------------------------------------------------------------------------
  // What the invariant buys
  // ---------------------------------------------------------------------------

  /** With the lifecycle of the header, a completing request always finds its entry. */
  lemma CompletionFindsEntry(t: Tables, nextId: nat, k: nat)
    requires Invariant(t, nextId, -1, true) && k < |t.inflight|
    ensures IndexOfId(t.subscriptions, t.inflight[k].subscription).Some?
  {
    OutstandingRemoveRequest(t.inflight, t.retries, k);
  }

  /** ... and so does a firing subscription retry. */
  lemma RetryFindsEntry(t: Tables, nextId: nat, k: nat)
    requires Invariant(t, nextId, -1, true) && k < |t.retries|
    requires t.retries[k].target.RetrySubscription?
    ensures IndexOfId(t.subscriptions, t.retries[k].target.subscription).Some?
  {
    OutstandingRemoveRetry(t.inflight, t.retries, k);
  }

  /** With the lifecycle of the header, lwIP holds at most one request per entry,
    * and none for an entry that is not waiting. */
  lemma AtMostOneRequestInFlight(t: Tables, nextId: nat, j: nat)
    requires Invariant(t, nextId, -1, true) && j < |t.subscriptions|
    ensures multiset(RequestRefs(t.inflight))[t.subscriptions[j].id] <= 1
    ensures !t.subscriptions[j].hasPendingCallback ==> multiset(RequestRefs(t.inflight))[t.subscriptions[j].id] == 0
  {
  }

  // ---------------------------------------------------------------------------
  // Properties of StartTransition and the connection callback
  // ---------------------------------------------------------------------------

  /** Lines 184, 185-199: a waiting entry, or one in the state it wants, is left
    * alone, except that an entry that wants out and is out is removed, and only
    * that entry. */
  lemma StartTransitionWithoutRequest(t: Tables, i: nat, sent: Err, marks: bool)
    requires i < |t.subscriptions|
    requires !NextAction(t.subscriptions[i]).SendRequest?
    ensures StartEffect(t, i, sent, marks).1 == Ok
    ensures StartEffect(t, i, sent, marks).0.inflight == t.inflight
    ensures t.subscriptions[i].hasPendingCallback || t.subscriptions[i].wantSubscribed ==>
              StartEffect(t, i, sent, marks).0 == t
    ensures Garbage(t.subscriptions[i]) ==>
              var r := StartEffect(t, i, sent, marks).0.subscriptions;
              |r| == |t.subscriptions| - 1 &&
              (forall j :: 0 <= j < i ==> r[j] == t.subscriptions[j]) &&
              (forall j :: i < j < |t.subscriptions| ==> r[j - 1] == t.subscriptions[j])
  {
  }

  /** Lines 213-227: one request in the direction the entry wants; if lwIP refuses
    * it at once, the entry counts one more failure, stops waiting, and the error
    * is returned; nothing else changes. */
  lemma StartTransitionSends(t: Tables, i: nat, sent: Err, marks: bool)
    requires i < |t.subscriptions|
    requires NextAction(t.subscriptions[i]).SendRequest?
    ensures var s := t.subscriptions[i];
            var (r, e) := StartEffect(t, i, sent, marks);
            e == sent && |r.subscriptions| == |t.subscriptions| &&
            (forall j :: 0 <= j < |t.subscriptions| && j != i ==> r.subscriptions[j] == t.subscriptions[j]) &&
            (sent.Ok? ==> r.inflight == t.inflight + [Request(s.id, s.topic, s.qos, s.wantSubscribed)] &&
                          r.subscriptions[i] == s.(hasPendingCallback := marks)) &&
            (sent.Fail? ==> r.inflight == t.inflight &&
                            r.subscriptions[i] == s.(failedRequests := s.failedRequests + 1))
  {
  }

  /** After a disconnect, no entry is in the state it wants, and every entry that
    * is not waiting for a callback gets a request on the next accept. */
  lemma StaleEntriesAreResent(subs: seq<Subscription>, j: nat)
    requires j < |subs|
    ensures var r := MarkStale(subs);
            r[j].wantSubscribed != r[j].isSubscribed &&
            r[j].hasPendingCallback == subs[j].hasPendingCallback &&
            NextAction(r[j]) == (if subs[j].hasPendingCallback then NoAction else SendRequest(subs[j].wantSubscribed))
  {
  }

  /** The accept branch sends, in table order, one request for each entry that
    * is out of date, not waiting, and whose request lwIP took, and no other. */
  lemma {:induction false} IssuedAllExactly(subs: seq<Subscription>, outcomes: seq<Err>, q: Request)
    requires |outcomes| == |subs|
    ensures q in IssuedAll(subs, outcomes) <==>
            exists j :: 0 <= j < |subs| && NextAction(subs[j]).SendRequest? && outcomes[j].Ok? && q == RequestFor(subs[j])
    decreases |subs|
  {
    if |subs| > 0 {
      var n := |subs| - 1;
      var front, fo := subs[..n], outcomes[..n];
      IssuedAllExactly(front, fo, q);
      assert IssuedAll(subs, outcomes) == IssuedAll(front, fo) + IssuedBy(subs[n], outcomes[n]);
      if q in IssuedAll(subs, outcomes) {
        if q in IssuedAll(front, fo) {
          var j :| 0 <= j < n && NextAction(front[j]).SendRequest? && fo[j].Ok? && q == RequestFor(front[j]);
          assert subs[j] == front[j] && outcomes[j] == fo[j];
        } else {
          assert q in IssuedBy(subs[n], outcomes[n]);
          assert NextAction(subs[n]).SendRequest? && outcomes[n].Ok? && q == RequestFor(subs[n]);
        }
      }
      if exists j :: 0 <= j < |subs| && NextAction(subs[j]).SendRequest? && outcomes[j].Ok? && q == RequestFor(subs[j]) {
        var j :| 0 <= j < |subs| && NextAction(subs[j]).SendRequest? && outcomes[j].Ok? && q == RequestFor(subs[j]);
        if j < n {
          assert front[j] == subs[j] && fo[j] == outcomes[j];
        } else {
          assert q in IssuedBy(subs[n], outcomes[n]);
        }
      }
    }
  }

  // ---------------------------------------------------------------------------
  // Reassembling a publish
  // ---------------------------------------------------------------------------

  /** `MQTT_DATA_FLAG_LAST`. */
  const DataFlagLast: bv8 := 1

  /** What is left collected after a chunk, and the payload handed over, if any. */
  datatype Fed = Fed(collected: seq<bv8>, handedOver: seq<seq<bv8>>)

  /** What `ReceiveMessage` means to do with a chunk: keep collecting, or, on the
    * last chunk, hand over everything collected and start again. */
  function Reassemble(pending: seq<bv8>, chunk: seq<bv8>, flags: bv8): (f: Fed)
    ensures |f.handedOver| <= 1 && (f.handedOver == [] <==> flags & DataFlagLast == 0)
    ensures f.collected + Concat(f.handedOver) == pending + chunk
    ensures f.handedOver != [] ==> f.collected == []
  {
    var whole := pending + chunk;
    if flags & DataFlagLast == 0 then Fed(whole, [])
    else
      assert [whole][1..] == [];
      Fed([], [whole])
  }

  /** `Reassemble` over a run of chunks. */
  function FeedChunks(pending: seq<bv8>, chunks: seq<seq<bv8>>, flags: seq<bv8>): Fed
    requires |flags| == |chunks|
    decreases |chunks|
  {
    if |chunks| == 0 then Fed(pending, [])
    else
      var first := Reassemble(pending, chunks[0], flags[0]);
      var rest := FeedChunks(first.collected, chunks[1..], flags[1..]);
      Fed(rest.collected, first.handedOver + rest.handedOver)
  }

  function Concat(chunks: seq<seq<bv8>>): seq<bv8>
  {
    if |chunks| == 0 then [] else chunks[0] + Concat(chunks[1..])
  }

  /** The flags of a publish split into `n` chunks: only the last is flagged. */
  function LastOnly(n: nat): (fs: seq<bv8>)
    requires n >= 1
    ensures |fs| == n
    ensures fs[n - 1] == DataFlagLast && forall j :: 0 <= j < n - 1 ==> fs[j] == 0
  {
    if n == 1 then [DataFlagLast] else [0] + LastOnly(n - 1)
  }

  /** Chunks of which only the last is flagged are handed over once, at the end,
    * as everything collected before them followed by all of them, and nothing
    * stays collected. */
  lemma {:induction false} OneDeliveryPerPublish(pending: seq<bv8>, chunks: seq<seq<bv8>>)
    requires |chunks| >= 1
    ensures FeedChunks(pending, chunks, LastOnly(|chunks|)) == Fed([], [pending + Concat(chunks)])
    decreases |chunks|
  {
    var fs := LastOnly(|chunks|);
    if |chunks| == 1 {
      assert chunks[1..] == [] && fs == [DataFlagLast];
      assert Concat(chunks) == chunks[0] + Concat([]) == chunks[0];
      assert FeedChunks(pending, chunks, fs) == Fed([], [pending + chunks[0]] + []);
    } else {
      assert fs[0] == 0 && fs[1..] == LastOnly(|chunks| - 1);
      OneDeliveryPerPublish(pending + chunks[0], chunks[1..]);
      assert pending + chunks[0] + Concat(chunks[1..]) == pending + Concat(chunks);
      assert [] + [pending + Concat(chunks)] == [pending + Concat(chunks)];
    }
  }

  /** "He" then "llo" is one delivery of "Hello". */
  lemma HelloInTwoChunks()
    ensures FeedChunks([], [[0x48, 0x65], [0x6C, 0x6C, 0x6F]], [0, DataFlagLast]) ==
            Fed([], [[0x48, 0x65, 0x6C, 0x6C, 0x6F]])
  {
    var chunks: seq<seq<bv8>> := [[0x48, 0x65], [0x6C, 0x6C, 0x6F]];
    OneDeliveryPerPublish([], chunks);
    assert LastOnly(2) == [0, DataFlagLast];
    assert chunks[1..][1..] == [];
    assert Concat(chunks[1..]) == [0x6C, 0x6C, 0x6F] + Concat([]);
    assert Concat(chunks) == [0x48, 0x65] + Concat(chunks[1..]) == [0x48, 0x65, 0x6C, 0x6C, 0x6F];
    assert FeedChunks([], chunks, LastOnly(2)) == Fed([], [[] + Concat(chunks)]);
    assert [] + Concat(chunks) == [0x48, 0x65, 0x6C, 0x6C, 0x6F];
  }

  /** Whether `ChangeTopic` picks entry `s` for `topic`: its filter takes the
    * topic and, when `wantedOnly`, the entry still wants to be subscribed. */
  predicate Takes(s: Subscription, topic: string, wantedOnly: bool)
  {
    Topic.MatchesClamped(s.topic, topic) && (wantedOnly ==> s.wantSubscribed)
  }

  /** The first entry, in table order, that `ChangeTopic` picks for `topic`. */
  function FirstMatch(subs: seq<Subscription>, topic: string, wantedOnly: bool): (r: Option<nat>)
    ensures r.Some? ==> r.value < |subs| && Topic.MatchesClamped(subs[r.value].topic, topic)
    ensures r.Some? && wantedOnly ==> subs[r.value].wantSubscribed
    ensures r.Some? ==> forall j :: 0 <= j < r.value ==> !Takes(subs[j], topic, wantedOnly)
    ensures r.None? ==> forall j :: 0 <= j < |subs| ==> !Takes(subs[j], topic, wantedOnly)
  {
    if |subs| == 0 then None
    else if Takes(subs[0], topic, wantedOnly) then Some(0)
    else match FirstMatch(subs[1..], topic, wantedOnly)
      case None => None
      case Some(j) => Some(j + 1)
  }

  /** How many filters `ChangeTopic` tries before it stops. */
  function Scanned(subs: seq<Subscription>, topic: string, wantedOnly: bool): (n: nat)
    ensures n <= |subs|
  {
    match FirstMatch(subs, topic, wantedOnly)
    case Some(i) => i + 1
    case None => |subs|
  }

  /** The first entry picked is the one `FirstMatch` names. */
  lemma FirstMatchAt(subs: seq<Subscription>, topic: string, wantedOnly: bool, i: nat)
    requires i < |subs| && Takes(subs[i], topic, wantedOnly)
    requires forall j :: 0 <= j < i ==> !Takes(subs[j], topic, wantedOnly)
    ensures FirstMatch(subs, topic, wantedOnly) == Some(i) && Scanned(subs, topic, wantedOnly) == i + 1
  {
    var r := FirstMatch(subs, topic, wantedOnly);
    if r.Some? {
      assert !(r.value < i) && !(i < r.value);
    }
  }

  /** Whether one of the first `n` matcher runs went past the end of a view. */
  function OverrunBefore(subs: seq<Subscription>, topic: string, n: nat): (r: bool)
    requires n <= |subs|
    ensures r <==> exists j :: 0 <= j < n && Topic.Overruns(subs[j].topic, topic)
  {
    if n == 0 then false else OverrunBefore(subs, topic, n - 1) || Topic.Overruns(subs[n - 1].topic, topic)
  }

  /** The loop of `ChangeTopic`: run the matcher on each filter in order and
    * stop at the first entry it picks. */
  method ScanFilters(subs: seq<Subscription>, topic: string, wantedOnly: bool) returns (idx: Option<nat>, overran: bool)
    ensures idx == FirstMatch(subs, topic, wantedOnly)
    ensures overran == OverrunBefore(subs, topic, Scanned(subs, topic, wantedOnly))
  {
    overran := false;
    var i := 0;
    while i < |subs|
      invariant 0 <= i <= |subs|
      invariant forall j :: 0 <= j < i ==> !Takes(subs[j], topic, wantedOnly)
      invariant overran == OverrunBefore(subs, topic, i)
    {
      var picked, over := TryFilter(subs[i], topic, wantedOnly);
      overran := overran || over;
      assert overran == OverrunBefore(subs, topic, i + 1);
      if picked {
        FirstMatchAt(subs, topic, wantedOnly, i);
        return Some(i), overran;
      }
      i := i + 1;
    }
    NoneTaken(subs, topic, wantedOnly);
    return None, overran;
  }

  /** One turn of the scan: run the matcher on the entry's filter. */
  method TryFilter(s: Subscription, topic: string, wantedOnly: bool) returns (picked: bool, over: bool)
    ensures picked == Takes(s, topic, wantedOnly)
    ensures over == Topic.Overruns(s.topic, topic)
  {
    var matched;
    matched, over := Topic.TopicMatchesSubscription(s.topic, topic);
    picked := matched && (!wantedOnly || s.wantSubscribed);
  }

  /** When no entry is picked, the scan tries every filter. */
  lemma NoneTaken(subs: seq<Subscription>, topic: string, wantedOnly: bool)
    requires forall j :: 0 <= j < |subs| ==> !Takes(subs[j], topic, wantedOnly)
    ensures FirstMatch(subs, topic, wantedOnly) == None && Scanned(subs, topic, wantedOnly) == |subs|
  {
  }

  /** A handler call: the handler, and the `Message` it was given. */
  datatype Delivery = Delivery(handler: nat, topic: string, data: seq<bv8>, flags: bv8)

  /** `Dangling`: the source would use a `Subscription` that was already freed. */
  datatype Outcome = Done | Dangling

  // ---------------------------------------------------------------------------
  // The client
  // ---------------------------------------------------------------------------

  class MqttClient {
    const connectInfo: ConnectInfo
    /** `false`: the source as written; `true`: `has_pending_callback` is set
      * once a request has been handed to lwIP. */
    const marksPending: bool
    /** `false`: the source as written; `true`: `ChangeTopic` passes over
      * entries that no longer want to be subscribed, and `Unsubscribe` drops
      * the active subscription when it is the entry being unsubscribed. */
    const honoursUnsubscribe: bool

    var subscriptions: seq<Subscription>
    /** Requests lwIP holds, each with the entry and direction it will report. */
    var inflight: seq<Request>
    /** Closures queued with `xTimerPendFunctionCall`. */
    var retries: seq<Retry>
    /** The identity the next entry gets. */
    var nextId: nat
    var connectFailures: nat
    var activeTopic: string
    /** `active_subscription_`, by identity; `None` is `nullptr`. */
    var active: Option<nat>
    var pendingMessage: seq<bv8>
    /** Every handler call so far, in order. */
    var delivered: seq<Delivery>

    function Snapshot(): Tables
      reads this`subscriptions, this`inflight, this`retries
    {
      Tables(subscriptions, inflight, retries)
    }

    ghost predicate ValidExcept(i: int)
      reads this`subscriptions, this`inflight, this`retries, this`nextId, this`connectFailures
    {
      Invariant(Snapshot(), nextId, i, marksPending) && connectFailures <= ClientCap()
    }

    ghost predicate Valid()
      reads this`subscriptions, this`inflight, this`retries, this`nextId, this`connectFailures
    {
      ValidExcept(-1)
    }

    /** The object `Create` builds before its first `Connect`. */
    constructor (info: ConnectInfo, marksPending: bool, honoursUnsubscribe: bool)
      ensures Valid()
      ensures this.connectInfo == info && this.marksPending == marksPending
      ensures this.honoursUnsubscribe == honoursUnsubscribe
      ensures subscriptions == [] && inflight == [] && retries == [] && nextId == 0 && connectFailures == 0
      ensures active == None && pendingMessage == [] && delivered == [] && activeTopic == ""
    {
      connectInfo := info;
      this.marksPending := marksPending;
      this.honoursUnsubscribe := honoursUnsubscribe;
      subscriptions := [];
      inflight := [];
      retries := [];
      nextId := 0;
      connectFailures := 0;
      activeTopic := "";
      active := None;
      pendingMessage := [];
      delivered := [];
    }

    /** `std::find_if` over the table on the topic. */
    method FindSubscription(topic: string) returns (idx: Option<nat>)
      ensures idx == TopicIndex(subscriptions, topic)
    {
      var i := 0;
      while i < |subscriptions|
        invariant 0 <= i <= |subscriptions|
        invariant forall j :: 0 <= j < i ==> subscriptions[j].topic != topic
      {
        if subscriptions[i].topic == topic {
          return Some(i);
        }
        i := i + 1;
      }
      return None;
    }

    /** `StartTransition(subscriptions_[i], failureHandling)`; `sent` is what
      * `mqtt_sub_unsub` answers if it is called. `failureHandling` changes nothing. */
    method StartTransition(i: nat, failureHandling: FailureHandling, sent: Err) returns (err: Err)
      requires ValidExcept(i) && i < |subscriptions|
      modifies this`subscriptions, this`inflight
      ensures Valid()
      ensures (Snapshot(), err) == StartEffect(old(Snapshot()), i, sent, marksPending)
    {
      ghost var t := Snapshot();
      var sub := subscriptions[i];
      if sub.hasPendingCallback || sub.wantSubscribed == sub.isSubscribed {
        Settle(i, sent);
        err := Ok;
      } else {
        err := SendTransition(i, sent);
      }
      StartKeepsInvariant(t, nextId, i, sent, marksPending);
    }

    /** The two early returns of `StartTransition`: an entry waiting for a
      * callback is left alone, and one in the state it wants is removed if it
      * wants out and left alone otherwise. */
    method Settle(i: nat, ghost sent: Err)
      requires i < |subscriptions| && !NextAction(subscriptions[i]).SendRequest?
      modifies this`subscriptions
      ensures (Snapshot(), Ok) == StartEffect(old(Snapshot()), i, sent, marksPending)
    {
      var sub := subscriptions[i];
      if !sub.hasPendingCallback && !sub.wantSubscribed {
        subscriptions := subscriptions[..i] + subscriptions[i + 1..];
      } else {
        assert subscriptions[i := Reconcile(sub, sent, marksPending)] == subscriptions;
        assert inflight + IssuedBy(sub, sent) == inflight;
      }
    }

    /** The request of `StartTransition`: `mqtt_sub_unsub` in the direction the
      * entry wants, answering `sent`. */
    method SendTransition(i: nat, sent: Err) returns (err: Err)
      requires i < |subscriptions| && NextAction(subscriptions[i]).SendRequest?
      modifies this`subscriptions, this`inflight
      ensures (Snapshot(), err) == StartEffect(old(Snapshot()), i, sent, marksPending)
    {
      var sub := subscriptions[i];
      err := sent;
      if err != Ok {
        assert inflight + IssuedBy(sub, sent) == inflight;
        subscriptions := subscriptions[i := sub.(hasPendingCallback := false, failedRequests := sub.failedRequests + 1)];
      } else {
        inflight := inflight + [Request(sub.id, sub.topic, sub.qos, sub.wantSubscribed)];
        if marksPending {
          subscriptions := subscriptions[i := sub.(hasPendingCallback := true)];
        } else {
          assert subscriptions[i := Reconcile(sub, sent, marksPending)] == subscriptions;
        }
      }
    }

    /** `WithBackoff(attempts, f)`: queue `target` behind `Backoff<250, 5000>(attempts)`;
      * `next` is what `Backoff` leaves in `attempts`. */
    method WithBackoff(attempts: nat, target: RetryTarget) returns (next: nat)
      modifies this`retries
      ensures retries == old(retries) + [Retry(target, ClientDelay(attempts))]
      ensures next == Bumped(attempts)
    {
      var delay;
      delay, next := Backoff.Backoff(Backoff.MinBackoffTicks, Backoff.MaxBackoffTicks, attempts);
      retries := retries + [Retry(target, delay)];
    }

    /** `FinishTransition(subscriptions_[i], isSubscribe, err)`; `sent` is what a
      * follow-up `mqtt_sub_unsub` answers. */
    method FinishTransition(i: nat, isSubscribe: bool, err: Err, sent: Err)
      requires i < |subscriptions| && connectFailures <= ClientCap()
      requires Invariant(Snapshot().(subscriptions := subscriptions[i := subscriptions[i].(hasPendingCallback := false)]),
                         nextId, i, marksPending)
      modifies this`subscriptions, this`inflight, this`retries
      ensures Valid()
      ensures Snapshot() == FinishEffect(old(Snapshot()), i, isSubscribe, err, sent, marksPending)
    {
      ghost var t := Snapshot();
      subscriptions := subscriptions[i := subscriptions[i].(hasPendingCallback := false)];
      if err != Ok {
        Reschedule(i);
      } else {
        FinishAccepted(i, isSubscribe, sent);
      }
      FinishKeepsInvariant(t, nextId, i, isSubscribe, err, sent, marksPending);
    }

    /** `FinishTransition` once lwIP accepted the request: record the new state
      * and start the next transition, rescheduling if that fails. */
    method FinishAccepted(i: nat, isSubscribe: bool, sent: Err)
      requires i < |subscriptions| && connectFailures <= ClientCap()
      requires Invariant(Snapshot(), nextId, i, marksPending)
      modifies this`subscriptions, this`inflight, this`retries
      ensures var t1 := old(Snapshot()).(subscriptions := old(subscriptions[i := subscriptions[i].(isSubscribed := isSubscribe)]));
              var (t2, e) := StartEffect(t1, i, sent, marksPending);
              Snapshot() == if e.Ok? then t2 else Rescheduled(t2, i)
    {
      ghost var t0 := Snapshot();
      subscriptions := subscriptions[i := subscriptions[i].(isSubscribed := isSubscribe)];
      SameShape(t0.subscriptions, subscriptions, t0, nextId, i, marksPending);
      var e := StartTransition(i, RetryAllErrors, sent);
      if e != Ok {
        Reschedule(i);
      }
    }

    /** The error path of `FinishTransition`: the entry waits again, and a retry
      * with a backoff on its `failed_requests` is queued. */
    method Reschedule(i: nat)
      requires i < |subscriptions|
      modifies this`subscriptions, this`retries
      ensures Snapshot() == Rescheduled(old(Snapshot()), i)
    {
      var s := subscriptions[i];
      var next := WithBackoff(s.failedRequests, RetrySubscription(s.id));
      subscriptions := subscriptions[i := s.(hasPendingCallback := true, failedRequests := next)];
    }

    /** lwIP completes request `k` with `err` and runs its callback, which calls
      * `FinishTransition` on the entry the request refers to. */
    method CompleteRequest(k: nat, err: Err, sent: Err) returns (outcome: Outcome)
      requires Valid() && k < |inflight|
      modifies this`subscriptions, this`inflight, this`retries
      ensures Valid()
      ensures var rest := old(Snapshot()).(inflight := old(inflight[..k] + inflight[k + 1..]));
              match old(IndexOfId(subscriptions, inflight[k].subscription))
              case None => outcome == Dangling && Snapshot() == rest
              case Some(i) => outcome == Done &&
                              Snapshot() == FinishEffect(rest, i, old(inflight[k].isSubscribe), err, sent, marksPending)
      ensures marksPending ==> outcome == Done
    {
      var q := inflight[k];
      ghost var t := Snapshot();
      if marksPending {
        CompletionFindsEntry(t, nextId, k);
      }
      var idx := IndexOfId(subscriptions, q.subscription);
      inflight := inflight[..k] + inflight[k + 1..];
      if idx.None? {
        return Dangling;
      }
      UnqueueRequestKeepsInvariant(t, nextId, k, idx.value, marksPending);
      FinishTransition(idx.value, q.isSubscribe, err, sent);
      outcome := Done;
    }

    /** `Connect()`: `sent` is what `mqtt_client_connect` answers; on an error
      * the next attempt is queued behind a backoff on `connect_failures_`. */
    method Connect(sent: Err)
      requires Valid()
      modifies this`retries, this`connectFailures
      ensures Valid()
      ensures sent.Ok? ==> retries == old(retries) && connectFailures == old(connectFailures)
      ensures sent.Fail? ==> retries == old(retries) + [Retry(Reconnect, ClientDelay(old(connectFailures)))] &&
                             connectFailures == Bumped(old(connectFailures))
      ensures sent.Fail? ==> retries[|retries| - 1].delay.Some? && retries[|retries| - 1].delay.value <= Backoff.MaxBackoffTicks
    {
      if sent != Ok {
        Reconnected();
      }
    }

    /** Queue a reconnect behind a backoff on `connect_failures_`. */
    method Reconnected()
      requires Valid()
      modifies this`retries, this`connectFailures
      ensures Valid()
      ensures retries == old(retries) + [Retry(Reconnect, ClientDelay(old(connectFailures)))]
      ensures connectFailures == Bumped(old(connectFailures))
      ensures ClientDelay(old(connectFailures)).Some? && ClientDelay(old(connectFailures)).value <= Backoff.MaxBackoffTicks
    {
      ghost var t, delay := Snapshot(), ClientDelay(connectFailures);
      QueueReconnectKeepsInvariant(t, nextId, delay, marksPending);
      BumpedStaysCapped(connectFailures);
      var next := WithBackoff(connectFailures, Reconnect);
      connectFailures := next;
      assert Snapshot() == t.(retries := t.retries + [Retry(Reconnect, delay)]);
    }

    /** A queued closure `retries[k]` runs; `sent` is what the lwIP call it makes answers. */
    method FireRetry(k: nat, sent: Err) returns (outcome: Outcome)
      requires Valid() && k < |retries|
      modifies this`subscriptions, this`inflight, this`retries, this`connectFailures
      ensures Valid()
      ensures var rest := old(Snapshot()).(retries := old(retries[..k] + retries[k + 1..]));
              match old(retries[k].target)
              case Reconnect =>
                outcome == Done && subscriptions == old(subscriptions) && inflight == old(inflight) &&
                (sent.Ok? ==> retries == rest.retries && connectFailures == old(connectFailures)) &&
                (sent.Fail? ==> retries == rest.retries + [Retry(Reconnect, ClientDelay(old(connectFailures)))] &&
                                connectFailures == Bumped(old(connectFailures)))
              case RetrySubscription(id) =>
                connectFailures == old(connectFailures) &&
                match old(IndexOfId(subscriptions, id))
                case None => outcome == Dangling && Snapshot() == rest
                case Some(i) => outcome == Done && Snapshot() == RetrySubscriptionEffect(rest, i, sent, marksPending)
      ensures marksPending ==> outcome == Done
    {
      var r := retries[k];
      ghost var t := Snapshot();
      var rest := retries[..k] + retries[k + 1..];
      match r.target
      case Reconnect =>
        UnqueueReconnectKeepsInvariant(t, nextId, k, marksPending);
        retries := rest;
        Connect(sent);
        outcome := Done;
      case RetrySubscription(id) =>
        if marksPending {
          RetryFindsEntry(t, nextId, k);
        }
        var idx := IndexOfId(subscriptions, id);
        retries := rest;
        if idx.None? {
          return Dangling;
        }
        UnqueueRetryKeepsInvariant(t, nextId, k, idx.value, marksPending);
        RetryEntry(idx.value, sent);
        outcome := Done;
    }

    /** The subscription retry's closure on entry `i`, once the retry that names
      * it has left the queue: clear the flag and run `StartTransition`. */
    method RetryEntry(i: nat, sent: Err)
      requires i < |subscriptions| && connectFailures <= ClientCap()
      requires Invariant(Snapshot().(subscriptions := subscriptions[i := subscriptions[i].(hasPendingCallback := false)]),
                         nextId, i, marksPending)
      modifies this`subscriptions, this`inflight
      ensures Valid()
      ensures Snapshot() == RetrySubscriptionEffect(old(Snapshot()), i, sent, marksPending)
    {
      subscriptions := subscriptions[i := subscriptions[i].(hasPendingCallback := false)];
      var _ := StartTransition(i, RetryAllErrors, sent);
    }

    /** `ConnectionCb(status)`. Accepted: `StartTransition` on every entry that is
      * not waiting, `outcomes[j]` answering entry `j`'s request. Otherwise every
      * entry is marked out of date and a reconnect is queued. */
    method ConnectionCb(accepted: bool, outcomes: seq<Err>)
      requires Valid() && |outcomes| == |subscriptions|
      modifies this`subscriptions, this`inflight, this`retries, this`connectFailures
      ensures Valid()
      ensures accepted ==> subscriptions == ReconcileAll(old(subscriptions), outcomes, marksPending) &&
                           inflight == old(inflight) + IssuedAll(old(subscriptions), outcomes) &&
                           retries == old(retries) && connectFailures == old(connectFailures)
      ensures !accepted ==> subscriptions == MarkStale(old(subscriptions)) && inflight == old(inflight) &&
                            retries == old(retries) + [Retry(Reconnect, ClientDelay(old(connectFailures)))] &&
                            connectFailures == Bumped(old(connectFailures))
    {
      if accepted {
        Resubscribe(outcomes);
      } else {
        MarkAllStale();
        Reconnected();
      }
    }

    /** The refuse branch's loop: every entry is marked as being in the state it
      * does not want, so that the next accepted connection resends it. */
    method MarkAllStale()
      requires Valid()
      modifies this`subscriptions
      ensures Valid()
      ensures subscriptions == MarkStale(old(subscriptions))
    {
      ghost var t := Snapshot();
      MarkEach();
      MarkStaleKeepsInvariant(t, nextId, marksPending);
      assert Snapshot() == t.(subscriptions := MarkStale(t.subscriptions));
    }

    /** The loop itself: `is_subscribed = !want_subscribed`, entry by entry. */
    method MarkEach()
      modifies this`subscriptions
      ensures subscriptions == MarkStale(old(subscriptions))
    {
      ghost var subs0 := subscriptions;
      var i := 0;
      while i < |subscriptions|
        invariant 0 <= i <= |subscriptions| == |subs0|
        invariant forall j :: 0 <= j < i ==> subscriptions[j] == subs0[j].(isSubscribed := !subs0[j].wantSubscribed)
        invariant forall j :: i <= j < |subscriptions| ==> subscriptions[j] == subs0[j]
      {
        subscriptions := subscriptions[i := subscriptions[i].(isSubscribed := !subscriptions[i].wantSubscribed)];
        i := i + 1;
      }
      assert subscriptions == MarkStale(subs0);
    }

    /** The accept branch's loop over the table. No entry is garbage, so the
      * `StartTransition` calls never erase while the loop runs. */
    method Resubscribe(outcomes: seq<Err>)
      requires Valid() && |outcomes| == |subscriptions|
      modifies this`subscriptions, this`inflight
      ensures Valid()
      ensures subscriptions == ReconcileAll(old(subscriptions), outcomes, marksPending)
      ensures inflight == old(inflight) + IssuedAll(old(subscriptions), outcomes)
    {
      ghost var subs0, inf0 := subscriptions, inflight;
      var i := 0;
      while i < |subscriptions|
        invariant 0 <= i <= |subscriptions| == |subs0|
        invariant Valid()
        invariant subscriptions == ReconcileAll(subs0[..i], outcomes[..i], marksPending) + subs0[i..]
        invariant inflight == inf0 + IssuedAll(subs0[..i], outcomes[..i])
      {
        ghost var before, sentBefore := subscriptions, inflight;
        ResubscribeOne(i, outcomes[i]);
        ReconcileAllStep(subs0, outcomes, i, marksPending, before, subscriptions);
        IssuedAllStep(inf0, subs0, outcomes, i, sentBefore, inflight);
        i := i + 1;
      }
      LoopDone(subs0, outcomes, marksPending, subscriptions);
    }

    /** One step of that loop: `StartTransition` on entry `i` unless it waits. */
    method ResubscribeOne(i: nat, sent: Err)
      requires Valid() && i < |subscriptions|
      modifies this`subscriptions, this`inflight
      ensures Valid()
      ensures subscriptions == old(subscriptions[i := Reconcile(subscriptions[i], sent, marksPending)])
      ensures inflight == old(inflight + IssuedBy(subscriptions[i], sent))
    {
      var sub := subscriptions[i];
      if !sub.hasPendingCallback {
        StartInPlace(Snapshot(), i, sent, marksPending);
        var _ := StartTransition(i, RetryAllErrors, sent);
      } else {
        assert subscriptions[i := Reconcile(sub, sent, marksPending)] == subscriptions;
        assert inflight + IssuedBy(sub, sent) == inflight;
      }
    }

    /** `Subscribe(topic, qos, handler)`; `sent` is what `mqtt_sub_unsub` answers. */
    method Subscribe(topic: string, qos: Qos, handler: nat, sent: Err) returns (err: Err)
      requires Valid()
      modifies this`subscriptions, this`inflight, this`nextId
      ensures Valid()
      ensures (Snapshot(), err) == SubscribeEffect(old(Snapshot()), old(nextId), topic, qos, handler, sent, marksPending)
      ensures nextId == if old(TopicIndex(subscriptions, topic)).None? then old(nextId) + 1 else old(nextId)
    {
      ghost var t, n0 := Snapshot(), nextId;
      var idx := FindSubscription(topic);
      if idx.Some? {
        var i := idx.value;
        subscriptions := subscriptions[i := subscriptions[i].(qos := qos, handler := handler, wantSubscribed := true, failedRequests := 0)];
        SameShape(t.subscriptions, subscriptions, t, nextId, -1, marksPending);
        err := StartTransition(i, RetryAllErrors, sent);
      } else {
        err := AddSubscription(topic, qos, handler, sent);
      }
    }

    /** The branch of `Subscribe` for a topic not in the table: a new entry,
      * whose `StartTransition` sends, since it wants in and is not. */
    method AddSubscription(topic: string, qos: Qos, handler: nat, sent: Err) returns (err: Err)
      requires Valid() && TopicIndex(subscriptions, topic).None?
      modifies this`subscriptions, this`inflight, this`nextId
      ensures Valid() && nextId == old(nextId) + 1
      ensures (Snapshot(), err) == SubscribeEffect(old(Snapshot()), old(nextId), topic, qos, handler, sent, marksPending)
    {
      ghost var t, n0 := Snapshot(), nextId;
      var sub := NewSubscription(nextId, topic, qos, handler);
      nextId := nextId + 1;
      err := sent;
      if err == Ok {
        inflight := inflight + [Request(sub.id, sub.topic, sub.qos, sub.wantSubscribed)];
        subscriptions := subscriptions + [sub.(hasPendingCallback := marksPending)];
      }
      assert (Snapshot(), err) == SubscribeEffect(t, n0, topic, qos, handler, sent, marksPending);
      SubscribeKeepsInvariant(t, n0, topic, qos, handler, sent, marksPending);
    }

    /** `Unsubscribe(topic)`; `sent` is what `mqtt_sub_unsub` answers. */
    method Unsubscribe(topic: string, sent: Err) returns (err: Err)
      requires Valid()
      modifies this`subscriptions, this`inflight, this`active
      ensures Valid()
      ensures (Snapshot(), err) == UnsubscribeEffect(old(Snapshot()), topic, sent, marksPending)
      ensures match TopicIndex(old(subscriptions), topic)
              case Some(i) =>
                active == (if honoursUnsubscribe && old(active) == Some(old(subscriptions)[i].id) then None else old(active))
              case None => active == old(active)
    {
      var idx := FindSubscription(topic);
      err := Ok;
      if idx.Some? {
        var id := subscriptions[idx.value].id;
        err := StopWanting(idx.value, topic, sent);
        ForgetActive(id);
      }
    }

    /** The entry `Unsubscribe` found no longer wants to be subscribed, and its
      * transition starts. */
    method StopWanting(i: nat, ghost topic: string, sent: Err) returns (err: Err)
      requires Valid() && TopicIndex(subscriptions, topic) == Some(i)
      modifies this`subscriptions, this`inflight
      ensures Valid()
      ensures (Snapshot(), err) == UnsubscribeEffect(old(Snapshot()), topic, sent, marksPending)
    {
      ghost var t := Snapshot();
      subscriptions := subscriptions[i := subscriptions[i].(wantSubscribed := false)];
      SameShape(t.subscriptions, subscriptions, t, nextId, i, marksPending);
      err := StartTransition(i, AllowPermanentError, sent);
    }

    /** With `honoursUnsubscribe`, a publish being delivered to entry `id` loses
      * its handler. */
    method ForgetActive(id: nat)
      modifies this`active
      ensures active == (if honoursUnsubscribe && old(active) == Some(id) then None else old(active))
    {
      if honoursUnsubscribe && active == Some(id) {
        active := None;
      }
    }

    /** `ChangeTopic(topic, total_length)`: the first entry whose filter takes the
      * topic becomes active; none does if nothing matches. With
      * `honoursUnsubscribe`, an entry that no longer wants to be subscribed is
      * passed over, so the entry made active always wants to be. `overran` says
      * whether one of the matcher runs went past the end of a view. */
    method ChangeTopic(topic: string) returns (overran: bool)
      modifies this`active, this`activeTopic
      ensures match FirstMatch(subscriptions, topic, honoursUnsubscribe)
              case Some(i) => active == Some(subscriptions[i].id) && activeTopic == topic
              case None => active == None && activeTopic == old(activeTopic)
      ensures honoursUnsubscribe && active.Some? ==>
                exists i :: 0 <= i < |subscriptions| && subscriptions[i].id == active.value && subscriptions[i].wantSubscribed
      ensures overran == OverrunBefore(subscriptions, topic, Scanned(subscriptions, topic, honoursUnsubscribe))
    {
      var idx;
      idx, overran := ScanFilters(subscriptions, topic, honoursUnsubscribe);
      if idx.Some? {
        activeTopic := topic;
        active := Some(subscriptions[idx.value].id);
      } else {
        active := None;
      }
    }

    /** `ReceiveMessage(chunk, flags)`. It writes only the message buffer and
      * the deliveries, which `Valid()` does not read, so `Valid()` holds across
      * it by its frame. */
    method ReceiveMessage(chunk: seq<bv8>, flags: bv8) returns (outcome: Outcome)
      modifies this`pendingMessage, this`delivered
      ensures active.None? ==> outcome == Done && pendingMessage == old(pendingMessage) && delivered == old(delivered)
      ensures active.Some? ==>
                var fed := Reassemble(old(pendingMessage), chunk, flags);
                if fed.handedOver == [] then
                  outcome == Done && pendingMessage == fed.collected && delivered == old(delivered)
                else match IndexOfId(subscriptions, active.value)
                  case None =>
                    outcome == Dangling && delivered == old(delivered) &&
                    pendingMessage == (if old(pendingMessage) == [] then [] else old(pendingMessage) + chunk)
                  case Some(j) =>
                    outcome == Done && pendingMessage == fed.collected &&
                    delivered == old(delivered) + [Delivery(subscriptions[j].handler, activeTopic, fed.handedOver[0], flags)]
    {
      if active.None? {
        return Done;
      }
      var completed := flags & DataFlagLast != 0;
      if !completed || pendingMessage != [] {
        pendingMessage := pendingMessage + chunk;
      }
      if !completed {
        return Done;
      }
      var data := if pendingMessage != [] then pendingMessage else chunk;
      assert data == old(pendingMessage) + chunk;
      var idx := IndexOfId(subscriptions, active.value);
      if idx.None? {
        return Dangling;
      }
      delivered := delivered + [Delivery(subscriptions[idx.value].handler, activeTopic, data, flags)];
      pendingMessage := [];
      outcome := Done;
    }
  }
}
