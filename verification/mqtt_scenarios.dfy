/**
 * Runs of the MQTT client that show what the missing `has_pending_callback = true`
 * in `StartTransition` does, and that the client with the flag set does not do it.
 *
 * `Subscribe("a")` hands a request to lwIP; as written, the entry does not wait
 * for it, so an `Unsubscribe("a")` before the answer finds an entry that is
 * unsubscribed and wants to stay so, and erases it. The answer then names an
 * entry that no longer exists: in the C++ program, a `Subscription*` into freed
 * memory.
 */
module MqttScenarios {
  import opened Wrappers
  import opened Mqtt

  const Empty := Tables([], [], [])

  /** The entry `Subscribe("a")` creates. */
  function EntryA(): Subscription
  {
    NewSubscription(0, "a", BestEffort, 7)
  }

  /** `Subscribe("a")` on the empty table sends one request; the entry waits
    * for it only with the flag set. */
  lemma FirstSubscribe(marks: bool)
    ensures SubscribeEffect(Empty, 0, "a", BestEffort, 7, Ok, marks) ==
            (Tables([EntryA().(hasPendingCallback := marks)], [RequestFor(EntryA())], []), Ok)
  {
    assert TopicIndex([], "a") == None;
    assert AfterSend(EntryA(), Ok, marks) == EntryA().(hasPendingCallback := marks);
    assert [] + [EntryA().(hasPendingCallback := marks)] == [EntryA().(hasPendingCallback := marks)];
    assert [] + [RequestFor(EntryA())] == [RequestFor(EntryA())];
  }

  /** As written: subscribe, then unsubscribe before lwIP answers. */
  lemma AsWrittenUnsubscribeErasesWaitingEntry()
    ensures var (t1, e1) := SubscribeEffect(Empty, 0, "a", BestEffort, 7, Ok, false);
            var (t2, e2) := UnsubscribeEffect(t1, "a", Ok, false);
            e1 == Ok && e2 == Ok && t2.subscriptions == [] && |t2.inflight| == 1 &&
            IndexOfId(t2.subscriptions, t2.inflight[0].subscription).None?
  {
    FirstSubscribe(false);
    var t1 := Tables([EntryA()], [RequestFor(EntryA())], []);
    assert TopicIndex(t1.subscriptions, "a") == Some(0);
    var s' := EntryA().(wantSubscribed := false);
    assert NextAction(s') == EraseEntry;
    assert Erase([s'], 0) == [];
    assert UnsubscribeEffect(t1, "a", Ok, false) == (Tables([], t1.inflight, []), Ok);
  }

  /** As written: subscribing twice before the answer leaves two requests for one entry. */
  lemma AsWrittenResubscribeSendsTwice()
    ensures var (t1, _) := SubscribeEffect(Empty, 0, "a", BestEffort, 7, Ok, false);
            var (t2, _) := SubscribeEffect(t1, 1, "a", AtLeastOnce, 7, Ok, false);
            |t2.subscriptions| == 1 && multiset(RequestRefs(t2.inflight))[t2.subscriptions[0].id] == 2
  {
    FirstSubscribe(false);
    var s := EntryA();
    var t1 := Tables([s], [RequestFor(s)], []);
    SecondSubscribe(t1);
    assert RequestRefs([RequestFor(s), RequestFor(s.(qos := AtLeastOnce))]) == [0, 0];
  }

  lemma SecondSubscribe(t1: Tables)
    requires t1 == Tables([EntryA()], [RequestFor(EntryA())], [])
    ensures SubscribeEffect(t1, 1, "a", AtLeastOnce, 7, Ok, false) ==
            (Tables([EntryA().(qos := AtLeastOnce)], [RequestFor(EntryA()), RequestFor(EntryA().(qos := AtLeastOnce))], []), Ok)
  {
    assert TopicIndex(t1.subscriptions, "a") == Some(0);
    var s2 := EntryA().(qos := AtLeastOnce);
    assert t1.subscriptions[0].(qos := AtLeastOnce, handler := 7, wantSubscribed := true, failedRequests := 0) == s2;
    var u := t1.(subscriptions := t1.subscriptions[0 := s2]);
    assert u.subscriptions == [s2];
    assert NextAction(s2) == SendRequest(true);
    assert Reconcile(s2, Ok, false) == s2;
    assert [s2][0 := s2] == [s2];
    assert u.inflight + IssuedBy(s2, Ok) == [RequestFor(EntryA()), RequestFor(s2)];
    assert StartResult(s2, Ok) == Ok;
  }

  /** With the flag set, the same unsubscribe only records the wish: the entry
    * waits, and the answer finds it. */
  lemma FixedUnsubscribeKeepsWaitingEntry()
    ensures var (t1, e1) := SubscribeEffect(Empty, 0, "a", BestEffort, 7, Ok, true);
            var (t2, e2) := UnsubscribeEffect(t1, "a", Ok, true);
            e1 == Ok && e2 == Ok && |t2.subscriptions| == 1 && |t2.inflight| == 1 &&
            t2.subscriptions[0].hasPendingCallback && !t2.subscriptions[0].wantSubscribed &&
            IndexOfId(t2.subscriptions, t2.inflight[0].subscription) == Some(0)
  {
    FirstSubscribe(true);
    var t1 := Tables([EntryA().(hasPendingCallback := true)], [RequestFor(EntryA())], []);
    assert TopicIndex(t1.subscriptions, "a") == Some(0);
    var s' := EntryA().(hasPendingCallback := true, wantSubscribed := false);
    assert NextAction(s') == NoAction;
    assert Reconcile(s', Ok, true) == s' && IssuedBy(s', Ok) == [];
    var u := t1.(subscriptions := t1.subscriptions[0 := s']);
    assert u.subscriptions == [s'];
    assert NextAction(u.subscriptions[0]) != EraseEntry;
    assert [s'][0 := s'] == [s'];
    assert u.inflight + IssuedBy(s', Ok) == t1.inflight;
    assert StartResult(s', Ok) == Ok;
    assert StartEffect(u, 0, Ok, true) == (Tables([s'], t1.inflight, []), Ok);
    assert UnsubscribeEffect(t1, "a", Ok, true) == (Tables([s'], t1.inflight, []), Ok);
  }

  /** With the flag set, any run of the client's operations from the empty table
    * keeps the invariant, so every answer finds its entry: this is the first step. */
  lemma FixedStartsConsistent()
    ensures Invariant(Empty, 0, -1, true)
  {
    assert forall x: nat :: Outstanding([], [], x) == 0;
  }

  /** The same run on the client object, as written: the answer to the subscribe
    * request finds no entry. */
  method AsWrittenClientDangles() returns (outcome: Outcome)
    ensures outcome == Dangling
  {
    var c := new MqttClient(DefaultConnectInfo(), false, false);
    var e1 := c.Subscribe("a", BestEffort, 7, Ok);
    var e2 := c.Unsubscribe("a", Ok);
    AsWrittenUnsubscribeErasesWaitingEntry();
    outcome := c.CompleteRequest(0, Ok, Ok);
  }

  /** The same run with the flag set: the answer finds the entry, which is then
    * unsubscribed. */
  method FixedClientFindsEntry() returns (outcome: Outcome)
    ensures outcome == Done
  {
    var c := ConfirmedClient(false);
    var e2 := c.Unsubscribe("a", Ok);
    FixedUnsubscribeKeepsWaitingEntry();
    outcome := c.CompleteRequest(0, Ok, Ok);
  }

  /** Entry "a" once the broker confirmed the subscription. */
  function SubscribedA(): Subscription
  {
    EntryA().(isSubscribed := true)
  }

  /** Entry "a" after `Unsubscribe("a")`, waiting for the broker's answer. */
  function LeavingA(): Subscription
  {
    SubscribedA().(wantSubscribed := false, hasPendingCallback := true)
  }

  /** The broker confirms the subscribe request: the entry is subscribed and idle. */
  lemma ConfirmSubscribeA()
    ensures FinishEffect(Tables([EntryA().(hasPendingCallback := true)], [], []), 0, true, Ok, Ok, true) ==
            Tables([SubscribedA()], [], [])
  {
    var t1 := Tables([EntryA().(hasPendingCallback := false, isSubscribed := true)], [], []);
    assert t1.subscriptions[0] == SubscribedA();
    assert NextAction(SubscribedA()) == NoAction;
    assert Reconcile(SubscribedA(), Ok, true) == SubscribedA() && IssuedBy(SubscribedA(), Ok) == [];
    assert [SubscribedA()][0 := SubscribedA()] == [SubscribedA()];
    assert t1.inflight + IssuedBy(SubscribedA(), Ok) == [];
    assert StartResult(SubscribedA(), Ok) == Ok;
    assert StartEffect(t1, 0, Ok, true) == (t1, Ok);
  }

  /** `Unsubscribe("a")` on the subscribed entry sends the request and waits. */
  lemma UnsubscribeSubscribedA()
    ensures UnsubscribeEffect(Tables([SubscribedA()], [], []), "a", Ok, true) ==
            (Tables([LeavingA()], [RequestFor(SubscribedA().(wantSubscribed := false))], []), Ok)
  {
    var t := Tables([SubscribedA()], [], []);
    assert TopicIndex(t.subscriptions, "a") == Some(0);
    var s := SubscribedA().(wantSubscribed := false);
    assert NextAction(s) == SendRequest(false);
    assert Reconcile(s, Ok, true) == LeavingA();
    assert t.subscriptions[0 := s] == [s];
    assert [s][0 := LeavingA()] == [LeavingA()];
    assert IssuedBy(s, Ok) == [RequestFor(s)];
    assert [] + IssuedBy(s, Ok) == [RequestFor(s)];
    assert StartResult(s, Ok) == Ok;
    assert StartEffect(Tables([s], [], []), 0, Ok, true) == (Tables([LeavingA()], [RequestFor(s)], []), Ok);
  }

  /** The filter "a" takes the topic "a"; only the entry that wants to be
    * subscribed is picked when unwanted entries are passed over. */
  lemma PickA()
    ensures FirstMatch([LeavingA()], "a", false) == Some(0)
    ensures FirstMatch([LeavingA()], "a", true) == None
    ensures FirstMatch([SubscribedA()], "a", true) == Some(0)
    ensures IndexOfId([LeavingA()], 0) == Some(0)
  {
    assert Topic.MatchesClamped("a", "a") by {
      assert Topic.SlashIndex("a") == 1;
    }
  }

  /** A one-chunk publish is handed over whole. */
  lemma OneChunk(b: bv8)
    ensures Reassemble([], [b], DataFlagLast) == Fed([], [[b]])
  {
    assert DataFlagLast & DataFlagLast != 0;
    assert [] + [b] == [b];
  }

  /** A client that has sent its subscribe request for "a", with the flag set
    * on send and the given reading of `Unsubscribe`. */
  method SubscribingClient(honours: bool) returns (c: MqttClient)
    ensures fresh(c) && c.Valid() && c.marksPending && c.honoursUnsubscribe == honours
    ensures c.Snapshot() == Tables([EntryA().(hasPendingCallback := true)], [RequestFor(EntryA())], [])
    ensures c.active == None && c.pendingMessage == [] && c.delivered == []
  {
    c := new MqttClient(DefaultConnectInfo(), true, honours);
    var e1 := c.Subscribe("a", BestEffort, 7, Ok);
    FirstSubscribe(true);
  }

  /** The same client once the broker has confirmed the subscription. */
  method ConfirmedClient(honours: bool) returns (c: MqttClient)
    ensures fresh(c) && c.Valid() && c.marksPending && c.honoursUnsubscribe == honours
    ensures c.Snapshot() == Tables([SubscribedA()], [], [])
    ensures c.active == None && c.pendingMessage == [] && c.delivered == []
  {
    c := SubscribingClient(honours);
    ghost var rest := c.Snapshot().(inflight := []);
    assert c.inflight[..0] + c.inflight[1..] == [];
    assert IndexOfId(c.subscriptions, c.inflight[0].subscription) == Some(0);
    ConfirmSubscribeA();
    var o1 := c.CompleteRequest(0, Ok, Ok);
  }

  /** The confirmed client after `Unsubscribe("a")` has returned: the entry
    * waits for the broker's answer. */
  method LeavingClient(honours: bool) returns (c: MqttClient)
    ensures fresh(c) && c.Valid() && c.honoursUnsubscribe == honours
    ensures c.subscriptions == [LeavingA()] && c.active == None && c.pendingMessage == [] && c.delivered == []
  {
    c := ConfirmedClient(honours);
    UnsubscribeSubscribedA();
    assert TopicIndex(c.subscriptions, "a") == Some(0);
    var e2 := c.Unsubscribe("a", Ok);
  }

  /** As written, a handler is called after `Unsubscribe` returns: the entry
    * waits for the broker to confirm the unsubscribe, and until then
    * `ChangeTopic` still picks it for a publish on its topic. */
  method AsWrittenHandlerCalledAfterUnsubscribe() returns (delivered: seq<Delivery>)
    ensures |delivered| == 1 && delivered[0].handler == 7
  {
    var c := LeavingClient(false);
    PickA();
    var over := c.ChangeTopic("a");
    assert c.active == Some(0);
    OneChunk(1);
    var o2 := c.ReceiveMessage([1], DataFlagLast);
    assert c.delivered == [Delivery(7, "a", [1], DataFlagLast)];
    delivered := c.delivered;
  }

  /** The confirmed client with `honoursUnsubscribe`, in the middle of a
    * publish on "a". */
  method PublishingClient() returns (c: MqttClient)
    ensures fresh(c) && c.Valid() && c.marksPending && c.honoursUnsubscribe
    ensures c.Snapshot() == Tables([SubscribedA()], [], []) && c.active == Some(0) && c.delivered == []
  {
    c := ConfirmedClient(true);
    PickA();
    var over1 := c.ChangeTopic("a");
    assert c.subscriptions == [SubscribedA()] && c.active == Some(0);
  }

  /** With `honoursUnsubscribe`: a publish on "a" has begun, and then
    * `Unsubscribe("a")` returns; the publish no longer has a handler. */
  method UnsubscribedDuringPublish() returns (c: MqttClient)
    ensures fresh(c) && c.Valid() && c.honoursUnsubscribe
    ensures c.subscriptions == [LeavingA()] && c.active == None && c.delivered == []
  {
    c := PublishingClient();
    UnsubscribeSubscribedA();
    assert TopicIndex(c.subscriptions, "a") == Some(0) && c.subscriptions[0].id == 0;
    var e2 := c.Unsubscribe("a", Ok);
  }

  /** With `honoursUnsubscribe`, neither a publish that began before
    * `Unsubscribe` nor one after it reaches the handler. */
  method FixedHandlerNotCalledAfterUnsubscribe() returns (delivered: seq<Delivery>)
    ensures delivered == []
  {
    var c := UnsubscribedDuringPublish();
    var o2 := c.ReceiveMessage([1], DataFlagLast);
    PickA();
    var over2 := c.ChangeTopic("a");
    var o3 := c.ReceiveMessage([2], DataFlagLast);
    delivered := c.delivered;
  }
}
