// The State object: its dictionaries and sets, updated in place by the calls of Broker.Op. A ghost
// history records every call, so what BrokerHistory, Consumers and Waiters say of runs holds of it.
module BrokerState {
  import opened Wrappers
  import opened Bytes
  import opened Properties
  import opened Replies
  import opened Senders
  import opened Broker
  import opened BrokerHistory
  import opened ConsumerHistory
  import opened Consumers

  lemma {:induction false} RunPrefix(events: seq<Event>, more: seq<Event>, n: nat)
    requires n <= |events|
    ensures RunTo(events + more, n) == RunTo(events, n)
  {
    hide Apply;
    if n > 0 {
      RunPrefix(events, more, n - 1);
    }
  }

  lemma RunExtended(events: seq<Event>, e: Event)
    ensures RunTo(events + [e], |events| + 1) == Apply(RunTo(events, |events|), e.op, e.closing)
  {
    hide Apply;
    RunPrefix(events, [e], |events|);
  }

  // One more recorded call keeps the state in step with its history.
  lemma OneMoreCall(before: Broker, events: seq<Event>, op: Op, closing: set<Transport>)
    requires before == RunTo(events, |events|) && Consistent(before)
    ensures var after := Apply(before, op, closing);
      after == RunTo(events + [Event(op, closing)], |events| + 1) && Consistent(after)
  {
    hide Apply, Consistent;
    RunExtended(events, Event(op, closing));
    ApplyKeepsConsistent(before, op, closing);
  }

  lemma {:induction false} FirstLiveIs(cs: seq<Consumer>, closing: set<Transport>, k: nat)
    requires k <= |cs| && (forall i :: 0 <= i < k ==> cs[i].protocol in closing)
    requires k < |cs| ==> cs[k].protocol !in closing
    ensures FirstLive(cs, closing) == k
  {
    if k > 0 {
      FirstLiveIs(cs[1..], closing, k - 1);
    }
  }

  // In every reachable state the logs and the names are those of the recorded calls.
  lemma StateTellsItsHistory(state: State, queue: Name, exchange: Name)
    requires state.Valid()
    ensures var n := |state.history|;
      && QueueLog(state.View(), queue) == QueueMessages(state.history, QueueStart(state.history, n, queue), n, queue)
      && ExchangeLog(state.View(), exchange) ==
         ExchangeMessages(state.history, ExchangeStart(state.history, n, exchange), n, exchange)
      && (queue in state.queues <==> Declared(state.history, n, queue))
      && (exchange in state.exchanges <==> ExchangeExists(state.history, n, exchange))
      && (queue in BoundTo(state.View(), exchange) <==> BoundAt(state.history, n, queue, exchange))
  {
    hide RunTo, QueueLog, ExchangeLog, Consistent;
    QueueHistory(state.history, |state.history|, queue);
    ExchangeHistory(state.history, |state.history|, exchange);
    RunNames(state.history, |state.history|, queue, exchange);
  }

  // The consumers once the one with this tag is deleted.
  function Without(cs: seq<Consumer>, tag: Name): seq<Consumer> {
    if cs == [] then []
    else if cs[0].tag == tag then cs[1..]
    else [cs[0]] + Without(cs[1..], tag)
  }

  function ProtocolsOf(queues: map<Name, Queue>): set<Transport> {
    set q, i | q in queues && 0 <= i < |queues[q].consumers| :: queues[q].consumers[i].protocol
  }

  class State {
    var users: map<Name, Name>
    var exchanges: map<Name, Exchange>
    var queues: map<Name, Queue>
    var queuesBoundExchanges: map<Name, set<Name>>
    var authenticationTriedOn: map<Name, bool>
    var messageAcknowledged: set<nat>
    var messageNotAcknowledged: set<nat>
    var messageRequeued: set<nat>
    ghost var history: seq<Event>

    ghost function View(): Broker
      reads this
    {
      Broker(users, exchanges, queues, queuesBoundExchanges, authenticationTriedOn,
             messageAcknowledged, messageNotAcknowledged, messageRequeued)
    }

    // The transports of all registered consumers.
    ghost function Protocols(): set<Transport>
      reads this
    {
      ProtocolsOf(queues)
    }

    ghost function Closing(): set<Transport>
      reads this, Protocols()
    {
      set t | t in Protocols() && t.closing
    }

    ghost predicate Valid()
      reads this, Protocols()
    {
      && View() == RunTo(history, |history|)
      && Consistent(View())
      && forall t | t in Protocols() :: t.Valid()
    }

    // The state is what one more call makes of the old one.
    twostate predicate Did(op: Op, closing: set<Transport>)
      reads this
    {
      && View() == Apply(old(View()), op, closing)
      && history == old(history) + [Event(op, closing)]
    }

    constructor ()
      ensures Valid() && View() == Initial() && history == [] && Protocols() == {}
    {
      users := map[GUEST := GUEST];
      exchanges := map[DEFAULT_EXCHANGE := Exchange(DIRECT, [])];
      queues := map[];
      queuesBoundExchanges := map[];
      authenticationTriedOn := map[];
      messageAcknowledged, messageNotAcknowledged, messageRequeued := {}, {}, {};
      history := [];
    }

    method Reset()
      requires Valid()
      modifies this
      ensures Valid() && Did(Op.Reset, {}) && Protocols() == {}
    {
      hide Consistent, RunTo;
      ghost var op := Op.Reset;
      users := map[GUEST := GUEST];
      exchanges := map[DEFAULT_EXCHANGE := Exchange(DIRECT, [])];
      queues := map[];
      queuesBoundExchanges := map[];
      authenticationTriedOn := map[];
      messageAcknowledged := {};
      messageNotAcknowledged := {};
      messageRequeued := {};
      history := history + [Event(op, {})];
      OneMoreCall(old(View()), old(history), op, {});
    }

    method CheckCredentials(username: Name, password: Name) returns (ok: bool)
      requires Valid()
      modifies this
      ensures Valid() && Did(Op.CheckCredentials(username, password), {}) && Protocols() == old(Protocols())
      ensures ok == CredentialsAccepted(old(View()), username, password)
    {
      hide Consistent, RunTo;
      ok := username in users && users[username] == password;
      authenticationTriedOn := authenticationTriedOn[username := ok];
      history := history + [Event(Op.CheckCredentials(username, password), {})];
      OneMoreCall(old(View()), old(history), Op.CheckCredentials(username, password), {});
    }

    // False when the exchange exists with another type.
    method DeclareExchange(name: Name, kind: Name) returns (ok: bool)
      requires Valid()
      modifies this
      ensures Valid() && Did(Op.DeclareExchange(name, kind), {}) && Protocols() == old(Protocols())
      ensures ok <==> name in exchanges && exchanges[name].kind == kind
    {
      hide Consistent, RunTo;
      ok := true;
      if name !in exchanges {
        exchanges := exchanges[name := Exchange(kind, [])];
      } else {
        ok := exchanges[name].kind == kind;
      }
      history := history + [Event(Op.DeclareExchange(name, kind), {})];
      OneMoreCall(old(View()), old(history), Op.DeclareExchange(name, kind), {});
    }

    method DeclareQueue(name: Name) returns (ok: bool, messageCount: nat, consumerCount: nat)
      requires Valid()
      modifies this
      ensures Valid() && Did(Op.DeclareQueue(name), {}) && Protocols() == old(Protocols())
      ensures ok && messageCount == 0 && consumerCount == 0
    {
      hide RunTo;
      if name !in queues {
        queues := queues[name := Queue([], [])];
        SameProtocols(old(queues), queues, name);
        var _ := AddBinding(name, DEFAULT_EXCHANGE);
      }
      history := history + [Event(Op.DeclareQueue(name), {})];
      OneMoreCall(old(View()), old(history), Op.DeclareQueue(name), {});
      ok, messageCount, consumerCount := true, 0, 0;
    }

    // The body of bind_queue.
    method AddBinding(queue: Name, exchange: Name) returns (ok: bool)
      modifies this`queuesBoundExchanges
      ensures View() == Bind(old(View()), queue, exchange)
      ensures ok <==> CanBind(old(View()), queue, exchange)
    {
      if exchange !in exchanges || queue !in queues {
        return false;
      }
      if exchange in queuesBoundExchanges {
        queuesBoundExchanges := queuesBoundExchanges[exchange := queuesBoundExchanges[exchange] + {queue}];
      } else {
        assert BoundTo(View(), exchange) + {queue} == {queue};
        queuesBoundExchanges := queuesBoundExchanges[exchange := {queue}];
      }
      ok := true;
    }

    method BindQueue(queue: Name, exchange: Name) returns (ok: bool)
      requires Valid()
      modifies this
      ensures Valid() && Did(Op.BindQueue(queue, exchange), {}) && Protocols() == old(Protocols())
      ensures ok <==> CanBind(old(View()), queue, exchange)
    {
      hide Consistent, RunTo, Bind;
      ok := AddBinding(queue, exchange);
      history := history + [Event(Op.BindQueue(queue, exchange), {})];
      OneMoreCall(old(View()), old(history), Op.BindQueue(queue, exchange), {});
    }

    method RegisterConsumer(consumer: Transport, tag: Name, queue: Name, channel: nat) returns (ok: bool)
      requires Valid() && consumer.Valid()
      modifies this
      ensures Valid() && Did(Op.RegisterConsumer(consumer, tag, queue, channel), {})
      ensures Protocols() <= old(Protocols()) + {consumer}
      ensures ok <==> queue in old(queues)
      ensures ok ==>
        Placed(old(queues)[queue].consumers, Consumer(tag, consumer, channel), ConsumersOf(View(), queue))
    {
      hide Consistent, RunTo, Placed;
      ok := queue in queues;
      if ok {
        var c := Consumer(tag, consumer, channel);
        PutConsumerKeeps(queues[queue].consumers, c);
        PutConsumerPlaces(queues[queue].consumers, c);
        queues := queues[queue := queues[queue].(consumers := PutConsumer(queues[queue].consumers, c))];
        ProtocolsFrom(old(queues), queues, queue, consumer);
      }
      history := history + [Event(Op.RegisterConsumer(consumer, tag, queue, channel), {})];
      OneMoreCall(old(View()), old(history), Op.RegisterConsumer(consumer, tag, queue, channel), {});
    }

    method DeleteMessagesOfQueue(queue: Name)
      requires Valid()
      modifies this
      ensures Valid() && Did(Op.DeleteMessagesOfQueue(queue), {}) && Protocols() == old(Protocols())
    {
      hide Consistent, RunTo;
      if queue in queues {
        queues := queues[queue := queues[queue].(messages := [])];
        SameProtocols(old(queues), queues, queue);
      }
      history := history + [Event(Op.DeleteMessagesOfQueue(queue), {})];
      OneMoreCall(old(View()), old(history), Op.DeleteMessagesOfQueue(queue), {});
    }

    method DeleteMessagesOfExchange(exchange: Name)
      requires Valid()
      modifies this
      ensures Valid() && Did(Op.DeleteMessagesOfExchange(exchange), {}) && Protocols() == old(Protocols())
    {
      hide Consistent, RunTo;
      if exchange in exchanges {
        exchanges := exchanges[exchange := exchanges[exchange].(messages := [])];
      }
      history := history + [Event(Op.DeleteMessagesOfExchange(exchange), {})];
      OneMoreCall(old(View()), old(history), Op.DeleteMessagesOfExchange(exchange), {});
    }

    // The loop finds every bound queue in the dictionary.
    method StoreMessage(exchange: Name, headers: PropertyMap, data: bytes) returns (ok: bool)
      requires Valid()
      modifies this
      ensures Valid() && Did(Op.StoreMessage(exchange, Message(headers, data)), {}) && Protocols() == old(Protocols())
      ensures ok <==> exchange in old(exchanges)
    {
      hide RunTo, Consistent, AppendToQueues;
      var m := Message(headers, data);
      ok := exchange in exchanges;
      if ok {
        exchanges := exchanges[exchange := exchanges[exchange].(messages := exchanges[exchange].messages + [m])];
        var names := if exchange in queuesBoundExchanges then queuesBoundExchanges[exchange] else {};
        BoundQueuesExist(old(View()), exchange);
        AppendToBound(names, m);
        AppendKeepsProtocols(old(queues), names, m);
      }
      history := history + [Event(Op.StoreMessage(exchange, m), {})];
      OneMoreCall(old(View()), old(history), Op.StoreMessage(exchange, m), {});
    }

    // Every bound queue gets the message, in whatever order the set yields them.
    method AppendToBound(names: set<Name>, m: Message)
      requires names <= queues.Keys
      modifies this`queues
      ensures queues == AppendToQueues(old(queues), names, m)
    {
      var left := names;
      while left != {}
        invariant left <= names <= queues.Keys
        invariant queues == AppendToQueues(old(queues), names - left, m)
      {
        var name :| name in left;
        queues := queues[name := queues[name].(messages := queues[name].messages + [m])];
        AppendedOneMore(old(queues), names - left, name, m);
        left := left - {name};
        assert names - left == names - (left + {name}) + {name};
      }
      assert names - left == names;
    }

    method StoreMessageInQueue(queue: Name, headers: PropertyMap, data: bytes) returns (ok: bool)
      requires Valid()
      modifies this
      ensures Valid() && Did(Op.StoreMessageInQueue(queue, Message(headers, data)), {}) &&
        Protocols() == old(Protocols())
      ensures ok <==> queue in old(queues)
    {
      hide Consistent, RunTo;
      var m := Message(headers, data);
      ok := queue in queues;
      if ok {
        queues := queues[queue := queues[queue].(messages := queues[queue].messages + [m])];
        SameProtocols(old(queues), queues, queue);
      }
      history := history + [Event(Op.StoreMessageInQueue(queue, m), {})];
      OneMoreCall(old(View()), old(history), Op.StoreMessageInQueue(queue, m), {});
    }

    method MessageAck(deliveryTag: nat)
      requires Valid()
      modifies this
      ensures Valid() && Did(Op.MessageAck(deliveryTag), {}) && Protocols() == old(Protocols())
    {
      hide Consistent, RunTo;
      messageAcknowledged := messageAcknowledged + {deliveryTag};
      history := history + [Event(Op.MessageAck(deliveryTag), {})];
      OneMoreCall(old(View()), old(history), Op.MessageAck(deliveryTag), {});
    }

    method MessageNack(deliveryTag: nat, requeue: bool)
      requires Valid()
      modifies this
      ensures Valid() && Did(Op.MessageNack(deliveryTag, requeue), {}) && Protocols() == old(Protocols())
    {
      hide Consistent, RunTo;
      if requeue {
        messageRequeued := messageRequeued + {deliveryTag};
      } else {
        messageNotAcknowledged := messageNotAcknowledged + {deliveryTag};
      }
      history := history + [Event(Op.MessageNack(deliveryTag, requeue), {})];
      OneMoreCall(old(View()), old(history), Op.MessageNack(deliveryTag, requeue), {});
    }

    // A tag is drawn for every consumer looked at, the dead ones are noted, and the first live one
    // ends the loop.
    method FindLive(consumers: seq<Consumer>) returns (i: nat, dead: seq<Name>, drawn: nat)
      ensures i <= |consumers| && dead == TagsOf(consumers[..i])
      ensures forall j :: 0 <= j < i ==> consumers[j].protocol.closing
      ensures i < |consumers| ==> !consumers[i].protocol.closing
      ensures consumers != [] ==> 1 <= drawn <= 0x8000_0000
    {
      i, dead, drawn := 0, [], 0;
      while i < |consumers|
        invariant i <= |consumers| && dead == TagsOf(consumers[..i]) && (i > 0 ==> 1 <= drawn <= 0x8000_0000)
        invariant forall j :: 0 <= j < i ==> consumers[j].protocol.closing
      {
        drawn :| 1 <= drawn <= 0x8000_0000;
        if !consumers[i].protocol.closing {
          return;
        }
        TagsOfNext(consumers, i);
        dead := dead + [consumers[i].tag];
        i := i + 1;
      }
    }

    // The scan over the consumers of one queue, with its deferred deletions.
    method ScanConsumers(queue: Name, m: Message, exchange: Name)
      returns (r: Result<Option<nat>>, ghost drawn: nat, ghost to: Option<Consumer>)
      requires queue in queues
      requires forall t | t in Protocols() :: t.Valid()
      modifies this`queues, Protocols()
      ensures forall t | t in old(Protocols()) :: t.Valid() && t.closing == old(t.closing)
      ensures to.Some? ==> to.value.protocol in old(Protocols()) && !old(to.value.protocol.closing)
      ensures r.Ok? && r.value.Some? ==> r.value == Some(drawn) && 1 <= drawn <= 0x8000_0000
      ensures forall t | t in old(Protocols()) :: t.sent == old(t.sent) + Delivery(t, to, drawn, exchange, m)
      ensures var p := ScanQueue(old(View()), queue, m, exchange, drawn, old(Closing()));
        && View() == p.broker && to == p.to
        && r == if p.error.Some? then Raised(p.error.value) else Ok(p.tag)
    {
      hide ScanQueue, PushMessage, FirstLive, TagsOf;
      var consumers := queues[queue].consumers;
      var i, dead, n := FindLive(consumers);
      drawn := n;
      forall j | 0 <= j < |consumers|
        ensures consumers[j].protocol in Protocols()
      {
        InProtocols(queues, queue, j);
      }
      FirstLiveIs(consumers, Closing(), i);
      if i < |consumers| {
        to := Some(consumers[i]);
        r := PushAndClean(queue, i, dead, n, m, exchange, Closing());
      } else {
        to := None;
        ScanFindsNobody(View(), queue, m, exchange, n, Closing());
        assert consumers[..i] == consumers;
        DropDead(queue, dead, i);
        r := Ok(if consumers == [] then None else Some(n));
      }
    }

    // The live consumer gets the message, then the dead ones before it are deleted.
    method PushAndClean(queue: Name, i: nat, dead: seq<Name>, drawn: nat, m: Message,
        exchange: Name, ghost closing: set<Transport>)
      returns (r: Result<Option<nat>>)
      requires queue in queues && i < |queues[queue].consumers|
      requires dead == TagsOf(queues[queue].consumers[..i]) && queues[queue].consumers[i].protocol.Valid()
      requires FirstLive(queues[queue].consumers, closing) == i
      modifies this`queues, queues[queue].consumers[i].protocol`log, queues[queue].consumers[i].protocol`sent
      ensures var c := old(queues)[queue].consumers[i];
        c.protocol.Valid() &&
          c.protocol.sent == old(c.protocol.sent) + Delivery(c.protocol, Some(c), drawn, exchange, m)
      ensures var p := ScanQueue(old(View()), queue, m, exchange, drawn, closing);
        && View() == p.broker && p.to == Some(old(queues)[queue].consumers[i]) && (r.Ok? ==> r.value == Some(drawn))
        && r == if p.error.Some? then Raised(p.error.value) else Ok(p.tag)
    {
      hide ScanQueue, PushMessage, FirstLive, TagsOf;
      var c := queues[queue].consumers[i];
      ScanPushes(View(), queue, m, exchange, drawn, closing, i);
      var outcome := SendPush(c.protocol, c.channel, c.tag, drawn, exchange, m.headers, m.body);
      if outcome.Raised? {
        return Raised(outcome.error);
      }
      DropDead(queue, dead, i);
      r := Ok(Some(drawn));
    }

    // Deletes the consumers that were found dead, one after the other.
    method DropDead(queue: Name, dead: seq<Name>, ghost k: nat)
      requires queue in queues && k <= |queues[queue].consumers|
      requires dead == TagsOf(queues[queue].consumers[..k])
      modifies this`queues
      ensures queues == old(queues)[queue := old(queues[queue]).(consumers := old(queues[queue]).consumers[k..])]
    {
      var cs := queues[queue].consumers;
      var i := 0;
      while i < |dead|
        invariant i <= |dead| && cs == old(queues[queue]).consumers[i..]
      {
        assert cs[0].tag == dead[i];
        cs := Without(cs, dead[i]);
        i := i + 1;
      }
      queues := queues[queue := queues[queue].(consumers := cs)];
    }

    // None when the queue does not exist, or when it has no consumer at all.
    method PublishMessageInQueue(queue: Name, headers: PropertyMap, data: bytes)
      returns (r: Result<Option<nat>>, ghost drawn: nat, ghost to: Option<Consumer>)
      requires Valid()
      modifies this, Protocols()
      ensures Valid() && Protocols() <= old(Protocols())
      ensures Did(Op.PublishMessageInQueue(queue, Message(headers, data), drawn), old(Closing()))
      ensures forall t | t in old(Protocols()) :: t.Valid() && t.closing == old(t.closing)
      ensures to.Some? ==> to.value.protocol in old(Protocols()) && !old(to.value.protocol.closing)
      ensures r.Ok? && r.value.Some? ==> r.value == Some(drawn) && 1 <= drawn <= 0x8000_0000
      ensures forall t | t in old(Protocols()) ::
        t.sent == old(t.sent) + Delivery(t, to, drawn, DUMMY_EXCHANGE, Message(headers, data))
      ensures var p := PublishInQueue(old(View()), queue, Message(headers, data), drawn, old(Closing()));
        to == p.to && r == if p.error.Some? then Raised(p.error.value) else Ok(p.tag)
    {
      hide RunTo, ScanQueue, PushMessage, Consistent, ProtocolsOf, PublishInQueue, Wire, Apply;
      PublishNowhere(View(), queue, Message(headers, data));
      var m := Message(headers, data);
      ghost var closing := Closing();
      r, drawn, to := Ok(None), 0, None;
      if queue in queues {
        queues := queues[queue := queues[queue].(messages := queues[queue].messages + [m])];
        SameProtocols(old(queues), queues, queue);
        ghost var stored := View();
        assert Closing() == closing;
        r, drawn, to := ScanConsumers(queue, m, DUMMY_EXCHANGE);
        ScanShrinks(stored, queue, m, DUMMY_EXCHANGE, drawn, closing);
        PublishScans(old(View()), queue, m, drawn, closing);
      }
      ghost var op := Op.PublishMessageInQueue(queue, m, drawn);
      PublishApplied(old(View()), op, closing);
      history := history + [Event(op, closing)];
      OneMoreCall(old(View()), old(history), op, closing);
    }

    // The loop over the bound queues returns in its first turn, whichever queue the set yields.
    method PublishMessage(exchange: Name, headers: PropertyMap, data: bytes)
      returns (r: Result<Option<nat>>, ghost picked: Name, ghost drawn: nat, ghost to: Option<Consumer>)
      requires Valid()
      modifies this, Protocols()
      ensures Valid() && Protocols() <= old(Protocols())
      ensures Did(Op.PublishMessage(exchange, Message(headers, data), picked, drawn), old(Closing()))
      ensures BoundTo(old(View()), exchange) != {} ==> picked in BoundTo(old(View()), exchange)
      ensures forall t | t in old(Protocols()) :: t.Valid() && t.closing == old(t.closing)
      ensures to.Some? ==> to.value.protocol in old(Protocols()) && !old(to.value.protocol.closing)
      ensures r.Ok? && r.value.Some? ==> r.value == Some(drawn) && 1 <= drawn <= 0x8000_0000
      ensures forall t | t in old(Protocols()) ::
        t.sent == old(t.sent) + Delivery(t, to, drawn, exchange, Message(headers, data))
      ensures var p := Publish(old(View()), exchange, Message(headers, data), picked, drawn, old(Closing()));
        to == p.to && r == if p.error.Some? then Raised(p.error.value) else Ok(p.tag)
    {
      hide RunTo, ScanQueue, PushMessage, Consistent, ProtocolsOf, Wire, Apply;
      BoundQueuesExist(View(), exchange);
      var m := Message(headers, data);
      ghost var closing := Closing();
      r, picked, drawn, to := Ok(None), [], 0, None;
      var names := if exchange in queuesBoundExchanges then queuesBoundExchanges[exchange] else {};
      if names != {} {
        picked :| picked in names;
      }
      if exchange in exchanges {
        exchanges := exchanges[exchange := exchanges[exchange].(messages := exchanges[exchange].messages + [m])];
        if names != {} {
          var name :| name in names;
          picked := name;
          ghost var stored := View();
          assert stored == AppendToExchange(old(View()), exchange, m) && Closing() == closing;
          r, drawn, to := ScanConsumers(name, m, exchange);
          ScanShrinks(stored, name, m, exchange, drawn, closing);
          assert Publish(old(View()), exchange, m, name, drawn, closing) ==
            ScanQueue(stored, name, m, exchange, drawn, closing);
        }
      }
      ghost var op := Op.PublishMessage(exchange, m, picked, drawn);
      PublishApplied(old(View()), op, closing);
      history := history + [Event(op, closing)];
      OneMoreCall(old(View()), old(history), op, closing);
    }
  }

  lemma PublishApplied(b: Broker, op: Op, closing: set<Transport>)
    ensures op.PublishMessage? ==>
      Apply(b, op, closing) == Publish(b, op.exchange, op.message, op.picked, op.drawn, closing).broker
    ensures op.PublishMessageInQueue? ==>
      Apply(b, op, closing) == PublishInQueue(b, op.queue, op.message, op.drawn, closing).broker
  {
  }

  function TagsOf(cs: seq<Consumer>): (tags: seq<Name>)
    ensures |tags| == |cs| && forall i :: 0 <= i < |cs| ==> tags[i] == cs[i].tag
  {
    seq(|cs|, i requires 0 <= i < |cs| => cs[i].tag)
  }

  lemma TagsOfNext(cs: seq<Consumer>, i: nat)
    requires i < |cs|
    ensures TagsOf(cs[..i + 1]) == TagsOf(cs[..i]) + [cs[i].tag]
  {
  }

  lemma InProtocols(queues: map<Name, Queue>, queue: Name, i: nat)
    requires queue in queues && i < |queues[queue].consumers|
    ensures queues[queue].consumers[i].protocol in ProtocolsOf(queues)
  {
  }

  lemma ScanShrinks(b: Broker, queue: Name, m: Message, exchange: Name, drawn: nat, closing: set<Transport>)
    requires queue in b.queues
    ensures ProtocolsOf(ScanQueue(b, queue, m, exchange, drawn, closing).broker.queues) <= ProtocolsOf(b.queues)
  {
    hide PushMessage;
    var after := ScanQueue(b, queue, m, exchange, drawn, closing).broker.queues;
    var k := FirstLive(b.queues[queue].consumers, closing);
    forall t | t in ProtocolsOf(after)
      ensures t in ProtocolsOf(b.queues)
    {
      var q, i :| q in after && 0 <= i < |after[q].consumers| && after[q].consumers[i].protocol == t;
      if after[q] != b.queues[q] {
        assert b.queues[q].consumers[k + i].protocol == t;
      }
    }
  }

  lemma BoundQueuesExist(b: Broker, exchange: Name)
    requires Consistent(b)
    ensures BoundTo(b, exchange) <= b.queues.Keys
  {
  }

  lemma SameProtocols(before: map<Name, Queue>, after: map<Name, Queue>, queue: Name)
    requires after.Keys == before.Keys + {queue}
    requires forall q | q in before && q != queue :: after[q] == before[q]
    requires after[queue].consumers == if queue in before then before[queue].consumers else []
    ensures ProtocolsOf(after) == ProtocolsOf(before)
  {
  }

  lemma ProtocolsFrom(before: map<Name, Queue>, after: map<Name, Queue>, queue: Name, consumer: Transport)
    requires queue in before && queue in after && after == before[queue := after[queue]]
    requires forall x | x in after[queue].consumers :: x.protocol == consumer || x in before[queue].consumers
    ensures ProtocolsOf(after) <= ProtocolsOf(before) + {consumer}
  {
    forall t | t in ProtocolsOf(after)
      ensures t in ProtocolsOf(before) + {consumer}
    {
      var q, i :| q in after && 0 <= i < |after[q].consumers| && after[q].consumers[i].protocol == t;
      assert after[q].consumers[i] in after[q].consumers;
    }
  }

  lemma AppendedOneMore(queues: map<Name, Queue>, done: set<Name>, name: Name, m: Message)
    requires name in queues && name !in done
    ensures var q := AppendToQueues(queues, done, m);
      q[name := q[name].(messages := q[name].messages + [m])] == AppendToQueues(queues, done + {name}, m)
  {
  }

  lemma AppendKeepsProtocols(queues: map<Name, Queue>, names: set<Name>, m: Message)
    ensures ProtocolsOf(AppendToQueues(queues, names, m)) == ProtocolsOf(queues)
  {
    var after := AppendToQueues(queues, names, m);
    assert forall q | q in queues :: after[q].consumers == queues[q].consumers;
  }
}
