// The broker's state as a value, and what every State method does to it.
module Broker {
  import opened Wrappers
  import opened Bytes
  import opened Properties
  import opened Replies
  import opened Senders

  type Name = bytes

  datatype Message = Message(headers: PropertyMap, body: bytes)

  datatype Consumer = Consumer(tag: Name, protocol: Transport, channel: nat)

  // The consumers of a queue are a dict: tags are distinct and remember their insertion order.
  datatype Queue = Queue(messages: seq<Message>, consumers: seq<Consumer>)

  datatype Exchange = Exchange(kind: Name, messages: seq<Message>)

  datatype Broker = Broker(
    users: map<Name, Name>,
    exchanges: map<Name, Exchange>,
    queues: map<Name, Queue>,
    bound: map<Name, set<Name>>,
    tried: map<Name, bool>,
    acknowledged: set<nat>,
    notAcknowledged: set<nat>,
    requeued: set<nat>)

  const DEFAULT_EXCHANGE: Name := []
  const DIRECT: Name := ['d' as int, 'i' as int, 'r' as int, 'e' as int, 'c' as int, 't' as int]
  const GUEST: Name := ['g' as int, 'u' as int, 'e' as int, 's' as int, 't' as int]

  function Initial(): Broker {
    Broker(map[GUEST := GUEST], map[DEFAULT_EXCHANGE := Exchange(DIRECT, [])], map[], map[], map[], {}, {}, {})
  }

  // The calls a protocol or the HTTP side can make. A publish carries the queue the iteration over
  // the bound set meets first and the last delivery tag drawn.
  datatype Op =
    | CheckCredentials(user: Name, password: Name)
    | DeclareExchange(exchange: Name, kind: Name)
    | DeclareQueue(queue: Name)
    | BindQueue(queue: Name, exchange: Name)
    | RegisterConsumer(protocol: Transport, consumerTag: Name, queue: Name, channel: nat)
    | DeleteMessagesOfQueue(queue: Name)
    | DeleteMessagesOfExchange(exchange: Name)
    | StoreMessage(exchange: Name, message: Message)
    | StoreMessageInQueue(queue: Name, message: Message)
    | PublishMessage(exchange: Name, message: Message, picked: Name, drawn: nat)
    | PublishMessageInQueue(queue: Name, message: Message, drawn: nat)
    | MessageAck(deliveryTag: nat)
    | MessageNack(deliveryTag: nat, requeue: bool)
    | Reset

  // ---- single operations ----

  predicate CredentialsAccepted(b: Broker, user: Name, password: Name) {
    user in b.users && b.users[user] == password
  }

  function BoundTo(b: Broker, exchange: Name): set<Name> {
    if exchange in b.bound then b.bound[exchange] else {}
  }

  predicate CanBind(b: Broker, queue: Name, exchange: Name) {
    exchange in b.exchanges && queue in b.queues
  }

  function Bind(b: Broker, queue: Name, exchange: Name): Broker {
    if CanBind(b, queue, exchange) then b.(bound := b.bound[exchange := BoundTo(b, exchange) + {queue}]) else b
  }

  // A new queue is bound to the default exchange.
  function Declare(b: Broker, queue: Name): Broker {
    if queue in b.queues then b
    else Bind(b.(queues := b.queues[queue := Queue([], [])]), queue, DEFAULT_EXCHANGE)
  }

  function AppendToQueues(queues: map<Name, Queue>, names: set<Name>, m: Message): map<Name, Queue> {
    map q | q in queues :: if q in names then queues[q].(messages := queues[q].messages + [m]) else queues[q]
  }

  function AppendToExchange(b: Broker, exchange: Name, m: Message): Broker
    requires exchange in b.exchanges
  {
    b.(exchanges := b.exchanges[exchange := b.exchanges[exchange].(messages := b.exchanges[exchange].messages + [m])])
  }

  // A new tag comes last; a known one keeps its place and gets the new consumer.
  function PutConsumer(cs: seq<Consumer>, c: Consumer): seq<Consumer> {
    if cs == [] then [c]
    else if cs[0].tag == c.tag then [c] + cs[1..]
    else [cs[0]] + PutConsumer(cs[1..], c)
  }

  // ---- the consumer scan ----

  // The position of the first consumer whose transport is not closing, or the length.
  function FirstLive(cs: seq<Consumer>, closing: set<Transport>): (k: nat)
    ensures k <= |cs|
    ensures forall i :: 0 <= i < k ==> cs[i].protocol in closing
    ensures k < |cs| ==> cs[k].protocol !in closing
  {
    if cs == [] || cs[0].protocol !in closing then 0 else 1 + FirstLive(cs[1..], closing)
  }

  // The new state, the tag returned, the consumer a push was tried on, and the exception it raised.
  datatype Published = Published(broker: Broker, tag: Option<nat>, to: Option<Consumer>, error: Option<Error>)

  // A push that raises leaves the dead consumers in place; with only dead consumers the last tag
  // drawn is returned although nothing was pushed.
  function ScanQueue(b: Broker, queue: Name, m: Message, exchange: Name, drawn: nat, closing: set<Transport>): Published
    requires queue in b.queues
  {
    var cs := b.queues[queue].consumers;
    var k := FirstLive(cs, closing);
    var cleaned := b.(queues := b.queues[queue := b.queues[queue].(consumers := cs[k..])]);
    if k == |cs| then Published(cleaned, if cs == [] then None else Some(drawn), None, None)
    else
      var push := PushMessage(cs[k].channel, cs[k].tag, drawn, exchange, m.headers, m.body);
      if push.error.Some? then Published(b, None, Some(cs[k]), push.error)
      else Published(cleaned, Some(drawn), Some(cs[k]), None)
  }

  // What a publish adds to the wire of t: the push if t belongs to the consumer it reached.
  function Delivery(t: Transport, to: Option<Consumer>, drawn: nat, exchange: Name, m: Message): seq<Reply> {
    if to.Some? && to.value.protocol == t
    then PushMessage(to.value.channel, to.value.tag, drawn, exchange, m.headers, m.body).replies
    else []
  }

  const DUMMY_EXCHANGE: Name := Text("dummy-exchange")

  function PublishInQueue(b: Broker, queue: Name, m: Message, drawn: nat, closing: set<Transport>): Published {
    if queue !in b.queues then Published(b, None, None, None)
    else
      var stored := b.(queues := b.queues[queue := b.queues[queue].(messages := b.queues[queue].messages + [m])]);
      ScanQueue(stored, queue, m, DUMMY_EXCHANGE, drawn, closing)
  }

  function Publish(b: Broker, exchange: Name, m: Message, picked: Name,
                     drawn: nat, closing: set<Transport>): Published
  {
    if exchange !in b.exchanges then Published(b, None, None, None)
    else
      var stored := AppendToExchange(b, exchange, m);
      if picked in BoundTo(b, exchange) && picked in b.queues then
        ScanQueue(stored, picked, m, exchange, drawn, closing)
      else Published(stored, None, None, None)
  }

  function Store(b: Broker, exchange: Name, m: Message): Broker {
    if exchange !in b.exchanges then b
    else
      var stored := AppendToExchange(b, exchange, m);
      stored.(queues := AppendToQueues(b.queues, BoundTo(b, exchange), m))
  }

  function Apply(b: Broker, op: Op, closing: set<Transport>): Broker {
    match op
    case CheckCredentials(user, password) =>
      b.(tried := b.tried[user := CredentialsAccepted(b, user, password)])
    case DeclareExchange(exchange, kind) =>
      if exchange in b.exchanges then b else b.(exchanges := b.exchanges[exchange := Exchange(kind, [])])
    case DeclareQueue(queue) => Declare(b, queue)
    case BindQueue(queue, exchange) => Bind(b, queue, exchange)
    case RegisterConsumer(protocol, tag, queue, channel) =>
      if queue !in b.queues then b
      else
        var q := b.queues[queue];
        b.(queues := b.queues[queue := q.(consumers := PutConsumer(q.consumers, Consumer(tag, protocol, channel)))])
    case DeleteMessagesOfQueue(queue) =>
      if queue !in b.queues then b else b.(queues := b.queues[queue := b.queues[queue].(messages := [])])
    case DeleteMessagesOfExchange(exchange) =>
      if exchange !in b.exchanges then b
      else b.(exchanges := b.exchanges[exchange := b.exchanges[exchange].(messages := [])])
    case StoreMessage(exchange, m) => Store(b, exchange, m)
    case StoreMessageInQueue(queue, m) =>
      if queue !in b.queues then b
      else b.(queues := b.queues[queue := b.queues[queue].(messages := b.queues[queue].messages + [m])])
    case PublishMessage(exchange, m, picked, drawn) => Publish(b, exchange, m, picked, drawn, closing).broker
    case PublishMessageInQueue(queue, m, drawn) => PublishInQueue(b, queue, m, drawn, closing).broker
    case MessageAck(tag) => b.(acknowledged := b.acknowledged + {tag})
    case MessageNack(tag, requeue) =>
      if requeue then b.(requeued := b.requeued + {tag}) else b.(notAcknowledged := b.notAcknowledged + {tag})
    case Reset => Initial()
  }

  // ---- the cases of a publish ----

  lemma PublishScans(b: Broker, queue: Name, m: Message, drawn: nat, closing: set<Transport>)
    requires queue in b.queues
    ensures PublishInQueue(b, queue, m, drawn, closing) ==
      ScanQueue(b.(queues := b.queues[queue := b.queues[queue].(messages := b.queues[queue].messages + [m])]),
                queue, m, DUMMY_EXCHANGE, drawn, closing)
  {
  }

  lemma PublishNowhere(b: Broker, queue: Name, m: Message)
    ensures queue !in b.queues ==>
      forall drawn, closing :: PublishInQueue(b, queue, m, drawn, closing) == Published(b, None, None, None)
  {
  }

  lemma ScanPushes(b: Broker, queue: Name, m: Message, exchange: Name, drawn: nat, closing: set<Transport>, k: nat)
    requires queue in b.queues && k < |b.queues[queue].consumers| && FirstLive(b.queues[queue].consumers, closing) == k
    ensures var c := b.queues[queue].consumers[k];
      var push := PushMessage(c.channel, c.tag, drawn, exchange, m.headers, m.body);
      ScanQueue(b, queue, m, exchange, drawn, closing) ==
        if push.error.Some? then Published(b, None, Some(c), push.error)
        else
          var kept := b.queues[queue].consumers[k..];
          Published(b.(queues := b.queues[queue := b.queues[queue].(consumers := kept)]), Some(drawn), Some(c), None)
  {
    hide PushMessage;
  }

  lemma ScanFindsNobody(b: Broker, queue: Name, m: Message, exchange: Name, drawn: nat, closing: set<Transport>)
    requires queue in b.queues && FirstLive(b.queues[queue].consumers, closing) == |b.queues[queue].consumers|
    ensures var cs := b.queues[queue].consumers;
      ScanQueue(b, queue, m, exchange, drawn, closing) ==
        Published(b.(queues := b.queues[queue := b.queues[queue].(consumers := cs[|cs|..])]),
                  if cs == [] then None else Some(drawn), None, None)
  {
  }

  // The queues keep their names and messages.
  ghost predicate SameLogs(before: map<Name, Queue>, after: map<Name, Queue>) {
    after.Keys == before.Keys && forall q | q in before :: after[q].messages == before[q].messages
  }

  lemma ScanEffect(b: Broker, queue: Name, m: Message, exchange: Name, drawn: nat, closing: set<Transport>)
    requires queue in b.queues
    ensures var b' := ScanQueue(b, queue, m, exchange, drawn, closing).broker;
      b' == b.(queues := b'.queues) && SameLogs(b.queues, b'.queues)
  {
    hide PushMessage, FirstLive;
  }

  lemma PublishEffect(b: Broker, exchange: Name, m: Message, picked: Name, drawn: nat, closing: set<Transport>)
    ensures var b' := Publish(b, exchange, m, picked, drawn, closing).broker;
      && SameLogs(b.queues, b'.queues)
      && b' == (if exchange in b.exchanges then AppendToExchange(b, exchange, m) else b).(queues := b'.queues)
  {
    hide ScanQueue;
    if exchange in b.exchanges && picked in b.queues {
      ScanEffect(AppendToExchange(b, exchange, m), picked, m, exchange, drawn, closing);
    }
  }

  lemma PublishInQueueEffect(b: Broker, queue: Name, m: Message, drawn: nat, closing: set<Transport>)
    ensures var b' := PublishInQueue(b, queue, m, drawn, closing).broker;
      && b' == b.(queues := b'.queues) && b'.queues.Keys == b.queues.Keys
      && forall q | q in b.queues ::
           b'.queues[q].messages == if q == queue then b.queues[q].messages + [m] else b.queues[q].messages
  {
    hide ScanQueue, PublishInQueue;
    if queue in b.queues {
      PublishScans(b, queue, m, drawn, closing);
      var stored := b.(queues := b.queues[queue := b.queues[queue].(messages := b.queues[queue].messages + [m])]);
      ScanEffect(stored, queue, m, DUMMY_EXCHANGE, drawn, closing);
    } else {
      PublishNowhere(b, queue, m);
    }
  }

  // What the two publishes leave alone.
  lemma ApplyPublish(b: Broker, op: Op, closing: set<Transport>)
    requires op.PublishMessage? || op.PublishMessageInQueue?
    ensures var b' := Apply(b, op, closing);
      && b' == b.(exchanges := b'.exchanges, queues := b'.queues)
      && b'.queues.Keys == b.queues.Keys
      && (forall q | q in b.queues ::
            b'.queues[q].messages ==
              if op.PublishMessageInQueue? && op.queue == q then b.queues[q].messages + [op.message]
              else b.queues[q].messages)
      && b'.exchanges == if op.PublishMessage? && op.exchange in b.exchanges
                         then AppendToExchange(b, op.exchange, op.message).exchanges else b.exchanges
  {
    hide Publish, PublishInQueue;
    if op.PublishMessage? {
      PublishEffect(b, op.exchange, op.message, op.picked, op.drawn, closing);
    } else {
      PublishInQueueEffect(b, op.queue, op.message, op.drawn, closing);
    }
  }

  // ---- runs ----

  // One call, and the transports that are closing when it is made.
  datatype Event = Event(op: Op, closing: set<Transport>)

  ghost function RunTo(events: seq<Event>, n: nat): Broker
    requires n <= |events|
  {
    if n == 0 then Initial() else Apply(RunTo(events, n - 1), events[n - 1].op, events[n - 1].closing)
  }

  // Calls made one after the other, none of them a publish.
  ghost function ApplyAll(b: Broker, ops: seq<Op>): Broker
    decreases |ops|
  {
    if ops == [] then b else ApplyAll(Apply(b, ops[0], {}), ops[1..])
  }

  // ---- the binding invariant ----

  ghost predicate Consistent(b: Broker) {
    && DEFAULT_EXCHANGE in b.exchanges
    && b.bound.Keys <= b.exchanges.Keys
    && (forall e | e in b.bound :: b.bound[e] <= b.queues.Keys)
    && BoundTo(b, DEFAULT_EXCHANGE) == b.queues.Keys
    && (forall q | q in b.queues :: DistinctTags(b.queues[q].consumers))
  }

  ghost predicate DistinctTags(cs: seq<Consumer>) {
    forall i, j :: 0 <= i < j < |cs| ==> cs[i].tag != cs[j].tag
  }

  lemma {:induction false} PutConsumerKeeps(cs: seq<Consumer>, c: Consumer)
    ensures forall x :: x in PutConsumer(cs, c) ==> x == c || x in cs
    ensures |PutConsumer(cs, c)| >= |cs|
    ensures forall i :: 0 <= i < |cs| && cs[i].tag != c.tag ==> PutConsumer(cs, c)[i] == cs[i]
  {
    if cs != [] {
      PutConsumerKeeps(cs[1..], c);
    }
  }

  lemma {:induction false} PutConsumerTags(cs: seq<Consumer>, c: Consumer)
    requires DistinctTags(cs)
    ensures DistinctTags(PutConsumer(cs, c))
  {
    if cs != [] && cs[0].tag != c.tag {
      PutConsumerTags(cs[1..], c);
      PutConsumerKeeps(cs[1..], c);
      var rest := PutConsumer(cs[1..], c);
      assert forall x :: x in rest ==> x.tag != cs[0].tag;
    }
  }

  lemma ScanKeepsConsistent(b: Broker, queue: Name, m: Message, exchange: Name, drawn: nat, closing: set<Transport>)
    requires Consistent(b) && queue in b.queues
    ensures Consistent(ScanQueue(b, queue, m, exchange, drawn, closing).broker)
  {
    hide PushMessage;
  }

  lemma PublishKeepsConsistent(b: Broker, exchange: Name, m: Message, picked: Name, drawn: nat, closing: set<Transport>)
    requires Consistent(b)
    ensures Consistent(Publish(b, exchange, m, picked, drawn, closing).broker)
  {
    hide ScanQueue;
    if exchange in b.exchanges && picked in BoundTo(b, exchange) {
      ScanKeepsConsistent(AppendToExchange(b, exchange, m), picked, m, exchange, drawn, closing);
    }
  }

  lemma PublishInQueueKeepsConsistent(b: Broker, queue: Name, m: Message, drawn: nat, closing: set<Transport>)
    requires Consistent(b)
    ensures Consistent(PublishInQueue(b, queue, m, drawn, closing).broker)
  {
    hide ScanQueue;
    if queue in b.queues {
      var stored := b.(queues := b.queues[queue := b.queues[queue].(messages := b.queues[queue].messages + [m])]);
      ScanKeepsConsistent(stored, queue, m, DUMMY_EXCHANGE, drawn, closing);
    }
  }

  lemma BindKeepsConsistent(b: Broker, queue: Name, exchange: Name)
    requires Consistent(b)
    ensures Consistent(Bind(b, queue, exchange))
  {
  }

  lemma DeclareKeepsConsistent(b: Broker, queue: Name)
    requires Consistent(b)
    ensures Consistent(Declare(b, queue))
  {
  }

  lemma StoreKeepsConsistent(b: Broker, exchange: Name, m: Message)
    requires Consistent(b)
    ensures Consistent(Store(b, exchange, m))
  {
  }

  lemma RegisterKeepsConsistent(b: Broker, queue: Name, c: Consumer)
    requires Consistent(b) && queue in b.queues
    ensures Consistent(b.(queues := b.queues[queue :=
      b.queues[queue].(consumers := PutConsumer(b.queues[queue].consumers, c))]))
  {
    hide PutConsumer;
    PutConsumerTags(b.queues[queue].consumers, c);
  }

  lemma ApplyKeepsConsistent(b: Broker, op: Op, closing: set<Transport>)
    requires Consistent(b)
    ensures Consistent(Apply(b, op, closing))
  {
    hide Publish, PublishInQueue, Store, Declare, Bind, PutConsumer;
    match op
    case BindQueue(queue, exchange) =>
      BindKeepsConsistent(b, queue, exchange);
    case DeclareQueue(queue) =>
      DeclareKeepsConsistent(b, queue);
    case RegisterConsumer(protocol, tag, queue, channel) =>
      if queue in b.queues {
        RegisterKeepsConsistent(b, queue, Consumer(tag, protocol, channel));
      }
    case PublishMessage(exchange, m, picked, drawn) =>
      PublishKeepsConsistent(b, exchange, m, picked, drawn, closing);
    case PublishMessageInQueue(queue, m, drawn) =>
      PublishInQueueKeepsConsistent(b, queue, m, drawn, closing);
    case StoreMessage(exchange, m) =>
      StoreKeepsConsistent(b, exchange, m);
    case _ =>
  }

  lemma {:induction false} EveryRunConsistent(events: seq<Event>, n: nat)
    requires n <= |events|
    ensures Consistent(RunTo(events, n))
  {
    hide Apply;
    if n > 0 {
      EveryRunConsistent(events, n - 1);
      ApplyKeepsConsistent(RunTo(events, n - 1), events[n - 1].op, events[n - 1].closing);
    }
  }

  // Between resets an exchange stays and keeps its type.
  lemma {:induction false} ExchangeTypeStable(events: seq<Event>, i: nat, n: nat, exchange: Name)
    requires i <= n <= |events| && exchange in RunTo(events, i).exchanges
    requires forall k :: i <= k < n ==> !events[k].op.Reset?
    ensures exchange in RunTo(events, n).exchanges
    ensures RunTo(events, n).exchanges[exchange].kind == RunTo(events, i).exchanges[exchange].kind
    decreases n
  {
    hide Apply;
    if i < n {
      ExchangeTypeStable(events, i, n - 1, exchange);
      ExchangeTypeKept(RunTo(events, n - 1), events[n - 1].op, events[n - 1].closing, exchange);
    }
  }

  lemma ExchangeTypeKept(b: Broker, op: Op, closing: set<Transport>, exchange: Name)
    requires exchange in b.exchanges && !op.Reset?
    ensures var b' := Apply(b, op, closing);
      exchange in b'.exchanges && b'.exchanges[exchange].kind == b.exchanges[exchange].kind
  {
    hide Publish, PublishInQueue, AppendToQueues, PutConsumer;
    if op.PublishMessage? || op.PublishMessageInQueue? {
      ApplyPublish(b, op, closing);
    }
  }

  // Which exchanges exist after a call.
  lemma ApplyExchanges(b: Broker, op: Op, closing: set<Transport>)
    ensures Apply(b, op, closing).exchanges.Keys ==
      if op.Reset? then {DEFAULT_EXCHANGE}
      else if op.DeclareExchange? then b.exchanges.Keys + {op.exchange}
      else b.exchanges.Keys
  {
    hide Publish, PublishInQueue, AppendToQueues, PutConsumer;
    if op.PublishMessage? || op.PublishMessageInQueue? {
      ApplyPublish(b, op, closing);
    }
  }
}
