// Which consumer a publish reaches, over one call and over whole runs.
module Consumers {
  import opened Wrappers
  import opened Bytes
  import opened Values
  import opened HeaderRoundTrip
  import opened Methods
  import opened Frames
  import opened Replies
  import opened Senders
  import opened Pushes
  import opened Broker

  function ConsumersOf(b: Broker, queue: Name): seq<Consumer> {
    if queue in b.queues then b.queues[queue].consumers else []
  }

  // c is the first consumer of cs whose transport is not closing.
  ghost predicate IsFirstLive(cs: seq<Consumer>, c: Consumer, closing: set<Transport>) {
    exists k :: 0 <= k < |cs| && cs[k] == c && c.protocol !in closing &&
      forall i :: 0 <= i < k ==> cs[i].protocol in closing
  }

  ghost predicate AllDead(cs: seq<Consumer>, closing: set<Transport>) {
    forall i :: 0 <= i < |cs| ==> cs[i].protocol in closing
  }

  // A push of m to c can be written.
  ghost predicate Takes(c: Consumer, m: Message, exchange: Name, drawn: nat) {
    Pushable(c.channel, c.tag, drawn, exchange, m.headers, m.body)
  }

  // The push goes to the first live consumer with the tag that is returned, exactly the dead consumers
  // before it are dropped and the rest keep their order; it raises, and drops nobody, exactly when it
  // cannot be written; nobody is pushed to when all are closing, though a tag is returned.
  ghost predicate ReachesFirstLive(cs: seq<Consumer>, m: Message, exchange: Name, drawn: nat, closing: set<Transport>,
                                   r: Published, after: seq<Consumer>) {
    && (r.to.Some? <==> !AllDead(cs, closing))
    && (r.to.Some? ==> IsFirstLive(cs, r.to.value, closing))
    && (r.error.Some? <==> r.to.Some? && !Takes(r.to.value, m, exchange, drawn))
    && (r.to.Some? && Takes(r.to.value, m, exchange, drawn) ==>
         r.tag == Some(drawn) && DroppedDead(cs, r.to.value, closing, after))
    && (r.to.None? ==> after == [] && r.tag == if cs == [] then None else Some(drawn))
    && (r.error.Some? ==> r.tag.None? && after == cs)
  }

  ghost predicate DroppedDead(cs: seq<Consumer>, c: Consumer, closing: set<Transport>, after: seq<Consumer>) {
    exists k :: 0 <= k < |cs| && cs[k] == c && AllDead(cs[..k], closing) && after == cs[k..]
  }

  // The scan of one queue, for whichever publish.
  lemma ScanReachesFirstLive(b: Broker, queue: Name, m: Message, exchange: Name, drawn: nat, closing: set<Transport>)
    requires queue in b.queues
    ensures var r := ScanQueue(b, queue, m, exchange, drawn, closing);
      ReachesFirstLive(ConsumersOf(b, queue), m, exchange, drawn, closing, r, ConsumersOf(r.broker, queue))
  {
    hide PushMessage, Pushable, ScanQueue, FirstLive;
    var cs := ConsumersOf(b, queue);
    var k := FirstLive(cs, closing);
    if k < |cs| {
      ScanPushes(b, queue, m, exchange, drawn, closing, k);
      PushGoesOutExactly(cs[k].channel, cs[k].tag, drawn, exchange, m.headers, m.body);
      assert AllDead(cs[..k], closing);
      assert IsFirstLive(cs, cs[k], closing) && !AllDead(cs, closing);
      assert DroppedDead(cs, cs[k], closing, cs[k..]);
    } else {
      assert AllDead(cs, closing);
      ScanFindsNobody(b, queue, m, exchange, drawn, closing);
    }
  }

  // ---- the two publishes ----

  predicate IsPublish(op: Op) {
    op.PublishMessage? || op.PublishMessageInQueue?
  }

  function Publishing(b: Broker, op: Op, closing: set<Transport>): Published
    requires IsPublish(op)
  {
    if op.PublishMessage? then Publish(b, op.exchange, op.message, op.picked, op.drawn, closing)
    else PublishInQueue(b, op.queue, op.message, op.drawn, closing)
  }

  // The queue it scans, if it scans one, and the exchange its push names.
  function Target(b: Broker, op: Op): Option<Name>
    requires IsPublish(op)
  {
    if op.PublishMessageInQueue? then (if op.queue in b.queues then Some(op.queue) else None)
    else if op.exchange in b.exchanges && op.picked in BoundTo(b, op.exchange) && op.picked in b.queues then
      Some(op.picked)
    else None
  }

  function Via(op: Op): Name
    requires IsPublish(op)
  {
    if op.PublishMessage? then op.exchange else DUMMY_EXCHANGE
  }

  // The state once the message is logged.
  function Stored(b: Broker, op: Op): Broker
    requires IsPublish(op) && Target(b, op).Some?
  {
    if op.PublishMessage? then AppendToExchange(b, op.exchange, op.message)
    else b.(queues := b.queues[op.queue := b.queues[op.queue].(messages := b.queues[op.queue].messages + [op.message])])
  }

  lemma PublishIsScan(b: Broker, op: Op, closing: set<Transport>)
    requires IsPublish(op)
    ensures var r := Publishing(b, op, closing);
      var q := Target(b, op);
      && (q.Some? ==>
           && q.value in b.queues && q.value in Stored(b, op).queues
           && ConsumersOf(Stored(b, op), q.value) == ConsumersOf(b, q.value)
           && r == ScanQueue(Stored(b, op), q.value, op.message, Via(op), op.drawn, closing))
      && (q.None? ==> r.tag.None? && r.to.None? && r.error.None? && r.broker.queues == b.queues)
  {
    hide ScanQueue;
  }

  lemma PublishReachesFirstLive(b: Broker, op: Op, closing: set<Transport>)
    requires IsPublish(op)
    ensures var r := Publishing(b, op, closing);
      match Target(b, op)
      case Some(q) =>
        ReachesFirstLive(ConsumersOf(b, q), op.message, Via(op), op.drawn, closing, r, ConsumersOf(r.broker, q))
      case None => r.tag.None? && r.to.None? && r.error.None? && r.broker.queues == b.queues
  {
    hide ScanQueue, ReachesFirstLive, ConsumersOf, Publishing, Target, Stored;
    PublishIsScan(b, op, closing);
    var q := Target(b, op);
    if q.Some? {
      ScanReachesFirstLive(Stored(b, op), q.value, op.message, Via(op), op.drawn, closing);
    }
  }

  // ---- over a run ----

  // The n-th call, seen as a publish.
  ghost function PublishedAt(events: seq<Event>, n: nat): Published
    requires n < |events| && IsPublish(events[n].op)
  {
    Publishing(RunTo(events, n), events[n].op, events[n].closing)
  }

  ghost function TargetAt(events: seq<Event>, n: nat): Option<Name>
    requires n < |events| && IsPublish(events[n].op)
  {
    Target(RunTo(events, n), events[n].op)
  }

  predicate Disturbs(op: Op, queue: Name, c: Consumer) {
    op.Reset? || (op.RegisterConsumer? && op.queue == queue && op.consumerTag == c.tag)
  }

  lemma HeadKeptByScan(b: Broker, queue: Name, m: Message, exchange: Name, drawn: nat, closing: set<Transport>,
                       other: Name, c: Consumer)
    requires queue in b.queues && ConsumersOf(b, other) != [] && ConsumersOf(b, other)[0] == c
    requires c.protocol !in closing
    ensures var cs := ConsumersOf(ScanQueue(b, queue, m, exchange, drawn, closing).broker, other);
      cs != [] && cs[0] == c
  {
    hide PushMessage;
  }

  lemma HeadKept(b: Broker, op: Op, closing: set<Transport>, queue: Name, c: Consumer)
    requires ConsumersOf(b, queue) != [] && ConsumersOf(b, queue)[0] == c
    requires c.protocol !in closing && !Disturbs(op, queue, c)
    ensures var cs := ConsumersOf(Apply(b, op, closing), queue); cs != [] && cs[0] == c
  {
    hide ScanQueue;
    if op.PublishMessage? && op.exchange in b.exchanges && op.picked in b.queues {
      HeadKeptByScan(AppendToExchange(b, op.exchange, op.message), op.picked, op.message, op.exchange,
        op.drawn, closing, queue, c);
    } else if op.PublishMessageInQueue? && op.queue in b.queues {
      var q := b.queues[op.queue];
      var stored := b.(queues := b.queues[op.queue := q.(messages := q.messages + [op.message])]);
      HeadKeptByScan(stored, op.queue, op.message, DUMMY_EXCHANGE, op.drawn, closing, queue, c);
    }
  }

  lemma {:induction false} HeadKeptOver(events: seq<Event>, i: nat, j: nat, queue: Name, c: Consumer)
    requires i <= j <= |events|
    requires ConsumersOf(RunTo(events, i), queue) != [] && ConsumersOf(RunTo(events, i), queue)[0] == c
    requires forall k :: i <= k < j ==> !Disturbs(events[k].op, queue, c) && c.protocol !in events[k].closing
    ensures ConsumersOf(RunTo(events, j), queue) != [] && ConsumersOf(RunTo(events, j), queue)[0] == c
    decreases j
  {
    hide Apply, ConsumersOf, Disturbs;
    if i < j {
      HeadKeptOver(events, i, j - 1, queue, c);
      HeadKept(RunTo(events, j - 1), events[j - 1].op, events[j - 1].closing, queue, c);
    }
  }

  // Later publishes that scan the same queue keep reaching the same consumer, whatever else happens,
  // until its transport closes, its tag is registered again, or the state is reset.
  lemma SameConsumerUntilDisturbed(events: seq<Event>, i: nat, j: nat, queue: Name, c: Consumer)
    requires i < j < |events| && IsPublish(events[i].op) && IsPublish(events[j].op)
    requires TargetAt(events, i) == TargetAt(events, j) == Some(queue)
    requires PublishedAt(events, i).to == Some(c)
    requires Takes(c, events[i].op.message, Via(events[i].op), events[i].op.drawn)
    requires forall k :: i < k <= j ==> c.protocol !in events[k].closing && !Disturbs(events[k].op, queue, c)
    ensures PublishedAt(events, j).to == Some(c)
  {
    hide Publishing, ConsumersOf, Takes, Target, Via;
    PublishReachesFirstLive(RunTo(events, i), events[i].op, events[i].closing);
    PublishIsApplied(RunTo(events, i), events[i].op, events[i].closing);
    HeadKeptOver(events, i + 1, j, queue, c);
    PublishReachesFirstLive(RunTo(events, j), events[j].op, events[j].closing);
    assert IsFirstLive(ConsumersOf(RunTo(events, j), queue), c, events[j].closing);
  }

  lemma PublishIsApplied(b: Broker, op: Op, closing: set<Transport>)
    requires IsPublish(op)
    ensures Apply(b, op, closing) == Publishing(b, op, closing).broker
  {
    hide Publish, PublishInQueue;
  }

  // ---- closing transports ----

  // What the n-th call puts on the wire of t by pushing.
  ghost function DeliveredAt(events: seq<Event>, n: nat, t: Transport): seq<Reply>
    requires n < |events|
  {
    var op := events[n].op;
    if !IsPublish(op) then [] else Delivery(t, PublishedAt(events, n).to, op.drawn, Via(op), op.message)
  }

  // In every run every push, by either publish, goes to one consumer, registered in the queue that is
  // scanned and not closing at that moment, and nothing is put on any other wire.
  lemma NoPushToClosing(events: seq<Event>, n: nat, t: Transport)
    requires n < |events| && IsPublish(events[n].op)
    ensures var r := PublishedAt(events, n);
      && (r.to.Some? ==>
           && TargetAt(events, n).Some? && r.to.value.protocol !in events[n].closing
           && r.to.value in ConsumersOf(RunTo(events, n), TargetAt(events, n).value))
      && (DeliveredAt(events, n, t) != [] ==> r.to.Some? && r.to.value.protocol == t)
  {
    hide PushMessage, Publishing, ConsumersOf, Target, Via, RunTo, Takes;
    PublishReachesFirstLive(RunTo(events, n), events[n].op, events[n].closing);
  }

  // All that the first n calls put on the wire of t.
  ghost function DeliveredBy(events: seq<Event>, n: nat, t: Transport): seq<Reply>
    requires n <= |events|
  {
    if n == 0 then [] else DeliveredBy(events, n - 1, t) + DeliveredAt(events, n - 1, t)
  }

  // From the moment a transport is closing, which is never taken back, no run pushes anything to it.
  lemma {:induction false} ClosedWireStays(events: seq<Event>, i: nat, n: nat, t: Transport)
    requires i <= n <= |events| && forall k :: i <= k < n && IsPublish(events[k].op) ==> t in events[k].closing
    ensures DeliveredBy(events, n, t) == DeliveredBy(events, i, t)
    decreases n
  {
    hide DeliveredAt, PublishedAt, TargetAt;
    if i < n {
      ClosedWireStays(events, i, n - 1, t);
      if IsPublish(events[n - 1].op) {
        NoPushToClosing(events, n - 1, t);
      } else {
        OnlyPublishesDeliver(events, n - 1, t);
      }
    }
  }

  lemma OnlyPublishesDeliver(events: seq<Event>, n: nat, t: Transport)
    requires n < |events| && !IsPublish(events[n].op)
    ensures DeliveredAt(events, n, t) == []
  {
  }

  // The exchange named by a push that comes straight from a queue is "dummy-exchange".
  lemma DirectPushNames(op: Op)
    requires IsPublish(op)
    ensures Via(op) == if op.PublishMessage? then op.exchange
      else [0x64, 0x75, 0x6D, 0x6D, 0x79, 0x2D, 0x65, 0x78, 0x63, 0x68, 0x61, 0x6E, 0x67, 0x65]
  {
  }

  // What a publish puts on the wire of the consumer it reaches: deliver with the consumer's own tag and
  // the delivery tag that is returned, a header with the standard properties and the size, and the body,
  // all on the consumer's channel.
  lemma PublishDelivers(events: seq<Event>, n: nat, c: Consumer)
    requires n < |events| && IsPublish(events[n].op) && PublishedAt(events, n).to == Some(c)
    requires Takes(c, events[n].op.message, Via(events[n].op), events[n].op.drawn)
    requires forall p | p in events[n].op.message.headers :: WellFormed(events[n].op.message.headers[p])
    ensures var op, frames := events[n].op, Split(Wire(DeliveredAt(events, n, c.protocol)));
      && PublishedAt(events, n).tag == Some(op.drawn)
      && frames.Some? && |frames.value| == 3
      && var deliver, header, content := frames.value[0], frames.value[1], frames.value[2];
         && deliver.Envelope? && deliver.kind == 1 && deliver.channel == c.channel
         && Unpack(deliver.payload, 0, 4) == Ok(0x003C_003C)
         && Arguments("sLbss", deliver.payload) ==
            Ok([Str(c.tag), Int(op.drawn), Bool(false), Str(Via(op)), Str([])])
         && header.Envelope? && header.kind == 2 && header.channel == c.channel
         && Frames.Open(header) ==
            Found(HeaderFrame(c.channel, header.size, 60, |op.message.body|, Carried(op.message.headers)))
         && content.Envelope? && content.kind == 3 && content.channel == c.channel
         && content.payload == op.message.body
  {
    hide Wire, Split, Publishing, Pushable, PushMessage, Arguments, Unpack, Frames.Open, Carried, WellFormed, Via,
      Target, RunTo, ConsumersOf;
    var op := events[n].op;
    PublishReachesFirstLive(RunTo(events, n), op, events[n].closing);
    PushIsThreeFrames(c.channel, c.tag, op.drawn, Via(op), op.message.headers, op.message.body);
  }
}
