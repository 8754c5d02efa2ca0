// Which consumers a queue has after any run, told from the calls: those that were registered, less the
// dead ones that publishes have dropped.
module ConsumerHistory {
  import opened Wrappers
  import opened Senders
  import opened Broker
  import opened BrokerHistory
  import opened Consumers

  // ---- one registration ----

  // A new tag comes last; a known one keeps its place; nobody else moves.
  ghost predicate Placed(before: seq<Consumer>, c: Consumer, after: seq<Consumer>) {
    || ((forall x :: x in before ==> x.tag != c.tag) && after == before + [c])
    || exists i :: 0 <= i < |before| && before[i].tag == c.tag && after == before[i := c]
  }

  lemma {:induction false} PutConsumerPlaces(cs: seq<Consumer>, c: Consumer)
    ensures Placed(cs, c, PutConsumer(cs, c))
  {
    if cs == [] {
      assert [] + [c] == [c];
    } else if cs[0].tag == c.tag {
      assert [c] + cs[1..] == cs[0 := c];
    } else {
      PutConsumerPlaces(cs[1..], c);
      var rest := PutConsumer(cs[1..], c);
      if i :| 0 <= i < |cs[1..]| && cs[1..][i].tag == c.tag && rest == cs[1..][i := c] {
        assert cs[i + 1].tag == c.tag && [cs[0]] + rest == cs[i + 1 := c];
      } else {
        assert [cs[0]] + (cs[1..] + [c]) == cs + [c];
        assert forall x :: x in cs ==> x == cs[0] || x in cs[1..];
      }
    }
  }

  // Registering on an existing queue registers there and nowhere else, and logs nothing.
  lemma RegisterPlaces(b: Broker, protocol: Transport, tag: Name, queue: Name, channel: nat)
    ensures var b' := Apply(b, Op.RegisterConsumer(protocol, tag, queue, channel), {});
      && (queue !in b.queues ==> b' == b)
      && (queue in b.queues ==>
           && Placed(ConsumersOf(b, queue), Consumer(tag, protocol, channel), ConsumersOf(b', queue))
           && b' == b.(queues := b.queues[queue := Queue(b.queues[queue].messages, ConsumersOf(b', queue))]))
  {
    hide PutConsumer, Placed;
    if queue in b.queues {
      PutConsumerPlaces(b.queues[queue].consumers, Consumer(tag, protocol, channel));
    }
  }

  // ---- one call ----

  ghost predicate Registers(b: Broker, op: Op, queue: Name, c: Consumer) {
    op == Op.RegisterConsumer(c.protocol, c.tag, queue, c.channel) && queue in b.queues
  }

  // The i-th consumer and everybody before it are closing.
  ghost predicate DeadTo(cs: seq<Consumer>, i: nat, closing: set<Transport>)
    requires i < |cs|
  {
    AllDead(cs[..i + 1], closing)
  }

  // A publish that scans the queue, and whose push, if it comes to one, can be written, finds c and
  // everybody before it closing.
  ghost predicate Drops(b: Broker, op: Op, closing: set<Transport>, queue: Name, c: Consumer) {
    && IsPublish(op) && Target(b, op) == Some(queue)
    && var cs := ConsumersOf(b, queue);
       && (forall x :: x in cs && IsFirstLive(cs, x, closing) ==> Takes(x, op.message, Via(op), op.drawn))
       && exists i :: 0 <= i < |cs| && cs[i] == c && DeadTo(cs, i, closing)
  }

  ghost predicate Stays(b: Broker, op: Op, closing: set<Transport>, queue: Name, c: Consumer) {
    !Disturbs(op, queue, c) && !Drops(b, op, closing, queue, c)
  }

  lemma PlacedMembers(before: seq<Consumer>, c: Consumer, after: seq<Consumer>, x: Consumer)
    requires DistinctTags(before) && Placed(before, c, after)
    ensures x in after <==> x == c || (x in before && x.tag != c.tag)
  {
    if (forall y :: y in before ==> y.tag != c.tag) && after == before + [c] {
    } else {
      var i :| 0 <= i < |before| && before[i].tag == c.tag && after == before[i := c];
      assert after[i] == c;
      if x in before && x.tag != c.tag {
        var j :| 0 <= j < |before| && before[j] == x;
        assert after[j] == x;
      }
      if x in after && x != c {
        var j :| 0 <= j < |after| && after[j] == x;
        assert before[j] == x && j != i;
        assert before[j].tag != before[i].tag by {
          if j < i {
          } else {
            assert i < j;
          }
        }
      }
    }
  }

  lemma ScanLeavesOthers(b: Broker, queue: Name, m: Message, exchange: Name, drawn: nat,
                         closing: set<Transport>, other: Name)
    requires queue in b.queues && other != queue
    ensures ConsumersOf(ScanQueue(b, queue, m, exchange, drawn, closing).broker, other) == ConsumersOf(b, other)
  {
    hide PushMessage, FirstLive;
  }

  // A publish drops nobody from a queue it does not scan.
  lemma PublishLeavesOthers(b: Broker, op: Op, closing: set<Transport>, other: Name)
    requires IsPublish(op) && Target(b, op) != Some(other)
    ensures ConsumersOf(Publishing(b, op, closing).broker, other) == ConsumersOf(b, other)
  {
    hide ScanQueue, Publishing;
    PublishIsScan(b, op, closing);
    var q := Target(b, op);
    if q.Some? {
      ScanLeavesOthers(Stored(b, op), q.value, op.message, Via(op), op.drawn, closing, other);
    }
  }

  lemma PublishMembers(b: Broker, op: Op, closing: set<Transport>, queue: Name, c: Consumer)
    requires Consistent(b) && IsPublish(op)
    ensures c in ConsumersOf(Apply(b, op, closing), queue) <==>
      c in ConsumersOf(b, queue) && !Drops(b, op, closing, queue, c)
  {
    hide Publishing, Target, Apply, Takes, Via;
    PublishIsApplied(b, op, closing);
    if Target(b, op) == Some(queue) {
      PublishReachesFirstLive(b, op, closing);
      var r := Publishing(b, op, closing);
      var cs, after := ConsumersOf(b, queue), ConsumersOf(r.broker, queue);
      TagsDiffer(b, queue);
      if r.to.None? {
        NobodyLeft(cs, closing, c);
        assert forall x :: x in cs ==> !IsFirstLive(cs, x, closing);
      } else {
        var to := r.to.value;
        OneFirstLive(cs, to, closing);
        if Takes(to, op.message, Via(op), op.drawn) {
          SuffixMembers(cs, to, closing, after, c);
        } else {
          assert IsFirstLive(cs, to, closing) && to in cs;
        }
      }
    } else {
      PublishLeavesOthers(b, op, closing, queue);
    }
  }

  lemma TagsDiffer(b: Broker, queue: Name)
    requires Consistent(b)
    ensures DistinctTags(ConsumersOf(b, queue))
  {
  }

  lemma NobodyLeft(cs: seq<Consumer>, closing: set<Transport>, c: Consumer)
    requires AllDead(cs, closing)
    ensures c in cs <==> exists i :: 0 <= i < |cs| && cs[i] == c && DeadTo(cs, i, closing)
  {
    if c in cs {
      var i :| 0 <= i < |cs| && cs[i] == c;
      assert DeadTo(cs, i, closing);
    }
  }

  lemma OneFirstLive(cs: seq<Consumer>, c: Consumer, closing: set<Transport>)
    requires IsFirstLive(cs, c, closing)
    ensures forall x :: IsFirstLive(cs, x, closing) ==> x == c
  {
  }

  lemma SuffixMembers(cs: seq<Consumer>, to: Consumer, closing: set<Transport>, after: seq<Consumer>, c: Consumer)
    requires DistinctTags(cs) && DroppedDead(cs, to, closing, after) && to.protocol !in closing
    ensures c in after <==> c in cs && !exists i :: 0 <= i < |cs| && cs[i] == c && DeadTo(cs, i, closing)
  {
    hide DeadTo;
    var k :| 0 <= k < |cs| && cs[k] == to && AllDead(cs[..k], closing) && after == cs[k..];
    forall i | 0 <= i < |cs|
      ensures DeadTo(cs, i, closing) <==> i < k
    {
      DeadBefore(cs, k, i, closing);
    }
    SuffixOfDistinct(cs, k, c);
  }

  lemma SuffixOfDistinct(cs: seq<Consumer>, k: nat, c: Consumer)
    requires DistinctTags(cs) && k <= |cs|
    ensures c in cs[k..] <==> c in cs && forall i :: 0 <= i < k ==> cs[i] != c
  {
    if c in cs[k..] {
      var j :| 0 <= j < |cs[k..]| && cs[k..][j] == c;
      assert cs[k + j] == c;
      assert forall i :: 0 <= i < k ==> cs[i].tag != cs[k + j].tag;
    } else if c in cs {
      assert c in cs[..k] + cs[k..] by {
        assert cs == cs[..k] + cs[k..];
      }
      var i :| 0 <= i < k && cs[..k][i] == c;
      assert cs[i] == c;
    }
  }

  lemma DeadBefore(cs: seq<Consumer>, k: nat, i: nat, closing: set<Transport>)
    requires k < |cs| && i < |cs| && cs[k].protocol !in closing && AllDead(cs[..k], closing)
    ensures DeadTo(cs, i, closing) <==> i < k
  {
    if i >= k {
      assert cs[..i + 1][k] == cs[k];
    } else {
      assert forall j :: 0 <= j <= i ==> cs[..i + 1][j] == cs[..k][j];
    }
  }

  // The consumers of a queue after any call.
  lemma MembersStep(b: Broker, op: Op, closing: set<Transport>, queue: Name, c: Consumer)
    requires Consistent(b)
    ensures c in ConsumersOf(Apply(b, op, closing), queue) <==>
      Registers(b, op, queue, c) || (c in ConsumersOf(b, queue) && Stays(b, op, closing, queue, c))
  {
    hide Drops, Publish, PublishInQueue, PutConsumer;
    if IsPublish(op) {
      PublishMembers(b, op, closing, queue, c);
    } else if op.RegisterConsumer? && op.queue == queue && queue in b.queues {
      var before := ConsumersOf(b, queue);
      TagsDiffer(b, queue);
      var d := Consumer(op.consumerTag, op.protocol, op.channel);
      PutConsumerPlaces(before, d);
      PlacedMembers(before, d, ConsumersOf(Apply(b, op, closing), queue), c);
      NoPublishDrops(b, op, closing, queue, c);
    } else {
      NoPublishDrops(b, op, closing, queue, c);
    }
  }

  lemma NoPublishDrops(b: Broker, op: Op, closing: set<Transport>, queue: Name, c: Consumer)
    requires !IsPublish(op)
    ensures !Drops(b, op, closing, queue, c)
  {
  }

  // ---- over a run ----

  ghost predicate RegisteredAt(events: seq<Event>, i: nat, queue: Name, c: Consumer)
    requires i < |events|
  {
    events[i].op == Op.RegisterConsumer(c.protocol, c.tag, queue, c.channel) && Declared(events, i, queue)
  }

  // No call from i on resets the state, registers the tag again, or drops the consumer.
  ghost predicate Remains(events: seq<Event>, i: nat, n: nat, queue: Name, c: Consumer)
    requires n <= |events|
  {
    forall k :: i <= k < n ==> StaysAt(events, k, queue, c)
  }

  ghost predicate StaysAt(events: seq<Event>, k: nat, queue: Name, c: Consumer)
    requires k < |events|
  {
    Stays(RunTo(events, k), events[k].op, events[k].closing, queue, c)
  }

  ghost predicate RegisteredSince(events: seq<Event>, i: nat, n: nat, queue: Name, c: Consumer)
    requires i < n <= |events|
  {
    RegisteredAt(events, i, queue, c) && Remains(events, i + 1, n, queue, c)
  }

  // A queue's consumers are exactly those that were registered on it while it was declared and that
  // have since neither been replaced, nor dropped by a publish that found them dead, nor reset.
  lemma {:induction false} QueueConsumers(events: seq<Event>, n: nat, queue: Name, c: Consumer)
    requires n <= |events|
    ensures c in ConsumersOf(RunTo(events, n), queue) <==>
      exists i :: 0 <= i < n && RegisteredSince(events, i, n, queue, c)
  {
    hide Apply, ConsumersOf, Stays, Consistent, Declared;
    if n == 0 {
      NobodyAtFirst(events, queue);
    } else {
      QueueConsumers(events, n - 1, queue, c);
      EveryRunConsistent(events, n - 1);
      MembersStep(RunTo(events, n - 1), events[n - 1].op, events[n - 1].closing, queue, c);
      RunNames(events, n - 1, queue, DEFAULT_EXCHANGE);
      if i :| 0 <= i < n && RegisteredSince(events, i, n, queue, c) {
        if i < n - 1 {
          assert RegisteredSince(events, i, n - 1, queue, c) && StaysAt(events, n - 1, queue, c);
        }
      }
      var m := n - 1;
      if i :| 0 <= i < m && RegisteredSince(events, i, m, queue, c) {
        if StaysAt(events, m, queue, c) {
          assert RegisteredSince(events, i, n, queue, c);
        }
      }
      if RegisteredAt(events, n - 1, queue, c) {
        assert RegisteredSince(events, n - 1, n, queue, c);
      }
    }
  }

  lemma NobodyAtFirst(events: seq<Event>, queue: Name)
    ensures ConsumersOf(RunTo(events, 0), queue) == []
  {
  }

  // So a publish in a queue with a registered consumer whose transport is live reaches some consumer,
  // however many calls came between.
  lemma RegisteredIsReached(events: seq<Event>, i: nat, j: nat, queue: Name, c: Consumer)
    requires i < j < |events| && RegisteredAt(events, i, queue, c)
    requires forall k :: i < k < j ==> !Disturbs(events[k].op, queue, c)
    requires forall k :: i < k <= j && IsPublish(events[k].op) ==> c.protocol !in events[k].closing
    requires IsPublish(events[j].op) && TargetAt(events, j) == Some(queue)
    ensures PublishedAt(events, j).to.Some?
  {
    hide RunTo, ConsumersOf, Publishing, Target, RegisteredAt;
    forall k | i + 1 <= k < j
      ensures StaysAt(events, k, queue, c)
    {
      LiveIsKept(RunTo(events, k), events[k].op, events[k].closing, queue, c);
    }
    assert RegisteredSince(events, i, j, queue, c);
    QueueConsumers(events, j, queue, c);
    PublishReachesFirstLive(RunTo(events, j), events[j].op, events[j].closing);
    LiveAmong(ConsumersOf(RunTo(events, j), queue), c, events[j].closing);
  }

  lemma LiveIsKept(b: Broker, op: Op, closing: set<Transport>, queue: Name, c: Consumer)
    requires IsPublish(op) ==> c.protocol !in closing
    ensures !Drops(b, op, closing, queue, c)
  {
    hide DeadTo, Target, Takes;
    var cs := ConsumersOf(b, queue);
    forall i | 0 <= i < |cs| && cs[i] == c && IsPublish(op)
      ensures !DeadTo(cs, i, closing)
    {
      LiveIsNotDead(cs, i, closing);
    }
  }

  lemma LiveIsNotDead(cs: seq<Consumer>, i: nat, closing: set<Transport>)
    requires i < |cs| && cs[i].protocol !in closing
    ensures !DeadTo(cs, i, closing)
  {
    assert cs[..i + 1][i] == cs[i];
  }

  lemma LiveAmong(cs: seq<Consumer>, c: Consumer, closing: set<Transport>)
    requires c in cs && c.protocol !in closing
    ensures !AllDead(cs, closing)
  {
  }
}
