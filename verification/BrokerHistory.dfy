// What the broker holds after any run, told from the calls alone.
module BrokerHistory {
  import opened Senders
  import opened Broker

  ghost predicate NoReset(events: seq<Event>, from: nat, to: nat)
    requires to <= |events|
  {
    forall k :: from <= k < to ==> !events[k].op.Reset?
  }

  // The j-th call was c, and no reset came between it and the n-th.
  ghost predicate StillDeclares(events: seq<Event>, j: nat, n: nat, queue: Name)
    requires j < n <= |events|
  {
    events[j].op == DeclareQueue(queue) && NoReset(events, j + 1, n)
  }

  ghost predicate Declared(events: seq<Event>, n: nat, queue: Name)
    requires n <= |events|
  {
    exists j :: 0 <= j < n && StillDeclares(events, j, n, queue)
  }

  ghost predicate StillDeclaresExchange(events: seq<Event>, j: nat, n: nat, exchange: Name)
    requires j < n <= |events|
  {
    events[j].op.DeclareExchange? && events[j].op.exchange == exchange && NoReset(events, j + 1, n)
  }

  ghost predicate ExchangeExists(events: seq<Event>, n: nat, exchange: Name)
    requires n <= |events|
  {
    exchange == DEFAULT_EXCHANGE || exists j :: 0 <= j < n && StillDeclaresExchange(events, j, n, exchange)
  }

  ghost predicate StillBinds(events: seq<Event>, j: nat, n: nat, queue: Name, exchange: Name)
    requires j < n <= |events|
  {
    && events[j].op == BindQueue(queue, exchange)
    && Declared(events, j, queue) && ExchangeExists(events, j, exchange)
    && NoReset(events, j + 1, n)
  }

  ghost predicate ExplicitlyBound(events: seq<Event>, n: nat, queue: Name, exchange: Name)
    requires n <= |events|
  {
    exists j :: 0 <= j < n && StillBinds(events, j, n, queue, exchange)
  }

  // Every declared queue is bound to the default exchange; other bindings come from calls made when
  // both ends existed.
  ghost predicate BoundAt(events: seq<Event>, n: nat, queue: Name, exchange: Name)
    requires n <= |events|
  {
    || (exchange == DEFAULT_EXCHANGE && Declared(events, n, queue))
    || ExplicitlyBound(events, n, queue, exchange)
  }

  // ---- one more call ----

  lemma DeclaredStep(events: seq<Event>, n: nat, queue: Name)
    requires n < |events|
    ensures Declared(events, n + 1, queue) <==>
      !events[n].op.Reset? && (events[n].op == DeclareQueue(queue) || Declared(events, n, queue))
  {
    if Declared(events, n, queue) && !events[n].op.Reset? {
      var j :| 0 <= j < n && StillDeclares(events, j, n, queue);
      assert StillDeclares(events, j, n + 1, queue);
    }
    if events[n].op == DeclareQueue(queue) {
      assert StillDeclares(events, n, n + 1, queue);
    }
    if Declared(events, n + 1, queue) {
      var j :| 0 <= j < n + 1 && StillDeclares(events, j, n + 1, queue);
      if j < n {
        assert StillDeclares(events, j, n, queue);
      }
    }
  }

  lemma ExchangeExistsStep(events: seq<Event>, n: nat, exchange: Name)
    requires n < |events|
    ensures ExchangeExists(events, n + 1, exchange) <==>
      exchange == DEFAULT_EXCHANGE ||
      (!events[n].op.Reset? &&
       ((events[n].op.DeclareExchange? && events[n].op.exchange == exchange) || ExchangeExists(events, n, exchange)))
  {
    if exchange != DEFAULT_EXCHANGE {
      if ExchangeExists(events, n, exchange) && !events[n].op.Reset? {
        var j :| 0 <= j < n && StillDeclaresExchange(events, j, n, exchange);
        assert StillDeclaresExchange(events, j, n + 1, exchange);
      }
      if events[n].op.DeclareExchange? && events[n].op.exchange == exchange {
        assert StillDeclaresExchange(events, n, n + 1, exchange);
      }
      if ExchangeExists(events, n + 1, exchange) {
        var j :| 0 <= j < n + 1 && StillDeclaresExchange(events, j, n + 1, exchange);
        if j < n {
          assert StillDeclaresExchange(events, j, n, exchange);
        }
      }
    }
  }

  lemma BoundStep(events: seq<Event>, n: nat, queue: Name, exchange: Name)
    requires n < |events|
    ensures BoundAt(events, n + 1, queue, exchange) <==>
      !events[n].op.Reset? &&
      (|| BoundAt(events, n, queue, exchange)
       || (exchange == DEFAULT_EXCHANGE && events[n].op == DeclareQueue(queue))
       || (events[n].op == BindQueue(queue, exchange) && Declared(events, n, queue) &&
           ExchangeExists(events, n, exchange)))
  {
    DeclaredStep(events, n, queue);
    if ExplicitlyBound(events, n, queue, exchange) && !events[n].op.Reset? {
      var j :| 0 <= j < n && StillBinds(events, j, n, queue, exchange);
      assert StillBinds(events, j, n + 1, queue, exchange);
    }
    if events[n].op == BindQueue(queue, exchange) && Declared(events, n, queue) && ExchangeExists(events, n, exchange) {
      assert StillBinds(events, n, n + 1, queue, exchange);
    }
    if ExplicitlyBound(events, n + 1, queue, exchange) {
      var j :| 0 <= j < n + 1 && StillBinds(events, j, n + 1, queue, exchange);
      if j < n {
        assert StillBinds(events, j, n, queue, exchange);
      }
    }
  }

  // ---- names, bindings ----

  // What one call does to the sets of names and to a binding.
  lemma ApplyQueueNames(b: Broker, op: Op, closing: set<Transport>, queue: Name)
    ensures queue in Apply(b, op, closing).queues <==> !op.Reset? && (op == DeclareQueue(queue) || queue in b.queues)
  {
    hide Publish, PublishInQueue, PutConsumer;
    if op.PublishMessage? || op.PublishMessageInQueue? {
      ApplyPublish(b, op, closing);
    }
  }

  lemma ApplyExchangeNames(b: Broker, op: Op, closing: set<Transport>, exchange: Name)
    requires Consistent(b)
    ensures exchange in Apply(b, op, closing).exchanges <==>
      || exchange == DEFAULT_EXCHANGE
      || (!op.Reset? && ((op.DeclareExchange? && op.exchange == exchange) || exchange in b.exchanges))
  {
    hide Publish, PublishInQueue, PutConsumer, AppendToQueues;
    if op.PublishMessage? || op.PublishMessageInQueue? {
      ApplyPublish(b, op, closing);
    }
  }

  lemma ApplyBinding(b: Broker, op: Op, closing: set<Transport>, queue: Name, exchange: Name)
    requires Consistent(b)
    ensures queue in BoundTo(Apply(b, op, closing), exchange) <==>
      !op.Reset? &&
      (|| queue in BoundTo(b, exchange)
       || (exchange == DEFAULT_EXCHANGE && op == DeclareQueue(queue))
       || (op == BindQueue(queue, exchange) && queue in b.queues && exchange in b.exchanges))
  {
    hide Publish, PublishInQueue, Store, PutConsumer;
    if !op.Reset? && !op.DeclareQueue? && !op.BindQueue? {
      BindingsKept(b, op, closing);
    }
  }

  lemma BindingsKept(b: Broker, op: Op, closing: set<Transport>)
    requires !op.Reset? && !op.DeclareQueue? && !op.BindQueue?
    ensures Apply(b, op, closing).bound == b.bound
  {
    hide Publish, PublishInQueue, PutConsumer, AppendToQueues;
    if op.PublishMessage? || op.PublishMessageInQueue? {
      ApplyPublish(b, op, closing);
    }
  }

  lemma {:induction false} RunNames(events: seq<Event>, n: nat, queue: Name, exchange: Name)
    requires n <= |events|
    ensures queue in RunTo(events, n).queues <==> Declared(events, n, queue)
    ensures exchange in RunTo(events, n).exchanges <==> ExchangeExists(events, n, exchange)
    ensures queue in BoundTo(RunTo(events, n), exchange) <==> BoundAt(events, n, queue, exchange)
  {
    hide Apply, BoundTo, Declared, ExchangeExists, BoundAt;
    if n == 0 {
      NoEvents(events, queue, exchange);
    } else {
      RunNames(events, n - 1, queue, exchange);
      EveryRunConsistent(events, n - 1);
      var b, op, closing := RunTo(events, n - 1), events[n - 1].op, events[n - 1].closing;
      ApplyQueueNames(b, op, closing, queue);
      ApplyExchangeNames(b, op, closing, exchange);
      ApplyBinding(b, op, closing, queue, exchange);
      DeclaredStep(events, n - 1, queue);
      ExchangeExistsStep(events, n - 1, exchange);
      BoundStep(events, n - 1, queue, exchange);
    }
  }

  lemma NoEvents(events: seq<Event>, queue: Name, exchange: Name)
    ensures !Declared(events, 0, queue) && !BoundAt(events, 0, queue, exchange)
    ensures ExchangeExists(events, 0, exchange) <==> exchange == DEFAULT_EXCHANGE
    ensures exchange in Initial().exchanges <==> exchange == DEFAULT_EXCHANGE
    ensures BoundTo(Initial(), exchange) == {}
  {
  }

  // ---- logs ----

  // The n-th call adds its message to the queue.
  ghost predicate AddsToQueue(events: seq<Event>, n: nat, queue: Name)
    requires n < |events|
  {
    match events[n].op
    case StoreMessage(exchange, _) => BoundAt(events, n, queue, exchange)
    case StoreMessageInQueue(q, _) => q == queue && Declared(events, n, queue)
    case PublishMessageInQueue(q, _, _) => q == queue && Declared(events, n, queue)
    case _ => false
  }

  ghost predicate AddsToExchange(events: seq<Event>, n: nat, exchange: Name)
    requires n < |events|
  {
    match events[n].op
    case StoreMessage(e, _) => e == exchange && ExchangeExists(events, n, exchange)
    case PublishMessage(e, _, _, _) => e == exchange && ExchangeExists(events, n, exchange)
    case _ => false
  }

  predicate PurgesQueue(op: Op, queue: Name) {
    op.Reset? || op == DeleteMessagesOfQueue(queue)
  }

  predicate PurgesExchange(op: Op, exchange: Name) {
    op.Reset? || op == DeleteMessagesOfExchange(exchange)
  }

  // Just after the last purge among the first n calls.
  ghost function QueueStart(events: seq<Event>, n: nat, queue: Name): (k: nat)
    requires n <= |events|
    ensures k <= n && (forall i :: k <= i < n ==> !PurgesQueue(events[i].op, queue))
    ensures k > 0 ==> PurgesQueue(events[k - 1].op, queue)
  {
    if n == 0 || PurgesQueue(events[n - 1].op, queue) then n else QueueStart(events, n - 1, queue)
  }

  ghost function ExchangeStart(events: seq<Event>, n: nat, exchange: Name): (k: nat)
    requires n <= |events|
    ensures k <= n && (forall i :: k <= i < n ==> !PurgesExchange(events[i].op, exchange))
    ensures k > 0 ==> PurgesExchange(events[k - 1].op, exchange)
  {
    if n == 0 || PurgesExchange(events[n - 1].op, exchange) then n else ExchangeStart(events, n - 1, exchange)
  }

  // The messages added by the calls k, k + 1, ..., n - 1, in order.
  ghost function QueueMessages(events: seq<Event>, k: nat, n: nat, queue: Name): seq<Message>
    requires n <= |events|
  {
    if k >= n then []
    else
      QueueMessages(events, k, n - 1, queue) +
      (if AddsToQueue(events, n - 1, queue) then [events[n - 1].op.message] else [])
  }

  ghost function ExchangeMessages(events: seq<Event>, k: nat, n: nat, exchange: Name): seq<Message>
    requires n <= |events|
  {
    if k >= n then []
    else
      ExchangeMessages(events, k, n - 1, exchange) +
      (if AddsToExchange(events, n - 1, exchange) then [events[n - 1].op.message] else [])
  }

  function QueueLog(b: Broker, queue: Name): seq<Message> {
    if queue in b.queues then b.queues[queue].messages else []
  }

  function ExchangeLog(b: Broker, exchange: Name): seq<Message> {
    if exchange in b.exchanges then b.exchanges[exchange].messages else []
  }

  lemma ApplyQueueLog(b: Broker, op: Op, closing: set<Transport>, queue: Name)
    requires Consistent(b)
    ensures QueueLog(Apply(b, op, closing), queue) ==
      if PurgesQueue(op, queue) then []
      else if op.StoreMessage? && queue in BoundTo(b, op.exchange) && op.exchange in b.exchanges
        then QueueLog(b, queue) + [op.message]
      else if (op.StoreMessageInQueue? || op.PublishMessageInQueue?) && op.queue == queue && queue in b.queues
        then QueueLog(b, queue) + [op.message]
      else QueueLog(b, queue)
  {
    hide Publish, PublishInQueue, PutConsumer;
    if op.PublishMessage? || op.PublishMessageInQueue? {
      ApplyPublish(b, op, closing);
    }
  }

  lemma ApplyExchangeLog(b: Broker, op: Op, closing: set<Transport>, exchange: Name)
    ensures ExchangeLog(Apply(b, op, closing), exchange) ==
      if PurgesExchange(op, exchange) then []
      else if (op.StoreMessage? || op.PublishMessage?) && op.exchange == exchange && exchange in b.exchanges
        then ExchangeLog(b, exchange) + [op.message]
      else ExchangeLog(b, exchange)
  {
    hide Publish, PublishInQueue, PutConsumer, AppendToQueues;
    if op.PublishMessage? || op.PublishMessageInQueue? {
      ApplyPublish(b, op, closing);
    }
  }

  // Each queue's log is, in order, the messages of the stores on exchanges it was bound to at that
  // moment and of the direct stores and publishes, since its last purge or reset.
  lemma {:induction false} QueueHistory(events: seq<Event>, n: nat, queue: Name)
    requires n <= |events|
    ensures QueueLog(RunTo(events, n), queue) == QueueMessages(events, QueueStart(events, n, queue), n, queue)
  {
    hide Apply, BoundTo, Declared, ExchangeExists, BoundAt, QueueLog, Consistent;
    if n == 0 {
      assert QueueLog(Initial(), queue) == [] by { LogsStartEmpty(queue, queue); }
    } else {
      var b, op := RunTo(events, n - 1), events[n - 1].op;
      QueueHistory(events, n - 1, queue);
      EveryRunConsistent(events, n - 1);
      ApplyQueueLog(b, op, events[n - 1].closing, queue);
      RunNames(events, n - 1, queue, if op.StoreMessage? then op.exchange else queue);
      BoundExchangeExists(b, queue, if op.StoreMessage? then op.exchange else queue);
    }
  }

  lemma BoundExchangeExists(b: Broker, queue: Name, exchange: Name)
    requires Consistent(b)
    ensures queue in BoundTo(b, exchange) ==> exchange in b.exchanges && queue in b.queues
  {
  }

  lemma LogsStartEmpty(queue: Name, exchange: Name)
    ensures QueueLog(Initial(), queue) == [] && ExchangeLog(Initial(), exchange) == []
  {
  }

  // Each exchange's log is, in order, its stores and publishes since its last purge or reset.
  lemma {:induction false} ExchangeHistory(events: seq<Event>, n: nat, exchange: Name)
    requires n <= |events|
    ensures ExchangeLog(RunTo(events, n), exchange) ==
      ExchangeMessages(events, ExchangeStart(events, n, exchange), n, exchange)
  {
    hide Apply, ExchangeExists, ExchangeLog;
    if n == 0 {
      LogsStartEmpty(exchange, exchange);
    } else {
      ExchangeHistory(events, n - 1, exchange);
      ApplyExchangeLog(RunTo(events, n - 1), events[n - 1].op, events[n - 1].closing, exchange);
      RunNames(events, n - 1, exchange, exchange);
    }
  }

  // An exchange has the type of the call that created it.
  lemma ExchangeTypeIsFirst(events: seq<Event>, i: nat, n: nat, exchange: Name)
    requires i < n <= |events| && NoReset(events, i, n) && !ExchangeExists(events, i, exchange)
    requires events[i].op.DeclareExchange? && events[i].op.exchange == exchange
    ensures exchange in RunTo(events, n).exchanges
    ensures RunTo(events, n).exchanges[exchange].kind == events[i].op.kind
  {
    hide Publish, PublishInQueue, Store, Declare, Bind, PutConsumer, ExchangeExists;
    RunNames(events, i, DEFAULT_EXCHANGE, exchange);
    assert RunTo(events, i + 1) == Apply(RunTo(events, i), events[i].op, events[i].closing);
    ExchangeTypeStable(events, i + 1, n, exchange);
  }
}
