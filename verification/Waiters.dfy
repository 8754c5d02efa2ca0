// The wait_* coroutines: one look at the state per second, at most timeout looks. Any calls may
// run between two looks.
module Waiters {
  import opened Wrappers
  import opened Senders
  import opened Broker
  import opened BrokerHistory

  datatype Goal =
    | Acknowledged(deliveryTag: nat)
    | NotAcknowledged(deliveryTag: nat)
    | Requeued(deliveryTag: nat)
    | QueueBound(queue: Name, exchange: Name)
    | AuthenticationTried(user: Name)

  // What one look tests.
  predicate Seen(b: Broker, goal: Goal) {
    match goal
    case Acknowledged(tag) => tag in b.acknowledged
    case NotAcknowledged(tag) => tag in b.notAcknowledged
    case Requeued(tag) => tag in b.requeued
    case QueueBound(queue, exchange) => queue in BoundTo(b, exchange)
    case AuthenticationTried(user) => user in b.tried
  }

  // The look at which the wait returns, or None for WaitTimeout.
  function FirstLook(looks: seq<Broker>, goal: Goal): (r: Option<nat>)
    ensures r.Some? ==> r.value < |looks| && Seen(looks[r.value], goal)
    ensures r.Some? ==> forall j :: 0 <= j < r.value ==> !Seen(looks[j], goal)
    ensures r.None? ==> forall j :: 0 <= j < |looks| ==> !Seen(looks[j], goal)
  {
    if looks == [] then None
    else if Seen(looks[0], goal) then Some(0)
    else
      var rest := FirstLook(looks[1..], goal);
      if rest.None? then None else Some(rest.value + 1)
  }

  // What a wait returns when its goal is seen: the authentication wait tells what the attempt came to.
  function Answer(b: Broker, goal: Goal): bool
    requires Seen(b, goal)
  {
    if goal.AuthenticationTried? then b.tried[goal.user] else true
  }

  // ---- against the calls of a run ----

  // The i-th call brings the goal about.
  ghost predicate Achieves(events: seq<Event>, i: nat, goal: Goal)
    requires i < |events|
  {
    match goal
    case Acknowledged(tag) => events[i].op == MessageAck(tag)
    case NotAcknowledged(tag) => events[i].op == MessageNack(tag, false)
    case Requeued(tag) => events[i].op == MessageNack(tag, true)
    case QueueBound(queue, exchange) =>
      || (exchange == DEFAULT_EXCHANGE && events[i].op == DeclareQueue(queue))
      || (events[i].op == BindQueue(queue, exchange) && Declared(events, i, queue) &&
          ExchangeExists(events, i, exchange))
    case AuthenticationTried(user) => events[i].op.CheckCredentials? && events[i].op.user == user
  }

  // It was brought about before the n-th call and no reset followed.
  ghost predicate Standing(events: seq<Event>, n: nat, goal: Goal)
    requires n <= |events|
  {
    exists i :: 0 <= i < n && StandsSince(events, i, n, goal)
  }

  ghost predicate StandsSince(events: seq<Event>, i: nat, n: nat, goal: Goal)
    requires i < n <= |events|
  {
    Achieves(events, i, goal) && NoReset(events, i + 1, n)
  }

  lemma StandingStep(events: seq<Event>, n: nat, goal: Goal)
    requires n < |events|
    ensures Standing(events, n + 1, goal) <==>
      !events[n].op.Reset? && (Achieves(events, n, goal) || Standing(events, n, goal))
  {
    hide Achieves;
    if Standing(events, n, goal) && !events[n].op.Reset? {
      var i :| 0 <= i < n && StandsSince(events, i, n, goal);
      assert StandsSince(events, i, n + 1, goal);
    }
    if Achieves(events, n, goal) {
      assert StandsSince(events, n, n + 1, goal);
    }
    if Standing(events, n + 1, goal) {
      var i :| 0 <= i < n + 1 && StandsSince(events, i, n + 1, goal);
      if i < n {
        assert StandsSince(events, i, n, goal);
      } else {
        ResetAchievesNothing(events, n, goal);
      }
    }
  }

  lemma ResetAchievesNothing(events: seq<Event>, n: nat, goal: Goal)
    requires n < |events|
    ensures Achieves(events, n, goal) ==> !events[n].op.Reset?
  {
    hide Declared, ExchangeExists;
  }

  lemma ApplySeen(events: seq<Event>, n: nat, goal: Goal)
    requires n < |events|
    ensures Seen(RunTo(events, n + 1), goal) <==>
      !events[n].op.Reset? && (Achieves(events, n, goal) || Seen(RunTo(events, n), goal))
  {
    hide Declared, ExchangeExists, BoundTo, Apply, RunTo;
    OneMore(events, n);
    if goal.QueueBound? {
      EveryRunConsistent(events, n);
      RunNames(events, n, goal.queue, goal.exchange);
      ApplyBinding(RunTo(events, n), events[n].op, events[n].closing, goal.queue, goal.exchange);
    } else {
      ApplyRecorded(RunTo(events, n), events[n].op, events[n].closing, events, n, goal);
    }
  }

  lemma OneMore(events: seq<Event>, n: nat)
    requires n < |events|
    ensures RunTo(events, n + 1) == Apply(RunTo(events, n), events[n].op, events[n].closing)
  {
  }

  lemma ApplyRecorded(b: Broker, op: Op, closing: set<Transport>, events: seq<Event>, n: nat, goal: Goal)
    requires n < |events| && events[n].op == op && !goal.QueueBound?
    ensures Seen(Apply(b, op, closing), goal) <==> !op.Reset? && (Achieves(events, n, goal) || Seen(b, goal))
  {
    hide Publish, PublishInQueue, Store, Declare, Bind, PutConsumer, BoundTo, Declared, ExchangeExists;
    if OnQueues(op) {
      RecordsKept(b, op, closing);
    }
  }

  predicate OnQueues(op: Op) {
    op.PublishMessage? || op.PublishMessageInQueue? || op.StoreMessage? || op.DeclareQueue? || op.BindQueue?
  }

  // The calls on queues and exchanges leave the records of acknowledgements and credentials alone.
  lemma RecordsKept(b: Broker, op: Op, closing: set<Transport>)
    requires OnQueues(op)
    ensures var b' := Apply(b, op, closing);
      && b'.acknowledged == b.acknowledged && b'.notAcknowledged == b.notAcknowledged
      && b'.requeued == b.requeued && b'.tried == b.tried && b'.users == b.users
  {
    hide Publish, PublishInQueue, AppendToQueues;
    if op.PublishMessage? || op.PublishMessageInQueue? {
      ApplyPublish(b, op, closing);
    }
  }

  lemma {:induction false} SeenExactlyWhenStanding(events: seq<Event>, n: nat, goal: Goal)
    requires n <= |events|
    ensures Seen(RunTo(events, n), goal) <==> Standing(events, n, goal)
  {
    hide Apply, Achieves;
    if n > 0 {
      SeenExactlyWhenStanding(events, n - 1, goal);
      ApplySeen(events, n - 1, goal);
      StandingStep(events, n - 1, goal);
    }
  }

  // The j-th look happens after at[j] calls.
  ghost predicate Schedule(events: seq<Event>, at: seq<nat>) {
    forall j, k :: 0 <= j <= k < |at| ==> at[j] <= at[k] <= |events|
  }

  ghost function Looks(events: seq<Event>, at: seq<nat>): (looks: seq<Broker>)
    requires Schedule(events, at)
    ensures |looks| == |at| && forall j :: 0 <= j < |at| ==> looks[j] == RunTo(events, at[j])
  {
    if at == [] then [] else [RunTo(events, at[0])] + Looks(events, at[1..])
  }

  // With no reset, a wait succeeds exactly when the goal was brought about before its last look, and
  // then at the first look that follows; otherwise it times out.
  lemma WaitSucceedsExactly(events: seq<Event>, at: seq<nat>, goal: Goal)
    requires Schedule(events, at) && NoReset(events, 0, |events|)
    ensures var r := FirstLook(Looks(events, at), goal);
      && (r.Some? <==> at != [] && exists i :: 0 <= i < at[|at| - 1] && Achieves(events, i, goal))
      && (r.Some? ==> exists i :: 0 <= i < at[r.value] && Achieves(events, i, goal))
      && (r.Some? ==> forall j, i :: 0 <= j < r.value && 0 <= i < at[j] ==> !Achieves(events, i, goal))
  {
    hide RunTo, Achieves, Seen;
    var looks := Looks(events, at);
    forall j | 0 <= j < |at|
      ensures Seen(looks[j], goal) <==> exists i :: 0 <= i < at[j] && Achieves(events, i, goal)
    {
      SeenExactlyWhenStanding(events, at[j], goal);
      StandingWithoutReset(events, at[j], goal);
    }
    var r := FirstLook(looks, goal);
    if r.Some? {
      var i :| 0 <= i < at[r.value] && Achieves(events, i, goal);
      assert i < at[|at| - 1];
    }
  }

  lemma StandingWithoutReset(events: seq<Event>, n: nat, goal: Goal)
    requires n <= |events| && NoReset(events, 0, |events|)
    ensures Standing(events, n, goal) <==> exists i :: 0 <= i < n && Achieves(events, i, goal)
  {
    hide Achieves;
    if i :| 0 <= i < n && Achieves(events, i, goal) {
      assert StandsSince(events, i, n, goal);
    }
  }

  // The i-th of the first n calls is the last attempt of the user, and no reset followed.
  ghost predicate LastAttemptOf(events: seq<Event>, i: nat, n: nat, user: Name)
    requires i < n <= |events|
  {
    && Attempts(events[i].op, user) && NoReset(events, i + 1, n)
    && forall k :: i < k < n ==> !Attempts(events[k].op, user)
  }

  predicate Attempts(op: Op, user: Name) {
    op.CheckCredentials? && op.user == user
  }

  lemma RecordOf(b: Broker, op: Op, closing: set<Transport>, user: Name)
    requires b.users == map[GUEST := GUEST] && !op.Reset?
    ensures var b' := Apply(b, op, closing);
      && (Attempts(op, user) ==> user in b'.tried && b'.tried[user] == (user == GUEST && op.password == GUEST))
      && (!Attempts(op, user) && user in b.tried ==> user in b'.tried && b'.tried[user] == b.tried[user])
  {
    hide Publish, PublishInQueue, Store, Declare, Bind, PutConsumer;
    if OnQueues(op) {
      RecordsKept(b, op, closing);
    }
  }

  // The record of a user tells what the last attempt came to: the only account is the default one.
  lemma {:induction false} LastAttempt(events: seq<Event>, n: nat, i: nat, user: Name)
    requires i < n <= |events| && LastAttemptOf(events, i, n, user)
    ensures user in RunTo(events, n).tried
    ensures RunTo(events, n).tried[user] == (user == GUEST && events[i].op.password == GUEST)
    decreases n
  {
    hide Apply, Attempts;
    OneAccount(events, n - 1);
    AttemptsNoReset(events[i].op, user);
    RecordOf(RunTo(events, n - 1), events[n - 1].op, events[n - 1].closing, user);
    if i < n - 1 {
      LastAttempt(events, n - 1, i, user);
    }
  }

  lemma AttemptsNoReset(op: Op, user: Name)
    ensures Attempts(op, user) ==> op.CheckCredentials?
  {
  }

  lemma {:induction false} AttemptRecorded(events: seq<Event>, n: nat, user: Name) returns (i: nat)
    requires n <= |events| && user in RunTo(events, n).tried
    ensures i < n && LastAttemptOf(events, i, n, user)
  {
    hide Apply;
    var goal := AuthenticationTried(user);
    NothingTried();
    ApplySeen(events, n - 1, goal);
    if Attempts(events[n - 1].op, user) {
      i := n - 1;
    } else {
      i := AttemptRecorded(events, n - 1, user);
    }
  }

  lemma NothingTried()
    ensures Initial().tried == map[]
  {
  }

  // So the authentication wait answers true exactly when the last attempt of that user, at the look
  // that ends the wait, was guest with the password guest.
  lemma AuthenticationAnswer(events: seq<Event>, n: nat, user: Name)
    requires n <= |events| && Seen(RunTo(events, n), AuthenticationTried(user))
    ensures var answer := Answer(RunTo(events, n), AuthenticationTried(user));
      exists i ::
        && 0 <= i < n && LastAttemptOf(events, i, n, user)
        && answer == (user == GUEST && events[i].op.password == GUEST)
  {
    hide RunTo;
    var i := AttemptRecorded(events, n, user);
    LastAttempt(events, n, i, user);
  }

  lemma UsersOf(b: Broker, op: Op, closing: set<Transport>)
    ensures Apply(b, op, closing).users == if op.Reset? then map[GUEST := GUEST] else b.users
  {
    hide Publish, PublishInQueue, Store, Declare, Bind, PutConsumer;
    if OnQueues(op) {
      RecordsKept(b, op, closing);
    }
  }

  lemma {:induction false} OneAccount(events: seq<Event>, n: nat)
    requires n <= |events|
    ensures RunTo(events, n).users == map[GUEST := GUEST]
  {
    hide Apply;
    if n > 0 {
      OneAccount(events, n - 1);
      UsersOf(RunTo(events, n - 1), events[n - 1].op, events[n - 1].closing);
    }
  }
}
