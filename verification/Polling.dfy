// The wait_* coroutines on the State object itself. While one of them sleeps the others run: any calls
// on the object, and transports that begin to close.
module Polling {
  import opened Wrappers
  import opened Replies
  import opened Senders
  import opened Broker
  import opened BrokerHistory
  import opened BrokerState
  import opened Waiters

  method Look(state: State, goal: Goal) returns (seen: bool)
    ensures seen == Seen(state.View(), goal)
  {
    match goal
    case Acknowledged(tag) => seen := tag in state.messageAcknowledged;
    case NotAcknowledged(tag) => seen := tag in state.messageNotAcknowledged;
    case Requeued(tag) => seen := tag in state.messageRequeued;
    case QueueBound(queue, exchange) =>
      var queues := if exchange in state.queuesBoundExchanges then state.queuesBoundExchanges[exchange] else {};
      seen := queue in queues;
    case AuthenticationTried(user) => seen := user in state.authenticationTriedOn;
  }

  // What another coroutine does. The queue and the tag a publish names are not its choice.
  datatype Doing = Makes(op: Op) | Closes(peer: Transport)

  ghost predicate Among(doing: Doing, peers: set<Transport>) {
    && (doing.Closes? ==> doing.peer in peers)
    && (doing.Makes? && doing.op.RegisterConsumer? ==> doing.op.protocol in peers)
  }

  // The state, and the transports that are or become consumers'.
  ghost predicate Sound(state: State, peers: set<Transport>)
    reads state, state.Protocols(), peers
  {
    state.Valid() && state.Protocols() <= peers && forall t | t in peers :: t.Valid()
  }

  method Perform(state: State, doing: Doing, ghost peers: set<Transport>)
    requires Sound(state, peers) && Among(doing, peers)
    modifies state, peers
    ensures Sound(state, peers) && old(state.history) <= state.history
    ensures doing.Makes? && !doing.op.PublishMessage? && !doing.op.PublishMessageInQueue? ==>
      state.history == old(state.history) + [Event(doing.op, {})]
  {
    hide RunTo, Consistent, Apply, Wire, ProtocolsOf, ScanQueue, PushMessage, Publish, PublishInQueue, Delivery;
    match doing
    case Closes(peer) => peer.Close();
    case Makes(op) =>
      match op {
        case CheckCredentials(user, password) => var _ := state.CheckCredentials(user, password);
        case DeclareExchange(exchange, kind) => var _ := state.DeclareExchange(exchange, kind);
        case DeclareQueue(queue) => var _, _, _ := state.DeclareQueue(queue);
        case BindQueue(queue, exchange) => var _ := state.BindQueue(queue, exchange);
        case RegisterConsumer(protocol, tag, queue, channel) =>
          var _ := state.RegisterConsumer(protocol, tag, queue, channel);
        case DeleteMessagesOfQueue(queue) => state.DeleteMessagesOfQueue(queue);
        case DeleteMessagesOfExchange(exchange) => state.DeleteMessagesOfExchange(exchange);
        case StoreMessage(exchange, m) => var _ := state.StoreMessage(exchange, m.headers, m.body);
        case StoreMessageInQueue(queue, m) => var _ := state.StoreMessageInQueue(queue, m.headers, m.body);
        case PublishMessage(exchange, m, _, _) => var _, _, _, _ := state.PublishMessage(exchange, m.headers, m.body);
        case PublishMessageInQueue(queue, m, _) => var _, _, _ := state.PublishMessageInQueue(queue, m.headers, m.body);
        case MessageAck(tag) => state.MessageAck(tag);
        case MessageNack(tag, requeue) => state.MessageNack(tag, requeue);
        case Reset => state.Reset();
      }
  }

  method Sleep(state: State, doings: seq<Doing>, ghost peers: set<Transport>)
    requires Sound(state, peers) && forall d | d in doings :: Among(d, peers)
    modifies state, peers
    ensures Sound(state, peers) && old(state.history) <= state.history
  {
    hide RunTo, Consistent, Wire, ProtocolsOf, Among;
    for i := 0 to |doings|
      invariant Sound(state, peers) && old(state.history) <= state.history
    {
      Perform(state, doings[i], peers);
    }
  }

  // The wait has looked after at[j] calls for each j, and its goal was not seen at the first k looks.
  ghost predicate Unseen(history: seq<Event>, at: seq<nat>, k: nat, goal: Goal)
    requires k <= |at|
  {
    Schedule(history, at) && forall j :: 0 <= j < k ==> !Seen(RunTo(history, at[j]), goal)
  }

  lemma UnseenLater(history: seq<Event>, later: seq<Event>, at: seq<nat>, k: nat, goal: Goal)
    requires k <= |at| && history <= later && Unseen(history, at, k, goal)
    ensures Unseen(later, at, k, goal)
  {
    hide Seen, RunTo;
    assert later == history + later[|history|..];
    forall j | 0 <= j < k
      ensures RunTo(later, at[j]) == RunTo(history, at[j])
    {
      RunPrefix(history, later[|history|..], at[j]);
    }
  }

  lemma PollIsFirstLook(history: seq<Event>, at: seq<nat>, goal: Goal, found: bool)
    requires found ==>
      at != [] && Unseen(history, at, |at| - 1, goal) && Seen(RunTo(history, at[|at| - 1]), goal)
    requires !found ==> Unseen(history, at, |at|, goal)
    ensures FirstLook(Looks(history, at), goal) == if found then Some(|at| - 1) else None
    ensures NoReset(history, 0, |history|) ==>
      (found <==> at != [] && exists i :: 0 <= i < at[|at| - 1] && Achieves(history, i, goal))
  {
    hide Seen, RunTo, Achieves;
    if NoReset(history, 0, |history|) {
      WaitSucceedsExactly(history, at, goal);
    }
  }

  // One of the wait_* coroutines: at most `timeout` looks, a sleep after each that fails. It returns at
  // the first look that sees its goal, with the answer of that moment, and raises WaitTimeout (None)
  // after `timeout` looks that do not. With no reset it so succeeds exactly when its event happened
  // before its last look.
  method Wait(state: State, goal: Goal, timeout: nat, meanwhile: seq<seq<Doing>>, ghost peers: set<Transport>)
    returns (r: Option<bool>, ghost at: seq<nat>)
    requires Sound(state, peers) && |meanwhile| == timeout
    requires forall i, d | 0 <= i < timeout && d in meanwhile[i] :: Among(d, peers)
    modifies state, peers
    ensures Sound(state, peers) && old(state.history) <= state.history
    ensures Schedule(state.history, at) && |at| <= timeout
    ensures FirstLook(Looks(state.history, at), goal) == if r.Some? then Some(|at| - 1) else None
    ensures r.Some? ==>
      at[|at| - 1] == |state.history| && Seen(state.View(), goal) && r.value == Answer(state.View(), goal)
    ensures r.None? ==> |at| == timeout
    ensures NoReset(state.history, 0, |state.history|) ==>
      (r.Some? <==> at != [] && exists i :: 0 <= i < at[|at| - 1] && Achieves(state.history, i, goal))
  {
    hide Seen, RunTo, Consistent, Wire, ProtocolsOf, Achieves, NoReset, FirstLook, Looks;
    at := [];
    for i := 0 to timeout
      invariant Sound(state, peers) && old(state.history) <= state.history
      invariant |at| == i && Unseen(state.history, at, i, goal)
    {
      at := at + [|state.history|];
      var seen := Look(state, goal);
      if seen {
        r := Some(AnswerNow(state, goal));
        PollIsFirstLook(state.history, at, goal, true);
        return;
      }
      ghost var history := state.history;
      Sleep(state, meanwhile[i], peers);
      UnseenLater(history, state.history, at, i + 1, goal);
    }
    r := None;
    PollIsFirstLook(state.history, at, goal, false);
  }

  function AnswerNow(state: State, goal: Goal): (r: bool)
    requires Seen(state.View(), goal)
    reads state
    ensures r == Answer(state.View(), goal)
  {
    if goal.AuthenticationTried? then state.authenticationTriedOn[goal.user] else true
  }
}
