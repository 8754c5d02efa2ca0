// Requests and their answers: the same channel, and the method number after the request's own.
module Answers {
  import opened Wrappers
  import opened Bytes
  import opened Methods
  import opened Replies
  import opened Broker
  import opened Session
  import opened Channels

  // The id a request is dispatched on.
  function IdOf(call: Method): nat {
    match call
    case StartOk(_, _, _, _) => START_OK
    case TuneOk(_, _, _) => TUNE_OK
    case Open(_, _, _) => OPEN
    case Close => CLOSE
    case ChannelOpen(_) => CHANNEL_OPEN
    case ChannelClose(_, _, _, _) => CHANNEL_CLOSE
    case BasicQos(_, _, _) => BASIC_QOS
    case BasicPublish(_, _, _, _) => BASIC_PUBLISH
    case BasicConsume(_, _) => BASIC_CONSUME
    case BasicAck(_, _) => BASIC_ACK
    case BasicNack(_, _, _) => BASIC_NACK
    case BasicCancel(_) => BASIC_CANCEL
    case ExchangeDeclare(_, _) => EXCHANGE_DECLARE
    case QueueDeclare(_) => QUEUE_DECLARE
    case QueueBind(_, _, _) => QUEUE_BIND
  }

  // The dispatch table is one-to-one: a decoded call carries the id it was dispatched on.
  lemma DispatchInjective(id: nat, payload: bytes)
    requires DecodeMethod(id, payload).Ok?
    ensures IdOf(DecodeMethod(id, payload).value) == id
  {
    hide Arguments;
  }

  // The method number on the wire.
  ghost predicate Numbered(r: Reply, id: nat) {
    Payload(r).Ok? && Unpack(Payload(r).value, 0, 4) == Ok(id)
  }

  lemma ReplyNumbers(r: Reply, n: nat)
    requires FromConnection(r)
    ensures r.ConnectionOpenOk? ==> Numbered(r, OPEN + 1)
    ensures r.ConnectionCloseOk? ==> Numbered(r, CLOSE + 1)
    ensures r.ChannelOpenOk? ==> Numbered(r, CHANNEL_OPEN + 1)
    ensures r.ChannelCloseOk? ==> Numbered(r, CHANNEL_CLOSE + 1)
    ensures r.ExchangeDeclareOk? ==> Numbered(r, EXCHANGE_DECLARE + 1)
    ensures r.QueueDeclareOk? ==> Numbered(r, QUEUE_DECLARE + 1)
    ensures r.QueueBindOk? ==> Numbered(r, QUEUE_BIND + 1)
    ensures r.BasicQosOk? ==> Numbered(r, BASIC_QOS + 1)
    ensures r.BasicConsumeOk? ==> Numbered(r, BASIC_CONSUME + 1)
    ensures r.BasicCancelOk? ==> Numbered(r, BASIC_CANCEL + 1)
  {
    hide Unpack, PeerProperties;
    PayloadFits(r);
    if Payload(r).Ok? && |Payload(r).value| >= 4 {
      var p := Payload(r).value;
      assert p == [p[0], p[1], p[2], p[3]] + p[4..];
      FourOctets(p[0], p[1], p[2], p[3], p[4..]);
    }
  }

  predicate Asks(b: Broker, call: Method) {
    || call.ExchangeDeclare? || call.QueueDeclare? || call.BasicQos? || call.BasicConsume? || call.BasicCancel?
    || (call.QueueBind? && CanBind(b, call.queue, call.exchange))
  }

  ghost predicate Answered(before: Session, after: Session, r: Reply, n: nat, id: nat) {
    after.sent == before.sent + [r] && ChannelOf(r) == n && Numbered(r, id)
  }

  // On an open channel each request gets exactly one answer, on its channel and with the method
  // number that follows its own; publish, ack, nack and a refused bind get none.
  lemma RequestAnswered(s: Session, b: Broker, n: nat, call: Method)
    requires n in s.channels && s.channels[n].ChannelOpened? && n < 256 && ShortNames(call) && !call.ChannelClose?
    ensures var s' := OpenedChannelCall(s, b, n, call).s;
      var id := IdOf(call) + 1;
      if Asks(b, call) then exists r :: Answered(s, s', r, n, id) else s'.sent == s.sent
  {
    hide Apply, Encode, Answer, Payload, Unpack;
    var r :=
      match call
      case ExchangeDeclare(_, _) => ExchangeDeclareOk(n)
      case QueueDeclare(queue) => QueueDeclareOk(n, queue, 0, 0)
      case QueueBind(_, _, _) => QueueBindOk(n)
      case BasicConsume(_, tag) => BasicConsumeOk(n, tag)
      case BasicCancel(tag) => BasicCancelOk(n, tag)
      case _ => BasicQosOk(n);
    ReplyNumbers(r, n);
    var b' := OpenedChannelCall(s, b, n, call).b;
    CallIsOp(s, b, n, call);
    AnswerGoesOut(s, b', r);
    AnswerGoesOut(Shut(s), b', r);
    if Asks(b, call) {
      assert Answered(s, OpenedChannelCall(s, b, n, call).s, r, n, IdOf(call) + 1);
    }
  }
}
