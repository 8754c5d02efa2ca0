// What a client gets for each request: the call on the broker, the reply, and whether the transport
// begins to close, told without the names of the handlers.
module Service {
  import opened Wrappers
  import opened Bytes
  import opened Values
  import opened ItemCodec
  import opened ArgumentCodec
  import opened ArgumentOctets
  import opened ArgumentRoundTrip
  import opened Methods
  import opened Frames
  import opened FrameOctets
  import opened Replies
  import opened Senders
  import opened Requests
  import opened Broker
  import opened ConsumerHistory
  import opened Consumers
  import opened Session
  import opened Chunks
  import opened Channels

  // ---- one frame in the buffer ----

  // data_received when the buffer holds one whole frame and some bytes behind it.
  lemma OneFrame(w: bytes, s: Session, b: Broker, f: Frame)
    requires !s.parser.WaitingProtocolHeader? && ReadFrame(w) == Found(f)
    ensures var o := DataReceived([], s, b, w);
      match HandleFrame(s, b, f)
      case Next(s', b') => o == Drain(w[f.size..], s', b')
      case Return(s', b') => o == Left(w[f.size..], s', b')
      case Raise(s', b', e) => o == Threw(w[f.size..], s', b', e)
  {
    hide HandleFrame, ReadFrame;
    assert [] + w == w;
    EmptyIsNoFrame();
  }

  // And when there is nothing behind it.
  lemma LastFrame(w: bytes, s: Session, b: Broker, f: Frame)
    requires !s.parser.WaitingProtocolHeader? && ReadFrame(w) == Found(f) && f.size == |w|
    requires HandleFrame(s, b, f).Next?
    ensures DataReceived([], s, b, w) == Done([], HandleFrame(s, b, f).s, HandleFrame(s, b, f).b)
  {
    hide HandleFrame, ReadFrame;
    OneFrame(w, s, b, f);
    var step := HandleFrame(s, b, f);
    assert w[|w|..] == [] && Drain([], step.s, step.b) == Done([], step.s, step.b);
  }

  // A request a client lays out on a channel.
  lemma RequestHandled(s: Session, b: Broker, n: nat, r: Request)
    requires !s.parser.WaitingProtocolHeader? && Laid(n, r).Ok? && AllWellFormed(Args(r))
    ensures var w := Laid(n, r).value;
      var step := HandleFrame(s, b, MethodFrame(n, |w|, CallOf(r)));
      && (step.Next? ==> DataReceived([], s, b, w) == Done([], step.s, step.b))
      && (step.Return? ==> DataReceived([], s, b, w) == Left([], step.s, step.b))
      && (step.Raise? ==> DataReceived([], s, b, w) == Threw([], step.s, step.b, step.error))
  {
    hide HandleFrame, ReadFrame, Laid, CallOf, Args;
    var w := Laid(n, r).value;
    RequestFound(n, r, []);
    assert w + [] == w && w[|w|..] == [];
    var f := ReadFrame(w).frame;
    OneFrame(w, s, b, f);
    if HandleFrame(s, b, f).Next? {
      LastFrame(w, s, b, f);
    }
  }

  // ---- requests on an open channel ----

  predicate Serving(s: Session, n: nat) {
    !s.parser.WaitingProtocolHeader? && 0 < n < 256 && n in s.channels && s.channels[n].ChannelOpened?
  }

  // A request laid out on an open channel.
  lemma CallServed(s: Session, b: Broker, n: nat, r: Request)
    requires Serving(s, n) && Laid(n, r).Ok? && AllWellFormed(Args(r)) && !r.ChannelClose?
    ensures var step := OpenedChannelCall(s, b, n, CallOf(r));
      step.Next? ==> DataReceived([], s, b, Laid(n, r).value) == Done([], step.s, step.b)
  {
    hide OpenedChannelCall, Laid, Args, DataReceived;
    RequestHandled(s, b, n, r);
  }

  function Replied(s: Session, r: Reply): Session {
    s.(sent := s.sent + [r])
  }

  // An exchange that does not exist is created; one of another type closes the transport. The reply
  // goes out in any case.
  lemma ExchangeDeclareServed(s: Session, b: Broker, n: nat, r: Request)
    requires Serving(s, n) && r.ExchangeDeclare? && Laid(n, r).Ok? && AllWellFormed(Args(r))
    ensures var known := r.exchange in b.exchanges;
      var clash := known && b.exchanges[r.exchange].kind != r.kind;
      DataReceived([], s, b, Laid(n, r).value) ==
        Done([], Replied(if clash then s.(closing := true) else s, ExchangeDeclareOk(n)),
             if known then b else b.(exchanges := b.exchanges[r.exchange := Exchange(r.kind, [])]))
  {
    hide Encode, Answer, Laid, HandleFrame, DataReceived, Args;
    CallServed(s, b, n, r);
    var b' := Apply(b, Op.DeclareExchange(r.exchange, r.kind), {});
    AnswerGoesOut(s, b', ExchangeDeclareOk(n));
    AnswerGoesOut(Shut(s), b', ExchangeDeclareOk(n));
  }

  // A queue that does not exist is created empty and bound to the exchange with the empty name.
  lemma QueueDeclareServed(s: Session, b: Broker, n: nat, r: Request)
    requires Serving(s, n) && r.QueueDeclare? && Laid(n, r).Ok? && AllWellFormed(Args(r)) && [] in b.exchanges
    ensures var bound := if [] in b.bound then b.bound[[]] else {};
      DataReceived([], s, b, Laid(n, r).value) ==
        Done([], Replied(s, QueueDeclareOk(n, r.queue, 0, 0)),
             if r.queue in b.queues then b
             else b.(queues := b.queues[r.queue := Queue([], [])], bound := b.bound[[] := bound + {r.queue}]))
  {
    hide Encode, Answer, Laid, HandleFrame, DataReceived, Args;
    CallServed(s, b, n, r);
    ShortName(n, r);
    AnswerGoesOut(s, Apply(b, Op.DeclareQueue(r.queue), {}), QueueDeclareOk(n, r.queue, 0, 0));
  }

  // The names that come back in replies fit a short string, having come in one.
  lemma ShortName(n: nat, r: Request)
    requires Laid(n, r).Ok? && AllWellFormed(Args(r))
    ensures ShortNames(CallOf(r))
  {
    hide Laid, Args, CallOf, ReadFrame;
    RequestFound(n, r, []);
    var w := Laid(n, r).value + [];
    assert ReadFrame(w).Found? && ReadFrame(w).frame.MethodFrame? && ReadFrame(w).frame.call == CallOf(r);
  }

  // Both ends have to exist; otherwise the transport is closed without a reply.
  lemma QueueBindServed(s: Session, b: Broker, n: nat, r: Request)
    requires Serving(s, n) && r.QueueBind? && Laid(n, r).Ok? && AllWellFormed(Args(r))
    ensures var bound := if r.exchange in b.bound then b.bound[r.exchange] else {};
      DataReceived([], s, b, Laid(n, r).value) ==
        if r.exchange in b.exchanges && r.queue in b.queues then
          Done([], Replied(s, QueueBindOk(n)), b.(bound := b.bound[r.exchange := bound + {r.queue}]))
        else Done([], s.(closing := true), b)
  {
    hide Encode, Answer, Laid, HandleFrame, DataReceived, Args;
    CallServed(s, b, n, r);
    AnswerGoesOut(s, Apply(b, Op.BindQueue(r.queue, r.exchange), {}), QueueBindOk(n));
  }

  // Nothing but the replies: a cancelled consumer stays registered.
  lemma QosAndCancelServed(s: Session, b: Broker, n: nat, r: Request)
    requires Serving(s, n) && (r.BasicQos? || r.BasicCancel?) && Laid(n, r).Ok? && AllWellFormed(Args(r))
    ensures DataReceived([], s, b, Laid(n, r).value) ==
      Done([], Replied(s, if r.BasicQos? then BasicQosOk(n) else BasicCancelOk(n, r.consumerTag)), b)
  {
    hide Encode, Answer, Laid, HandleFrame, DataReceived, Args;
    CallServed(s, b, n, r);
    ShortName(n, r);
    AnswerGoesOut(s, b, BasicQosOk(n));
    if r.BasicCancel? {
      AnswerGoesOut(s, b, BasicCancelOk(n, r.consumerTag));
    }
  }

  // The connection's own transport is registered under the tag and the channel, if the queue exists.
  // The reply goes out in any case.
  lemma ConsumeServed(s: Session, b: Broker, n: nat, r: Request)
    requires Serving(s, n) && r.BasicConsume? && Laid(n, r).Ok? && AllWellFormed(Args(r))
    ensures var o := DataReceived([], s, b, Laid(n, r).value);
      && o == Done([], Replied(s, BasicConsumeOk(n, r.consumerTag)), o.b)
      && (r.queue !in b.queues ==> o.b == b)
      && (r.queue in b.queues ==>
           && Placed(ConsumersOf(b, r.queue), Consumer(r.consumerTag, s.me, n), ConsumersOf(o.b, r.queue))
           && o.b == b.(queues := b.queues[r.queue := Queue(b.queues[r.queue].messages, ConsumersOf(o.b, r.queue))]))
  {
    hide Encode, Answer, Laid, HandleFrame, DataReceived, Args, Placed, Apply;
    CallServed(s, b, n, r);
    ShortName(n, r);
    RegisterPlaces(b, s.me, r.consumerTag, r.queue, n);
    var b' := Apply(b, Op.RegisterConsumer(s.me, r.consumerTag, r.queue, n), {});
    AnswerGoesOut(s, b', BasicConsumeOk(n, r.consumerTag));
  }

  // A publish waits for its content header, whether or not the exchange exists. No reply.
  lemma PublishServed(s: Session, b: Broker, n: nat, r: Request)
    requires Serving(s, n) && r.BasicPublish? && Laid(n, r).Ok? && AllWellFormed(Args(r))
    ensures DataReceived([], s, b, Laid(n, r).value) ==
      Done([], s.(channels := s.channels[n := WaitingHeader(r.exchange, r.routingKey)]), b)
  {
    hide Encode, Answer, Laid, HandleFrame, DataReceived, Args;
    CallServed(s, b, n, r);
  }

  // An ack records its tag among the acknowledged ones, a nack among the requeued or the refused ones.
  // No reply, and nothing else changes.
  lemma AckServed(s: Session, b: Broker, n: nat, r: Request)
    requires Serving(s, n) && (r.BasicAck? || r.BasicNack?) && Laid(n, r).Ok? && AllWellFormed(Args(r))
    ensures DataReceived([], s, b, Laid(n, r).value) ==
      Done([], s,
        if r.BasicAck? then b.(acknowledged := b.acknowledged + {r.deliveryTag})
        else if r.requeue then b.(requeued := b.requeued + {r.deliveryTag})
        else b.(notAcknowledged := b.notAcknowledged + {r.deliveryTag}))
  {
    hide Encode, Answer, Laid, HandleFrame, DataReceived, Args;
    CallServed(s, b, n, r);
  }

  // The requests of a connection, and a second channel open, are passed over on an open channel.
  lemma OthersIgnored(s: Session, b: Broker, n: nat, r: Request)
    requires Serving(s, n) && (r.StartOk? || r.TuneOk? || r.Open? || r.Close? || r.ChannelOpen?)
    requires Laid(n, r).Ok? && AllWellFormed(Args(r))
    ensures DataReceived([], s, b, Laid(n, r).value) == Done([], s, b)
  {
    hide Encode, Answer, Laid, HandleFrame, DataReceived, Args;
    CallServed(s, b, n, r);
  }

  // ---- opening and closing a channel ----

  predicate NotYetOpen(s: Session, n: nat) {
    n !in s.channels || s.channels[n].ChannelWaitingOpen?
  }

  lemma ChannelOpenServed(s: Session, b: Broker, n: nat, r: Request)
    requires !s.parser.WaitingProtocolHeader? && 0 < n < 256 && NotYetOpen(s, n)
    requires r.ChannelOpen? && Laid(n, r).Ok? && AllWellFormed(Args(r))
    ensures DataReceived([], s, b, Laid(n, r).value) ==
      Done([], Replied(s.(channels := s.channels[n := ChannelOpened]), ChannelOpenOk(n)), b)
  {
    hide Encode, Answer, Laid, Args;
    RequestHandled(s, b, n, r);
    AnswerGoesOut(UpsertChannel(s, n), b, ChannelOpenOk(n));
    assert s.channels[n := ChannelWaitingOpen][n := ChannelOpened] == s.channels[n := ChannelOpened];
  }

  // Anything else on such a channel closes the transport, without a reply.
  lemma OpenExpected(s: Session, b: Broker, f: Frame)
    requires !f.HeartBeat? && f.channel != 0 && NotYetOpen(s, f.channel)
    requires !(f.MethodFrame? && f.call.ChannelOpen?)
    ensures HandleFrame(s, b, f) ==
      Next(s.(channels := s.channels[f.channel := ChannelWaitingOpen], closing := true), b)
  {
    if f.channel in s.channels {
      assert s.channels[f.channel := ChannelWaitingOpen] == s.channels;
    }
  }

  // The reply to opening a channel above 255 cannot be written: ValueError, and nothing is sent.
  lemma OpenAbove255(s: Session, b: Broker, f: Frame)
    requires f.MethodFrame? && f.call.ChannelOpen? && f.channel >= 256 && NotYetOpen(s, f.channel)
    ensures HandleFrame(s, b, f) ==
      Raise(s.(channels := s.channels[f.channel := ChannelWaitingOpen]), b, ValueError)
  {
    assert s.sent + [] == s.sent;
    if f.channel in s.channels {
      assert s.channels[f.channel := ChannelWaitingOpen] == s.channels;
    }
    ReplyAbove255(f.channel);
  }

  lemma ReplyAbove255(n: nat)
    requires n >= 256
    ensures Encode(ChannelOpenOk(n)) == Raised(ValueError) && Attempt(ChannelOpenOk(n)) == []
  {
    hide Dumps, Envelop;
    PayloadFits(ChannelOpenOk(n));
    assert Envelop(METHOD_FRAME, n, Payload(ChannelOpenOk(n)).value) == Raised(ValueError) by {
      TooLargeChannel(METHOD_FRAME, n, Payload(ChannelOpenOk(n)).value);
    }
  }

  lemma TooLargeChannel(kind: byte, n: nat, payload: bytes)
    requires n >= 256
    ensures Envelop(kind, n, payload) == Raised(ValueError)
  {
  }

  // Closing a channel, whatever it is waiting for, forgets it and closes the transport too.
  lemma ChannelCloseServed(s: Session, b: Broker, n: nat, r: Request)
    requires !s.parser.WaitingProtocolHeader? && 0 < n < 256 && !NotYetOpen(s, n)
    requires r.ChannelClose? && Laid(n, r).Ok? && AllWellFormed(Args(r))
    ensures DataReceived([], s, b, Laid(n, r).value) ==
      Done([], Replied(s.(channels := s.channels - {n}, closing := true), ChannelCloseOk(n)), b)
  {
    hide Encode, Answer, Laid, Args;
    RequestHandled(s, b, n, r);
    AnswerGoesOut(s.(channels := s.channels - {n}), b, ChannelCloseOk(n));
  }

  // Whatever else comes on a channel that waits for a header or for bodies is passed over.
  lemma ContentExpected(s: Session, b: Broker, f: Frame)
    requires !f.HeartBeat? && f.channel != 0 && !NotYetOpen(s, f.channel)
    requires !(f.MethodFrame? && f.call.ChannelClose?)
    requires s.channels[f.channel].ChannelOpened? ==> !f.MethodFrame?
    requires s.channels[f.channel].WaitingHeader? ==> !f.HeaderFrame?
    requires s.channels[f.channel].WaitingBody? ==> !f.BodyFrame?
    ensures HandleFrame(s, b, f) == Next(s, b)
  {
  }

  // ---- acknowledgements, octet by octet ----

  lemma TagAndBits(payload: bytes, w: bytes, x: byte)
    requires |w| == 8 && |payload| == 13 && payload[4..12] == w && payload[12] == x
    ensures Arguments("Lb", payload) == Ok([Int(Eight(w)), Bool(x % 2 == 1)])
    ensures Arguments("Lbb", payload) == Ok([Int(Eight(w)), Bool(x % 2 == 1), Bool(x / 2 % 2 == 1)])
  {
    hide LoadOne, FitsAll, Fits, Eight;
    LoadsNumbers(payload, 4, w);
    var tag, multiple, requeue := Int(Eight(w)), Bool(x % 2 == 1), Bool(x / 2 % 2 == 1);
    assert "Lbb"[1..] == "bb" && "bb"[1..] == "b" && "Lb"[1..] == "b" && "b"[1..] == "";
    assert LoadsFrom("", payload, 13, 7, x / 2) == Ok(Read([], 13));
    assert LoadsFrom("", payload, 13, 7, x / 2 / 2) == Ok(Read([], 13));
    assert LoadsFrom("b", payload, 12, 0, 0) == Ok(Read([multiple] + [], 13));
    assert LoadsFrom("b", payload, 13, 7, x / 2) == Ok(Read([requeue] + [], 13));
    assert LoadsFrom("bb", payload, 12, 0, 0) == Ok(Read([multiple] + ([requeue] + []), 13));
    assert [tag] + ([multiple] + []) == [tag, multiple];
    assert [tag] + ([multiple] + ([requeue] + [])) == [tag, multiple, requeue];
  }

  // Class 60, method 80 is an ack: eight octets of delivery tag, then the bit `multiple`. Method 120 is a
  // nack, its second bit telling whether to requeue.
  lemma AckByOctets(n: byte, w: bytes, x: byte, rest: bytes)
    requires |w| == 8
    ensures ReadFrame([1, 0, n, 0, 0, 0, 13, 0, 60, 0, 80] + w + [x, 0xCE] + rest) ==
      Found(MethodFrame(n, 21, Method.BasicAck(Eight(w), x % 2 == 1)))
    ensures ReadFrame([1, 0, n, 0, 0, 0, 13, 0, 60, 0, 120] + w + [x, 0xCE] + rest) ==
      Found(MethodFrame(n, 21, Method.BasicNack(Eight(w), x % 2 == 1, x / 2 % 2 == 1)))
  {
    AckFrame(n, 80, w, x, rest);
    AckFrame(n, 120, w, x, rest);
  }

  lemma AckFrame(n: byte, m: byte, w: bytes, x: byte, rest: bytes)
    requires |w| == 8 && m in {80, 120}
    ensures ReadFrame([1, 0, n, 0, 0, 0, 13, 0, 60, 0, m] + w + [x, 0xCE] + rest) ==
      Found(MethodFrame(n, 21,
        if m == 80 then Method.BasicAck(Eight(w), x % 2 == 1)
        else Method.BasicNack(Eight(w), x % 2 == 1, x / 2 % 2 == 1)))
  {
    hide ReadFrame, Cut, Eight, Arguments;
    var buf := [1, 0, n, 0, 0, 0, 13, 0, 60, 0, m] + w + [x, 0xCE] + rest;
    CutByOctets(buf);
    var payload := buf[7..20];
    assert payload == [0, 60, 0, m] + w + [x];
    assert payload[4..12] == w;
    TagAndBits(payload, w, x);
    MethodByOctets(buf);
  }
}
