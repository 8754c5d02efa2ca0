// The channels of a connection: reassembly of a message, and their independence of each other.
module Channels {
  import opened Wrappers
  import opened Methods
  import opened Frames
  import opened Replies
  import opened Senders
  import opened Broker
  import opened Session

  function Look(s: Session, n: nat): Option<Channel> {
    if n in s.channels then Some(s.channels[n]) else None
  }

  // The message a frame completes, and the exchange it goes to.
  function Completes(c: Option<Channel>, f: Frame): Option<(Name, Message)> {
    if c.Some? && c.value.WaitingBody? && f.BodyFrame? && |c.value.content + f.content| == c.value.bodySize
    then Some((c.value.exchange, Message(c.value.headers, c.value.content + f.content)))
    else None
  }

  // What one frame makes of its own channel, from that channel alone and from whether the exchange of
  // the message it may complete exists. Only opening a channel above 255 raises: its reply cannot be
  // written.
  function Move(c: Option<Channel>, n: nat, f: Frame, stored: bool): Result<Option<Channel>>
    requires !f.HeartBeat?
  {
    var now := if c.Some? then c.value else ChannelWaitingOpen;
    match now
    case ChannelWaitingOpen =>
      if !(f.MethodFrame? && f.call.ChannelOpen?) then Ok(Some(now))
      else if n >= 256 then Raised(ValueError)
      else Ok(Some(ChannelOpened))
    case ChannelOpened =>
      if !f.MethodFrame? then Ok(Some(now))
      else if f.call.ChannelClose? then Ok(None)
      else if f.call.BasicPublish? then Ok(Some(WaitingHeader(f.call.exchange, f.call.routingKey)))
      else Ok(Some(now))
    case WaitingHeader(exchange, key) =>
      if f.MethodFrame? && f.call.ChannelClose? then Ok(None)
      else if f.HeaderFrame? then Ok(Some(WaitingBody(exchange, key, f.properties, f.bodySize, [])))
      else Ok(Some(now))
    case WaitingBody(_, _, _, _, _) =>
      if f.MethodFrame? && f.call.ChannelClose? then Ok(None)
      else if !f.BodyFrame? then Ok(Some(now))
      else if stored then Ok(Some(ChannelOpened))
      else Ok(Some(now.(content := now.content + f.content)))
  }

  // The frame completes a message whose exchange exists: the message is stored.
  function Stored(c: Option<Channel>, f: Frame, b: Broker): Option<(Name, Message)> {
    var m := Completes(c, f);
    if m.Some? && m.value.0 in b.exchanges then m else None
  }

  // A channel that was opened has a number that fits one octet.
  ghost predicate SmallChannels(s: Session) {
    forall k :: k in s.channels && !s.channels[k].ChannelWaitingOpen? ==> k < 256
  }

  // Frames as read_frame delivers them.
  predicate Delivered(f: Frame) {
    f.MethodFrame? ==> ShortNames(f.call)
  }

  lemma AnswerGoesOut(s: Session, b: Broker, r: Reply)
    requires FromConnection(r) && ChannelOf(r) < 256
    ensures Answer(s, b, r) == Next(s.(sent := s.sent + [r]), b)
  {
    hide Encode;
    ConnectionRepliesWritten(r);
  }

  lemma OpenedCallMoves(s: Session, b: Broker, n: nat, call: Method)
    requires n in s.channels && s.channels[n].ChannelOpened? && n < 256 && ShortNames(call) && !call.ChannelClose?
    ensures var step := OpenedChannelCall(s, b, n, call);
      && step.Next? && step.s.me == s.me
      && step.s.channels ==
         if call.BasicPublish? then s.channels[n := WaitingHeader(call.exchange, call.routingKey)] else s.channels
  {
    hide Apply, Encode, Answer;
    match call
    case ExchangeDeclare(e, k) =>
      var b' := Apply(b, Op.DeclareExchange(e, k), {});
      AnswerGoesOut(s, b', ExchangeDeclareOk(n));
      AnswerGoesOut(Shut(s), b', ExchangeDeclareOk(n));
    case QueueDeclare(q) => AnswerGoesOut(s, Apply(b, Op.DeclareQueue(q), {}), QueueDeclareOk(n, q, 0, 0));
    case QueueBind(q, e, _) => AnswerGoesOut(s, Apply(b, Op.BindQueue(q, e), {}), QueueBindOk(n));
    case BasicQos(_, _, _) => AnswerGoesOut(s, b, BasicQosOk(n));
    case BasicConsume(q, tag) =>
      AnswerGoesOut(s, Apply(b, Op.RegisterConsumer(s.me, tag, q, n), {}), BasicConsumeOk(n, tag));
    case BasicCancel(tag) => AnswerGoesOut(s, b, BasicCancelOk(n, tag));
    case _ =>
  }

  ghost predicate MovesTo(s: Session, n: nat, m: Result<Option<Channel>>, step: Step) {
    && (m.Raised? ==> step.Raise?)
    && (m.Ok? ==>
         && step.Next? && step.s.me == s.me && SmallChannels(step.s)
         && Look(step.s, n) == m.value
         && forall k :: k != n ==> Look(step.s, k) == Look(s, k))
  }

  // One frame changes its own channel as Move says, and no other.
  lemma FrameMoves(s: Session, b: Broker, f: Frame)
    requires !f.HeartBeat? && f.channel != 0 && Delivered(f) && SmallChannels(s)
    ensures var n := f.channel;
      MovesTo(s, n, Move(Look(s, n), n, f, Stored(Look(s, n), f, b).Some?), HandleFrame(s, b, f))
  {
    hide Move, Stored, ChannelFrame, MovesTo, Delivered, SmallChannels;
    var n := f.channel;
    if n in s.channels && !s.channels[n].ChannelWaitingOpen? {
      SetUpMoves(s, b, n, f);
    } else {
      OpeningMoves(s, b, n, f);
    }
  }

  // A channel that waits for its open, or that is not known yet.
  lemma OpeningMoves(s: Session, b: Broker, n: nat, f: Frame)
    requires !f.HeartBeat? && SmallChannels(s) && (n in s.channels ==> s.channels[n].ChannelWaitingOpen?)
    ensures MovesTo(s, n, Move(Look(s, n), n, f, Stored(Look(s, n), f, b).Some?), ChannelFrame(s, b, n, f))
  {
    hide Encode, Answer, Stored;
    var s' := UpsertChannel(s, n);
    if n < 256 {
      AnswerGoesOut(s', b, ChannelOpenOk(n));
    } else {
      NoAnswer(s', b, n);
    }
  }

  lemma SetUpMoves(s: Session, b: Broker, n: nat, f: Frame)
    requires !f.HeartBeat? && Delivered(f) && SmallChannels(s) && n in s.channels && !s.channels[n].ChannelWaitingOpen?
    ensures MovesTo(s, n, Move(Look(s, n), n, f, Stored(Look(s, n), f, b).Some?), ChannelFrame(s, b, n, f))
  {
    hide Encode, Answer, OpenedChannelCall, Stored, BodyArrives;
    AnswerGoesOut(s.(channels := s.channels - {n}), b, ChannelCloseOk(n));
    if f.MethodFrame? && s.channels[n].ChannelOpened? && !f.call.ChannelClose? {
      OpenedCallMoves(s, b, n, f.call);
    }
    if s.channels[n].WaitingBody? && f.BodyFrame? {
      BodyMoves(s, b, n, s.channels[n], f);
    }
  }

  // A frame of channel 0 leaves every channel as it is.
  lemma ConnectionFrameKeepsChannels(s: Session, b: Broker, f: Frame)
    requires !f.HeartBeat?
    ensures ConnectionFrame(s, b, f).s.channels == s.channels && ConnectionFrame(s, b, f).s.me == s.me
  {
    hide Apply, Encode, Attempt, OfferedCredentials;
  }

  // ---- the handshake is not asked for ----

  function Reparsed(step: Step, p: ParserState): Step {
    step.(s := step.s.(parser := p))
  }

  lemma AnswerInAnyState(s: Session, b: Broker, r: Reply, p: ParserState)
    ensures Answer(s.(parser := p), b, r) == Reparsed(Answer(s, b, r), p)
  {
    hide Encode, Attempt;
  }

  lemma OpenedCallInAnyState(s: Session, b: Broker, n: nat, call: Method, p: ParserState)
    ensures OpenedChannelCall(s.(parser := p), b, n, call) == Reparsed(OpenedChannelCall(s, b, n, call), p)
  {
    hide Apply, Answer;
    AnswerInAnyState(s, b, BasicQosOk(n), p);
    match call
    case ExchangeDeclare(e, k) =>
      var b' := Apply(b, Op.DeclareExchange(e, k), {});
      AnswerInAnyState(s, b', ExchangeDeclareOk(n), p);
      AnswerInAnyState(Shut(s), b', ExchangeDeclareOk(n), p);
    case QueueDeclare(q) => AnswerInAnyState(s, Apply(b, Op.DeclareQueue(q), {}), QueueDeclareOk(n, q, 0, 0), p);
    case QueueBind(q, e, _) => AnswerInAnyState(s, Apply(b, Op.BindQueue(q, e), {}), QueueBindOk(n), p);
    case BasicConsume(q, tag) =>
      AnswerInAnyState(s, Apply(b, Op.RegisterConsumer(s.me, tag, q, n), {}), BasicConsumeOk(n, tag), p);
    case BasicCancel(tag) => AnswerInAnyState(s, b, BasicCancelOk(n, tag), p);
    case _ =>
  }

  // A channel is served alike in every state of the parser, before the credentials have been checked
  // as well as after.
  lemma ChannelsServedInAnyState(s: Session, b: Broker, n: nat, f: Frame, p: ParserState)
    requires !f.HeartBeat? && n != 0
    ensures ChannelFrame(s.(parser := p), b, n, f) == Reparsed(ChannelFrame(s, b, n, f), p)
  {
    hide Apply, Answer, OpenedChannelCall;
    var s' := UpsertChannel(s, n);
    assert UpsertChannel(s.(parser := p), n) == s'.(parser := p);
    AnswerInAnyState(s', b, ChannelOpenOk(n), p);
    AnswerInAnyState(s'.(channels := s'.channels - {n}), b, ChannelCloseOk(n), p);
    if f.MethodFrame? {
      OpenedCallInAnyState(s', b, n, f.call, p);
    }
  }

  // ---- replies of a channel above 255 ----

  lemma NoAnswer(s: Session, b: Broker, n: nat)
    requires n >= 256
    ensures Answer(s, b, ChannelOpenOk(n)).Raise?
  {
    hide Encode;
    ConnectionRepliesWritten(ChannelOpenOk(n));
  }

  lemma BodyMoves(s: Session, b: Broker, n: nat, c: Channel, f: Frame)
    requires n in s.channels && s.channels[n] == c && c.WaitingBody? && f.BodyFrame?
    ensures var step := BodyArrives(s, b, n, c, f.content);
      && step.Next? && step.s.me == s.me
      && step.s.channels ==
         s.channels[n := if Stored(Some(c), f, b).Some? then ChannelOpened else c.(content := c.content + f.content)]
      && step.b == match Completes(Some(c), f)
           case Some(m) => Apply(b, Op.StoreMessage(m.0, m.1), {})
           case None => b
  {
    hide Apply;
  }

  // ---- every frame is at most one call on the broker ----

  function OpOfCall(me: Transport, n: nat, call: Method): Option<Op> {
    match call
    case ExchangeDeclare(exchange, kind) => Some(Op.DeclareExchange(exchange, kind))
    case QueueDeclare(queue) => Some(Op.DeclareQueue(queue))
    case QueueBind(queue, exchange, _) => Some(Op.BindQueue(queue, exchange))
    case BasicConsume(queue, tag) => Some(Op.RegisterConsumer(me, tag, queue, n))
    case BasicAck(tag, _) => Some(Op.MessageAck(tag))
    case BasicNack(tag, _, requeue) => Some(Op.MessageNack(tag, requeue))
    case _ => None
  }

  function OpOf(s: Session, f: Frame): Option<Op> {
    if f.HeartBeat? then None
    else if f.channel != 0 then
      var c := Look(s, f.channel);
      if c.Some? && c.value.ChannelOpened? && f.MethodFrame? then OpOfCall(s.me, f.channel, f.call)
      else if Completes(c, f).Some? then
        Some(Op.StoreMessage(Completes(c, f).value.0, Completes(c, f).value.1))
      else None
    else if s.parser.WaitingStartOk? && !(f.MethodFrame? && f.call.Close?) then
      match OfferedCredentials(f)
      case Offered(user, password) => Some(Op.CheckCredentials(user, password))
      case _ => None
    else None
  }

  lemma AnswerLeavesBroker(s: Session, b: Broker, r: Reply)
    ensures Answer(s, b, r).b == b && !Answer(s, b, r).Return?
  {
    hide Encode;
  }

  lemma CallIsOp(s: Session, b: Broker, n: nat, call: Method)
    ensures OpenedChannelCall(s, b, n, call).b ==
      match OpOfCall(s.me, n, call) case Some(op) => Apply(b, op, {}) case None => b
  {
    hide Apply, Encode;
  }

  // What a frame does to the broker is one State call, or nothing.
  lemma FrameIsCall(s: Session, b: Broker, f: Frame)
    ensures HandleFrame(s, b, f).b == match OpOf(s, f) case Some(op) => Apply(b, op, {}) case None => b
  {
    hide Apply, Encode, Answer, OpenedChannelCall, Completes, OfferedCredentials;
    if f.HeartBeat? {
      AnswerLeavesBroker(s, b, Heartbeat);
    } else if f.channel != 0 {
      ChannelFrameIsCall(s, b, f);
    } else {
      ConnectionFrameIsCall(s, b, f);
    }
  }

  lemma ChannelFrameIsCall(s0: Session, b: Broker, f: Frame)
    requires !f.HeartBeat? && f.channel != 0
    ensures ChannelFrame(s0, b, f.channel, f).b == match OpOf(s0, f) case Some(op) => Apply(b, op, {}) case None => b
  {
    hide Apply, Encode, Answer, OpenedChannelCall, Completes, OfferedCredentials;
    var n := f.channel;
    var s := UpsertChannel(s0, n);
    AnswerLeavesBroker(s, b, ChannelOpenOk(n));
    AnswerLeavesBroker(s.(channels := s.channels - {n}), b, ChannelCloseOk(n));
    if f.MethodFrame? {
      CallIsOp(s, b, n, f.call);
    }
    if s.channels[n].WaitingBody? && f.BodyFrame? {
      BodyMoves(s, b, n, s.channels[n], f);
    }
    OnlyBodiesComplete(Look(s0, n), f);
  }

  lemma OnlyBodiesComplete(c: Option<Channel>, f: Frame)
    ensures Completes(c, f).Some? ==> c.Some? && c.value.WaitingBody? && f.BodyFrame?
  {
  }

  lemma ConnectionFrameIsCall(s: Session, b: Broker, f: Frame)
    requires !f.HeartBeat? && f.channel == 0
    ensures ConnectionFrame(s, b, f).b == match OpOf(s, f) case Some(op) => Apply(b, op, {}) case None => b
  {
    hide Apply, Encode, Answer, OfferedCredentials, CredentialsAccepted;
    AnswerLeavesBroker(s, b, ConnectionCloseOk);
    AnswerLeavesBroker(s.(trail := s.trail + [ExpectedOpen(f)]), b, ConnectionOpenOk);
    var c := OfferedCredentials(f);
    if c.Offered? {
      var fact := Checked(c.user, c.password, CredentialsAccepted(b, c.user, c.password));
      AnswerLeavesBroker(s.(trail := s.trail + [fact]), Apply(b, Op.CheckCredentials(c.user, c.password), {}),
        ConnectionTune);
    }
  }
}
