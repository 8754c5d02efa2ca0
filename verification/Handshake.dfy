// The order of the handshake, over every run of a connection.
module Handshake {
  import opened Bytes
  import opened Properties
  import opened Methods
  import opened Frames
  import opened Replies
  import opened Senders
  import opened Broker
  import opened Session
  import opened Chunks

  // ---- what the peer did ----

  predicate Milestone(k: nat, fact: Fact) {
    match k
    case 1 => fact == SawHeader(PROTOCOL_HEADER)
    case 2 => fact.Checked? && fact.accepted
    case 3 => fact.ExpectedTuneOk? && fact.frame.MethodFrame? && fact.frame.call.TuneOk?
    case 4 => fact.ExpectedOpen? && fact.frame.MethodFrame? && fact.frame.call.Open?
    case _ => false
  }

  // The milestones 1, ..., k stand in this order among the first n facts.
  ghost predicate Passed(trail: seq<Fact>, n: nat, k: nat)
    requires n <= |trail|
    decreases k, |trail|
  {
    k == 0 || exists i :: 0 <= i < n && Milestone(k, trail[i]) && Passed(trail, i, k - 1)
  }

  lemma {:induction false} PassedStays(trail: seq<Fact>, more: seq<Fact>, n: nat, m: nat, k: nat)
    requires n <= |trail| && n <= m <= |trail + more| && Passed(trail, n, k)
    ensures Passed(trail + more, m, k)
    decreases k
  {
    if k > 0 {
      var i :| 0 <= i < n && Milestone(k, trail[i]) && Passed(trail, i, k - 1);
      PassedStays(trail, more, i, i, k - 1);
      assert (trail + more)[i] == trail[i];
    }
  }

  lemma PassedOneMore(trail: seq<Fact>, fact: Fact, k: nat)
    requires Passed(trail, |trail|, k)
    ensures Passed(trail + [fact], |trail| + 1, k)
    ensures Milestone(k + 1, fact) ==> Passed(trail + [fact], |trail| + 1, k + 1)
  {
    PassedStays(trail, [fact], |trail|, |trail| + 1, k);
    PassedStays(trail, [fact], |trail|, |trail|, k);
    assert (trail + [fact])[|trail|] == fact;
  }

  // ---- what the server sent ----

  predicate IsHandshake(r: Reply) {
    r.ConnectionStart? || r.ConnectionTune? || r.ConnectionOpenOk?
  }

  function HandshakeSent(sent: seq<Reply>): seq<Reply> {
    if sent == [] then []
    else HandshakeSent(sent[..|sent| - 1]) + (if IsHandshake(sent[|sent| - 1]) then [sent[|sent| - 1]] else [])
  }

  lemma HandshakeOneMore(sent: seq<Reply>, r: Reply)
    ensures HandshakeSent(sent + [r]) == HandshakeSent(sent) + (if IsHandshake(r) then [r] else [])
  {
    assert (sent + [r])[..|sent|] == sent;
  }

  lemma {:induction false} HandshakeMore(sent: seq<Reply>, more: seq<Reply>)
    requires forall r | r in more :: !IsHandshake(r)
    ensures HandshakeSent(sent + more) == HandshakeSent(sent)
  {
    if more == [] {
      assert sent + more == sent;
    } else {
      var last := |more| - 1;
      HandshakeMore(sent, more[..last]);
      HandshakeOneMore(sent + more[..last], more[last]);
      assert sent + more == sent + more[..last] + [more[last]];
    }
  }

  function Due(p: ParserState): seq<Reply> {
    match p
    case WaitingProtocolHeader => []
    case WaitingStartOk => [ConnectionStart]
    case WaitingTuneOk => [ConnectionStart, ConnectionTune]
    case WaitingOpen => [ConnectionStart, ConnectionTune]
    case Opened => [ConnectionStart, ConnectionTune, ConnectionOpenOk]
  }

  // Start, tune and open-ok have been sent once each up to the parser's state, in this order, and
  // the peer has passed the milestones the state stands for.
  ghost predicate InOrder(s: Session) {
    HandshakeSent(s.sent) == Due(s.parser) && Passed(s.trail, |s.trail|, Rank(s.parser) - 1)
  }

  lemma AttemptIsNoHandshake(r: Reply)
    requires !IsHandshake(r)
    ensures forall x | x in Attempt(r) :: !IsHandshake(x)
  {
    hide Encode;
  }

  lemma AnswerKeepsOrder(s: Session, b: Broker, r: Reply)
    requires HandshakeSent(s.sent) == Due(s.parser) && !IsHandshake(r)
    ensures HandshakeSent(Answer(s, b, r).s.sent) == Due(s.parser)
    ensures Answer(s, b, r).s == s.(sent := Answer(s, b, r).s.sent)
  {
    hide Encode, Due;
    AttemptIsNoHandshake(r);
    HandshakeMore(s.sent, [r]);
    HandshakeMore(s.sent, Attempt(r));
  }

  // The three handshake replies can always be written, and add themselves.
  lemma HandshakeAnswer(s: Session, b: Broker, r: Reply)
    requires IsHandshake(r)
    ensures Answer(s, b, r).Next? && Answer(s, b, r).b == b
    ensures Answer(s, b, r).s == s.(sent := s.sent + [r])
    ensures HandshakeSent(s.sent + [r]) == HandshakeSent(s.sent) + [r]
  {
    hide Encode, HandshakeSent;
    ConnectionRepliesWritten(r);
    HandshakeOneMore(s.sent, r);
  }

  lemma ChannelCallKeepsOrder(s: Session, b: Broker, n: nat, call: Method)
    requires HandshakeSent(s.sent) == Due(s.parser)
    ensures HandshakeSent(OpenedChannelCall(s, b, n, call).s.sent) == Due(s.parser)
  {
    hide Apply, HandshakeSent, Due, Answer;
    AnswerKeepsOrder(s, b, BasicQosOk(n));
    match call
    case ExchangeDeclare(e, k) =>
      var b' := Apply(b, Op.DeclareExchange(e, k), {});
      AnswerKeepsOrder(s, b', ExchangeDeclareOk(n));
      AnswerKeepsOrder(Shut(s), b', ExchangeDeclareOk(n));
    case QueueDeclare(q) => AnswerKeepsOrder(s, Apply(b, Op.DeclareQueue(q), {}), QueueDeclareOk(n, q, 0, 0));
    case QueueBind(q, e, _) => AnswerKeepsOrder(s, Apply(b, Op.BindQueue(q, e), {}), QueueBindOk(n));
    case BasicConsume(q, tag) =>
      AnswerKeepsOrder(s, Apply(b, Op.RegisterConsumer(s.me, tag, q, n), {}), BasicConsumeOk(n, tag));
    case BasicCancel(tag) => AnswerKeepsOrder(s, b, BasicCancelOk(n, tag));
    case _ =>
  }

  lemma ChannelKeepsOrder(s0: Session, b: Broker, n: nat, f: Frame)
    requires HandshakeSent(s0.sent) == Due(s0.parser) && !f.HeartBeat?
    ensures HandshakeSent(ChannelFrame(s0, b, n, f).s.sent) == Due(s0.parser)
  {
    hide Apply, HandshakeSent, Due, Answer, OpenedChannelCall;
    var s := UpsertChannel(s0, n);
    AnswerKeepsOrder(s, b, ChannelOpenOk(n));
    AnswerKeepsOrder(s.(channels := s.channels - {n}), b, ChannelCloseOk(n));
    if f.MethodFrame? {
      ChannelCallKeepsOrder(s, b, n, f.call);
    }
  }

  lemma StartOkKeepsOrder(s: Session, b: Broker, f: Frame)
    requires InOrder(s) && s.parser.WaitingStartOk?
    ensures InOrder(StartOkFrame(s, b, f).s)
  {
    hide Apply, HandshakeSent, Answer, OfferedCredentials, Passed;
    var c := OfferedCredentials(f);
    if c.Offered? {
      var fact := Checked(c.user, c.password, CredentialsAccepted(b, c.user, c.password));
      PassedOneMore(s.trail, fact, 1);
      HandshakeAnswer(s.(trail := s.trail + [fact]), Apply(b, CheckCredentials(c.user, c.password), {}),
        ConnectionTune);
    }
  }

  lemma ConnectionKeepsOrder(s: Session, b: Broker, f: Frame)
    requires InOrder(s) && !f.HeartBeat?
    ensures InOrder(ConnectionFrame(s, b, f).s)
  {
    hide Apply, HandshakeSent, Answer, StartOkFrame, Passed;
    AnswerKeepsOrder(s, b, ConnectionCloseOk);
    if s.parser.WaitingStartOk? {
      StartOkKeepsOrder(s, b, f);
    } else if s.parser.WaitingTuneOk? {
      PassedOneMore(s.trail, ExpectedTuneOk(f), 2);
    } else if s.parser.WaitingOpen? {
      PassedOneMore(s.trail, ExpectedOpen(f), 3);
      HandshakeAnswer(s.(trail := s.trail + [ExpectedOpen(f)]), b, ConnectionOpenOk);
    }
  }

  lemma FrameKeepsOrder(s: Session, b: Broker, f: Frame)
    requires InOrder(s)
    ensures InOrder(HandleFrame(s, b, f).s)
  {
    hide HandshakeSent, Answer, ChannelFrame, ConnectionFrame, Passed, Due;
    AnswerKeepsOrder(s, b, Heartbeat);
    if !f.HeartBeat? {
      ChannelKeepsOrder(s, b, f.channel, f);
      ChannelFrameKeepsParser(s, b, f.channel, f);
      ConnectionKeepsOrder(s, b, f);
    }
  }

  lemma {:induction false} DrainKeepsOrder(buffer: bytes, s: Session, b: Broker)
    requires InOrder(s)
    ensures InOrder(Drain(buffer, s, b).s)
    decreases |buffer|
  {
    hide HandleFrame, InOrder;
    if buffer != [] && ReadFrame(buffer).Found? {
      var f := ReadFrame(buffer).frame;
      FrameKeepsOrder(s, b, f);
      var step := HandleFrame(s, b, f);
      if step.Next? {
        DrainKeepsOrder(buffer[f.size..], step.s, step.b);
      }
    }
  }

  lemma HeaderKeepsOrder(buffer: bytes, s: Session, b: Broker)
    requires InOrder(s) && s.parser.WaitingProtocolHeader?
    ensures InOrder(ProtocolHeader(buffer, s, b).s)
  {
    hide HandshakeSent, Answer, Passed;
    assert Passed(s.trail, |s.trail|, 0);
    PassedOneMore(s.trail, SawHeader(buffer), 0);
    HandshakeAnswer(s.(trail := s.trail + [SawHeader(buffer)]), b, ConnectionStart);
  }

  // ---- every run of a connection ----

  // Bytes arrive while the broker is in some state, or a message is pushed to a consumer.
  datatype Input =
    | Data(data: bytes, broker: Broker)
    | Delivered(channel: nat, consumerTag: Name, deliveryTag: nat, exchange: Name, message: Message)

  function After(me: Transport, inputs: seq<Input>): (bytes, Session) {
    if inputs == [] then ([], Fresh(me))
    else
      var (buffer, s) := After(me, inputs[..|inputs| - 1]);
      match inputs[|inputs| - 1]
      case Data(data, b) =>
        var o := DataReceived(buffer, s, b, data);
        (o.buffer, o.s)
      case Delivered(channel, tag, delivery, exchange, m) =>
        var push := PushMessage(channel, tag, delivery, exchange, m.headers, m.body);
        (buffer, s.(sent := s.sent + push.replies))
  }

  lemma PushIsNoHandshake(channel: nat, tag: Name, delivery: nat, exchange: Name, headers: PropertyMap, body: bytes)
    ensures forall r | r in PushMessage(channel, tag, delivery, exchange, headers, body).replies :: !IsHandshake(r)
  {
    hide Encode, Attempt;
    AttemptIsNoHandshake(ContentHeader(channel, headers, |body|));
    AttemptIsNoHandshake(ContentBody(channel, body));
  }

  lemma {:induction false} HandshakeInOrder(me: Transport, inputs: seq<Input>)
    ensures InOrder(After(me, inputs).1)
  {
    hide InOrder, DataReceived, PushMessage;
    if inputs == [] {
      FreshInOrder(me);
    } else {
      var earlier := inputs[..|inputs| - 1];
      HandshakeInOrder(me, earlier);
      var (buffer, s) := After(me, earlier);
      match inputs[|inputs| - 1]
      case Data(data, b) => DataKeepsOrder(buffer, s, b, data);
      case Delivered(channel, tag, delivery, exchange, m) =>
        PushIsNoHandshake(channel, tag, delivery, exchange, m.headers, m.body);
        PushKeepsOrder(s, PushMessage(channel, tag, delivery, exchange, m.headers, m.body).replies);
    }
  }

  lemma FreshInOrder(me: Transport)
    ensures InOrder(Fresh(me))
  {
  }

  lemma DataKeepsOrder(buffer: bytes, s: Session, b: Broker, data: bytes)
    requires InOrder(s)
    ensures InOrder(DataReceived(buffer, s, b, data).s)
  {
    hide InOrder, ProtocolHeader, Drain;
    if s.parser.WaitingProtocolHeader? {
      HeaderKeepsOrder(buffer + data, s, b);
    } else {
      DrainKeepsOrder(buffer + data, s, b);
    }
  }

  lemma PushKeepsOrder(s: Session, replies: seq<Reply>)
    requires InOrder(s) && forall r | r in replies :: !IsHandshake(r)
    ensures InOrder(s.(sent := s.sent + replies))
  {
    hide HandshakeSent, Passed, Due;
    HandshakeMore(s.sent, replies);
  }

  ghost predicate Milestones(trail: seq<Fact>, h: nat, c: nat, t: nat, o: nat) {
    && h < c < t < o < |trail|
    && trail[h] == SawHeader(PROTOCOL_HEADER)
    && trail[c].Checked? && trail[c].accepted
    && trail[t].ExpectedTuneOk? && trail[t].frame.MethodFrame? && trail[t].frame.call.TuneOk?
    && trail[o].ExpectedOpen? && trail[o].frame.MethodFrame? && trail[o].frame.call.Open?
  }

  lemma LastMilestone(trail: seq<Fact>, n: nat, k: nat) returns (i: nat)
    requires k > 0 && n <= |trail| && Passed(trail, n, k)
    ensures i < n && Milestone(k, trail[i]) && Passed(trail, i, k - 1)
  {
    i :| 0 <= i < n && Milestone(k, trail[i]) && Passed(trail, i, k - 1);
  }

  // An opened connection has shown the exact protocol header, then credentials that check_credentials
  // accepted, then tune-ok, then open.
  lemma OpenedMeansAuthenticated(me: Transport, inputs: seq<Input>)
    requires After(me, inputs).1.parser.Opened?
    ensures exists h, c, t, o :: Milestones(After(me, inputs).1.trail, h, c, t, o)
  {
    hide After, Passed;
    HandshakeInOrder(me, inputs);
    var trail := After(me, inputs).1.trail;
    var o := LastMilestone(trail, |trail|, 4);
    var t := LastMilestone(trail, o, 3);
    var c := LastMilestone(trail, t, 2);
    var h := LastMilestone(trail, c, 1);
    assert Milestones(trail, h, c, t, o);
  }

  // Over every run connection start, tune and open-ok are each sent at most once, in that order.
  lemma HandshakeRepliesOnce(me: Transport, inputs: seq<Input>)
    ensures HandshakeSent(After(me, inputs).1.sent) == Due(After(me, inputs).1.parser)
    ensures HandshakeSent(After(me, inputs).1.sent) <= [ConnectionStart, ConnectionTune, ConnectionOpenOk]
  {
    hide After, HandshakeSent;
    HandshakeInOrder(me, inputs);
  }
}
