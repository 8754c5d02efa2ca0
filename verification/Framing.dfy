// What a connection has written at any time: whole frames, unless a push broke off.
module Framing {
  import opened Wrappers
  import opened Bytes
  import opened Values
  import opened Properties
  import opened Methods
  import opened Frames
  import opened Replies
  import opened Senders
  import opened Pushes
  import opened Broker
  import opened Session
  import opened Handshake

  ghost predicate AllWhole(sent: seq<Reply>) {
    forall r | r in sent :: Whole(r)
  }

  predicate IsMethodReply(r: Reply) {
    !r.ContentHeader? && !r.ContentBody? && !r.Broken?
  }

  // A reply of the connection is written whole or not at all.
  lemma AnswerKeepsWhole(s: Session, b: Broker, r: Reply)
    requires IsMethodReply(r)
    ensures AllWhole(Answer(s, b, r).s.sent) <==> AllWhole(s.sent)
  {
    hide Encode;
    var more := Attempt(r);
    assert AllWhole(more);
    assert forall x | x in s.sent :: x in s.sent + more;
    assert more == [] ==> s.sent + more == s.sent;
  }

  lemma OpenedCallKeepsWhole(s: Session, b: Broker, n: nat, call: Method)
    ensures AllWhole(OpenedChannelCall(s, b, n, call).s.sent) <==> AllWhole(s.sent)
  {
    hide Apply, Answer, AllWhole;
    AnswerKeepsWhole(s, b, BasicQosOk(n));
    match call
    case ExchangeDeclare(e, k) =>
      var b' := Apply(b, Op.DeclareExchange(e, k), {});
      AnswerKeepsWhole(s, b', ExchangeDeclareOk(n));
      AnswerKeepsWhole(Shut(s), b', ExchangeDeclareOk(n));
    case QueueDeclare(q) => AnswerKeepsWhole(s, Apply(b, Op.DeclareQueue(q), {}), QueueDeclareOk(n, q, 0, 0));
    case QueueBind(q, e, _) => AnswerKeepsWhole(s, Apply(b, Op.BindQueue(q, e), {}), QueueBindOk(n));
    case BasicConsume(q, tag) =>
      AnswerKeepsWhole(s, Apply(b, Op.RegisterConsumer(s.me, tag, q, n), {}), BasicConsumeOk(n, tag));
    case BasicCancel(tag) => AnswerKeepsWhole(s, b, BasicCancelOk(n, tag));
    case _ =>
  }

  lemma ChannelKeepsWhole(s0: Session, b: Broker, n: nat, f: Frame)
    requires !f.HeartBeat?
    ensures AllWhole(ChannelFrame(s0, b, n, f).s.sent) <==> AllWhole(s0.sent)
  {
    hide Apply, Answer, OpenedChannelCall, AllWhole;
    var s := UpsertChannel(s0, n);
    AnswerKeepsWhole(s, b, ChannelOpenOk(n));
    AnswerKeepsWhole(s.(channels := s.channels - {n}), b, ChannelCloseOk(n));
    if f.MethodFrame? {
      OpenedCallKeepsWhole(s, b, n, f.call);
    }
  }

  lemma ConnectionKeepsWhole(s: Session, b: Broker, f: Frame)
    requires !f.HeartBeat?
    ensures AllWhole(ConnectionFrame(s, b, f).s.sent) <==> AllWhole(s.sent)
  {
    hide Apply, Answer, OfferedCredentials, AllWhole, CredentialsAccepted;
    AnswerKeepsWhole(s, b, ConnectionCloseOk);
    AnswerKeepsWhole(s.(trail := s.trail + [ExpectedOpen(f)]), b, ConnectionOpenOk);
    var c := OfferedCredentials(f);
    if c.Offered? {
      var fact := Checked(c.user, c.password, CredentialsAccepted(b, c.user, c.password));
      var b' := Apply(b, Op.CheckCredentials(c.user, c.password), {});
      AnswerKeepsWhole(s.(trail := s.trail + [fact]), b', ConnectionTune);
    }
  }

  lemma FrameKeepsWhole(s: Session, b: Broker, f: Frame)
    ensures AllWhole(HandleFrame(s, b, f).s.sent) <==> AllWhole(s.sent)
  {
    hide Answer, ChannelFrame, ConnectionFrame, AllWhole;
    AnswerKeepsWhole(s, b, Heartbeat);
    if !f.HeartBeat? {
      ChannelKeepsWhole(s, b, f.channel, f);
      ConnectionKeepsWhole(s, b, f);
    }
  }

  lemma {:induction false} DrainKeepsWhole(buffer: bytes, s: Session, b: Broker)
    ensures AllWhole(Drain(buffer, s, b).s.sent) <==> AllWhole(s.sent)
    decreases |buffer|
  {
    hide HandleFrame, ReadFrame, AllWhole;
    if buffer != [] && ReadFrame(buffer).Found? {
      var f := ReadFrame(buffer).frame;
      FrameKeepsWhole(s, b, f);
      var step := HandleFrame(s, b, f);
      if step.Next? {
        DrainKeepsWhole(buffer[f.size..], step.s, step.b);
      }
    }
  }

  lemma DataKeepsWhole(buffer: bytes, s: Session, b: Broker, data: bytes)
    ensures AllWhole(DataReceived(buffer, s, b, data).s.sent) <==> AllWhole(s.sent)
  {
    hide Drain, Answer, AllWhole;
    var all := buffer + data;
    if s.parser.WaitingProtocolHeader? {
      AnswerKeepsWhole(s.(trail := s.trail + [SawHeader(all)]), b, ConnectionStart);
    } else {
      DrainKeepsWhole(all, s, b);
    }
  }

  // ---- pushes ----

  // A push leaves whole frames when it can be written, and also when already its deliver cannot.
  lemma PushIsWholeExactly(channel: nat, consumerTag: bytes, deliveryTag: nat, exchange: bytes, m: Message)
    ensures AllWhole(PushMessage(channel, consumerTag, deliveryTag, exchange, m.headers, m.body).replies) <==>
      || Pushable(channel, consumerTag, deliveryTag, exchange, m.headers, m.body)
      || !Deliverable(channel, consumerTag, deliveryTag, exchange)
  {
    hide Encode, AllFit, WidthFrom, Deliverable;
    var replies := PushMessage(channel, consumerTag, deliveryTag, exchange, m.headers, m.body).replies;
    DeliverWritten(channel, consumerTag, deliveryTag, exchange);
    HeaderWritten(channel, m.headers, |m.body|);
    BodyWritten(channel, m.body);
    DeliverableFits(channel, consumerTag, deliveryTag, exchange);
    if Deliverable(channel, consumerTag, deliveryTag, exchange) &&
       !Pushable(channel, consumerTag, deliveryTag, exchange, m.headers, m.body) {
      assert replies[|replies| - 1].Broken? && replies[|replies| - 1] in replies;
    }
  }

  lemma DeliverableFits(channel: nat, consumerTag: bytes, deliveryTag: nat, exchange: bytes)
    ensures Deliverable(channel, consumerTag, deliveryTag, exchange) ==> channel < 256
  {
  }

  // Bytes that arrive, and pushes that do not break off.
  ghost predicate Clean(i: Input) {
    i.Delivered? ==>
      || Pushable(i.channel, i.consumerTag, i.deliveryTag, i.exchange, i.message.headers, i.message.body)
      || !Deliverable(i.channel, i.consumerTag, i.deliveryTag, i.exchange)
  }

  // Over every run a connection has written nothing but whole frames exactly when no push broke off.
  lemma {:induction false} WholeExactlyWhenClean(me: Transport, inputs: seq<Input>)
    ensures AllWhole(After(me, inputs).1.sent) <==> forall i | i in inputs :: Clean(i)
  {
    hide DataReceived, PushMessage, Pushable, AllWhole;
    if inputs == [] {
      NothingIsWhole();
    } else {
      var earlier, last := inputs[..|inputs| - 1], inputs[|inputs| - 1];
      WholeExactlyWhenClean(me, earlier);
      var (buffer, s) := After(me, earlier);
      assert inputs == earlier + [last];
      assert (forall i | i in inputs :: Clean(i)) <==> (forall i | i in earlier :: Clean(i)) && Clean(last);
      match last
      case Data(data, b) => DataKeepsWhole(buffer, s, b, data);
      case Delivered(channel, tag, delivery, exchange, m) =>
        PushIsWholeExactly(channel, tag, delivery, exchange, m);
        WholeAdds(s.sent, PushMessage(channel, tag, delivery, exchange, m.headers, m.body).replies);
    }
  }

  lemma NothingIsWhole()
    ensures AllWhole([])
  {
  }

  lemma WholeAdds(sent: seq<Reply>, more: seq<Reply>)
    ensures AllWhole(sent + more) <==> AllWhole(sent) && AllWhole(more)
  {
    assert forall r | r in sent :: r in sent + more;
    assert forall r | r in more :: r in sent + more;
  }

  // The stream then is cut into one frame per reply, in order, and nothing is left over.
  lemma CleanRunIsFramed(me: Transport, inputs: seq<Input>)
    requires forall i | i in inputs :: Clean(i)
    ensures var sent := After(me, inputs).1.sent;
      var frames := Split(Wire(sent));
      && frames.Some? && |frames.value| == |sent|
      && forall i :: 0 <= i < |sent| ==>
           var e := frames.value[i];
           && e.Envelope? && e.kind == Kind(sent[i]) && e.channel == ChannelOf(sent[i])
           && e.size == |Written(sent[i])| && Payload(sent[i]) == Ok(e.payload)
  {
    hide After, Clean, Wire, Split, Whole, Kind, ChannelOf, Payload, Written;
    WholeExactlyWhenClean(me, inputs);
    OutgoingStreamWellFramed(After(me, inputs).1.sent);
  }

  // ---- an unfinished frame ----

  // Behind whole frames it leaves a stream that is no sequence of frames.
  lemma {:induction false} UnfinishedFrameBreaksStream(sent: seq<Reply>, kind: byte, channel: byte)
    requires AllWhole(sent)
    ensures Split(Wire(sent + [Broken(kind, channel)])).None?
  {
    hide Written, Cut, Whole;
    var last := Broken(kind, channel);
    if sent == [] {
      BrokenOctets(kind, channel);
      assert [last][1..] == [] && [] + [last] == [last];
    } else {
      var w, rest := Written(sent[0]), Wire(sent[1..] + [last]);
      assert (sent + [last])[1..] == sent[1..] + [last] && sent[0] in sent;
      UnfinishedFrameBreaksStream(sent[1..], kind, channel);
      WrittenIsOneFrame(sent[0], rest);
      assert (w + rest)[|w|..] == rest && w + rest != [];
    }
  }

  lemma BrokenOctets(kind: byte, channel: byte)
    ensures Written(Broken(kind, channel)) + [] == [kind, 0, channel] && Cut([kind, 0, channel]).Incomplete?
  {
    assert [kind, 0, channel] + [] == [kind, 0, channel];
  }

  // A message whose priority is 300: the deliver goes out, and three octets of the header.
  lemma PriorityTooLarge(deliveryTag: nat)
    requires deliveryTag < 0x1_0000_0000_0000_0000
    ensures var p := PushMessage(1, [], deliveryTag, DUMMY_EXCHANGE, map[Priority := Int(300)], []);
      && p.error.Some? && |p.replies| == 2 && p.replies[1] == Broken(HEADER_FRAME, 1)
      && Split(Wire(p.replies)).None?
  {
    hide Encode, Wire, Split, WidthFrom;
    var headers := map[Priority := Int(300)];
    var deliver := BasicDeliver(1, [], deliveryTag, false, DUMMY_EXCHANGE, []);
    assert |DUMMY_EXCHANGE| == 14;
    DeliverWritten(1, [], deliveryTag, DUMMY_EXCHANGE);
    assert Properties.Name(4) in headers && !Fitting(Letter(4), headers[Properties.Name(4)]);
    HeaderWritten(1, headers, 0);
    assert AllWhole([deliver]);
    UnfinishedFrameBreaksStream([deliver], HEADER_FRAME, 1);
    assert [deliver] + [Broken(HEADER_FRAME, 1)] == [deliver, Broken(HEADER_FRAME, 1)];
  }
}
