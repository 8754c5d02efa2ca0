// The protocol object of one connection, changed in place by data_received; proved to do what
// Session says.
module Tracker {
  import opened Wrappers
  import opened Bytes
  import opened Methods
  import opened Frames
  import opened Replies
  import opened Senders
  import opened Broker
  import opened BrokerState
  import opened Spec = Session
  import Channels
  import Messages

  datatype ChannelState = WAITING_OPEN | OPENED | WAITING_HEADER | WAITING_BODY

  // The dict of a channel: the exchange and routing key are there from the first publish on, the
  // message while it is being received.
  datatype Slot = Slot(
    state: ChannelState,
    exchange: Option<Name>,
    routingKey: Option<Name>,
    onGoingMessage: Option<Messages.Message>)

  // How a call ends: the loop goes on, data_received returns, or an exception leaves it.
  datatype Flow = Continue | Stop | Fail(error: Error)

  ghost predicate Agrees(flow: Flow, s: Session, b: Broker, step: Step) {
    match step
    case Next(s', b') => flow == Continue && s == s' && b == b'
    case Return(s', b') => flow == Stop && s == s' && b == b'
    case Raise(s', b', e) => flow == Fail(e) && s == s' && b == b'
  }

  predicate Shaped(slot: Slot) {
    && (slot.state.WAITING_HEADER? || slot.state.WAITING_BODY? ==> slot.exchange.Some? && slot.routingKey.Some?)
    && (slot.onGoingMessage.Some? <==> slot.state.WAITING_BODY?)
  }

  ghost function SlotView(slot: Slot): Channel
    requires Shaped(slot)
    reads if slot.onGoingMessage.Some? then {slot.onGoingMessage.value} else {}
  {
    match slot.state
    case WAITING_OPEN => ChannelWaitingOpen
    case OPENED => ChannelOpened
    case WAITING_HEADER => WaitingHeader(slot.exchange.value, slot.routingKey.value)
    case WAITING_BODY =>
      var m := slot.onGoingMessage.value;
      WaitingBody(slot.exchange.value, slot.routingKey.value, m.headers, m.bodySize, m.content)
  }

  class TrackerProtocol {
    const transport: Transport
    const globalState: State
    var buffer: bytes
    var parserState: ParserState
    var channels: map<nat, Slot>
    ghost var trail: seq<Fact>

    // The messages being received.
    ghost function Pending(): set<Messages.Message>
      reads this`channels
    {
      set n | n in channels && channels[n].onGoingMessage.Some? :: channels[n].onGoingMessage.value
    }

    // Every channel is shaped as its state demands and has a message of its own.
    ghost predicate ChannelsOk()
      reads this`channels
    {
      && (forall n :: n in channels ==> Shaped(channels[n]))
      && (forall n, k :: n in channels && k in channels && n != k && channels[n].onGoingMessage.Some? ==>
            channels[n].onGoingMessage != channels[k].onGoingMessage)
    }

    ghost function ChannelsView(): map<nat, Channel>
      requires ChannelsOk()
      reads this`channels, Pending()
    {
      map n | n in channels :: SlotView(channels[n])
    }

    ghost predicate Valid()
      reads this, transport, globalState, globalState.Protocols()
    {
      transport.Valid() && globalState.Valid() && ChannelsOk()
    }

    ghost function View(): Session
      requires ChannelsOk()
      reads this, transport, Pending()
    {
      Session(transport, parserState, ChannelsView(), transport.sent, transport.closing, trail)
    }

    constructor (transport: Transport, globalState: State)
      requires transport.Valid() && transport.sent == [] && !transport.closing && globalState.Valid()
      ensures Valid() && View() == Fresh(transport) && buffer == [] && this.globalState == globalState
    {
      this.transport, this.globalState := transport, globalState;
      buffer, parserState, channels, trail := [], WaitingProtocolHeader, map[], [];
    }

    // ---- sending and closing ----

    method Reply(r: Reply) returns (flow: Flow)
      requires Valid() && !r.ContentHeader? && !r.ContentBody? && !r.Broken?
      modifies transport`log, transport`sent
      ensures Valid() && Agrees(flow, View(), globalState.View(), Answer(old(View()), old(globalState.View()), r))
      ensures !flow.Stop?
    {
      hide Encode, Attempt, RunTo, Consistent, Wire;
      NeverBroken(r);
      var outcome := Send(transport, r);
      flow := if outcome.Ok? then Continue else Fail(outcome.error);
    }

    // Puts a new dict in the place of the channel's.
    method SetSlot(n: nat, slot: Slot)
      requires ChannelsOk() && Shaped(slot)
      requires slot.onGoingMessage.Some? ==>
        slot.onGoingMessage.value !in Pending() || (n in channels && channels[n].onGoingMessage == slot.onGoingMessage)
      modifies this`channels
      ensures ChannelsOk() && channels == old(channels)[n := slot]
      ensures ChannelsView() == old(ChannelsView())[n := SlotView(slot)]
      ensures Pending() <= old(Pending()) + (if slot.onGoingMessage.Some? then {slot.onGoingMessage.value} else {})
    {
      channels := channels[n := slot];
    }

    method UpsertChannel(n: nat)
      requires ChannelsOk()
      modifies this`channels
      ensures ChannelsOk() && n in channels && Pending() <= old(Pending())
      ensures View() == Spec.UpsertChannel(old(View()), n)
    {
      if n !in channels {
        SetSlot(n, Slot(WAITING_OPEN, None, None, None));
      }
    }

    // ---- frames of a channel ----

    method StartPublish(n: nat, exchange: Name, key: Name)
      requires Valid() && n in channels && channels[n].state.OPENED?
      modifies this`channels
      ensures Valid() && Pending() <= old(Pending())
      ensures View() == SetChannel(old(View()), n, WaitingHeader(exchange, key))
    {
      SetSlot(n, channels[n].(state := WAITING_HEADER, exchange := Some(exchange), routingKey := Some(key)));
    }

    method TreatExchangeDeclare(n: nat, exchange: Name, kind: Name) returns (flow: Flow)
      requires Valid()
      modifies transport, globalState
      ensures Valid()
      ensures var s, b := old(View()), Apply(old(globalState.View()), Op.DeclareExchange(exchange, kind), {});
        Agrees(flow, View(), globalState.View(),
          Answer(if exchange in b.exchanges && b.exchanges[exchange].kind == kind then s else Shut(s),
                 b, ExchangeDeclareOk(n)))
    {
      hide RunTo, Consistent, Wire, Answer, Apply;
      var ok := globalState.DeclareExchange(exchange, kind);
      if !ok {
        transport.Close();
      }
      assert View() == if ok then old(View()) else Shut(old(View()));
      flow := Reply(ExchangeDeclareOk(n));
    }

    method TreatQueueDeclare(n: nat, queue: Name) returns (flow: Flow)
      requires Valid()
      modifies transport, globalState
      ensures Valid()
      ensures Agrees(flow, View(), globalState.View(),
        Answer(old(View()), Apply(old(globalState.View()), Op.DeclareQueue(queue), {}), QueueDeclareOk(n, queue, 0, 0)))
    {
      hide RunTo, Consistent, Wire, Answer, Apply;
      // declare_queue always succeeds
      var _, messageCount, consumerCount := globalState.DeclareQueue(queue);
      assert View() == old(View());
      flow := Reply(QueueDeclareOk(n, queue, messageCount, consumerCount));
    }

    method TreatQueueBind(n: nat, queue: Name, exchange: Name) returns (flow: Flow)
      requires Valid()
      modifies transport, globalState
      ensures Valid()
      ensures var s, b := old(View()), old(globalState.View());
        var b' := Apply(b, Op.BindQueue(queue, exchange), {});
        Agrees(flow, View(), globalState.View(),
          if CanBind(b, queue, exchange) then Answer(s, b', QueueBindOk(n)) else Next(Shut(s), b'))
    {
      hide RunTo, Consistent, Wire, Answer, Apply;
      flow := Continue;
      var ok := globalState.BindQueue(queue, exchange);
      assert View() == old(View());
      if !ok {
        transport.Close();
      } else {
        flow := Reply(QueueBindOk(n));
      }
    }

    method TreatConsume(n: nat, queue: Name, tag: Name) returns (flow: Flow)
      requires Valid()
      modifies transport, globalState
      ensures Valid()
      ensures Agrees(flow, View(), globalState.View(),
        Answer(old(View()), Apply(old(globalState.View()), Op.RegisterConsumer(transport, tag, queue, n), {}),
               BasicConsumeOk(n, tag)))
    {
      hide RunTo, Consistent, Wire, Answer, Apply;
      var _ := globalState.RegisterConsumer(transport, tag, queue, n);
      assert View() == old(View());
      flow := Reply(BasicConsumeOk(n, tag));
    }

    // The branches for an opened channel.
    method TreatOpened(n: nat, call: Method) returns (flow: Flow)
      requires Valid() && n in channels && channels[n].state.OPENED?
      modifies this`channels, transport, globalState
      ensures Valid() && Pending() <= old(Pending())
      ensures Agrees(flow, View(), globalState.View(), OpenedChannelCall(old(View()), old(globalState.View()), n, call))
    {
      hide RunTo, Consistent, Wire, Answer, Apply, Shaped, SlotView, ChannelsOk;
      flow := Continue;
      match call
      case ExchangeDeclare(exchange, kind) => flow := TreatExchangeDeclare(n, exchange, kind);
      case QueueDeclare(queue) => flow := TreatQueueDeclare(n, queue);
      case QueueBind(queue, exchange, _) => flow := TreatQueueBind(n, queue, exchange);
      case BasicQos(_, _, _) => flow := Reply(BasicQosOk(n));
      case BasicPublish(exchange, key, _, _) => StartPublish(n, exchange, key);
      case BasicConsume(queue, tag) => flow := TreatConsume(n, queue, tag);
      case BasicAck(tag, _) => globalState.MessageAck(tag);
      case BasicNack(tag, _, requeue) => globalState.MessageNack(tag, requeue);
      case BasicCancel(tag) => flow := Reply(BasicCancelOk(n, tag));
      case _ =>
    }

    method AddContent(n: nat, content: bytes)
      requires Valid() && n in channels && channels[n].state.WAITING_BODY?
      modifies Pending()
      ensures Valid()
      ensures var c := old(View()).channels[n];
        c.WaitingBody? && View() == SetChannel(old(View()), n, c.(content := c.content + content))
    {
      hide RunTo, Consistent, Wire;
      channels[n].onGoingMessage.value.AddContent(content);
      assert ChannelsView() == old(ChannelsView())[n := SlotView(channels[n])];
    }

    // The message of the channel has all its bytes.
    method StoreCompleted(n: nat)
      requires Valid() && n in channels && channels[n].state.WAITING_BODY?
      modifies this`channels, transport`closing, globalState
      ensures Valid() && Pending() <= old(Pending())
      ensures var s, b := old(View()), old(globalState.View());
        var c := s.channels[n];
        && c.WaitingBody?
        && globalState.View() == Apply(b, Op.StoreMessage(c.exchange, Message(c.headers, c.content)), {})
        && View() == if c.exchange !in b.exchanges then Shut(s) else SetChannel(s, n, ChannelOpened)
    {
      hide RunTo, Consistent, Wire, Apply;
      var slot := channels[n];
      var message := slot.onGoingMessage.value;
      var ok := globalState.StoreMessage(slot.exchange.value, message.headers, message.content);
      if !ok {
        transport.Close();
        return;
      }
      SetSlot(n, slot.(state := OPENED, onGoingMessage := None));
    }

    // A body frame on a channel that waits for one.
    method TreatBody(n: nat, content: bytes) returns (flow: Flow)
      requires Valid() && n in channels && channels[n].state.WAITING_BODY?
      modifies this`channels, transport`closing, globalState, Pending()
      ensures Valid() && Pending() <= old(Pending())
      ensures Agrees(flow, View(), globalState.View(),
        BodyArrives(old(View()), old(globalState.View()), n, old(View()).channels[n], content))
    {
      hide RunTo, Consistent, Wire, Apply;
      flow := Continue;
      AddContent(n, content);
      ghost var s := View();
      assert s.channels[n] == SlotView(channels[n]);
      if channels[n].onGoingMessage.value.IsComplete() {
        StoreCompleted(n);
        assert s.channels[n := ChannelOpened] == old(View()).channels[n := ChannelOpened];
      }
    }

    method OpenChannel(n: nat) returns (flow: Flow)
      requires Valid() && n in channels && channels[n].state.WAITING_OPEN?
      modifies this`channels, transport
      ensures Valid() && Pending() <= old(Pending())
      ensures Agrees(flow, View(), globalState.View(),
        match Answer(old(View()), old(globalState.View()), ChannelOpenOk(n))
        case Next(s', b') => Next(SetChannel(s', n, ChannelOpened), b')
        case step => step)
    {
      hide Encode, RunTo, Consistent, Wire, Answer;
      flow := Reply(ChannelOpenOk(n));
      if flow.Continue? {
        AnswerKeepsChannels(old(View()), old(globalState.View()), ChannelOpenOk(n));
        SetSlot(n, channels[n].(state := OPENED));
      }
    }

    method CloseChannel(n: nat) returns (flow: Flow)
      requires Valid() && n in channels
      modifies this`channels, transport
      ensures Valid() && Pending() <= old(Pending())
      ensures var s := old(View());
        Agrees(flow, View(), globalState.View(),
          match Answer(s.(channels := s.channels - {n}), old(globalState.View()), ChannelCloseOk(n))
          case Next(s', b') => Next(Shut(s'), b')
          case step => step)
    {
      hide Encode, RunTo, Consistent, Wire, Answer;
      channels := channels - {n};
      assert ChannelsView() == old(ChannelsView()) - {n};
      flow := Reply(ChannelCloseOk(n));
      if flow.Continue? {
        transport.Close();
      }
    }

    method TreatChannelFrame(f: Frame) returns (flow: Flow)
      requires Valid() && !f.HeartBeat? && f.channel in channels
      modifies this`channels, transport, globalState, Pending()
      ensures Valid() && fresh(Pending() - old(Pending()))
      ensures Agrees(flow, View(), globalState.View(),
        ChannelFrame(old(View()), old(globalState.View()), f.channel, f))
    {
      hide RunTo, Consistent, Wire, Answer, Apply, OpenedChannelCall, BodyArrives;
      flow := Continue;
      var n := f.channel;
      var slot := channels[n];
      if slot.state.WAITING_OPEN? {
        if !(f.MethodFrame? && f.call.ChannelOpen?) {
          transport.Close();
        } else {
          flow := OpenChannel(n);
        }
        return;
      }
      if f.MethodFrame? && f.call.ChannelClose? {
        flow := CloseChannel(n);
        return;
      }
      if slot.state.OPENED? && f.MethodFrame? {
        flow := TreatOpened(n, f.call);
      } else if slot.state.WAITING_HEADER? && f.HeaderFrame? {
        var message := new Messages.Message(f);
        SetSlot(n, slot.(state := WAITING_BODY, onGoingMessage := Some(message)));
      } else if slot.state.WAITING_BODY? && f.BodyFrame? {
        flow := TreatBody(n, f.content);
      }
    }

    // ---- channel 0 ----

    // Whether the credentials are accepted; or the exception that reading them raises.
    method CheckStartOk(f: Frame) returns (r: Result<bool>)
      requires Valid()
      modifies this`trail, globalState
      ensures Valid() && channels == old(channels)
      ensures match OfferedCredentials(f)
        case Unreadable(e) => r == Raised(e) && View() == old(View()) && globalState.View() == old(globalState.View())
        case Refused => r == Ok(false) && View() == old(View()) && globalState.View() == old(globalState.View())
        case Offered(user, password) =>
          var accepted := CredentialsAccepted(old(globalState.View()), user, password);
          && r == Ok(accepted)
          && View() == old(View()).(trail := old(trail) + [Checked(user, password, accepted)])
          && globalState.View() == Apply(old(globalState.View()), CheckCredentials(user, password), {})
    {
      hide RunTo, Consistent, Wire, Apply, OfferedCredentials, CredentialsAccepted;
      match OfferedCredentials(f)
      case Unreadable(e) =>
        r := Raised(e);
      case Refused =>
        r := Ok(false);
      case Offered(user, password) =>
        var accepted := globalState.CheckCredentials(user, password);
        trail := trail + [Checked(user, password, accepted)];
        r := Ok(accepted);
    }

    method SendTune() returns (flow: Flow)
      requires Valid() && parserState.WaitingStartOk?
      modifies this`parserState, transport
      ensures Valid()
      ensures Agrees(flow, View(), globalState.View(),
        match Answer(old(View()), old(globalState.View()), ConnectionTune)
        case Next(s', b') => Return(s'.(parser := WaitingTuneOk), b')
        case step => step)
    {
      hide RunTo, Consistent, Wire, Answer;
      flow := Reply(ConnectionTune);
      if flow.Continue? {
        parserState := WaitingTuneOk;
        flow := Stop;
      }
    }

    method TreatStartOk(f: Frame) returns (flow: Flow)
      requires Valid() && parserState.WaitingStartOk?
      modifies this`trail, this`parserState, transport, globalState
      ensures Valid() && channels == old(channels)
      ensures Agrees(flow, View(), globalState.View(), StartOkFrame(old(View()), old(globalState.View()), f))
    {
      hide RunTo, Consistent, Wire, Apply, Answer, OfferedCredentials, CredentialsAccepted;
      var ok := CheckStartOk(f);
      if ok.Raised? {
        return Fail(ok.error);
      }
      if !ok.value {
        transport.Close();
        return Stop;
      }
      flow := SendTune();
    }

    method TreatClose() returns (flow: Flow)
      requires Valid()
      modifies transport
      ensures Valid()
      ensures Agrees(flow, View(), globalState.View(),
        match Answer(old(View()), old(globalState.View()), ConnectionCloseOk)
        case Next(s', b') => Return(Shut(s'), b')
        case step => step)
    {
      hide RunTo, Consistent, Wire, Answer;
      flow := Reply(ConnectionCloseOk);
      if flow.Continue? {
        transport.Close();
        flow := Stop;
      }
    }

    method TreatTuneOk(f: Frame) returns (flow: Flow)
      requires Valid() && parserState.WaitingTuneOk?
      modifies this`trail, this`parserState, transport`closing
      ensures Valid()
      ensures var s' := old(View()).(trail := old(trail) + [ExpectedTuneOk(f)]);
        Agrees(flow, View(), globalState.View(),
          if f.MethodFrame? && f.call.TuneOk? then Next(s'.(parser := WaitingOpen), old(globalState.View()))
          else Return(Shut(s'), old(globalState.View())))
    {
      hide RunTo, Consistent, Wire;
      trail := trail + [ExpectedTuneOk(f)];
      if !(f.MethodFrame? && f.call.TuneOk?) {
        transport.Close();
        return Stop;
      }
      parserState := WaitingOpen;
      flow := Continue;
    }

    method SendOpenOk() returns (flow: Flow)
      requires Valid()
      modifies this`parserState, transport
      ensures Valid()
      ensures Agrees(flow, View(), globalState.View(),
        match Answer(old(View()), old(globalState.View()), ConnectionOpenOk)
        case Next(s', b') => Next(s'.(parser := Opened), b')
        case step => step)
    {
      hide RunTo, Consistent, Wire, Answer;
      flow := Reply(ConnectionOpenOk);
      if flow.Continue? {
        ghost var s := View();
        parserState := Opened;
        assert View() == s.(parser := Opened);
      }
    }

    method TreatOpen(f: Frame) returns (flow: Flow)
      requires Valid() && parserState.WaitingOpen?
      modifies this`trail, this`parserState, transport
      ensures Valid()
      ensures var s' := old(View()).(trail := old(trail) + [ExpectedOpen(f)]);
        var b := old(globalState.View());
        Agrees(flow, View(), globalState.View(),
          if f.MethodFrame? && f.call.Open? then
            match Answer(s', b, ConnectionOpenOk)
            case Next(s'', b') => Next(s''.(parser := Opened), b')
            case step => step
          else Return(Shut(s'), b))
    {
      hide RunTo, Consistent, Wire, Answer;
      trail := trail + [ExpectedOpen(f)];
      if !(f.MethodFrame? && f.call.Open?) {
        transport.Close();
        return Stop;
      }
      assert View() == old(View()).(trail := old(trail) + [ExpectedOpen(f)]);
      flow := SendOpenOk();
    }

    method TreatConnectionFrame(f: Frame) returns (flow: Flow)
      requires Valid() && !f.HeartBeat?
      modifies this`trail, this`parserState, transport, globalState
      ensures Valid() && channels == old(channels)
      ensures Agrees(flow, View(), globalState.View(), ConnectionFrame(old(View()), old(globalState.View()), f))
    {
      hide RunTo, Consistent, Wire, Apply, Answer, StartOkFrame;
      if f.MethodFrame? && f.call.Close? {
        flow := TreatClose();
      } else if parserState.WaitingStartOk? {
        flow := TreatStartOk(f);
      } else if parserState.WaitingTuneOk? {
        flow := TreatTuneOk(f);
      } else if parserState.WaitingOpen? {
        flow := TreatOpen(f);
      } else {
        flow := Continue;
      }
    }

    method TreatFrame(f: Frame) returns (flow: Flow)
      requires Valid()
      modifies this`trail, this`parserState, this`channels, transport, globalState, Pending()
      ensures Valid() && fresh(Pending() - old(Pending()))
      ensures Agrees(flow, View(), globalState.View(), HandleFrame(old(View()), old(globalState.View()), f))
    {
      hide RunTo, Consistent, Wire, Apply, Answer, ChannelFrame, ConnectionFrame;
      if f.HeartBeat? {
        flow := Reply(Heartbeat);
      } else if f.channel != 0 {
        UpsertChannel(f.channel);
        UpsertTwice(old(View()), f.channel, old(globalState.View()), f);
        flow := TreatChannelFrame(f);
      } else {
        flow := TreatConnectionFrame(f);
      }
    }

    // ---- data_received ----

    // How a call of data_received ended, its buffer included.
    ghost predicate Ended(raised: Option<Error>, o: Outcome)
      requires ChannelsOk()
      reads this, transport, Pending(), globalState
    {
      match o
      case Done(rest, s, b) => raised == None && buffer == rest && View() == s && globalState.View() == b
      case Left(rest, s, b) => raised == None && buffer == rest && View() == s && globalState.View() == b
      case Threw(rest, s, b, e) => raised == Some(e) && buffer == rest && View() == s && globalState.View() == b
    }

    // A buffer that is too short for the header is kept, and says nothing yet.
    method CheckProtocolHeader() returns (ok: bool)
      requires Valid()
      modifies this`buffer, this`trail, transport`closing
      ensures Valid() && ok == (old(buffer) == PROTOCOL_HEADER) && channels == old(channels)
      ensures |old(buffer)| < |PROTOCOL_HEADER| ==> buffer == old(buffer) && View() == old(View())
      ensures |old(buffer)| >= |PROTOCOL_HEADER| ==>
        && buffer == []
        && View() == old(View()).(trail := old(trail) + [SawHeader(old(buffer))],
             closing := !ok || old(transport.closing))
    {
      hide RunTo, Consistent, Wire;
      if |buffer| < |PROTOCOL_HEADER| {
        return false;
      }
      trail := trail + [SawHeader(buffer)];
      ok := buffer == PROTOCOL_HEADER;
      if !ok {
        transport.Close();
      }
      buffer := [];
    }

    method SendStart() returns (flow: Flow)
      requires Valid()
      modifies this`parserState, transport
      ensures Valid()
      ensures Agrees(flow, View(), globalState.View(),
        match Answer(old(View()), old(globalState.View()), ConnectionStart)
        case Next(s', b') => Next(s'.(parser := WaitingStartOk), b')
        case step => step)
      ensures !flow.Stop?
    {
      hide RunTo, Consistent, Wire, Answer;
      flow := Reply(ConnectionStart);
      if flow.Continue? {
        ghost var s := View();
        parserState := WaitingStartOk;
        assert View() == s.(parser := WaitingStartOk);
      }
    }

    method StartConnection() returns (raised: Option<Error>)
      requires Valid() && parserState.WaitingProtocolHeader?
      modifies this`buffer, this`trail, this`parserState, transport
      ensures Valid() && channels == old(channels)
      ensures Ended(raised, ProtocolHeader(old(buffer), old(View()), old(globalState.View())))
    {
      hide RunTo, Consistent, Wire, Answer;
      var ok := CheckProtocolHeader();
      if !ok {
        return None;
      }
      ghost var s := old(View()).(trail := old(trail) + [SawHeader(PROTOCOL_HEADER)]);
      assert View() == s;
      Channels.AnswerLeavesBroker(s, globalState.View(), ConnectionStart);
      var flow := SendStart();
      raised := if flow.Fail? then Some(flow.error) else None;
    }

    method DataReceived(data: bytes) returns (raised: Option<Error>)
      requires Valid()
      modifies this, transport, globalState, Pending()
      ensures Valid() && fresh(Pending() - old(Pending()))
      ensures Ended(raised, Spec.DataReceived(old(buffer), old(View()), old(globalState.View()), data))
    {
      hide RunTo, Consistent, Wire, HandleFrame, ReadFrame, ProtocolHeader, Drain, ChannelsOk, SlotView, Shaped;
      buffer := buffer + data;
      if parserState.WaitingProtocolHeader? {
        raised := StartConnection();
        return;
      }
      ghost var outcome := Drain(buffer, View(), globalState.View());
      while |buffer| > 0
        invariant Valid() && fresh(Pending() - old(Pending()))
        invariant Drain(buffer, View(), globalState.View()) == outcome
        decreases |buffer|
      {
        DrainTurn(buffer, View(), globalState.View());
        var frame := ReadFrame(buffer);
        match frame
        case NoFrame =>
          return None;
        case Bad(e) =>
          return Some(e);
        case Found(f) =>
          buffer := buffer[f.size..];
          var flow := TreatFrame(f);
          match flow
          case Continue =>
          case Stop => return None;
          case Fail(e) => return Some(e);
      }
      DrainNothing(View(), globalState.View());
      raised := None;
    }
  }

  lemma DrainNothing(s: Session, b: Broker)
    ensures Drain([], s, b) == Done([], s, b)
  {
  }

  // One turn of the loop.
  lemma DrainTurn(buffer: bytes, s: Session, b: Broker)
    requires buffer != []
    ensures ReadFrame(buffer).NoFrame? ==> Drain(buffer, s, b) == Done(buffer, s, b)
    ensures ReadFrame(buffer).Bad? ==> Drain(buffer, s, b) == Threw(buffer, s, b, ReadFrame(buffer).error)
    ensures ReadFrame(buffer).Found? ==>
      var rest := buffer[ReadFrame(buffer).frame.size..];
      var step := HandleFrame(s, b, ReadFrame(buffer).frame);
      && (step.Next? ==> Drain(buffer, s, b) == Drain(rest, step.s, step.b))
      && (step.Return? ==> Drain(buffer, s, b) == Left(rest, step.s, step.b))
      && (step.Raise? ==> Drain(buffer, s, b) == Threw(rest, step.s, step.b, step.error))
  {
    hide HandleFrame, ReadFrame;
  }

  lemma UpsertTwice(s: Session, n: nat, b: Broker, f: Frame)
    requires !f.HeartBeat?
    ensures ChannelFrame(Spec.UpsertChannel(s, n), b, n, f) == ChannelFrame(s, b, n, f)
  {
    hide Answer, Apply, OpenedChannelCall, BodyArrives;
  }

  lemma AnswerKeepsChannels(s: Session, b: Broker, r: Reply)
    ensures Answer(s, b, r).s.channels == s.channels
  {
    hide Encode;
  }
}
