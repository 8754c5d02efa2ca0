// A client connection: what data_received makes of the bytes, as functions on values. The buffer is
// kept apart from the session, so that handling a frame cannot depend on it.
module Session {
  import opened Wrappers
  import opened Bytes
  import opened Properties
  import opened Methods
  import opened Frames
  import opened Replies
  import opened Senders
  import opened Broker

  datatype ParserState = WaitingProtocolHeader | WaitingStartOk | WaitingTuneOk | WaitingOpen | Opened

  datatype Channel =
    | ChannelWaitingOpen
    | ChannelOpened
    | WaitingHeader(exchange: Name, routingKey: Name)
    | WaitingBody(exchange: Name, routingKey: Name, headers: PropertyMap, bodySize: nat, content: bytes)

  // What the connection has been told so far: every protocol header it compared, every answer of
  // check_credentials, and every frame it compared with tune-ok or open.
  datatype Fact =
    | SawHeader(header: bytes)
    | Checked(user: Name, password: Name, accepted: bool)
    | ExpectedTuneOk(frame: Frame)
    | ExpectedOpen(frame: Frame)

  datatype Session = Session(
    me: Transport,
    parser: ParserState,
    channels: map<nat, Channel>,
    sent: seq<Reply>,
    closing: bool,
    trail: seq<Fact>)

  // Go on with the buffer, return from data_received, or raise.
  datatype Step =
    | Next(s: Session, b: Broker)
    | Return(s: Session, b: Broker)
    | Raise(s: Session, b: Broker, error: Error)

  const PROTOCOL_HEADER: bytes := ['A' as int, 'M' as int, 'Q' as int, 'P' as int, 0, 0, 9, 1]

  function Shut(s: Session): Session {
    s.(closing := true)
  }

  function Answer(s: Session, b: Broker, r: Reply): Step {
    if Encode(r).Ok? then Next(s.(sent := s.sent + [r]), b)
    else Raise(s.(sent := s.sent + Attempt(r)), b, Encode(r).error)
  }

  function SetChannel(s: Session, n: nat, c: Channel): Session {
    s.(channels := s.channels[n := c])
  }

  // ---- channel 0 ----

  datatype Credentials = Refused | Offered(user: Name, password: Name) | Unreadable(error: Error)

  const PLAIN: Name := Text("PLAIN")
  const AMQPLAIN: Name := Text("AMQPLAIN")

  // The parts between NUL octets, the last one unsplit after `max` of them.
  function SplitNul(s: bytes, max: nat): (parts: seq<bytes>)
    ensures |parts| >= 1
  {
    if max == 0 || 0 !in s then [s]
    else
      var i := FirstNul(s);
      [s[..i]] + SplitNul(s[i + 1..], max - 1)
  }

  function FirstNul(s: bytes): (i: nat)
    requires 0 in s
    ensures i < |s| && s[i] == 0 && 0 !in s[..i]
  {
    if s[0] == 0 then 0 else 1 + FirstNul(s[1..])
  }

  function OfferedCredentials(f: Frame): Credentials {
    if f.BodyFrame? then Unreadable(AttributeError)
    else if !f.MethodFrame? || !f.call.StartOk? then Unreadable(KeyError)
    else if f.call.mechanism == PLAIN then
      var parts := SplitNul(f.call.response, 3);
      if |parts| == 3 then Offered(parts[1], parts[2]) else Unreadable(ValueError)
    else if f.call.mechanism == AMQPLAIN then
      var v := DecodeAmqplain(f.call.response);
      if v.Raised? then Unreadable(v.error) else Offered(v.value[2].text, v.value[5].text)
    else Refused
  }

  function StartOkFrame(s: Session, b: Broker, f: Frame): Step {
    match OfferedCredentials(f)
    case Unreadable(e) => Raise(s, b, e)
    case Refused => Return(Shut(s), b)
    case Offered(user, password) =>
      var accepted := CredentialsAccepted(b, user, password);
      var b' := Apply(b, CheckCredentials(user, password), {});
      var s' := s.(trail := s.trail + [Checked(user, password, accepted)]);
      if !accepted then Return(Shut(s'), b')
      else
        match Answer(s', b', ConnectionTune)
        case Next(s'', b'') => Return(s''.(parser := WaitingTuneOk), b'')
        case step => step
  }

  function ConnectionFrame(s: Session, b: Broker, f: Frame): Step {
    if f.MethodFrame? && f.call.Close? then
      match Answer(s, b, ConnectionCloseOk)
      case Next(s', b') => Return(Shut(s'), b')
      case step => step
    else
      match s.parser
      case WaitingStartOk => StartOkFrame(s, b, f)
      case WaitingTuneOk =>
        var s' := s.(trail := s.trail + [ExpectedTuneOk(f)]);
        if !(f.MethodFrame? && f.call.TuneOk?) then Return(Shut(s'), b)
        else Next(s'.(parser := WaitingOpen), b)
      case WaitingOpen =>
        var s' := s.(trail := s.trail + [ExpectedOpen(f)]);
        if !(f.MethodFrame? && f.call.Open?) then Return(Shut(s'), b)
        else
          (match Answer(s', b, ConnectionOpenOk)
           case Next(s'', b') => Next(s''.(parser := Opened), b')
           case step => step)
      case _ => Next(s, b)
  }

  // ---- other channels ----

  function OpenedChannelCall(s: Session, b: Broker, n: nat, call: Method): Step {
    match call
    case ExchangeDeclare(exchange, kind) =>
      var b' := Apply(b, Op.DeclareExchange(exchange, kind), {});
      var ok := exchange in b'.exchanges && b'.exchanges[exchange].kind == kind;
      Answer(if ok then s else Shut(s), b', ExchangeDeclareOk(n))
    case QueueDeclare(queue) =>
      Answer(s, Apply(b, Op.DeclareQueue(queue), {}), QueueDeclareOk(n, queue, 0, 0))
    case QueueBind(queue, exchange, _) =>
      var b' := Apply(b, Op.BindQueue(queue, exchange), {});
      if !CanBind(b, queue, exchange) then Next(Shut(s), b') else Answer(s, b', QueueBindOk(n))
    case BasicQos(_, _, _) => Answer(s, b, BasicQosOk(n))
    case BasicPublish(exchange, key, _, _) => Next(SetChannel(s, n, WaitingHeader(exchange, key)), b)
    case BasicConsume(queue, tag) =>
      Answer(s, Apply(b, Op.RegisterConsumer(s.me, tag, queue, n), {}), BasicConsumeOk(n, tag))
    case BasicAck(tag, _) => Next(s, Apply(b, Op.MessageAck(tag), {}))
    case BasicNack(tag, _, requeue) => Next(s, Apply(b, Op.MessageNack(tag, requeue), {}))
    case BasicCancel(tag) => Answer(s, b, BasicCancelOk(n, tag))
    case _ => Next(s, b)
  }

  // A body frame on a channel that has its header. The message is stored the moment its length is
  // the announced one; if its exchange does not exist it stays on the channel.
  function BodyArrives(s: Session, b: Broker, n: nat, c: Channel, content: bytes): Step
    requires c.WaitingBody?
  {
    var c' := c.(content := c.content + content);
    if |c'.content| != c.bodySize then Next(SetChannel(s, n, c'), b)
    else
      var b' := Apply(b, Op.StoreMessage(c.exchange, Message(c.headers, c'.content)), {});
      if c.exchange !in b.exchanges then Next(Shut(SetChannel(s, n, c')), b')
      else Next(SetChannel(s, n, ChannelOpened), b')
  }

  function UpsertChannel(s: Session, n: nat): Session {
    if n in s.channels then s else SetChannel(s, n, ChannelWaitingOpen)
  }

  function ChannelFrame(s0: Session, b: Broker, n: nat, f: Frame): Step
    requires !f.HeartBeat?
  {
    var s := UpsertChannel(s0, n);
    var c := s.channels[n];
    if c.ChannelWaitingOpen? then
      if !(f.MethodFrame? && f.call.ChannelOpen?) then Next(Shut(s), b)
      else
        match Answer(s, b, ChannelOpenOk(n))
        case Next(s', b') => Next(SetChannel(s', n, ChannelOpened), b')
        case step => step
    else if f.MethodFrame? && f.call.ChannelClose? then
      match Answer(s.(channels := s.channels - {n}), b, ChannelCloseOk(n))
      case Next(s', b') => Next(Shut(s'), b')
      case step => step
    else
      match c
      case ChannelOpened => if f.MethodFrame? then OpenedChannelCall(s, b, n, f.call) else Next(s, b)
      case WaitingHeader(exchange, key) =>
        if f.HeaderFrame? then Next(SetChannel(s, n, WaitingBody(exchange, key, f.properties, f.bodySize, [])), b)
        else Next(s, b)
      case WaitingBody(_, _, _, _, _) => if f.BodyFrame? then BodyArrives(s, b, n, c, f.content) else Next(s, b)
      case ChannelWaitingOpen => Next(s, b)
  }

  // One frame, whatever it is.
  function HandleFrame(s: Session, b: Broker, f: Frame): Step {
    if f.HeartBeat? then Answer(s, b, Heartbeat)
    else if f.channel != 0 then ChannelFrame(s, b, f.channel, f)
    else ConnectionFrame(s, b, f)
  }

  // ---- data_received ----

  // Waiting for more bytes, returned early, or an exception; with what is left of the buffer.
  datatype Outcome =
    | Done(buffer: bytes, s: Session, b: Broker)
    | Left(buffer: bytes, s: Session, b: Broker)
    | Threw(buffer: bytes, s: Session, b: Broker, error: Error)

  // Frame after frame, until the buffer is empty or holds no whole frame.
  function Drain(buffer: bytes, s: Session, b: Broker): Outcome
    decreases |buffer|
  {
    if buffer == [] then Done(buffer, s, b)
    else
      match ReadFrame(buffer)
      case NoFrame => Done(buffer, s, b)
      case Bad(e) => Threw(buffer, s, b, e)
      case Found(f) =>
        var rest := buffer[f.size..];
        match HandleFrame(s, b, f)
        case Next(s', b') => Drain(rest, s', b')
        case Return(s', b') => Left(rest, s', b')
        case Raise(s', b', e) => Threw(rest, s', b', e)
  }

  // The header is accepted only when it is alone in the buffer.
  function ProtocolHeader(buffer: bytes, s: Session, b: Broker): Outcome {
    if |buffer| < |PROTOCOL_HEADER| then Done(buffer, s, b)
    else
      var s' := s.(trail := s.trail + [SawHeader(buffer)]);
      if buffer != PROTOCOL_HEADER then Done([], Shut(s'), b)
      else
        match Answer(s', b, ConnectionStart)
        case Next(s'', b') => Done([], s''.(parser := WaitingStartOk), b')
        case Return(s'', b') => Left([], s'', b')
        case Raise(s'', b', e) => Threw([], s'', b', e)
  }

  function DataReceived(buffer: bytes, s: Session, b: Broker, data: bytes): Outcome {
    if s.parser.WaitingProtocolHeader? then ProtocolHeader(buffer + data, s, b) else Drain(buffer + data, s, b)
  }

  function Fresh(me: Transport): Session {
    Session(me, WaitingProtocolHeader, map[], [], false, [])
  }
}
