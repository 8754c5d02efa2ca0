// Method frames as a client lays them out, argument by argument in the order of the method's
// definition in AMQP 0-9-1: read_frame finds exactly the call they carry.
module Requests {
  import opened Wrappers
  import opened Bytes
  import opened Values
  import opened ArgumentCodec
  import opened ArgumentRoundTrip
  import opened Methods
  import opened Frames
  import opened FrameOctets
  import opened Replies

  datatype Request =
    | StartOk(properties: seq<Entry>, mechanism: bytes, response: bytes, locale: bytes)
    | TuneOk(channelMax: nat, frameMax: nat, heartbeat: nat)
    | Open(vhost: bytes, capabilities: bytes, insist: bool)
    | Close(replyCode: nat, replyText: bytes, classId: nat, methodId: nat)
    | ChannelOpen(reserved: bytes)
    | ChannelClose(replyCode: nat, replyText: bytes, classId: nat, methodId: nat)
    | ExchangeDeclare(ticket: nat, exchange: bytes, kind: bytes, passive: bool, durable: bool, autoDelete: bool,
                      inner: bool, noWait: bool, arguments: seq<Entry>)
    | QueueDeclare(ticket: nat, queue: bytes, passive: bool, durable: bool, exclusive: bool, autoDelete: bool,
                   noWait: bool, arguments: seq<Entry>)
    | QueueBind(ticket: nat, queue: bytes, exchange: bytes, routingKey: bytes, noWait: bool, arguments: seq<Entry>)
    | BasicQos(prefetchSize: nat, prefetchCount: nat, global: bool)
    | BasicConsume(ticket: nat, queue: bytes, consumerTag: bytes, noLocal: bool, noAck: bool, exclusive: bool,
                   noWait: bool, arguments: seq<Entry>)
    | BasicCancel(consumerTag: bytes, noWait: bool)
    | BasicPublish(ticket: nat, exchange: bytes, routingKey: bytes, mandatory: bool, immediate: bool)
    | BasicAck(deliveryTag: nat, multiple: bool)
    | BasicNack(deliveryTag: nat, multiple: bool, requeue: bool)

  // The class and the method number of AMQP 0-9-1.
  function ClassAndMethod(r: Request): (byte, byte) {
    match r
    case StartOk(_, _, _, _) => (10, 11)
    case TuneOk(_, _, _) => (10, 31)
    case Open(_, _, _) => (10, 40)
    case Close(_, _, _, _) => (10, 50)
    case ChannelOpen(_) => (20, 10)
    case ChannelClose(_, _, _, _) => (20, 40)
    case ExchangeDeclare(_, _, _, _, _, _, _, _, _) => (40, 10)
    case QueueDeclare(_, _, _, _, _, _, _, _) => (50, 10)
    case QueueBind(_, _, _, _, _, _) => (50, 20)
    case BasicQos(_, _, _) => (60, 10)
    case BasicConsume(_, _, _, _, _, _, _, _) => (60, 20)
    case BasicCancel(_, _) => (60, 30)
    case BasicPublish(_, _, _, _, _) => (60, 40)
    case BasicAck(_, _) => (60, 80)
    case BasicNack(_, _, _) => (60, 120)
  }

  // Two octets of class and two of method.
  function Head(r: Request): (head: bytes)
    ensures |head| == 4
  {
    [0, ClassAndMethod(r).0, 0, ClassAndMethod(r).1]
  }

  function Format(r: Request): string {
    match r
    case StartOk(_, _, _, _) => "FsSs"
    case TuneOk(_, _, _) => "BlB"
    case Open(_, _, _) => "ssb"
    case Close(_, _, _, _) => "BsBB"
    case ChannelOpen(_) => "s"
    case ChannelClose(_, _, _, _) => "BsBB"
    case ExchangeDeclare(_, _, _, _, _, _, _, _, _) => "BssbbbbbF"
    case QueueDeclare(_, _, _, _, _, _, _, _) => "BsbbbbbF"
    case QueueBind(_, _, _, _, _, _) => "BsssbF"
    case BasicQos(_, _, _) => "lBb"
    case BasicConsume(_, _, _, _, _, _, _, _) => "BssbbbbF"
    case BasicCancel(_, _) => "sb"
    case BasicPublish(_, _, _, _, _) => "Bssbb"
    case BasicAck(_, _) => "Lb"
    case BasicNack(_, _, _) => "Lbb"
  }

  function Args(r: Request): (args: seq<Value>)
    ensures |args| == |Format(r)|
  {
    match r
    case StartOk(properties, mechanism, response, locale) =>
      [Table(properties), Str(mechanism), Str(response), Str(locale)]
    case TuneOk(channelMax, frameMax, heartbeat) => [Int(channelMax), Int(frameMax), Int(heartbeat)]
    case Open(vhost, capabilities, insist) => [Str(vhost), Str(capabilities), Bool(insist)]
    case Close(code, text, classId, methodId) => [Int(code), Str(text), Int(classId), Int(methodId)]
    case ChannelOpen(reserved) => [Str(reserved)]
    case ChannelClose(code, text, classId, methodId) => [Int(code), Str(text), Int(classId), Int(methodId)]
    case ExchangeDeclare(ticket, exchange, kind, passive, durable, autoDelete, inner, noWait, arguments) =>
      [Int(ticket), Str(exchange), Str(kind), Bool(passive), Bool(durable), Bool(autoDelete), Bool(inner), Bool(noWait),
       Table(arguments)]
    case QueueDeclare(ticket, queue, passive, durable, exclusive, autoDelete, noWait, arguments) =>
      [Int(ticket), Str(queue), Bool(passive), Bool(durable), Bool(exclusive), Bool(autoDelete), Bool(noWait),
       Table(arguments)]
    case QueueBind(ticket, queue, exchange, key, noWait, arguments) =>
      [Int(ticket), Str(queue), Str(exchange), Str(key), Bool(noWait), Table(arguments)]
    case BasicQos(size, count, global) => [Int(size), Int(count), Bool(global)]
    case BasicConsume(ticket, queue, tag, noLocal, noAck, exclusive, noWait, arguments) =>
      [Int(ticket), Str(queue), Str(tag), Bool(noLocal), Bool(noAck), Bool(exclusive), Bool(noWait), Table(arguments)]
    case BasicCancel(tag, noWait) => [Str(tag), Bool(noWait)]
    case BasicPublish(ticket, exchange, key, mandatory, immediate) =>
      [Int(ticket), Str(exchange), Str(key), Bool(mandatory), Bool(immediate)]
    case BasicAck(tag, multiple) => [Int(tag), Bool(multiple)]
    case BasicNack(tag, multiple, requeue) => [Int(tag), Bool(multiple), Bool(requeue)]
  }

  // What the server keeps of it.
  function CallOf(r: Request): Method {
    match r
    case StartOk(properties, mechanism, response, locale) => Method.StartOk(properties, mechanism, response, locale)
    case TuneOk(channelMax, frameMax, heartbeat) => Method.TuneOk(channelMax, frameMax, heartbeat)
    case Open(vhost, capabilities, insist) => Method.Open(vhost, capabilities, insist)
    case Close(_, _, _, _) => Method.Close
    case ChannelOpen(reserved) => Method.ChannelOpen(reserved)
    case ChannelClose(code, text, classId, methodId) => Method.ChannelClose(code, text, classId, methodId)
    case ExchangeDeclare(_, exchange, kind, _, _, _, _, _, _) => Method.ExchangeDeclare(exchange, kind)
    case QueueDeclare(_, queue, _, _, _, _, _, _) => Method.QueueDeclare(queue)
    case QueueBind(_, queue, exchange, key, _, _) => Method.QueueBind(queue, exchange, key)
    case BasicQos(size, count, global) => Method.BasicQos(size, count, global)
    case BasicConsume(_, queue, tag, _, _, _, _, _) => Method.BasicConsume(queue, tag)
    case BasicCancel(tag, _) => Method.BasicCancel(tag)
    case BasicPublish(_, exchange, key, mandatory, immediate) =>
      Method.BasicPublish(exchange, key, mandatory, immediate)
    case BasicAck(tag, multiple) => Method.BasicAck(tag, multiple)
    case BasicNack(tag, multiple, requeue) => Method.BasicNack(tag, multiple, requeue)
  }

  // The octets of the frame, if lengths and numbers fit their places: the method id, then the
  // arguments.
  function Laid(channel: nat, r: Request): Result<bytes> {
    var payload :- ArgumentsLaid(r);
    Envelop(METHOD_FRAME, channel, payload)
  }

  function ArgumentsLaid(r: Request): Result<bytes> {
    var w :- Dumps(Format(r), Args(r));
    Ok(Head(r) + w)
  }

  // ---- the formats ----

  // Every format a client uses survives the round trip.
  lemma FormatRegular(r: Request)
    ensures Regular(Format(r), 0)
  {
    var fmt := Format(r);
    assert forall c | c in fmt :: c == 'b' || Flushes(c);
    if |fmt| <= 8 {
      ShortFormat(fmt, 0);
    } else {
      ShortFormat(fmt[1..], 0);
    }
  }

  // ---- reading back ----

  lemma ArgsProper(r: Request)
    ensures forall i :: 0 <= i < |Format(r)| ==> Proper(Format(r)[i], Args(r)[i])
  {
  }

  lemma ArgumentsReadBack(r: Request)
    requires ArgumentsLaid(r).Ok? && AllWellFormed(Args(r))
    ensures var payload := ArgumentsLaid(r).value;
      && |payload| >= 4 && payload[..4] == Head(r)
      && Arguments(Format(r), payload) == Ok(Args(r))
  {
    hide Regular, LoadsFrom, DumpsFrom, Fits, FitsAll, Format, Args, Head;
    var fmt, args := Format(r), Args(r);
    FormatRegular(r);
    var head, w := Head(r), Dumps(fmt, args).value;
    var payload := head + w;
    AtSplit(payload, 0, head, w);
    LoadsUndoesDumps(fmt, args, [], 0, payload, 4);
    ArgsProper(r);
    AllGiven(fmt, args);
  }

  lemma CallDecoded(r: Request, payload: bytes)
    requires Arguments(Format(r), payload) == Ok(Args(r))
    ensures DecodeMethod(Four(0, ClassAndMethod(r).0, 0, ClassAndMethod(r).1), payload) == Ok(CallOf(r))
  {
    hide Arguments;
  }

  // Wherever the frame stands at the front of a buffer, read_frame finds the call it carries.
  lemma RequestFound(channel: nat, r: Request, rest: bytes)
    requires Laid(channel, r).Ok? && AllWellFormed(Args(r))
    ensures var w := Laid(channel, r).value;
      ReadFrame(w + rest) == Found(MethodFrame(channel, |w|, CallOf(r)))
  {
    hide Envelop, Cut, ArgumentsLaid, DecodeMethod, Arguments, Format, Args, CallOf, ClassAndMethod, Four;
    ArgumentsReadBack(r);
    var payload := ArgumentsLaid(r).value;
    CallDecoded(r, payload);
    CutEnveloped(METHOD_FRAME, channel, payload, rest);
    MethodByOctets(Laid(channel, r).value + rest);
    assert payload[0] == Head(r)[0] && payload[1] == Head(r)[1] && payload[2] == Head(r)[2] && payload[3] == Head(r)[3];
  }
}
