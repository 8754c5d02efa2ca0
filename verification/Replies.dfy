// What the sender functions put on the wire, one frame each.
module Replies {
  import opened Wrappers
  import opened Bytes
  import opened Values
  import opened ItemCodec
  import opened ArgumentCodec
  import opened ArgumentRoundTrip
  import opened Properties
  import opened HeaderRoundTrip
  import opened Frames

  // One call of a sender function, or the three octets a content frame leaves behind when it raises.
  datatype Reply =
    | Heartbeat
    | ConnectionStart
    | ConnectionTune
    | ConnectionOpenOk
    | ConnectionCloseOk
    | ChannelOpenOk(channel: nat)
    | ChannelCloseOk(channel: nat)
    | ExchangeDeclareOk(channel: nat)
    | QueueDeclareOk(channel: nat, queue: bytes, messageCount: nat, consumerCount: nat)
    | QueueBindOk(channel: nat)
    | BasicQosOk(channel: nat)
    | BasicConsumeOk(channel: nat, consumerTag: bytes)
    | BasicCancelOk(channel: nat, consumerTag: bytes)
    | BasicDeliver(channel: nat, consumerTag: bytes, deliveryTag: nat, redelivered: bool,
                       exchange: bytes, routingKey: bytes)
    | ContentHeader(channel: nat, properties: PropertyMap, bodySize: nat)
    | ContentBody(channel: nat, body: bytes)
    | Broken(kind: byte, channel: nat)

  function Text(s: string): (r: bytes)
    ensures |r| == |s|
  {
    seq(|s|, i requires 0 <= i < |s| => s[i] as int % 256)
  }

  // The peer properties a RabbitMQ 3.7.4 server announces.
  function Capabilities(): Value {
    Table([
      Entry(Text("authentication_failure_close"), Bool(true)),
      Entry(Text("consumer_priorities"), Bool(true)),
      Entry(Text("exchange_exchange_bindings"), Bool(true)),
      Entry(Text("direct_reply_to"), Bool(true)),
      Entry(Text("per_consumer_qos"), Bool(true)),
      Entry(Text("basic.nack"), Bool(true)),
      Entry(Text("publisher_confirms"), Bool(true)),
      Entry(Text("consumer_cancel_notify"), Bool(true)),
      Entry(Text("connection.blocked"), Bool(true))])
  }

  function PeerProperties(): Value {
    Table([
      Entry(Text("capabilities"), Capabilities()),
      Entry(Text("information"), Str(Text("Licensed under the MPL.  See http://www.rabbitmq.com/"))),
      Entry(Text("cluster_name"), Str(Text("rabbit@60b584cb4c1b"))),
      Entry(Text("product"), Str(Text("RabbitMQ"))),
      Entry(Text("version"), Str(Text("3.7.4"))),
      Entry(Text("copyright"), Str(Text("Copyright (C) 2007-2018 Pivotal Software, Inc."))),
      Entry(Text("platform"), Str(Text("Erlang/OTP 20.2.4")))])
  }

  // A frame on channel 0..255: type, channel, size, payload, end marker. The channel is written as
  // the octets 0, channel: bytearray refuses a larger one before anything is written.
  function Envelop(kind: byte, channel: nat, payload: bytes): Result<bytes> {
    if channel >= 256 then Raised(ValueError)
    else
      var n :- Pack(|payload|, 4);
      Ok([kind, 0, channel] + n + payload + [FRAME_END])
  }

  function MethodPayload(classId: byte, methodId: byte, arguments: Result<bytes>): Result<bytes> {
    var a :- arguments;
    Ok([0, classId, 0, methodId] + a)
  }

  function Payload(r: Reply): Result<bytes> {
    match r
    case Heartbeat => Ok([])
    case ConnectionStart =>
      MethodPayload(10, 10, Dumps("ooFSS", [Int(0), Int(9), PeerProperties(),
        Str(Text("PLAIN AMQPLAIN")), Str(Text("en_US"))]))
    case ConnectionTune => MethodPayload(10, 30, Dumps("BlB", [Int(0), Int(131072), Int(10)]))
    case ConnectionOpenOk => MethodPayload(10, 41, Dumps("s", [Str([])]))
    case ConnectionCloseOk => MethodPayload(10, 51, Ok([]))
    case ChannelOpenOk(_) => MethodPayload(20, 11, Dumps("S", [Str(Text("42"))]))
    case ChannelCloseOk(_) => MethodPayload(20, 41, Ok([]))
    case ExchangeDeclareOk(_) => MethodPayload(40, 11, Ok([]))
    case QueueDeclareOk(_, queue, messages, consumers) =>
      MethodPayload(50, 11, Dumps("sll", [Str(queue), Int(messages), Int(consumers)]))
    case QueueBindOk(_) => MethodPayload(50, 21, Ok([]))
    case BasicQosOk(_) => MethodPayload(60, 11, Ok([]))
    case BasicConsumeOk(_, tag) => MethodPayload(60, 21, Dumps("s", [Str(tag)]))
    case BasicCancelOk(_, tag) => MethodPayload(60, 31, Dumps("s", [Str(tag)]))
    case BasicDeliver(_, tag, delivery, redelivered, exchange, key) =>
      MethodPayload(60, 60, Dumps("sLbss", [Str(tag), Int(delivery), Bool(redelivered), Str(exchange), Str(key)]))
    case ContentHeader(_, props, size) => HeaderArguments(props, size)
    case ContentBody(_, body) => Ok(body)
    case Broken(_, _) => Ok([])
  }

  function Kind(r: Reply): byte {
    if r.Heartbeat? then HEARTBEAT_FRAME
    else if r.ContentHeader? then HEADER_FRAME
    else if r.ContentBody? then BODY_FRAME
    else if r.Broken? then r.kind
    else METHOD_FRAME
  }

  function ChannelOf(r: Reply): nat {
    match r
    case Heartbeat => 0
    case ConnectionStart => 0
    case ConnectionTune => 0
    case ConnectionOpenOk => 0
    case ConnectionCloseOk => 0
    case _ => r.channel
  }

  // Content frames put the channel on the wire first, method frames their arguments together first.
  function Encode(r: Reply): Result<bytes> {
    if Kind(r) != METHOD_FRAME && ChannelOf(r) >= 256 then Raised(ValueError)
    else if r.Broken? then (if r.channel < 256 then Ok([r.kind, 0, r.channel]) else Raised(ValueError))
    else
      var payload :- Payload(r);
      Envelop(Kind(r), ChannelOf(r), payload)
  }

  // ---- the stream is cut back into exactly the frames that were sent ----

  lemma CutEnveloped(kind: byte, channel: nat, payload: bytes, rest: bytes)
    requires Envelop(kind, channel, payload).Ok?
    ensures var w := Envelop(kind, channel, payload).value;
      && |w| == |payload| + 8
      && Cut(w + rest) == Envelope(kind, channel, |w|, payload)
  {
    hide BigEndian;
    WidthBounds();
    var n := BigEndian(|payload|, 4);
    var w := Envelop(kind, channel, payload).value;
    var all := w + rest;
    BigEndianRoundTrip(|payload|, 4);
    assert all[3..7] == n;
    assert Number(all[3..7]) == |payload|;
    ChannelNumber(all[1..3], channel);
    assert all[7..|w| - 1] == payload;
    assert all[|w| - 1] == FRAME_END;
  }

  lemma ChannelNumber(s: bytes, channel: byte)
    requires s == [0, channel]
    ensures Number(s) == channel
  {
    assert s[..1] == [0] && s[..1][..0] == [];
    assert FromBigEndian(s[..1]) == 0;
  }

  // What the wire carries once every reply has been written.
  function Wire(sent: seq<Reply>): bytes {
    if sent == [] then [] else Written(sent[0]) + Wire(sent[1..])
  }

  lemma {:induction false} WireAppend(sent: seq<Reply>, r: Reply)
    ensures Wire(sent + [r]) == Wire(sent) + Written(r)
  {
    hide Written;
    if sent == [] {
      assert [r][1..] == [];
    } else {
      assert (sent + [r])[1..] == sent[1..] + [r];
      WireAppend(sent[1..], r);
    }
  }

  function Written(r: Reply): bytes {
    if Encode(r).Ok? then Encode(r).value else []
  }

  // The frames of a stream as the size arithmetic and the end marker of read_frame see them.
  function Split(stream: bytes): Option<seq<Envelope>>
    decreases |stream|
  {
    if stream == [] then Some([])
    else
      var e := Cut(stream);
      if !e.Envelope? then None
      else
        var rest := Split(stream[e.size..]);
        if rest.None? then None else Some([e] + rest.value)
  }

  // The reply was written whole.
  predicate Whole(r: Reply) {
    !r.Broken? && Encode(r).Ok?
  }

  lemma WrittenIsOneFrame(r: Reply, rest: bytes)
    requires Whole(r)
    ensures Cut(Written(r) + rest).Envelope?
    ensures var e := Cut(Written(r) + rest);
      && e.size == |Written(r)| && e.kind == Kind(r) && e.channel == ChannelOf(r)
      && Payload(r) == Ok(e.payload)
  {
    hide Payload, Envelop, Cut, Kind, ChannelOf;
    CutEnveloped(Kind(r), ChannelOf(r), Payload(r).value, rest);
  }

  // One frame per sender call, in order, and nothing left over.
  lemma {:induction false} OutgoingStreamWellFramed(sent: seq<Reply>)
    requires forall r | r in sent :: Whole(r)
    ensures Split(Wire(sent)).Some? && |Split(Wire(sent)).value| == |sent|
    ensures forall i :: 0 <= i < |sent| ==>
      var e := Split(Wire(sent)).value[i];
      && e.Envelope? && e.kind == Kind(sent[i]) && e.channel == ChannelOf(sent[i]) && e.size == |Written(sent[i])|
      && Payload(sent[i]) == Ok(e.payload)
  {
    hide Written, Payload, Whole, Cut, Kind, ChannelOf;
    if sent != [] {
      var w, rest := Written(sent[0]), Wire(sent[1..]);
      WrittenIsOneFrame(sent[0], rest);
      OutgoingStreamWellFramed(sent[1..]);
      assert (w + rest)[|w|..] == rest;
      assert Split(w + rest).value == [Cut(w + rest)] + Split(rest).value;
    }
  }

  // ---- which replies can be written at all ----

  // The replies of the connection machine, their names being short strings.
  predicate FromConnection(r: Reply) {
    match r
    case QueueDeclareOk(_, queue, messages, consumers) =>
      |queue| < 256 && messages < 0x1_0000_0000 && consumers < 0x1_0000_0000
    case BasicConsumeOk(_, tag) => |tag| < 256
    case BasicCancelOk(_, tag) => |tag| < 256
    case BasicDeliver(_, _, _, _, _, _) => false
    case ContentHeader(_, _, _) => false
    case ContentBody(_, _) => false
    case Broken(_, _) => false
    case _ => true
  }

  // They are written exactly when the channel number fits one octet.
  lemma ConnectionRepliesWritten(r: Reply)
    requires FromConnection(r)
    ensures Encode(r).Ok? <==> ChannelOf(r) < 256
  {
    hide Payload, Envelop;
    PayloadFits(r);
    EnvelopFits(Kind(r), ChannelOf(r), Payload(r).value);
  }

  lemma EnvelopFits(kind: byte, channel: nat, payload: bytes)
    ensures Envelop(kind, channel, payload).Ok? <==> channel < 256 && |payload| < 0x1_0000_0000
  {
    WidthBounds();
  }

  predicate Fit(r: Result<bytes>, bound: nat) {
    r.Ok? && |r.value| <= bound
  }

  lemma PayloadFits(r: Reply)
    requires FromConnection(r)
    ensures Fit(Payload(r), 20000)
  {
    hide Dumps, DumpOne, PeerProperties, Text;
    NothingFits();
    if r.ConnectionStart? {
      StartFits();
    } else if r.ConnectionTune? {
      NumberFits('B', 10);
      LetterFits("B", [Int(10)], "", [], 0);
      NumberFits('l', 131072);
      LetterFits("lB", [Int(131072), Int(10)], "B", [Int(10)], 3000);
      NumberFits('B', 0);
      LetterFits("BlB", [Int(0), Int(131072), Int(10)], "lB", [Int(131072), Int(10)], 6000);
    } else if r.ConnectionOpenOk? {
      StringFits('s', []);
      LetterFits("s", [Str([])], "", [], 0);
    } else if r.ChannelOpenOk? {
      StringFits('S', Text("42"));
      LetterFits("S", [Str(Text("42"))], "", [], 0);
    } else if r.QueueDeclareOk? {
      NumberFits('l', r.consumerCount);
      LetterFits("l", [Int(r.consumerCount)], "", [], 0);
      NumberFits('l', r.messageCount);
      LetterFits("ll", [Int(r.messageCount), Int(r.consumerCount)], "l", [Int(r.consumerCount)], 3000);
      StringFits('s', r.queue);
      LetterFits("sll", [Str(r.queue), Int(r.messageCount), Int(r.consumerCount)],
                 "ll", [Int(r.messageCount), Int(r.consumerCount)], 6000);
    } else if r.BasicConsumeOk? || r.BasicCancelOk? {
      StringFits('s', r.consumerTag);
      LetterFits("s", [Str(r.consumerTag)], "", [], 0);
    }
  }

  lemma NothingFits()
    ensures Fit(Dumps("", []), 0)
  {
  }

  lemma LetterFits(fmt: string, vals: seq<Value>, rest: string, others: seq<Value>, bound: nat)
    requires fmt != "" && vals != [] && fmt == [fmt[0]] + rest && vals == [vals[0]] + others
    requires Flushes(fmt[0]) && Fit(DumpOne(fmt[0], vals[0]), 3000) && Fit(Dumps(rest, others), bound)
    ensures Fit(Dumps(fmt, vals), bound + 3000)
  {
    hide DumpOne, Dumps;
    DumpsLetter(fmt[0], rest, vals[0], others);
  }

  lemma NumberFits(p: char, n: nat)
    requires (p == 'o' && n < 0x100) || (p == 'B' && n < 0x1_0000) || (p == 'l' && n < 0x1_0000_0000)
    ensures Fit(DumpOne(p, Int(n)), 3000)
  {
    WidthBounds();
  }

  lemma StringFits(p: char, s: bytes)
    requires (p == 's' || p == 'S') && |s| < 256
    ensures Fit(DumpOne(p, Str(s)), 3000)
  {
    WidthBounds();
  }

  lemma StartFits()
    ensures Fit(Payload(ConnectionStart), 20000)
  {
    hide Dumps, DumpOne, PeerProperties, Text;
    var mechanisms, locales := Str(Text("PLAIN AMQPLAIN")), Str(Text("en_US"));
    NothingFits();
    StringFits('S', locales.text);
    LetterFits("S", [locales], "", [], 0);
    StringFits('S', mechanisms.text);
    LetterFits("SS", [mechanisms, locales], "S", [locales], 3000);
    PeerPropertiesFit();
    LetterFits("FSS", [PeerProperties(), mechanisms, locales], "SS", [mechanisms, locales], 6000);
    NumberFits('o', 9);
    LetterFits("oFSS", [Int(9), PeerProperties(), mechanisms, locales],
               "FSS", [PeerProperties(), mechanisms, locales], 9000);
    NumberFits('o', 0);
    LetterFits("ooFSS", [Int(0), Int(9), PeerProperties(), mechanisms, locales],
               "oFSS", [Int(9), PeerProperties(), mechanisms, locales], 12000);
  }

  lemma {:induction false} EntriesFit(es: seq<Entry>, bound: nat)
    requires forall i :: 0 <= i < |es| ==> |es[i].key| < 30 && Encodable(es[i].value) && Size(es[i].value) <= bound
    ensures EncodableEntries(es) && SizeOfEntries(es) <= |es| * (31 + bound)
  {
    hide Encodable, Size;
    if es != [] {
      EntriesFit(es[1..], bound);
      assert |es| * (31 + bound) == (31 + bound) + |es[1..]| * (31 + bound);
    }
  }

  lemma CapabilitiesFit()
    ensures Encodable(Capabilities()) && Size(Capabilities()) <= 5 + 9 * 33
  {
    hide EncodableEntries, SizeOfEntries, Text;
    EntriesFit(Capabilities().entries, 2);
  }

  lemma PeerPropertiesFit()
    ensures Fit(DumpOne('F', PeerProperties()), 3000)
  {
    hide EncodableEntries, SizeOfEntries, Text, Capabilities, WriteItem, Pack;
    CapabilitiesFit();
    var v := PeerProperties();
    EntriesFit(v.entries, 302);
    assert Encodable(v) && Size(v) <= 5 + 7 * 333;
    TableFits(v);
  }

  lemma TableFits(v: Value)
    requires v.Table? && Encodable(v) && Size(v) <= 3000
    ensures Fit(DumpOne('F', v), 3000)
  {
    hide Encodable, Size, WriteTable;
    WritableExactlyWhenEncodable(v);
  }
}
