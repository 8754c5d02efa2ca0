// Transports and the sender functions, which write a frame piece by piece.
module Senders {
  import opened Wrappers
  import opened Bytes
  import opened Values
  import opened ArgumentCodec
  import opened ArgumentLoops
  import opened Properties
  import opened HeaderRoundTrip
  import opened Frames
  import opened Replies

  // An asyncio transport: everything written, and the closing flag, which is never taken back.
  class Transport {
    var log: bytes
    var closing: bool
    ghost var sent: seq<Reply>

    ghost predicate Valid()
      reads this
    {
      log == Wire(sent)
    }

    constructor ()
      ensures Valid() && sent == [] && !closing
    {
      log, sent, closing := [], [], false;
    }

    method Write(data: bytes)
      modifies this`log
      ensures log == old(log) + data
    {
      log := log + data;
    }

    method Close()
      modifies this`closing
      ensures closing
    {
      closing := true;
    }
  }

  // What one attempt to send leaves on the wire: a content frame has its first three octets written
  // before anything can raise.
  function Attempt(r: Reply): seq<Reply> {
    if Encode(r).Ok? then [r]
    else if ChannelOf(r) < 256 && (r.ContentHeader? || r.ContentBody?) then [Broken(Kind(r), ChannelOf(r))]
    else []
  }

  lemma RecordSent(t: Transport, before: seq<Reply>, r: Reply)
    requires t.log == Wire(before) + Written(r)
    ensures t.log == Wire(before + [r])
  {
    hide Written;
    WireAppend(before, r);
  }

  // send_heartbeat, the connection, channel, exchange, queue and basic senders: arguments first, then
  // the octets of the frame.
  method Send(t: Transport, r: Reply) returns (outcome: Result<()>)
    requires t.Valid() && !r.ContentHeader? && !r.ContentBody? && !r.Broken?
    modifies t`log, t`sent
    ensures t.Valid() && t.sent == old(t.sent) + Attempt(r)
    ensures outcome == if Encode(r).Ok? then Ok(()) else Raised(Encode(r).error)
  {
    hide Payload, Wire, Pack;
    assert t.sent + [] == t.sent;
    var channel := ChannelOf(r);
    if Kind(r) != METHOD_FRAME && channel >= 256 {
      return Raised(ValueError);
    }
    var payload := Payload(r);
    if payload.Raised? {
      return Raised(payload.error);
    }
    if channel >= 256 {
      return Raised(ValueError);
    }
    var size := Pack(|payload.value|, 4);
    if size.Raised? {
      return Raised(size.error);
    }
    t.Write([Kind(r), 0, channel]);
    t.Write(size.value);
    t.Write(payload.value);
    t.Write([FRAME_END]);
    Grouped(old(t.log), [Kind(r), 0, channel], size.value, payload.value, [FRAME_END]);
    RecordSent(t, old(t.sent), r);
    t.sent := t.sent + [r];
    outcome := Ok(());
  }

  lemma Grouped(log: bytes, a: bytes, b: bytes, c: bytes, d: bytes)
    ensures log + a + b + c + d == log + (a + b + c + d)
  {
  }

  lemma RecordBroken(t: Transport, before: seq<Reply>, kind: byte, channel: nat)
    requires channel < 256 && kind != METHOD_FRAME && t.log == Wire(before) + [kind, 0, channel]
    ensures t.log == Wire(before + [Broken(kind, channel)])
  {
    RecordSent(t, before, Broken(kind, channel));
  }

  method SendContentHeader(t: Transport, channel: nat, properties: PropertyMap, bodySize: nat)
    returns (outcome: Result<()>)
    requires t.Valid()
    modifies t`log, t`sent
    ensures t.Valid() && t.sent == old(t.sent) + Attempt(ContentHeader(channel, properties, bodySize))
    ensures var e := Encode(ContentHeader(channel, properties, bodySize));
      outcome == if e.Ok? then Ok(()) else Raised(e.error)
  {
    hide Wire, Pack, HeaderArguments;
    assert t.sent + [] == t.sent;
    if channel >= 256 {
      return Raised(ValueError);
    }
    t.Write([HEADER_FRAME, 0, channel]);
    RecordBroken(t, old(t.sent), HEADER_FRAME, channel);
    t.sent := t.sent + [Broken(HEADER_FRAME, channel)];
    var arguments := GatherHeaderArguments(properties, bodySize);
    if arguments.Raised? {
      return Raised(arguments.error);
    }
    var size := Pack(|arguments.value|, 4);
    if size.Raised? {
      return Raised(size.error);
    }
    t.Write(size.value);
    t.Write(arguments.value);
    t.Write([FRAME_END]);
    Grouped(old(t.log), [HEADER_FRAME, 0, channel], size.value, arguments.value, [FRAME_END]);
    var r := ContentHeader(channel, properties, bodySize);
    RecordSent(t, old(t.sent), r);
    t.sent := old(t.sent) + [r];
    outcome := Ok(());
  }

  // The loop over PROPERTIES.
  method GatherHeaderArguments(properties: PropertyMap, bodySize: nat) returns (arguments: Result<bytes>)
    ensures arguments == HeaderArguments(properties, bodySize)
  {
    hide Letter, Name, Mask, Dumps, GatherFlags, GatherFormat, GatherValues;
    var flags: nat, formats: string, values: seq<Value>, i := 0, "", [], 0;
    while i < PROPERTY_COUNT
      invariant i <= PROPERTY_COUNT
      invariant flags + GatherFlags(properties, i) == GatherFlags(properties, 0)
      invariant formats + GatherFormat(properties, i) == GatherFormat(properties, 0)
      invariant values + GatherValues(properties, i) == GatherValues(properties, 0)
    {
      GatherRow(properties, i);
      if Name(i) in properties {
        Regroup(formats, [Letter(i)], GatherFormat(properties, i + 1));
        Regroup(values, [properties[Name(i)]], GatherValues(properties, i + 1));
        flags := flags + Mask(i);
        formats := formats + [Letter(i)];
        values := values + [properties[Name(i)]];
      }
      i := i + 1;
    }
    GatherEnd(properties);
    assert formats + "" == formats && values + [] == values;
    arguments := DumpsLoop("BBLB" + formats, [Int(60), Int(0), Int(bodySize), Int(flags)] + values);
  }

  lemma GatherRow(properties: PropertyMap, i: nat)
    requires i < PROPERTY_COUNT
    ensures if Name(i) in properties then
        && GatherFlags(properties, i) == Mask(i) + GatherFlags(properties, i + 1)
        && GatherFormat(properties, i) == [Letter(i)] + GatherFormat(properties, i + 1)
        && GatherValues(properties, i) == [properties[Name(i)]] + GatherValues(properties, i + 1)
      else
        && GatherFlags(properties, i) == GatherFlags(properties, i + 1)
        && GatherFormat(properties, i) == GatherFormat(properties, i + 1)
        && GatherValues(properties, i) == GatherValues(properties, i + 1)
  {
    hide Name, Letter, Mask;
  }

  lemma GatherEnd(properties: PropertyMap)
    ensures GatherFlags(properties, PROPERTY_COUNT) == 0
    ensures GatherFormat(properties, PROPERTY_COUNT) == "" && GatherValues(properties, PROPERTY_COUNT) == []
  {
  }

  method SendContentBody(t: Transport, channel: nat, body: bytes) returns (outcome: Result<()>)
    requires t.Valid()
    modifies t`log, t`sent
    ensures t.Valid() && t.sent == old(t.sent) + Attempt(ContentBody(channel, body))
    ensures var e := Encode(ContentBody(channel, body)); outcome == if e.Ok? then Ok(()) else Raised(e.error)
  {
    hide Wire, Pack;
    assert t.sent + [] == t.sent;
    if channel >= 256 {
      return Raised(ValueError);
    }
    t.Write([BODY_FRAME, 0, channel]);
    RecordBroken(t, old(t.sent), BODY_FRAME, channel);
    t.sent := t.sent + [Broken(BODY_FRAME, channel)];
    var size := Pack(|body|, 4);
    if size.Raised? {
      return Raised(size.error);
    }
    t.Write(size.value);
    t.Write(body);
    t.Write([FRAME_END]);
    Grouped(old(t.log), [BODY_FRAME, 0, channel], size.value, body, [FRAME_END]);
    var r := ContentBody(channel, body);
    RecordSent(t, old(t.sent), r);
    t.sent := old(t.sent) + [r];
    outcome := Ok(());
  }

  // ---- push_message: deliver, content header, content body ----

  datatype Push = Push(replies: seq<Reply>, error: Option<Error>)

  function PushMessage(channel: nat, consumerTag: bytes, deliveryTag: nat,
                         exchange: bytes, headers: PropertyMap, body: bytes): Push
  {
    var deliver := BasicDeliver(channel, consumerTag, deliveryTag, false, exchange, []);
    var header := ContentHeader(channel, headers, |body|);
    var content := ContentBody(channel, body);
    if Encode(deliver).Raised? then Push([], Some(Encode(deliver).error))
    else if Encode(header).Raised? then Push([deliver] + Attempt(header), Some(Encode(header).error))
    else if Encode(content).Raised? then Push([deliver, header] + Attempt(content), Some(Encode(content).error))
    else Push([deliver, header, content], None)
  }

  method SendPush(t: Transport, channel: nat, consumerTag: bytes, deliveryTag: nat, exchange: bytes,
                  headers: PropertyMap, body: bytes)
    returns (outcome: Result<()>)
    requires t.Valid()
    modifies t`log, t`sent
    ensures t.Valid()
    ensures var p := PushMessage(channel, consumerTag, deliveryTag, exchange, headers, body);
      && t.sent == old(t.sent) + p.replies
      && outcome == if p.error.None? then Ok(()) else Raised(p.error.value)
  {
    hide Encode, ChannelOf, Kind;
    var deliver := BasicDeliver(channel, consumerTag, deliveryTag, false, exchange, []);
    ghost var header := ContentHeader(channel, headers, |body|);
    ghost var content := ContentBody(channel, body);
    outcome := Send(t, deliver);
    if outcome.Raised? {
      NeverBroken(deliver);
      return;
    }
    outcome := SendContentHeader(t, channel, headers, |body|);
    assert old(t.sent) + [deliver] + Attempt(header) == old(t.sent) + ([deliver] + Attempt(header));
    if outcome.Raised? {
      return;
    }
    outcome := SendContentBody(t, channel, body);
    assert old(t.sent) + [deliver, header] + Attempt(content) == old(t.sent) + ([deliver, header] + Attempt(content));
  }

  lemma NeverBroken(r: Reply)
    requires !r.ContentHeader? && !r.ContentBody? && !r.Broken?
    ensures Attempt(r) == if Encode(r).Ok? then [r] else []
  {
  }
}
