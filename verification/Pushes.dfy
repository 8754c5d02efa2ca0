// Pushing a message to a consumer: when it goes out whole, told from its arguments, and what can be
// read from the wire then.
module Pushes {
  import opened Wrappers
  import opened Bytes
  import opened Values
  import opened ItemCodec
  import opened ArgumentCodec
  import opened ArgumentOctets
  import opened ArgumentRoundTrip
  import opened Properties
  import opened HeaderRoundTrip
  import opened Methods
  import opened Frames
  import opened Replies
  import opened Senders

  const BASIC_DELIVER := 0x003C003C

  // ---- the properties ----

  // The value, as dumps takes it, fits the place of its letter.
  predicate Fitting(p: char, v: Value) {
    var g := Given(p, v);
    if p == 's' then g.Str? && |g.text| < 256
    else if p == 'F' then g.Table? && Encodable(g)
    else if p == 'o' then g.Int? && 0 <= g.number < 256
    else g.Int? && 0 <= g.number < 0x1_0000_0000_0000_0000
  }

  // Such as true for a priority, 0 for a text and false for the application headers.
  lemma ConvertedValuesFit()
    ensures Fitting('o', Bool(true)) && Given('o', Bool(true)) == Int(1)
    ensures Fitting('s', Int(0)) && Given('s', Int(0)) == Str([])
    ensures Fitting('F', Bool(false)) && Given('F', Bool(false)) == Table([])
  {
  }

  function Width(p: char, v: Value): nat
    requires Fitting(p, v)
  {
    if p == 's' then 1 + |Given(p, v).text|
    else if p == 'F' then 4 + SizeOfEntries(Given(p, v).entries)
    else if p == 'o' then 1
    else 8
  }

  lemma OneFits(p: char, v: Value)
    requires p in {'s', 'F', 'o', 'L'}
    ensures DumpOne(p, v).Ok? <==> Fitting(p, v)
    ensures DumpOne(p, v).Ok? ==> |DumpOne(p, v).value| == Width(p, v)
  {
    hide WriteEntries, EncodableEntries, SizeOfEntries;
    WidthBounds();
    if p == 'F' && Given(p, v).Table? {
      EntriesWritableExactlyWhenEncodable(Given(p, v).entries);
    }
  }

  ghost predicate AllFit(props: PropertyMap, i: nat) {
    forall j | i <= j < PROPERTY_COUNT && Name(j) in props :: Fitting(Letter(j), props[Name(j)])
  }

  ghost function WidthFrom(props: PropertyMap, i: nat): nat
    requires i <= PROPERTY_COUNT && AllFit(props, i)
    decreases PROPERTY_COUNT - i, props
  {
    if i == PROPERTY_COUNT then 0
    else (if Name(i) in props then Width(Letter(i), props[Name(i)]) else 0) + WidthFrom(props, i + 1)
  }

  lemma {:induction false} GatheredFit(props: PropertyMap, i: nat)
    requires i <= PROPERTY_COUNT
    ensures var w := Dumps(GatherFormat(props, i), GatherValues(props, i));
      (w.Ok? <==> AllFit(props, i)) && (w.Ok? ==> |w.value| == WidthFrom(props, i))
    decreases PROPERTY_COUNT - i
  {
    hide Name, Letter, Fitting, Width, Dumps, DumpOne, GatherFormat, GatherValues;
    if i == PROPERTY_COUNT {
      GatherEnd(props);
      NothingDumped();
    } else {
      GatherRow(props, i);
      GatheredFit(props, i + 1);
      if Name(i) in props {
        OneFits(Letter(i), props[Name(i)]);
        DumpsLetter(Letter(i), GatherFormat(props, i + 1), props[Name(i)], GatherValues(props, i + 1));
      }
    }
  }

  lemma HeaderFits(props: PropertyMap, bodySize: nat)
    ensures var w := HeaderArguments(props, bodySize);
      (w.Ok? <==> bodySize < 0x1_0000_0000_0000_0000 && AllFit(props, 0)) &&
      (w.Ok? ==> |w.value| == 14 + WidthFrom(props, 0))
  {
    hide BigEndian, GatherFormat, GatherValues, GatherFlags, HeaderArguments, Dumps, AllFit, WidthFrom, Fixed;
    WidthBounds();
    HeaderDumped(props, bodySize);
    GatheredFit(props, 0);
  }

  // ---- deliver ----

  function DeliverArguments(consumerTag: bytes, deliveryTag: nat, exchange: bytes): seq<Value> {
    [Str(consumerTag), Int(deliveryTag), Bool(false), Str(exchange), Str([])]
  }

  lemma DeliverFits(consumerTag: bytes, deliveryTag: nat, exchange: bytes)
    ensures var w := Dumps("sLbss", DeliverArguments(consumerTag, deliveryTag, exchange));
      && (w.Ok? <==> |consumerTag| < 256 && deliveryTag < 0x1_0000_0000_0000_0000 && |exchange| < 256)
      && (w.Ok? ==> |w.value| < 1000)
  {
    hide DumpOne, Dumps;
    var a, b, c, d, e := Str(consumerTag), Int(deliveryTag), Bool(false), Str(exchange), Str([]);
    OneFits('s', a);
    OneFits('L', b);
    OneFits('s', d);
    OneFits('s', e);
    NothingDumped();
    DumpsLetter('s', "", e, []);
    DumpsLetter('s', "s", d, [e]);
    BitInFront(false, "ss", [d, e]);
    DumpsLetter('L', "bss", b, [c, d, e]);
    DumpsLetter('s', "Lbss", a, [b, c, d, e]);
    assert ['s'] + "" == "s" && ['s'] + "s" == "ss" && ['b'] + "ss" == "bss";
    assert ['L'] + "bss" == "Lbss" && ['s'] + "Lbss" == "sLbss";
    assert [e] + [] == [e] && [d] + [e] == [d, e] && [c] + [d, e] == [c, d, e];
    assert [b] + [c, d, e] == [b, c, d, e] && [a] + [b, c, d, e] == [a, b, c, d, e];
  }

  predicate Deliverable(channel: nat, consumerTag: bytes, deliveryTag: nat, exchange: bytes) {
    channel < 256 && |consumerTag| < 256 && deliveryTag < 0x1_0000_0000_0000_0000 && |exchange| < 256
  }

  lemma DeliverWritten(channel: nat, consumerTag: bytes, deliveryTag: nat, exchange: bytes)
    ensures Encode(BasicDeliver(channel, consumerTag, deliveryTag, false, exchange, [])).Ok? <==>
      Deliverable(channel, consumerTag, deliveryTag, exchange)
  {
    hide Envelop, Dumps;
    var r := BasicDeliver(channel, consumerTag, deliveryTag, false, exchange, []);
    DeliverFits(consumerTag, deliveryTag, exchange);
    if Payload(r).Ok? {
      EnvelopFits(METHOD_FRAME, channel, Payload(r).value);
    }
  }

  lemma HeaderWritten(channel: nat, props: PropertyMap, bodySize: nat)
    ensures Encode(ContentHeader(channel, props, bodySize)).Ok? <==>
      channel < 256 && bodySize < 0x1_0000_0000_0000_0000 &&
      AllFit(props, 0) && 14 + WidthFrom(props, 0) < 0x1_0000_0000
  {
    hide Envelop, HeaderArguments, AllFit, WidthFrom;
    HeaderFits(props, bodySize);
    if HeaderArguments(props, bodySize).Ok? {
      EnvelopFits(HEADER_FRAME, channel, HeaderArguments(props, bodySize).value);
    }
  }

  lemma BodyWritten(channel: nat, body: bytes)
    ensures Encode(ContentBody(channel, body)).Ok? <==> channel < 256 && |body| < 0x1_0000_0000
  {
    hide Envelop;
    EnvelopFits(BODY_FRAME, channel, body);
  }

  // ---- the push ----

  // Names and numbers fit their places, every standard property fits its own, and the header and the
  // body fit a frame.
  ghost predicate Pushable(channel: nat, consumerTag: bytes, deliveryTag: nat,
                         exchange: bytes, headers: PropertyMap, body: bytes)
  {
    && Deliverable(channel, consumerTag, deliveryTag, exchange)
    && AllFit(headers, 0) && 14 + WidthFrom(headers, 0) < 0x1_0000_0000
    && |body| < 0x1_0000_0000
  }

  lemma PushGoesOutExactly(channel: nat, consumerTag: bytes, deliveryTag: nat,
        exchange: bytes, headers: PropertyMap, body: bytes)
    ensures PushMessage(channel, consumerTag, deliveryTag, exchange, headers, body).error.None? <==>
      Pushable(channel, consumerTag, deliveryTag, exchange, headers, body)
  {
    hide Encode, Attempt, AllFit, WidthFrom;
    DeliverWritten(channel, consumerTag, deliveryTag, exchange);
    HeaderWritten(channel, headers, |body|);
    BodyWritten(channel, body);
  }

  // It is then exactly three frames on the consumer's channel: deliver with the tag, the delivery tag,
  // no redelivery, the exchange and an empty key; a header that announces the size of the body and
  // carries exactly the standard properties; and the body.
  lemma PushIsThreeFrames(channel: nat, consumerTag: bytes, deliveryTag: nat,
        exchange: bytes, headers: PropertyMap, body: bytes)
    requires Pushable(channel, consumerTag, deliveryTag, exchange, headers, body)
    ensures var sent := PushMessage(channel, consumerTag, deliveryTag, exchange, headers, body).replies;
      var frames := Split(Wire(sent));
      && frames.Some? && |frames.value| == 3
      && var deliver, header, content := frames.value[0], frames.value[1], frames.value[2];
         && deliver.Envelope? && deliver.kind == METHOD_FRAME && deliver.channel == channel
         && Unpack(deliver.payload, 0, 4) == Ok(BASIC_DELIVER)
         && Arguments("sLbss", deliver.payload) == Ok(DeliverArguments(consumerTag, deliveryTag, exchange))
         && header.Envelope? && header.kind == HEADER_FRAME && header.channel == channel
         && ((forall p | p in headers :: WellFormed(headers[p])) ==>
              Frames.Open(header) == Found(HeaderFrame(channel, header.size, 60, |body|, Carried(headers))))
         && content.Envelope? && content.kind == BODY_FRAME && content.channel == channel && content.payload == body
  {
    hide Wire, Split, Encode, Pushable, Payload, Arguments, Unpack, Kind, Frames.Open, Carried, WellFormed;
    var deliver := BasicDeliver(channel, consumerTag, deliveryTag, false, exchange, []);
    var header, content := ContentHeader(channel, headers, |body|), ContentBody(channel, body);
    PushGoesOutExactly(channel, consumerTag, deliveryTag, exchange, headers, body);
    var sent := PushMessage(channel, consumerTag, deliveryTag, exchange, headers, body).replies;
    assert sent == [deliver, header, content];
    KindsOfPush(channel, consumerTag, deliveryTag, exchange, headers, body);
    assert forall r | r in sent :: Whole(r);
    OutgoingStreamWellFramed(sent);
    var frames := Split(Wire(sent)).value;
    DeliverReadBack(deliver, frames[0].payload);
    if forall p | p in headers :: WellFormed(headers[p]) {
      HeaderOpened(header, frames[1]);
    }
  }

  lemma KindsOfPush(channel: nat, consumerTag: bytes, deliveryTag: nat,
        exchange: bytes, headers: PropertyMap, body: bytes)
    ensures Kind(BasicDeliver(channel, consumerTag, deliveryTag, false, exchange, [])) == METHOD_FRAME
    ensures Kind(ContentHeader(channel, headers, |body|)) == HEADER_FRAME
    ensures Kind(ContentBody(channel, body)) == BODY_FRAME && Payload(ContentBody(channel, body)) == Ok(body)
  {
    hide HeaderArguments, Dumps;
  }

  lemma DeliverReadBack(r: Reply, payload: bytes)
    requires r.BasicDeliver? && !r.redelivered && r.routingKey == [] && Payload(r) == Ok(payload)
    ensures Unpack(payload, 0, 4) == Ok(BASIC_DELIVER)
    ensures Arguments("sLbss", payload) == Ok(DeliverArguments(r.consumerTag, r.deliveryTag, r.exchange))
  {
    hide Unpack, Regular, LoadsFrom, DumpsFrom, Fits, FitsAll;
    var vals := DeliverArguments(r.consumerTag, r.deliveryTag, r.exchange);
    var w := Dumps("sLbss", vals).value;
    assert payload == [0, 60, 0, 60] + w;
    FourOctets(0, 60, 0, 60, w);
    AtSplit(payload, 0, [0, 60, 0, 60], w);
    ShortFormat("sLbss", 0);
    LoadsUndoesDumps("sLbss", vals, [], 0, payload, 4);
    AllGiven("sLbss", vals);
  }

  lemma HeaderOpened(r: Reply, e: Envelope)
    requires r.ContentHeader? && e.Envelope? && e.kind == HEADER_FRAME && e.channel == r.channel &&
      Payload(r) == Ok(e.payload)
    requires forall p | p in r.properties :: WellFormed(r.properties[p])
    ensures Frames.Open(e) == Found(HeaderFrame(r.channel, e.size, 60, r.bodySize, Carried(r.properties)))
  {
    hide HeaderArguments, Unpack, DecodeHeader, GatherFlags, Carried, WellFormed;
    PropertiesRecovered(r.properties, r.bodySize);
  }
}
