// From the sender's bytes to the stored message, whatever the chunks; and from the table writer's
// bytes to the credentials that are checked.
module EndToEnd {
  import opened Wrappers
  import opened Bytes
  import opened Values
  import opened ItemCodec
  import opened ArgumentCodec
  import opened ArgumentRoundTrip
  import opened Properties
  import opened HeaderRoundTrip
  import opened Methods
  import opened Frames
  import opened Replies
  import opened Broker
  import opened Session
  import opened Chunks
  import opened Interleaving
  import opened Streams

  // ---- reading back what the content senders wrote ----

  lemma ContentHeaderReadBack(n: nat, props: PropertyMap, size: nat, rest: bytes)
    requires Encode(ContentHeader(n, props, size)).Ok? && forall p | p in props :: WellFormed(props[p])
    ensures var w := Written(ContentHeader(n, props, size));
      ReadFrame(w + rest) == Found(HeaderFrame(n, |w|, 60, size, Carried(props)))
  {
    hide Encode, Cut, HeaderArguments, Unpack, DecodeHeader, GatherFlags, Carried, Payload, Kind, ChannelOf;
    var r := ContentHeader(n, props, size);
    WrittenIsOneFrame(r, rest);
    HeaderFacts(n, props, size);
    PropertiesRecovered(props, size);
  }

  lemma HeaderFacts(n: nat, props: PropertyMap, size: nat)
    ensures var r := ContentHeader(n, props, size);
      Kind(r) == HEADER_FRAME && ChannelOf(r) == n && Payload(r) == HeaderArguments(props, size)
  {
    hide HeaderArguments;
  }

  lemma ContentBodyReadBack(n: nat, body: bytes, rest: bytes)
    requires Encode(ContentBody(n, body)).Ok?
    ensures var w := Written(ContentBody(n, body));
      ReadFrame(w + rest) == Found(BodyFrame(n, |w|, body))
  {
    hide Encode, Cut;
    WrittenIsOneFrame(ContentBody(n, body), rest);
  }

  // ---- a publish ----

  // The message joins the exchange's log and the log of every queue bound to it, and nothing else changes.
  ghost predicate Logged(b: Broker, b': Broker, exchange: Name, m: Message)
    requires exchange in b.exchanges
  {
    && b' == b.(exchanges := b'.exchanges, queues := b'.queues)
    && b'.exchanges == b.exchanges[exchange :=
           Exchange(b.exchanges[exchange].kind, b.exchanges[exchange].messages + [m])]
    && b'.queues.Keys == b.queues.Keys
    && forall q | q in b.queues ::
         b'.queues[q] ==
           Queue(b.queues[q].messages + (if q in BoundTo(b, exchange) then [m] else []), b.queues[q].consumers)
  }

  lemma StoreLogs(b: Broker, exchange: Name, m: Message)
    requires exchange in b.exchanges
    ensures Logged(b, Apply(b, Op.StoreMessage(exchange, m), {}), exchange, m)
  {
    forall q | q in b.queues
      ensures Queue(b.queues[q].messages + [], b.queues[q].consumers) == b.queues[q]
    {
      assert b.queues[q].messages + [] == b.queues[q].messages;
    }
  }

  // ---- a body in any number of frames ----

  function BodyReplies(n: nat, contents: seq<bytes>): seq<Reply> {
    if contents == [] then [] else [ContentBody(n, contents[0])] + BodyReplies(n, contents[1..])
  }

  // What send_content_body writes for each part is cut into exactly these body frames.
  lemma {:induction false} BodiesParsed(n: nat, contents: seq<bytes>)
    requires forall c | c in contents :: Encode(ContentBody(n, c)).Ok?
    ensures Parse(Wire(BodyReplies(n, contents))) == Parsed(Bodies(n, contents), [], None)
  {
    hide Encode, Written, ReadFrame;
    if contents != [] {
      var w, rest := Written(ContentBody(n, contents[0])), Wire(BodyReplies(n, contents[1..]));
      var all := BodyReplies(n, contents);
      assert all[0] == ContentBody(n, contents[0]) && all[1..] == BodyReplies(n, contents[1..]);
      assert Wire(all) == w + rest;
      ContentBodyReadBack(n, contents[0], rest);
      BodyWidth(n, contents[0]);
      assert (w + rest)[|w|..] == rest;
      BodiesParsed(n, contents[1..]);
    }
  }

  lemma BodyWidth(n: nat, content: bytes)
    requires Encode(ContentBody(n, content)).Ok?
    ensures |Written(ContentBody(n, content))| == |content| + 8
  {
    hide Envelop;
    CutEnveloped(BODY_FRAME, n, content, []);
  }

  // The bytes of any number of send_content_body calls, cut anywhere, even inside frames: the message
  // is stored at the first of them where the announced size is hit exactly, and never if none hits it.
  lemma MessageReassembled(s: Session, b: Broker, n: nat, contents: seq<bytes>, chunks: seq<bytes>)
    requires !s.parser.WaitingProtocolHeader? && n != 0 && n in s.channels
    requires s.channels[n].WaitingBody? && s.channels[n].exchange in b.exchanges
    requires forall c | c in contents :: Encode(ContentBody(n, c)).Ok?
    requires chunks != [] && Join(chunks) == Wire(BodyReplies(n, contents))
    ensures var c := s.channels[n];
      var k := Needed(|c.content|, contents, c.bodySize);
      var o := DataReceived([], s, b, Join(chunks));
      && (!s.closing ==> Feed([], s, b, chunks) == Fed(o, []))
      && o.Done? && o.buffer == []
      && (k.Some? ==>
           && o.s == SetChannel(s, n, ChannelOpened)
           && Logged(b, o.b, c.exchange, Message(c.headers, c.content + Join(contents[..k.value]))))
      && (k.None? ==> o.s == SetChannel(s, n, c.(content := c.content + Join(contents))) && o.b == b)
  {
    hide Encode, Wire, Drain, Apply, Join, Feed, RunFrames, Parse, Needed, Logged, Bodies, BodyReplies;
    var buffer := Wire(BodyReplies(n, contents));
    BodiesParsed(n, contents);
    DrainRunsFrames(buffer, s, b);
    ExactReassembly(s, b, n, contents);
    assert [] + buffer == buffer;
    if !s.closing {
      OpenInAnyChunks([], s, b, chunks);
    }
    var c := s.channels[n];
    var k := Needed(|c.content|, contents, c.bodySize);
    if k.Some? {
      StoreLogs(b, c.exchange, Message(c.headers, c.content + Join(contents[..k.value])));
    }
  }

  // Some number of parts makes up the whole, and the parts behind it are empty.
  lemma WholeIsNeeded(contents: seq<bytes>)
    requires contents != []
    ensures var k := Needed(0, contents, |Join(contents)|);
      k.Some? && Join(contents[..k.value]) == Join(contents)
  {
    hide Join, Needed;
    assert contents[..|contents|] == contents;
    var k := Needed(0, contents, |Join(contents)|);
    if k.Some? {
      JoinSplit(contents, k.value);
    }
  }

  lemma {:induction false} JoinSplit(contents: seq<bytes>, k: nat)
    requires k <= |contents|
    ensures Join(contents) == Join(contents[..k]) + Join(contents[k..])
  {
    if k > 0 {
      JoinPrefixes(contents);
      JoinSplit(contents[1..], k - 1);
      assert contents[1..][k - 1..] == contents[k..];
      Regroup(contents[0], Join(contents[1..][..k - 1]), Join(contents[k..]));
    }
  }

  lemma HeaderHandled(s: Session, b: Broker, n: nat, f: Frame)
    requires n != 0 && n in s.channels && s.channels[n].WaitingHeader? && f.HeaderFrame? && f.channel == n
    ensures var c := s.channels[n];
      HandleFrame(s, b, f) ==
        Next(SetChannel(s, n, WaitingBody(c.exchange, c.routingKey, f.properties, f.bodySize, [])), b)
  {
  }

  // The bytes of one send_content_header and then of send_content_body for each part of the body, at
  // least one, fed in any chunks to a connection whose channel waits for the header of a publish to an
  // existing exchange: exactly one message, with those properties and the whole body, empty or not,
  // ends the logs of the exchange and of exactly the queues bound to it, and the channel is open again.
  lemma PublishArrives(s: Session, b: Broker, n: nat, props: PropertyMap, contents: seq<bytes>, chunks: seq<bytes>)
    requires !s.parser.WaitingProtocolHeader? && n != 0 && n in s.channels
    requires s.channels[n].WaitingHeader? && s.channels[n].exchange in b.exchanges
    requires contents != [] && forall c | c in contents :: Encode(ContentBody(n, c)).Ok?
    requires Encode(ContentHeader(n, props, |Join(contents)|)).Ok? && forall p | p in props :: WellFormed(props[p])
    requires chunks != []
    requires Join(chunks) == Written(ContentHeader(n, props, |Join(contents)|)) + Wire(BodyReplies(n, contents))
    ensures var o := DataReceived([], s, b, Join(chunks));
      && (!s.closing ==> Feed([], s, b, chunks) == Fed(o, []))
      && o == Done([], SetChannel(s, n, ChannelOpened), o.b)
      && Logged(b, o.b, s.channels[n].exchange, Message(Carried(props), Join(contents)))
  {
    hide Encode, Written, Wire, ReadFrame, HandleFrame, Apply, Carried, Join, Feed, RunFrames, Parse, Needed,
      Logged, Bodies,
      BodyReplies;
    var size := |Join(contents)|;
    var w, rest := Written(ContentHeader(n, props, size)), Wire(BodyReplies(n, contents));
    ContentHeaderReadBack(n, props, size, rest);
    var f := ReadFrame(w + rest).frame;
    HeaderHandled(s, b, n, f);
    assert w + rest != [] && (w + rest)[|w|..] == rest by { EmptyIsNoFrame(); }
    var s' := HandleFrame(s, b, f).s;
    PartsArrive(s', b, n, contents, Carried(props));
    SetTwice(s, n, s'.channels[n]);
    assert [] + (w + rest) == w + rest;
    if !s.closing {
      OpenInAnyChunks([], s, b, chunks);
    }
  }

  lemma PartsArrive(s: Session, b: Broker, n: nat, contents: seq<bytes>, headers: PropertyMap)
    requires n != 0 && n in s.channels && s.channels[n].WaitingBody? && s.channels[n].exchange in b.exchanges
    requires contents != [] && forall c | c in contents :: Encode(ContentBody(n, c)).Ok?
    requires s.channels[n].content == [] && s.channels[n].bodySize == |Join(contents)| &&
      s.channels[n].headers == headers
    ensures var o := Drain(Wire(BodyReplies(n, contents)), s, b);
      && o == Done([], SetChannel(s, n, ChannelOpened), o.b)
      && Logged(b, o.b, s.channels[n].exchange, Message(headers, Join(contents)))
  {
    hide Encode, Wire, Drain, Apply, Join, RunFrames, Parse, Needed, Logged, Bodies, BodyReplies;
    BodiesParsed(n, contents);
    DrainRunsFrames(Wire(BodyReplies(n, contents)), s, b);
    ExactReassembly(s, b, n, contents);
    WholeIsNeeded(contents);
    StoreLogs(b, s.channels[n].exchange, Message(headers, Join(contents)));
    assert [] + Join(contents) == Join(contents);
  }

  // ---- AMQPLAIN ----

  // The entries of a table of two strings, without the table's length prefix, are what dumps writes
  // for 'soSsoS': key, type code, value, twice over.
  lemma TwoEntriesFlat(k1: bytes, v1: bytes, k2: bytes, v2: bytes)
    requires WriteEntries([Entry(k1, Str(v1)), Entry(k2, Str(v2))]).Ok?
    ensures Dumps("soSsoS", [Str(k1), Int(LONG_STRING), Str(v1), Str(k2), Int(LONG_STRING), Str(v2)]) ==
      WriteEntries([Entry(k1, Str(v1)), Entry(k2, Str(v2))])
  {
    hide Pack, Dumps, WriteEntries, DumpOne;
    var n1, w1, rest1 := EntryWritten([Entry(k1, Str(v1)), Entry(k2, Str(v2))]);
    assert [Entry(k1, Str(v1)), Entry(k2, Str(v2))][1..] == [Entry(k2, Str(v2))];
    var n2, w2, rest2 := EntryWritten([Entry(k2, Str(v2))]);
    assert [Entry(k2, Str(v2))][1..] == [];
    NothingDumped();
    NoEntries();
    OneEntryFlat("", [], [], k2, v2, n2, w2);
    assert n2 + k2 + w2 + [] == n2 + k2 + w2;
    assert ['s', 'o', 'S'] + "" == "soS" && ['s', 'o', 'S'] + "soS" == "soSsoS";
    assert [Str(k2), Int(LONG_STRING), Str(v2)] + [] == [Str(k2), Int(LONG_STRING), Str(v2)];
    OneEntryFlat("soS", [Str(k2), Int(LONG_STRING), Str(v2)], n2 + k2 + w2, k1, v1, n1, w1);
    assert [Str(k1), Int(LONG_STRING), Str(v1)] + [Str(k2), Int(LONG_STRING), Str(v2)] ==
      [Str(k1), Int(LONG_STRING), Str(v1), Str(k2), Int(LONG_STRING), Str(v2)];
  }

  lemma OneEntryFlat(fmt: string, vals: seq<Value>, rest: bytes, k: bytes, v: bytes, n: bytes, w: bytes)
    requires Dumps(fmt, vals) == Ok(rest) && Pack(|k|, 1) == Ok(n) && WriteItem(Str(v)) == Ok(w)
    ensures Dumps(['s', 'o', 'S'] + fmt, [Str(k), Int(LONG_STRING), Str(v)] + vals) == Ok(n + k + w + rest)
  {
    hide Pack, Dumps;
    StringEntry(k, v, n, w);
    DumpsLetter('S', fmt, Str(v), vals);
    DumpsLetter('o', ['S'] + fmt, Int(LONG_STRING), [Str(v)] + vals);
    DumpsLetter('s', ['o'] + (['S'] + fmt), Str(k), [Int(LONG_STRING)] + ([Str(v)] + vals));
    assert ['s', 'o', 'S'] + fmt == ['s'] + (['o'] + (['S'] + fmt));
    assert [Str(k), Int(LONG_STRING), Str(v)] + vals == [Str(k)] + ([Int(LONG_STRING)] + ([Str(v)] + vals));
    assert n + k + ([LONG_STRING] + (w[1..] + rest)) == n + k + w + rest;
  }

  lemma StringEntry(k: bytes, v: bytes, n: bytes, w: bytes)
    requires Pack(|k|, 1) == Ok(n) && WriteItem(Str(v)) == Ok(w)
    ensures DumpOne('s', Str(k)) == Ok(n + k) && DumpOne('o', Int(LONG_STRING)) == Ok([LONG_STRING])
    ensures w == [LONG_STRING] + w[1..] && DumpOne('S', Str(v)) == Ok(w[1..])
  {
    WidthBounds();
    assert BigEndian(LONG_STRING, 1) == [LONG_STRING];
    var size := Pack(|v|, 4).value;
    assert w == [LONG_STRING] + size + v && w[1..] == size + v;
  }

  // The flat decoder finds the two values the recursive writer wrote, at positions 2 and 5.
  lemma AmqplainAgreesWithTableWriter(k1: bytes, v1: bytes, k2: bytes, v2: bytes)
    requires WriteEntries([Entry(k1, Str(v1)), Entry(k2, Str(v2))]).Ok?
    ensures DecodeAmqplain(WriteEntries([Entry(k1, Str(v1)), Entry(k2, Str(v2))]).value) ==
      Ok([Str(k1), Int(LONG_STRING), Str(v1), Str(k2), Int(LONG_STRING), Str(v2)])
  {
    hide Dumps, WriteEntries, Loads;
    var body := WriteEntries([Entry(k1, Str(v1)), Entry(k2, Str(v2))]).value;
    var vals := [Str(k1), Int(LONG_STRING), Str(v1), Str(k2), Int(LONG_STRING), Str(v2)];
    TwoEntriesFlat(k1, v1, k2, v2);
    RoundTripExactlyWhenRegular("soSsoS");
    assert Writable("soSsoS", vals);
    assert ReadsBackIn("soSsoS", vals, [], []);
    assert [] + body + [] == body;
    AllGiven("soSsoS", vals);
  }

  // So a start-ok that carries the table of login and password has exactly these two checked. The
  // response is decoded as text and encoded again on the way, which an octet above 127 would not
  // survive in a length.
  lemma AmqplainLoginChecked(s: Session, b: Broker, f: Frame, login: bytes, user: bytes, password: bytes, secret: bytes)
    requires |login| < 128 && |user| < 128 && |secret| < 128 && |password| < 128
    requires WriteEntries([Entry(login, Str(user)), Entry(secret, Str(password))]).Ok?
    requires f.MethodFrame? && f.call.StartOk? && f.channel == 0
    requires f.call.mechanism == [0x41, 0x4D, 0x51, 0x50, 0x4C, 0x41, 0x49, 0x4E]
    requires f.call.response == WriteEntries([Entry(login, Str(user)), Entry(secret, Str(password))]).value
    requires s.parser.WaitingStartOk?
    ensures OfferedCredentials(f) == Offered(user, password)
    ensures HandleFrame(s, b, f).s.trail == s.trail + [Checked(user, password, CredentialsAccepted(b, user, password))]
    ensures HandleFrame(s, b, f).s.parser.WaitingTuneOk? <==> CredentialsAccepted(b, user, password)
  {
    hide WriteEntries, DecodeAmqplain, Apply, Encode;
    AmqplainAgreesWithTableWriter(login, user, secret, password);
    assert AMQPLAIN == [0x41, 0x4D, 0x51, 0x50, 0x4C, 0x41, 0x49, 0x4E];
    assert AMQPLAIN != PLAIN by { assert |AMQPLAIN| == 8 && |PLAIN| == 5; }
    var fact := Checked(user, password, CredentialsAccepted(b, user, password));
    ConnectionRepliesWritten(ConnectionTune);
  }
}
