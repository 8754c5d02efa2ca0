// The octets of every reply, as a client finds them on the wire.
module ReplyOctets {
  import opened Wrappers
  import opened Bytes
  import opened Values
  import opened ArgumentCodec
  import opened ArgumentOctets
  import opened ArgumentRoundTrip
  import opened HeaderRoundTrip
  import opened Methods
  import opened Frames
  import opened Replies

  // A method frame with a payload of less than 65536 octets.
  function MethodOctets(channel: byte, classId: byte, methodId: byte, arguments: bytes): bytes
    requires |arguments| < 0xFF00
  {
    var size := 4 + |arguments|;
    [1, 0, channel, 0, 0, size / 256, size % 256, 0, classId, 0, methodId] + arguments + [0xCE]
  }

  lemma MethodWritten(r: Reply, classId: byte, methodId: byte, arguments: bytes)
    requires Kind(r) == 1 && ChannelOf(r) < 256 && |arguments| < 0xFF00 && !r.Broken?
    requires Payload(r) == Ok([0, classId, 0, methodId] + arguments)
    ensures Encode(r).Ok? && Written(r) == MethodOctets(ChannelOf(r), classId, methodId, arguments)
  {
    hide BigEndian, Payload, Kind, ChannelOf;
    WidthBounds();
    var size := 4 + |arguments|;
    FourOctetsOf(size, 0, 0, size / 256, size % 256);
    var head := [0, classId, 0, methodId];
    assert [1, 0, ChannelOf(r)] + [0, 0, size / 256, size % 256] + (head + arguments) + [0xCE] ==
      MethodOctets(ChannelOf(r), classId, methodId, arguments);
  }

  // ---- replies without arguments ----

  lemma BareReplies(r: Reply)
    requires ChannelOf(r) < 256
    ensures r.Heartbeat? ==> Written(r) == [8, 0, 0, 0, 0, 0, 0, 0xCE]
    ensures r.ConnectionCloseOk? ==> Written(r) == MethodOctets(0, 10, 51, [])
    ensures r.ChannelCloseOk? ==> Written(r) == MethodOctets(r.channel, 20, 41, [])
    ensures r.ExchangeDeclareOk? ==> Written(r) == MethodOctets(r.channel, 40, 11, [])
    ensures r.QueueBindOk? ==> Written(r) == MethodOctets(r.channel, 50, 21, [])
    ensures r.BasicQosOk? ==> Written(r) == MethodOctets(r.channel, 60, 11, [])
  {
    hide BigEndian, Encode, Written, MethodOctets;
    if r.Heartbeat? {
      HeartbeatWritten();
    } else if r.ConnectionCloseOk? {
      MethodWritten(r, 10, 51, []);
    } else if r.ChannelCloseOk? {
      MethodWritten(r, 20, 41, []);
    } else if r.ExchangeDeclareOk? {
      MethodWritten(r, 40, 11, []);
    } else if r.QueueBindOk? {
      MethodWritten(r, 50, 21, []);
    } else if r.BasicQosOk? {
      MethodWritten(r, 60, 11, []);
    }
  }

  lemma HeartbeatWritten()
    ensures Written(Heartbeat) == [8, 0, 0, 0, 0, 0, 0, 0xCE]
  {
    hide BigEndian;
    WidthBounds();
    FourOctetsOf(0, 0, 0, 0, 0);
  }

  // ---- replies with arguments ----

  // Tune: channel-max 0, frame-max 131072, heartbeat 10.
  lemma TuneWritten()
    ensures Written(ConnectionTune) == MethodOctets(0, 10, 30, [0, 0, 0, 2, 0, 0, 0, 10])
  {
    hide BigEndian, Dumps, Encode, Written, MethodOctets;
    WidthBounds();
    FewOctetsOf(10);
    FewOctetsOf(0);
    FourOctetsOf(131072, 0, 2, 0, 0);
    NothingDumped();
    var x, y, z := Int(0), Int(131072), Int(10);
    assert "BlB"[1..] == "lB" && "lB"[1..] == "B" && "B"[1..] == "";
    assert [x, y, z][1..] == [y, z] && [y, z][1..] == [z] && [z][1..] == [];
    assert [0, 10] + [] == [0, 10];
    InFront("B", [z], [0, 10], []);
    InFront("lB", [y, z], [0, 2, 0, 0], [0, 10]);
    InFront("BlB", [x, y, z], [0, 0], [0, 2, 0, 0] + [0, 10]);
    assert [0, 0] + ([0, 2, 0, 0] + [0, 10]) == [0, 0, 0, 2, 0, 0, 0, 10];
    MethodWritten(ConnectionTune, 10, 30, [0, 0, 0, 2, 0, 0, 0, 10]);
  }

  lemma OneShortText(text: bytes)
    requires |text| < 256
    ensures Dumps("s", [Str(text)]) == Ok([|text|] + text)
    ensures Dumps("S", [Str(text)]) == Ok([0, 0, 0, |text|] + text)
  {
    hide Dumps, DumpOne;
    StringsDumped(text);
    NothingDumped();
    assert "s"[1..] == "" && "S"[1..] == "" && [Str(text)][1..] == [];
    assert [|text|] + text + [] == [|text|] + text && [0, 0, 0, |text|] + text + [] == [0, 0, 0, |text|] + text;
    InFront("s", [Str(text)], [|text|] + text, []);
    InFront("S", [Str(text)], [0, 0, 0, |text|] + text, []);
  }

  // Open-ok of a connection with no known hosts, and of a channel with the id '42'.
  lemma OpenOksWritten(channel: byte)
    ensures Written(ConnectionOpenOk) == MethodOctets(0, 10, 41, [0])
    ensures Written(ChannelOpenOk(channel)) == MethodOctets(channel, 20, 11, [0, 0, 0, 2, 0x34, 0x32])
  {
    hide Dumps, Encode, Written, MethodOctets, DumpOne;
    OneShortText([]);
    OneShortText(Text("42"));
    assert Text("42") == [0x34, 0x32];
    assert [0] + [] == [0] && [0, 0, 0, 2] + [0x34, 0x32] == [0, 0, 0, 2, 0x34, 0x32];
    MethodWritten(ConnectionOpenOk, 10, 41, [0]);
    MethodWritten(ChannelOpenOk(channel), 20, 11, [0, 0, 0, 2, 0x34, 0x32]);
  }

  // Consume-ok and cancel-ok repeat the consumer tag.
  lemma TagsWritten(channel: byte, tag: bytes)
    requires |tag| < 256
    ensures Written(BasicConsumeOk(channel, tag)) == MethodOctets(channel, 60, 21, [|tag|] + tag)
    ensures Written(BasicCancelOk(channel, tag)) == MethodOctets(channel, 60, 31, [|tag|] + tag)
  {
    hide Dumps, Encode, Written, MethodOctets;
    OneShortText(tag);
    MethodWritten(BasicConsumeOk(channel, tag), 60, 21, [|tag|] + tag);
    MethodWritten(BasicCancelOk(channel, tag), 60, 31, [|tag|] + tag);
  }

  // Queue-declare-ok repeats the name of the queue, then the two counts.
  lemma QueueDeclareOkWritten(channel: byte, queue: bytes)
    requires |queue| < 256
    ensures Written(QueueDeclareOk(channel, queue, 0, 0)) ==
      MethodOctets(channel, 50, 11, [|queue|] + queue + [0, 0, 0, 0, 0, 0, 0, 0])
  {
    hide BigEndian, Dumps, Encode, Written, MethodOctets;
    WidthBounds();
    FourOctetsOf(0, 0, 0, 0, 0);
    StringsDumped(queue);
    NothingDumped();
    var q, z := Str(queue), Int(0);
    var zeros := [0, 0, 0, 0];
    assert "sll"[1..] == "ll" && "ll"[1..] == "l" && "l"[1..] == "";
    assert [q, z, z][1..] == [z, z] && [z, z][1..] == [z] && [z][1..] == [];
    assert zeros + [] == zeros && zeros + zeros == [0, 0, 0, 0, 0, 0, 0, 0];
    InFront("l", [z], zeros, []);
    InFront("ll", [z, z], zeros, zeros);
    InFront("sll", [q, z, z], [|queue|] + queue, zeros + zeros);
    var arguments := [|queue|] + queue + [0, 0, 0, 0, 0, 0, 0, 0];
    MethodWritten(QueueDeclareOk(channel, queue, 0, 0), 50, 11, arguments);
  }

  // The content frames: type 2 and 3, the body as it is.
  lemma ContentWritten(r: Reply)
    requires Encode(r).Ok?
    ensures r.ContentHeader? ==> |Written(r)| >= 3 && Written(r)[..3] == [2, 0, r.channel]
    ensures r.ContentBody? && |r.body| < 0x1_0000 ==>
      Written(r) == [3, 0, r.channel, 0, 0, |r.body| / 256, |r.body| % 256] + r.body + [0xCE]
  {
    hide BigEndian, HeaderArguments;
    WidthBounds();
    if r.ContentBody? && |r.body| < 0x1_0000 {
      FourOctetsOf(|r.body|, 0, 0, |r.body| / 256, |r.body| % 256);
    }
  }

  // Why a reply cannot be written: a channel above 255 is a ValueError, for a method frame only once its
  // arguments are laid out; what does not fit is the error of dumps or a StructError.
  lemma RepliesRaise(r: Reply)
    ensures ChannelOf(r) >= 256 && (Kind(r) != 1 || Payload(r).Ok?) && !r.Broken? ==> Encode(r) == Raised(ValueError)
    ensures Payload(r).Raised? && (Kind(r) == 1 || ChannelOf(r) < 256) && !r.Broken? ==>
              Encode(r) == Raised(Payload(r).error)
    ensures Payload(r).Ok? && |Payload(r).value| >= 0x1_0000_0000 && ChannelOf(r) < 256 && !r.Broken? ==>
      Encode(r) == Raised(StructError)
  {
    hide Payload, BigEndian;
    WidthBounds();
  }

  // What a push that broke off leaves.
  lemma UnfinishedWritten(channel: byte)
    ensures Written(Broken(HEADER_FRAME, channel)) == [2, 0, channel]
    ensures Written(Broken(BODY_FRAME, channel)) == [3, 0, channel]
  {
  }

  // ---- start ----

  predicate Has(v: Value, key: bytes, value: Value) {
    v.Table? && Entry(key, value) in v.entries
  }

  // Start: version 0-9, the peer properties, the mechanisms "PLAIN AMQPLAIN" and the locale "en_US".
  lemma StartRead()
    ensures Encode(ConnectionStart).Ok?
    ensures var payload := Payload(ConnectionStart).value;
      && |payload| >= 4 && payload[..4] == [0, 10, 0, 10]
      && Arguments("ooFSS", payload) ==
         Ok([Int(0), Int(9), PeerProperties(),
             Str([80, 76, 65, 73, 78, 32, 65, 77, 81, 80, 76, 65, 73, 78]), Str([101, 110, 95, 85, 83])])
  {
    hide Regular, LoadsFrom, DumpsFrom, Fits, FitsAll, PeerProperties, Text, Envelop;
    ConnectionRepliesWritten(ConnectionStart);
    StartFits();
    var mechanisms, locale := Text("PLAIN AMQPLAIN"), Text("en_US");
    StartTexts();
    var vals := [Int(0), Int(9), PeerProperties(), Str(mechanisms), Str(locale)];
    var payload, w := Payload(ConnectionStart).value, Dumps("ooFSS", vals).value;
    assert payload == [0, 10, 0, 10] + w;
    AtSplit(payload, 0, [0, 10, 0, 10], w);
    ShortFormat("ooFSS", 0);
    PeerPropertiesWellFormed();
    LoadsUndoesDumps("ooFSS", vals, [], 0, payload, 4);
    AllGiven("ooFSS", vals);
  }

  lemma StartTexts()
    ensures Text("PLAIN AMQPLAIN") == [80, 76, 65, 73, 78, 32, 65, 77, 81, 80, 76, 65, 73, 78]
    ensures Text("en_US") == [101, 110, 95, 85, 83]
  {
  }

  lemma {:induction false} PairwiseDistinct(es: seq<Entry>)
    requires forall i, j :: 0 <= i < j < |es| ==> es[i].key != es[j].key
    ensures DistinctKeys(es)
  {
    if es != [] {
      PairwiseDistinct(es[1..]);
    }
  }

  lemma CharOf(s: string, i: nat)
    requires i < |s|
    ensures Text(s)[i] == s[i] as int % 256
  {
  }

  lemma CapabilityKeysDiffer()
    ensures forall i, j :: 0 <= i < j < 9 ==> Capabilities().entries[i].key != Capabilities().entries[j].key
  {
    hide Text;
    CharOf("publisher_confirms", 0);
    CharOf("connection.blocked", 0);
  }

  lemma PeerKeysDiffer()
    ensures forall i, j :: 0 <= i < j < 7 ==> PeerProperties().entries[i].key != PeerProperties().entries[j].key
  {
    hide Text, Capabilities;
    CharOf("capabilities", 1);
    CharOf("cluster_name", 1);
    CharOf("product", 0);
    CharOf("version", 0);
  }

  // A table of distinct keys whose values are well formed.
  lemma TableWellFormed(v: Value)
    requires v.Table? && DistinctKeys(v.entries) && forall i :: 0 <= i < |v.entries| ==> WellFormed(v.entries[i].value)
    ensures WellFormed(v)
  {
    hide DistinctKeys;
  }

  lemma PeerPropertiesWellFormed()
    ensures PeerProperties().Table? && WellFormed(PeerProperties())
  {
    hide Text, DistinctKeys, WellFormed, Capabilities;
    CapabilitiesWellFormed();
    TextsWellFormed();
    PeerKeysDiffer();
    PairwiseDistinct(PeerProperties().entries);
    TableWellFormed(PeerProperties());
  }

  lemma TextsWellFormed()
    ensures forall s :: WellFormed(Str(s))
    ensures WellFormed(Bool(true))
  {
  }

  lemma CapabilitiesWellFormed()
    ensures Capabilities().Table? && WellFormed(Capabilities())
  {
    hide Text, DistinctKeys, WellFormed;
    TextsWellFormed();
    CapabilityKeysDiffer();
    PairwiseDistinct(Capabilities().entries);
    TableWellFormed(Capabilities());
  }

  // The peer properties say which server is mocked and what it can do.
  lemma PeerPropertiesSay()
    ensures Has(PeerProperties(), Text("product"), Str(Text("RabbitMQ")))
    ensures Has(PeerProperties(), Text("version"), Str(Text("3.7.4")))
    ensures Has(PeerProperties(), Text("cluster_name"), Str(Text("rabbit@60b584cb4c1b")))
    ensures Has(PeerProperties(), Text("platform"), Str(Text("Erlang/OTP 20.2.4")))
    ensures Has(PeerProperties(), Text("copyright"), Str(Text("Copyright (C) 2007-2018 Pivotal Software, Inc.")))
    ensures Has(PeerProperties(), Text("information"),
                Str(Text("Licensed under the MPL.  See http://www.rabbitmq.com/")))
    ensures Has(PeerProperties(), Text("capabilities"), Capabilities()) && |PeerProperties().entries| == 7
    ensures forall key | key in {"authentication_failure_close", "consumer_priorities", "exchange_exchange_bindings",
      "direct_reply_to", "per_consumer_qos", "basic.nack", "publisher_confirms", "consumer_cancel_notify",
      "connection.blocked"} :: Has(Capabilities(), Text(key), Bool(true))
    ensures |Capabilities().entries| == 9
  {
    hide Text;
    var p, c := PeerProperties().entries, Capabilities().entries;
    assert p[0] in p && p[1] in p && p[2] in p && p[3] in p && p[4] in p && p[5] in p && p[6] in p;
    assert c[0] in c && c[1] in c && c[2] in c && c[3] in c && c[4] in c;
    assert c[5] in c && c[6] in c && c[7] in c && c[8] in c;
  }
}
