// The octets of a frame, one by one: its type, channel, size and end, and what stands in its payload.
module FrameOctets {
  import opened Wrappers
  import opened Bytes
  import opened Properties
  import opened Methods
  import opened Frames

  // Type, two octets of channel, four octets of payload size, the payload, 0xCE.
  lemma CutByOctets(buf: bytes)
    ensures |buf| < 7 ==> Cut(buf).Incomplete?
    ensures |buf| >= 7 ==>
      var size := 8 + Four(buf[3], buf[4], buf[5], buf[6]);
      Cut(buf) ==
        if |buf| < size then Incomplete
        else if buf[size - 1] != 0xCE then BadEnd
        else Envelope(buf[0], Two(buf[1], buf[2]), size, buf[7..size - 1])
  {
    hide FromBigEndian;
    if |buf| >= 7 {
      SmallNumbers(buf[1], buf[2], 0, 0);
      SmallNumbers(buf[3], buf[4], buf[5], buf[6]);
      assert buf[1..3] == [buf[1], buf[2]] && buf[3..7] == [buf[3], buf[4], buf[5], buf[6]];
    }
  }

  // 1 is a method, 2 a content header, 3 a content body and 8 a heartbeat; nothing else is known.
  lemma KindByOctet(buf: bytes)
    requires Cut(buf).Envelope?
    ensures var e, r := Cut(buf), ReadFrame(buf);
      && (e.kind == 1 ==> r.Bad? || (r.Found? && r.frame.MethodFrame? && r.frame.channel == e.channel))
      && (e.kind == 2 ==> r.Bad? || (r.Found? && r.frame.HeaderFrame? && r.frame.channel == e.channel))
      && (e.kind == 3 ==> r == Found(BodyFrame(e.channel, e.size, e.payload)))
      && (e.kind == 8 ==> r == Found(HeartBeat(e.size)))
      && (e.kind !in {1, 2, 3, 8} ==> r == NoFrame)
  {
    hide Cut, DecodeMethod, DecodeHeader;
  }

  lemma BadEndRaises(buf: bytes)
    requires |buf| >= 7
    requires var size := 8 + Four(buf[3], buf[4], buf[5], buf[6]); |buf| >= size && buf[size - 1] != 0xCE
    ensures ReadFrame(buf) == Bad(InvalidFrameError)
  {
    hide Cut;
    CutByOctets(buf);
  }

  // A content header: two octets of class, two unused, eight of body size, two of flags.
  lemma HeaderByOctets(buf: bytes)
    requires Cut(buf).Envelope? && Cut(buf).kind == 2
    ensures var e, p := Cut(buf), Cut(buf).payload;
      if |p| < 14 then ReadFrame(buf) == Bad(StructError)
      else
        var props := DecodeHeader(Two(p[12], p[13]), p, 14);
        ReadFrame(buf) ==
          if props.Raised? then Bad(props.error)
          else Found(HeaderFrame(e.channel, e.size, Two(p[0], p[1]), Eight(p[4..12]), props.value.value))
  {
    hide Cut, DecodeHeader, FromBigEndian, Eight, Two;
    var p := Cut(buf).payload;
    if |p| >= 14 {
      SmallNumbers(p[0], p[1], 0, 0);
      SmallNumbers(p[12], p[13], 0, 0);
      LargeNumber(p[4..12]);
      assert p[0..2] == [p[0], p[1]] && p[12..14] == [p[12], p[13]];
    }
  }

  // A method frame: four octets of method id.
  lemma MethodByOctets(buf: bytes)
    requires Cut(buf).Envelope? && Cut(buf).kind == 1
    ensures var e, p := Cut(buf), Cut(buf).payload;
      if |p| < 4 then ReadFrame(buf) == Bad(StructError)
      else
        var m := DecodeMethod(Four(p[0], p[1], p[2], p[3]), p);
        ReadFrame(buf) == if m.Raised? then Bad(m.error) else Found(MethodFrame(e.channel, e.size, m.value))
  {
    hide Cut, DecodeMethod, FromBigEndian, Four;
    var p := Cut(buf).payload;
    if |p| >= 4 {
      SmallNumbers(p[0], p[1], p[2], p[3]);
      assert p[0..4] == [p[0], p[1], p[2], p[3]];
    }
  }

  // What class and method octets stand for.
  predicate Stands(class_: byte, method_: byte, call: Method) {
    match call
    case StartOk(_, _, _, _) => class_ == 10 && method_ == 11
    case TuneOk(_, _, _) => class_ == 10 && method_ == 31
    case Open(_, _, _) => class_ == 10 && method_ == 40
    case Close => class_ == 10 && method_ == 50
    case ChannelOpen(_) => class_ == 20 && method_ == 10
    case ChannelClose(_, _, _, _) => class_ == 20 && method_ == 40
    case ExchangeDeclare(_, _) => class_ == 40 && method_ == 10
    case QueueDeclare(_) => class_ == 50 && method_ == 10
    case QueueBind(_, _, _) => class_ == 50 && method_ == 20
    case BasicQos(_, _, _) => class_ == 60 && method_ == 10
    case BasicConsume(_, _) => class_ == 60 && method_ == 20
    case BasicCancel(_) => class_ == 60 && method_ == 30
    case BasicPublish(_, _, _, _) => class_ == 60 && method_ == 40
    case BasicAck(_, _) => class_ == 60 && method_ == 80
    case BasicNack(_, _, _) => class_ == 60 && method_ == 120
  }

  // A method frame that is found carries the call its octets stand for.
  lemma MethodStandsForOctets(a: byte, b: byte, c: byte, d: byte, payload: bytes)
    ensures var m := DecodeMethod(Four(a, b, c, d), payload);
      m.Ok? ==> a == 0 && c == 0 && Stands(b, d, m.value)
  {
    hide Arguments;
  }

  // No other id is known.
  lemma OtherMethodsUnknown(id: nat, payload: bytes)
    requires id !in {0x000A_000B, 0x000A_001F, 0x000A_0028, 0x000A_0032, 0x0014_000A, 0x0014_0028, 0x0028_000A,
                     0x0032_000A, 0x0032_0014, 0x003C_000A, 0x003C_0014, 0x003C_001E, 0x003C_0028, 0x003C_0050,
                     0x003C_0078}
    ensures DecodeMethod(id, payload) == Raised(KeyError)
  {
    hide Arguments;
  }
}
