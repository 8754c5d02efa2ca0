// read_frame: cutting one frame off the front of a growing buffer.
module Frames {
  import opened Wrappers
  import opened Bytes
  import opened Properties
  import opened Methods

  const FRAME_HEADER_SIZE := 7
  const FRAME_END_SIZE := 1
  const FRAME_END: byte := 0xCE

  const METHOD_FRAME: byte := 1
  const HEADER_FRAME: byte := 2
  const BODY_FRAME: byte := 3
  const HEARTBEAT_FRAME: byte := 8

  datatype Frame =
    | MethodFrame(channel: nat, size: nat, call: Method)
    | HeaderFrame(channel: nat, size: nat, classId: nat, bodySize: nat, properties: PropertyMap)
    | BodyFrame(channel: nat, size: nat, content: bytes)
    | HeartBeat(size: nat)

  datatype FrameResult = NoFrame | Found(frame: Frame) | Bad(error: Error)

  // The envelope of the frame at the front: its type, channel and payload, and where it ends.
  datatype Envelope = Incomplete | BadEnd | Envelope(kind: byte, channel: nat, size: nat, payload: bytes)

  function Cut(buf: bytes): (e: Envelope)
    ensures e.Envelope? ==> FRAME_HEADER_SIZE + FRAME_END_SIZE <= e.size <= |buf|
    ensures e.Envelope? ==> |e.payload| == e.size - FRAME_HEADER_SIZE - FRAME_END_SIZE && e.channel < 0x1_0000
  {
    if |buf| < FRAME_HEADER_SIZE then Incomplete
    else
      WidthBounds();
      var size := FRAME_HEADER_SIZE + Number(buf[3..7]) + FRAME_END_SIZE;
      if size > |buf| then Incomplete
      else if buf[size - 1] != FRAME_END then BadEnd
      else Envelope(buf[0], Number(buf[1..3]), size, buf[FRAME_HEADER_SIZE..size - 1])
  }

  function Number(s: bytes): (n: nat)
    ensures n < Pow256(|s|)
  {
    FromBigEndian(s)
  }

  // An unknown frame type is not an error: read_frame falls off its end and returns None.
  function Open(e: Envelope): (r: FrameResult)
    requires e.Envelope?
    ensures r.Found? ==> r.frame.size == e.size
  {
    if e.kind == METHOD_FRAME then OpenMethod(e)
    else if e.kind == HEARTBEAT_FRAME then Found(HeartBeat(e.size))
    else if e.kind == HEADER_FRAME then OpenHeader(e)
    else if e.kind == BODY_FRAME then Found(BodyFrame(e.channel, e.size, e.payload))
    else NoFrame
  }

  function OpenMethod(e: Envelope): (r: FrameResult)
    requires e.Envelope?
    ensures r.Found? ==> r.frame.MethodFrame? && r.frame.size == e.size && ShortNames(r.frame.call)
  {
    var id := Unpack(e.payload, 0, 4);
    if id.Raised? then Bad(id.error)
    else
      var m := DecodeMethod(id.value, e.payload);
      if m.Raised? then Bad(m.error) else Found(MethodFrame(e.channel, e.size, m.value))
  }

  function OpenHeader(e: Envelope): (r: FrameResult)
    requires e.Envelope?
    ensures r.Found? ==> r.frame.HeaderFrame? && r.frame.size == e.size
  {
    if |e.payload| < 14 then Bad(StructError)
    else
      InBounds(e.payload, 0, 2);
      InBounds(e.payload, 4, 8);
      InBounds(e.payload, 12, 2);
      var classId, bodySize := Unpack(e.payload, 0, 2).value, Unpack(e.payload, 4, 8).value;
      var p := DecodeHeader(Unpack(e.payload, 12, 2).value, e.payload, 14);
      if p.Raised? then Bad(p.error) else Found(HeaderFrame(e.channel, e.size, classId, bodySize, p.value.value))
  }

  function ReadFrame(buf: bytes): (r: FrameResult)
    ensures r.Found? ==> 0 < r.frame.size <= |buf|
    ensures r.Found? && r.frame.MethodFrame? ==> ShortNames(r.frame.call)
  {
    match Cut(buf)
    case Incomplete => NoFrame
    case BadEnd => Bad(InvalidFrameError)
    case Envelope(_, _, _, _) => Open(Cut(buf))
  }

  // ---- a frame once found stays the same when bytes arrive behind it ----

  lemma CutStable(buf: bytes, more: bytes)
    requires !Cut(buf).Incomplete?
    ensures Cut(buf + more) == Cut(buf)
  {
    hide Number;
    var all := buf + more;
    assert all[1..3] == buf[1..3] && all[3..7] == buf[3..7];
    var size := FRAME_HEADER_SIZE + Number(buf[3..7]) + FRAME_END_SIZE;
    assert all[FRAME_HEADER_SIZE..size - 1] == buf[FRAME_HEADER_SIZE..size - 1];
  }

  // Nor does it need the bytes behind it.
  lemma CutAlone(buf: bytes, k: nat)
    requires Cut(buf).Envelope? && Cut(buf).size <= k <= |buf|
    ensures Cut(buf[..k]) == Cut(buf)
  {
    hide Number;
    var front := buf[..k];
    assert front[1..3] == buf[1..3] && front[3..7] == buf[3..7];
    var size := Cut(buf).size;
    assert front[FRAME_HEADER_SIZE..size - 1] == buf[FRAME_HEADER_SIZE..size - 1];
  }

  // A frame is found by its own octets.
  lemma FrameAlone(buf: bytes, k: nat)
    requires ReadFrame(buf).Found? && ReadFrame(buf).frame.size <= k <= |buf|
    ensures ReadFrame(buf[..k]) == ReadFrame(buf)
  {
    hide Open;
    CutAlone(buf, k);
  }

  lemma FrameStable(buf: bytes, more: bytes)
    requires !ReadFrame(buf).NoFrame?
    ensures ReadFrame(buf + more) == ReadFrame(buf)
    ensures ReadFrame(buf).Found? ==>
      (buf + more)[ReadFrame(buf).frame.size..] == buf[ReadFrame(buf).frame.size..] + more
  {
    hide Open;
    CutStable(buf, more);
  }

  // Waiting for more bytes, or a type that read_frame does not know: it cannot be told which.
  lemma NoFrameExactly(buf: bytes)
    ensures ReadFrame(buf).NoFrame? <==>
      || Cut(buf).Incomplete?
      || (Cut(buf).Envelope? && Cut(buf).kind !in {METHOD_FRAME, HEADER_FRAME, BODY_FRAME, HEARTBEAT_FRAME})
  {
    hide Cut, DecodeMethod, DecodeHeader;
  }
}
