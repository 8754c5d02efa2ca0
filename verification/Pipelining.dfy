// Clients that do not wait for an answer, byte by byte: a tune-ok behind a start-ok, and a publish
// behind the close of another channel, show the cut between two calls of data_received.
module Pipelining {
  import opened Wrappers
  import opened Bytes
  import opened Values
  import opened ArgumentCodec
  import opened ArgumentOctets
  import opened ArgumentRoundTrip
  import opened Methods
  import opened Frames
  import opened Replies
  import opened Requests
  import opened Broker
  import opened Session
  import opened Chunks
  import opened Login
  import opened Channels

  // ---- the bytes ----

  const START_OK_BYTES: bytes := [
    1, 0, 0, 0, 0, 0, 31, 0, 10, 0, 11,
    0, 0, 0, 0,
    5, 80, 76, 65, 73, 78,
    0, 0, 0, 12, 0, 103, 117, 101, 115, 116, 0, 103, 117, 101, 115, 116,
    0,
    0xCE]

  const TUNE_OK_BYTES: bytes := [1, 0, 0, 0, 0, 0, 12, 0, 10, 0, 31, 0, 10, 0, 2, 0, 0, 0, 0, 0xCE]

  // No client properties, PLAIN, guest and guest, no locale.
  function GuestStartOk(): Request {
    Request.StartOk([], PLAIN, [0] + GUEST + [0] + GUEST, [])
  }

  function UsualTuneOk(): Request {
    Request.TuneOk(10, 131072, 0)
  }

  function GuestArguments(): bytes {
    [0, 0, 0, 0] + ([5] + PLAIN + ([0, 0, 0, 12] + ([0] + GUEST + [0] + GUEST) + [0]))
  }

  lemma StartOkArguments()
    ensures Dumps("FsSs", [Table([]), Str(PLAIN), Str([0] + GUEST + [0] + GUEST), Str([])]) == Ok(GuestArguments())
  {
    hide Dumps, DumpOne, Text;
    var response := [0] + GUEST + [0] + GUEST;
    StringsDumped([]);
    StringsDumped(response);
    StringsDumped(PLAIN);
    NothingDumped();
    var v1, v2, v3, v4 := Table([]), Str(PLAIN), Str(response), Str([]);
    assert "FsSs"[1..] == "sSs" && "sSs"[1..] == "Ss" && "Ss"[1..] == "s" && "s"[1..] == "";
    assert [v1, v2, v3, v4][1..] == [v2, v3, v4] && [v2, v3, v4][1..] == [v3, v4];
    assert [v3, v4][1..] == [v4] && [v4][1..] == [];
    assert [0] + [] == [0] && [0] + [] + [] == [0];
    InFront("s", [v4], [0], []);
    InFront("Ss", [v3, v4], [0, 0, 0, 12] + response, [0]);
    InFront("sSs", [v2, v3, v4], [5] + PLAIN, [0, 0, 0, 12] + response + [0]);
    InFront("FsSs", [v1, v2, v3, v4], [0, 0, 0, 0], [5] + PLAIN + ([0, 0, 0, 12] + response + [0]));
  }

  lemma GuestOctets()
    ensures [1, 0, 0, 0, 0, 0, 31, 0, 10, 0, 11] + GuestArguments() + [0xCE] == START_OK_BYTES
    ensures |GuestArguments()| == 27
  {
    assert PLAIN == [80, 76, 65, 73, 78];
  }

  lemma StartOkBytes()
    ensures Laid(0, GuestStartOk()) == Ok(START_OK_BYTES)
  {
    hide Dumps, BigEndian, Envelop, GuestArguments;
    StartOkArguments();
    GuestOctets();
    Enveloped(0, 0, 10, 0, 11, GuestArguments(), 31);
  }

  lemma Enveloped(channel: byte, a: byte, b: byte, c: byte, d: byte, arguments: bytes, size: byte)
    requires size == |arguments| + 4
    ensures Envelop(METHOD_FRAME, channel, [a, b, c, d] + arguments) ==
      Ok([1, 0, channel, 0, 0, 0, size, a, b, c, d] + arguments + [0xCE])
  {
    hide BigEndian;
    WidthBounds();
    FourOctetsOf(size, 0, 0, 0, size);
    assert [1, 0, channel] + [0, 0, 0, size] + ([a, b, c, d] + arguments) + [0xCE] ==
      [1, 0, channel, 0, 0, 0, size, a, b, c, d] + arguments + [0xCE];
  }

  lemma TuneOkBytes()
    ensures Laid(0, UsualTuneOk()) == Ok(TUNE_OK_BYTES)
  {
    hide Dumps, BigEndian;
    WidthBounds();
    FewOctetsOf(10);
    FewOctetsOf(0);
    FourOctetsOf(131072, 0, 2, 0, 0);
    NothingDumped();
    assert "BlB"[1..] == "lB" && "lB"[1..] == "B" && "B"[1..] == "";
    assert [Int(10), Int(131072), Int(0)][1..] == [Int(131072), Int(0)] && [Int(131072), Int(0)][1..] == [Int(0)];
    assert [Int(0)][1..] == [];
    assert [0, 0] + [] == [0, 0];
    InFront("B", [Int(0)], [0, 0], []);
    InFront("lB", [Int(131072), Int(0)], [0, 2, 0, 0], [0, 0]);
    InFront("BlB", [Int(10), Int(131072), Int(0)], [0, 10], [0, 2, 0, 0] + [0, 0]);
    var arguments := [0, 10] + ([0, 2, 0, 0] + [0, 0]);
    Enveloped(0, 0, 10, 0, 31, arguments, 12);
    assert [1, 0, 0, 0, 0, 0, 12, 0, 10, 0, 31] + arguments + [0xCE] == TUNE_OK_BYTES;
    assert ArgumentsLaid(UsualTuneOk()) == Ok([0, 10, 0, 31] + arguments);
  }

  // While start-ok is expected and guest has the password guest: the two frames in one call leave
  // tune-ok lying in the buffer, in two calls it is handled. The transport stays open both times.
  lemma CutBehindStartOk(s: Session, b: Broker)
    requires s.parser.WaitingStartOk? && CredentialsAccepted(b, GUEST, GUEST)
    ensures var one := DataReceived([], s, b, START_OK_BYTES + TUNE_OK_BYTES);
      var first := DataReceived([], s, b, START_OK_BYTES);
      var second := DataReceived(first.buffer, first.s, first.b, TUNE_OK_BYTES);
      && one.Left? && one.s.parser == WaitingTuneOk && one.buffer == TUNE_OK_BYTES && one.s.closing == s.closing
      && first.Left? && first.s == one.s
      && second.Done? && second.s.parser == WaitingOpen && second.buffer == [] && second.s.closing == s.closing
  {
    hide Laid, ReadFrame, CallOf;
    var w, z := START_OK_BYTES, TUNE_OK_BYTES;
    StartOkBytes();
    TuneOkBytes();
    RequestFound(0, GuestStartOk(), []);
    RequestFound(0, UsualTuneOk(), []);
    assert w + [] == w && z + [] == z;
    var f, g := ReadFrame(w).frame, ReadFrame(z).frame;
    GuestOffers(f);
    StartOkThenMore(s, b, w, f, z);
    var o := DataReceived([], s, b, w);
    TuneOkHandled(o.s, o.b, z, g);
  }

  lemma GuestOffers(f: Frame)
    requires f.MethodFrame? && f.call == CallOf(GuestStartOk())
    ensures f.call.StartOk? && OfferedCredentials(f) == Offered(GUEST, GUEST)
  {
    hide OfferedCredentials;
    assert [0] + GUEST + [0] + GUEST == [] + [0] + (GUEST + [0] + GUEST);
    PlainOffers(f, [], GUEST, GUEST);
  }

  lemma TuneOkHandled(s: Session, b: Broker, z: bytes, g: Frame)
    requires s.parser.WaitingTuneOk? && ReadFrame(z) == Found(g) && g.size == |z|
    requires g.MethodFrame? && g.channel == 0 && g.call == CallOf(UsualTuneOk())
    ensures var o := DataReceived([], s, b, z);
      o.Done? && o.s.parser == WaitingOpen && o.buffer == [] && o.s.closing == s.closing
  {
    hide ReadFrame;
    assert [] + z == z && z[|z|..] == [];
    EmptyIsNoFrame();
    var step := HandleFrame(s, b, g);
    assert Drain(z, s, b) == Drain([], step.s, step.b);
  }

  // ---- a publish behind the close of another channel ----

  // Closing channel 1 with code 200 and no text; publishing on channel 2 to the default exchange.
  const CHANNEL_CLOSE_BYTES: bytes := [
    1, 0, 1, 0, 0, 0, 11, 0, 20, 0, 40,
    0, 200, 0, 0, 0, 0, 0,
    0xCE]

  const PUBLISH_BYTES: bytes := [1, 0, 2, 0, 0, 0, 9, 0, 60, 0, 40, 0, 0, 0, 0, 0, 0xCE]

  function PlainClose(): Request {
    Request.ChannelClose(200, [], 0, 0)
  }

  function PlainPublish(): Request {
    Request.BasicPublish(0, [], [], false, false)
  }

  lemma ChannelCloseBytes()
    ensures Laid(1, PlainClose()) == Ok(CHANNEL_CLOSE_BYTES)
  {
    hide Dumps, BigEndian;
    WidthBounds();
    FewOctetsOf(200);
    FewOctetsOf(0);
    NothingDumped();
    StringsDumped([]);
    var n, t, z := Int(200), Str([]), Int(0);
    assert "BsBB"[1..] == "sBB" && "sBB"[1..] == "BB" && "BB"[1..] == "B" && "B"[1..] == "";
    assert [n, t, z, z][1..] == [t, z, z] && [t, z, z][1..] == [z, z] && [z, z][1..] == [z] && [z][1..] == [];
    assert [0, 0] + [] == [0, 0] && [0] + [] == [0];
    InFront("B", [z], [0, 0], []);
    InFront("BB", [z, z], [0, 0], [0, 0]);
    InFront("sBB", [t, z, z], [0], [0, 0] + [0, 0]);
    InFront("BsBB", [n, t, z, z], [0, 200], [0] + ([0, 0] + [0, 0]));
    var arguments := [0, 200] + ([0] + ([0, 0] + [0, 0]));
    Enveloped(1, 0, 20, 0, 40, arguments, 11);
    assert [1, 0, 1, 0, 0, 0, 11, 0, 20, 0, 40] + arguments + [0xCE] == CHANNEL_CLOSE_BYTES;
    assert ArgumentsLaid(PlainClose()) == Ok([0, 20, 0, 40] + arguments);
  }

  lemma PublishBytes()
    ensures Laid(2, PlainPublish()) == Ok(PUBLISH_BYTES)
  {
    hide Dumps, BigEndian;
    WidthBounds();
    FewOctetsOf(0);
    StringsDumped([]);
    TwoBits();
    var z, t, f := Int(0), Str([]), Bool(false);
    assert "Bssbb"[1..] == "ssbb" && "ssbb"[1..] == "sbb" && "sbb"[1..] == "bb";
    assert [z, t, t, f, f][1..] == [t, t, f, f] && [t, t, f, f][1..] == [t, f, f] && [t, f, f][1..] == [f, f];
    assert [0] + [] == [0];
    InFront("sbb", [t, f, f], [0], [0]);
    InFront("ssbb", [t, t, f, f], [0], [0] + [0]);
    InFront("Bssbb", [z, t, t, f, f], [0, 0], [0] + ([0] + [0]));
    var arguments := [0, 0] + ([0] + ([0] + [0]));
    Enveloped(2, 0, 60, 0, 40, arguments, 9);
    assert [1, 0, 2, 0, 0, 0, 9, 0, 60, 0, 40] + arguments + [0xCE] == PUBLISH_BYTES;
    assert ArgumentsLaid(PlainPublish()) == Ok([0, 60, 0, 40] + arguments);
  }

  // With channels 1 and 2 open: in one call the close of channel 1 does not keep the publish behind it
  // from being handled; cut between the two frames, the transport is closing before the publish is
  // handed over.
  lemma CutBehindChannelClose(s: Session, b: Broker)
    requires Rank(s.parser) >= Rank(WaitingTuneOk) && !s.closing
    requires Look(s, 1) == Some(ChannelOpened) && Look(s, 2) == Some(ChannelOpened)
    ensures var w, z := CHANNEL_CLOSE_BYTES, PUBLISH_BYTES;
      var one, two := Feed([], s, b, [w + z]), Feed([], s, b, [w, z]);
      && one.outcome.Done? && one.rest == [] && Look(one.outcome.s, 2) == Some(WaitingHeader([], []))
      && two.outcome.Done? && two.rest == z && Look(two.outcome.s, 2) == Some(ChannelOpened)
      && one.outcome.s.closing && two.outcome.s.closing && !ClosesLast(w + z, s, b)
  {
    hide ReadFrame, HandleFrame, Feed, ClosesLast;
    var w, z := CHANNEL_CLOSE_BYTES, PUBLISH_BYTES;
    CloseFound(z);
    CloseFound([]);
    PublishFound();
    assert w + [] == w;
    var f, g := ReadFrame(w).frame, ReadFrame(z).frame;
    CloseHandled(s, b, f);
    PublishHandled(HandleFrame(s, b, f).s, b, g);
    ClosedBetween(s, b, w, z, f, g);
  }

  lemma CloseFound(rest: bytes)
    ensures ReadFrame(CHANNEL_CLOSE_BYTES + rest) ==
      Found(MethodFrame(1, |CHANNEL_CLOSE_BYTES|, Method.ChannelClose(200, [], 0, 0)))
  {
    hide ReadFrame, Laid;
    ChannelCloseBytes();
    RequestFound(1, PlainClose(), rest);
  }

  lemma PublishFound()
    ensures ReadFrame(PUBLISH_BYTES) ==
      Found(MethodFrame(2, |PUBLISH_BYTES|, Method.BasicPublish([], [], false, false)))
  {
    hide ReadFrame, Laid;
    PublishBytes();
    RequestFound(2, PlainPublish(), []);
    assert PUBLISH_BYTES + [] == PUBLISH_BYTES;
  }

  // Two frames, the first of which closes the transport without ending the loop.
  lemma ClosedBetween(s: Session, b: Broker, w: bytes, z: bytes, f: Frame, g: Frame)
    requires !s.parser.WaitingProtocolHeader? && w != [] && z != []
    requires ReadFrame(w) == Found(f) && ReadFrame(w + z) == Found(f) && f.size == |w|
    requires ReadFrame(z) == Found(g) && g.size == |z|
    requires var x := HandleFrame(s, b, f); x.Next? && x.s.closing && HandleFrame(x.s, x.b, g).Next?
    ensures var x := HandleFrame(s, b, f);
      var y := HandleFrame(x.s, x.b, g);
      && Feed([], s, b, [w + z]) == Fed(Done([], y.s, y.b), [])
      && Feed([], s, b, [w, z]) == Fed(Done([], x.s, x.b), z)
      && !ClosesLast(w + z, s, b)
  {
    hide ReadFrame, HandleFrame, Drain;
    var x := HandleFrame(s, b, f);
    DrainOne(w, s, b, f);
    DrainOne(z, x.s, x.b, g);
    DrainPast(w, z, s, b, f);
    assert [] + w == w && [] + (w + z) == w + z;
    assert [w, z][1..] == [z] && [w + z][1..] == [];
    JoinOne(z);
  }

  lemma CloseHandled(s: Session, b: Broker, f: Frame)
    requires f.MethodFrame? && f.channel == 1 && f.call.ChannelClose? && Look(s, 1) == Some(ChannelOpened)
    ensures HandleFrame(s, b, f) ==
      Next(Shut(s.(channels := s.channels - {1}, sent := s.sent + [ChannelCloseOk(1)])), b)
  {
    hide Encode;
    AnswerGoesOut(s.(channels := s.channels - {1}), b, ChannelCloseOk(1));
  }

  lemma PublishHandled(s: Session, b: Broker, g: Frame)
    requires g.MethodFrame? && g.channel == 2 && g.call == Method.BasicPublish([], [], false, false)
    requires Look(s, 2) == Some(ChannelOpened)
    ensures HandleFrame(s, b, g) == Next(SetChannel(s, 2, WaitingHeader([], [])), b)
  {
  }

  lemma DrainOne(w: bytes, s: Session, b: Broker, f: Frame)
    requires w != [] && ReadFrame(w) == Found(f) && f.size == |w| && HandleFrame(s, b, f).Next?
    ensures Drain(w, s, b) == Done([], HandleFrame(s, b, f).s, HandleFrame(s, b, f).b)
  {
    hide ReadFrame, HandleFrame;
    var step := HandleFrame(s, b, f);
    assert w[|w|..] == [] && Drain([], step.s, step.b) == Done([], step.s, step.b);
  }

  lemma DrainPast(w: bytes, z: bytes, s: Session, b: Broker, f: Frame)
    requires w != [] && ReadFrame(w + z) == Found(f) && f.size == |w| && HandleFrame(s, b, f).Next?
    ensures var step := HandleFrame(s, b, f);
      && Drain(w + z, s, b) == Drain(z, step.s, step.b)
      && (step.s.closing && !ReadFrame(z).NoFrame? ==> !ClosesLast(w + z, s, b))
  {
    hide ReadFrame, HandleFrame;
    assert (w + z)[|w|..] == z && w + z != [];
  }
}
