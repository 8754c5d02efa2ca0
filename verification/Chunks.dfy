// The way the network cuts the stream into chunks does not matter.
module Chunks {
  import opened Bytes
  import opened Frames
  import opened Replies
  import opened Senders
  import opened Broker
  import opened Session

  function WithMore(o: Outcome, more: bytes): Outcome {
    o.(buffer := o.buffer + more)
  }

  // Bytes that arrive behind the ones being drained: they are drained next if the loop would have
  // waited for them, and are left in the buffer otherwise.
  lemma {:induction false} DrainMore(buffer: bytes, s: Session, b: Broker, more: bytes)
    ensures var o := Drain(buffer, s, b);
      Drain(buffer + more, s, b) == if o.Done? then Drain(o.buffer + more, o.s, o.b) else WithMore(o, more)
    decreases |buffer|
  {
    hide HandleFrame, ReadFrame;
    if buffer != [] && !ReadFrame(buffer).NoFrame? {
      FrameStable(buffer, more);
      assert buffer + more != [];
      if ReadFrame(buffer).Found? {
        var f := ReadFrame(buffer).frame;
        var step := HandleFrame(s, b, f);
        if step.Next? {
          DrainMore(buffer[f.size..], step.s, step.b, more);
        }
      }
    }
  }

  // Two calls against one call on the joined bytes, in every state after the protocol header.
  lemma SplitInvisible(buffer: bytes, s: Session, b: Broker, x: bytes, y: bytes)
    requires !s.parser.WaitingProtocolHeader?
    ensures var o := DataReceived(buffer, s, b, x);
      DataReceived(buffer, s, b, x + y) ==
        if o.Done? then DataReceived(o.buffer, o.s, o.b, y) else WithMore(o, y)
  {
    hide Drain;
    DrainMore(buffer + x, s, b, y);
    assert buffer + (x + y) == buffer + x + y;
    ParserStays(buffer + x, s, b);
  }

  function Rank(p: ParserState): nat {
    match p
    case WaitingProtocolHeader => 1
    case WaitingStartOk => 2
    case WaitingTuneOk => 3
    case WaitingOpen => 4
    case Opened => 5
  }

  lemma ChannelFrameKeepsParser(s: Session, b: Broker, n: nat, f: Frame)
    requires !f.HeartBeat?
    ensures ChannelFrame(s, b, n, f).s.parser == s.parser && ChannelFrame(s, b, n, f).s.trail == s.trail
    ensures !ChannelFrame(s, b, n, f).Return?
  {
    hide Encode, Apply, Attempt;
  }

  lemma StepForward(s: Session, b: Broker, f: Frame)
    ensures Rank(HandleFrame(s, b, f).s.parser) >= Rank(s.parser)
  {
    hide Encode, Apply, Attempt, OfferedCredentials, ChannelFrame;
    if !f.HeartBeat? {
      ChannelFrameKeepsParser(s, b, f.channel, f);
    }
  }

  // The parser state only moves forward.
  lemma {:induction false} ParserStays(buffer: bytes, s: Session, b: Broker)
    ensures Rank(Drain(buffer, s, b).s.parser) >= Rank(s.parser)
    decreases |buffer|
  {
    hide HandleFrame, Rank;
    if buffer != [] && ReadFrame(buffer).Found? {
      var f := ReadFrame(buffer).frame;
      var step := HandleFrame(s, b, f);
      StepForward(s, b, f);
      if step.Next? {
        ParserStays(buffer[f.size..], step.s, step.b);
      }
    }
  }

  // ---- any number of chunks ----

  function Join(chunks: seq<bytes>): bytes {
    if chunks == [] then [] else chunks[0] + Join(chunks[1..])
  }

  // data_received for each chunk in turn, until a call raises or leaves the transport closing: after
  // that asyncio hands over nothing more. `rest` collects the chunks that were never handed over.
  datatype Fed = Fed(outcome: Outcome, rest: bytes)

  predicate StillOpen(o: Outcome) {
    !o.Threw? && !o.s.closing
  }

  function Feed(buffer: bytes, s: Session, b: Broker, chunks: seq<bytes>): Fed
    decreases |chunks|
  {
    if chunks == [] then Fed(Done(buffer, s, b), [])
    else
      var o := DataReceived(buffer, s, b, chunks[0]);
      if StillOpen(o) && chunks[1..] != [] then Feed(o.buffer, o.s, o.b, chunks[1..]) else Fed(o, Join(chunks[1..]))
  }

  lemma JoinOne(x: bytes)
    ensures Join([x]) == x
  {
    assert [x][1..] == [];
  }

  // ---- closing ----

  lemma StepKeepsClosing(s: Session, b: Broker, f: Frame)
    ensures s.closing ==> HandleFrame(s, b, f).s.closing
  {
    hide Encode, Apply, Attempt, OfferedCredentials;
  }

  lemma {:induction false} DrainKeepsClosing(buffer: bytes, s: Session, b: Broker)
    ensures s.closing ==> Drain(buffer, s, b).s.closing
    decreases |buffer|
  {
    hide HandleFrame, ReadFrame;
    if buffer != [] && ReadFrame(buffer).Found? {
      var f := ReadFrame(buffer).frame;
      var step := HandleFrame(s, b, f);
      StepKeepsClosing(s, b, f);
      if step.Next? {
        DrainKeepsClosing(buffer[f.size..], step.s, step.b);
      }
    }
  }

  lemma StillPastHeader(buffer: bytes, s: Session, b: Broker, x: bytes)
    requires !s.parser.WaitingProtocolHeader?
    ensures !DataReceived(buffer, s, b, x).s.parser.WaitingProtocolHeader?
  {
    hide Drain;
    ParserStays(buffer + x, s, b);
  }

  // If one call on all the bytes would end up waiting for more with the transport open, so does every
  // way of cutting them, in the same state, with the same broker and buffer, and with every chunk
  // handed over.
  lemma {:induction false} OpenInAnyChunks(buffer: bytes, s: Session, b: Broker, chunks: seq<bytes>)
    requires !s.parser.WaitingProtocolHeader? && chunks != []
    requires var o := DataReceived(buffer, s, b, Join(chunks)); o.Done? && !o.s.closing
    ensures Feed(buffer, s, b, chunks) == Fed(DataReceived(buffer, s, b, Join(chunks)), [])
    decreases |chunks|
  {
    hide Drain;
    if |chunks| == 1 {
      JoinOne(chunks[0]);
      assert chunks == [chunks[0]];
    } else {
      SplitInvisible(buffer, s, b, chunks[0], Join(chunks[1..]));
      StillPastHeader(buffer, s, b, chunks[0]);
      var o := DataReceived(buffer, s, b, chunks[0]);
      DrainKeepsClosing(o.buffer + Join(chunks[1..]), o.s, o.b);
      OpenInAnyChunks(o.buffer, o.s, o.b, chunks[1..]);
    }
  }

  // ---- early returns ----

  // A call returns early only with the transport closing, or having just accepted a start-ok.
  lemma {:induction false} EarlyReturns(buffer: bytes, s: Session, b: Broker)
    ensures var o := Drain(buffer, s, b);
      o.Left? ==> o.s.closing || (Rank(s.parser) <= Rank(WaitingStartOk) && o.s.parser.WaitingTuneOk?)
    decreases |buffer|
  {
    hide HandleFrame, Rank;
    if buffer != [] && ReadFrame(buffer).Found? {
      var f := ReadFrame(buffer).frame;
      var step := HandleFrame(s, b, f);
      StepForward(s, b, f);
      StepReturns(s, b, f);
      if step.Next? {
        EarlyReturns(buffer[f.size..], step.s, step.b);
      }
    }
  }

  lemma StepReturns(s: Session, b: Broker, f: Frame)
    ensures var step := HandleFrame(s, b, f);
      step.Return? ==> step.s.closing || (Rank(s.parser) == Rank(WaitingStartOk) && step.s.parser.WaitingTuneOk?)
  {
    hide Encode, Apply, Attempt, OfferedCredentials, ChannelFrame;
    if !f.HeartBeat? {
      ChannelFrameKeepsParser(s, b, f.channel, f);
    }
  }

  // Nothing to choose between the two: the same session, broker and buffer, and the same exception if
  // there is one.
  predicate SameEnd(x: Outcome, y: Outcome) {
    && x.buffer == y.buffer && x.s == y.s && x.b == y.b
    && (x.Threw? <==> y.Threw?) && (x.Threw? ==> x.error == y.error)
  }

  // Where a first call returns early, one call on all the bytes leaves the second chunk lying, while
  // a second call goes on with it. The two come to the same exactly when what then stands in the
  // buffer is no frame yet.
  lemma CutShowsExactly(buffer: bytes, s: Session, b: Broker, x: bytes, y: bytes)
    requires !s.parser.WaitingProtocolHeader? && DataReceived(buffer, s, b, x).Left?
    ensures var o := DataReceived(buffer, s, b, x);
      SameEnd(DataReceived(buffer, s, b, x + y), DataReceived(o.buffer, o.s, o.b, y)) <==>
      ReadFrame(o.buffer + y).NoFrame?
  {
    hide HandleFrame, ReadFrame;
    var o := DataReceived(buffer, s, b, x);
    SplitInvisible(buffer, s, b, x, y);
    StillPastHeader(buffer, s, b, x);
    DrainKeepsExactlyNoFrame(o.buffer + y, o.s, o.b);
  }

  lemma DrainKeepsExactlyNoFrame(buffer: bytes, s: Session, b: Broker)
    ensures var o := Drain(buffer, s, b);
      (o.buffer == buffer && o.s == s && o.b == b && !o.Threw?) <==> ReadFrame(buffer).NoFrame?
  {
    hide HandleFrame, ReadFrame;
    EmptyIsNoFrame();
    if buffer != [] && ReadFrame(buffer).Found? {
      var f := ReadFrame(buffer).frame;
      var step := HandleFrame(s, b, f);
      assert |buffer[f.size..]| < |buffer|;
      DrainShrinks(buffer[f.size..], step.s, step.b);
    }
  }

  lemma EmptyIsNoFrame()
    ensures ReadFrame([]).NoFrame?
  {
  }

  lemma {:induction false} DrainShrinks(buffer: bytes, s: Session, b: Broker)
    ensures |Drain(buffer, s, b).buffer| <= |buffer|
    decreases |buffer|
  {
    hide HandleFrame, ReadFrame;
    if buffer != [] && ReadFrame(buffer).Found? {
      var f := ReadFrame(buffer).frame;
      var step := HandleFrame(s, b, f);
      if step.Next? {
        DrainShrinks(buffer[f.size..], step.s, step.b);
      }
    }
  }

  // Where a first call closes the transport without returning early, a second chunk is never handed
  // over, while one call on all the bytes goes on with it. Again the two come to the same exactly when
  // what then stands in the buffer is no frame yet.
  lemma CloseShowsExactly(buffer: bytes, s: Session, b: Broker, x: bytes, y: bytes)
    requires !s.parser.WaitingProtocolHeader?
    requires var o := DataReceived(buffer, s, b, x); o.Done? && o.s.closing
    ensures var o := DataReceived(buffer, s, b, x);
      SameEnd(DataReceived(buffer, s, b, x + y), WithMore(o, y)) <==> ReadFrame(o.buffer + y).NoFrame?
  {
    hide HandleFrame, ReadFrame;
    var o := DataReceived(buffer, s, b, x);
    SplitInvisible(buffer, s, b, x, y);
    StillPastHeader(buffer, s, b, x);
    DrainKeepsExactlyNoFrame(o.buffer + y, o.s, o.b);
  }

  // ---- from WAITING_TUNE_OK on ----

  // Feeding the chunks against handing over all the bytes at once: the same end, the bytes never
  // handed over counted in, unless a call closed the transport without returning early and a frame,
  // or bytes that raise, stand behind.
  lemma {:induction false} FeedIsOneCall(buffer: bytes, s: Session, b: Broker, chunks: seq<bytes>)
    requires Rank(s.parser) >= Rank(WaitingTuneOk) && chunks != []
    ensures var fed := Feed(buffer, s, b, chunks);
      SameEnd(DataReceived(buffer, s, b, Join(chunks)), WithMore(fed.outcome, fed.rest)) <==>
      (fed.outcome.Done? ==> ReadFrame(fed.outcome.buffer + fed.rest).NoFrame?)
    decreases |chunks|
  {
    hide DataReceived, ReadFrame;
    var o := DataReceived(buffer, s, b, chunks[0]);
    ReturnMeansClosing(buffer, s, b, chunks[0]);
    if |chunks| == 1 {
      JoinOne(chunks[0]);
      assert chunks == [chunks[0]];
      assert o.buffer + [] == o.buffer && WithMore(o, []) == o;
      DoneHasNoFrame(buffer, s, b, chunks[0]);
    } else {
      var rest := Join(chunks[1..]);
      SplitInvisible(buffer, s, b, chunks[0], rest);
      if StillOpen(o) {
        FeedIsOneCall(o.buffer, o.s, o.b, chunks[1..]);
      } else if o.Done? {
        CloseShowsExactly(buffer, s, b, chunks[0], rest);
      }
    }
  }

  lemma ReturnMeansClosing(buffer: bytes, s: Session, b: Broker, x: bytes)
    requires Rank(s.parser) >= Rank(WaitingTuneOk)
    ensures var o := DataReceived(buffer, s, b, x);
      Rank(o.s.parser) >= Rank(WaitingTuneOk) && (o.Left? ==> o.s.closing)
  {
    hide Drain;
    ParserStays(buffer + x, s, b);
    EarlyReturns(buffer + x, s, b);
  }

  lemma DoneHasNoFrame(buffer: bytes, s: Session, b: Broker, x: bytes)
    requires !s.parser.WaitingProtocolHeader?
    ensures var o := DataReceived(buffer, s, b, x); o.Done? ==> ReadFrame(o.buffer).NoFrame?
  {
    hide Drain;
    DrainedHasNoFrame(buffer + x, s, b);
  }

  lemma {:induction false} DrainedHasNoFrame(buffer: bytes, s: Session, b: Broker)
    ensures Drain(buffer, s, b).Done? ==> ReadFrame(Drain(buffer, s, b).buffer).NoFrame?
    decreases |buffer|
  {
    hide HandleFrame, ReadFrame;
    EmptyIsNoFrame();
    if buffer != [] && ReadFrame(buffer).Found? {
      var f := ReadFrame(buffer).frame;
      var step := HandleFrame(s, b, f);
      if step.Next? {
        DrainedHasNoFrame(buffer[f.size..], step.s, step.b);
      }
    }
  }

  // No frame that closes the transport without ending the loop has anything behind it but an
  // incomplete frame.
  predicate ClosesLast(buffer: bytes, s: Session, b: Broker)
    decreases |buffer|
  {
    ReadFrame(buffer).Found? ==>
      var rest := buffer[ReadFrame(buffer).frame.size..];
      var step := HandleFrame(s, b, ReadFrame(buffer).frame);
      step.Next? ==> if step.s.closing then ReadFrame(rest).NoFrame? else ClosesLast(rest, step.s, step.b)
  }

  lemma NoFrameBefore(buffer: bytes, more: bytes)
    requires ReadFrame(buffer + more).NoFrame?
    ensures ReadFrame(buffer).NoFrame?
  {
    hide ReadFrame;
    if !ReadFrame(buffer).NoFrame? {
      FrameStable(buffer, more);
    }
  }

  lemma {:induction false} ClosesLastSplit(buffer: bytes, s: Session, b: Broker, more: bytes)
    requires !s.closing && ClosesLast(buffer + more, s, b) && Drain(buffer, s, b).Done?
    ensures var o := Drain(buffer, s, b);
      if o.s.closing then ReadFrame(o.buffer + more).NoFrame? else ClosesLast(o.buffer + more, o.s, o.b)
    decreases |buffer|
  {
    hide HandleFrame, ReadFrame;
    if buffer != [] && ReadFrame(buffer).Found? {
      FrameStable(buffer, more);
      var f := ReadFrame(buffer).frame;
      var step, rest := HandleFrame(s, b, f), buffer[f.size..];
      if step.s.closing {
        NoFrameBefore(rest, more);
        assert Drain(rest, step.s, step.b) == Done(rest, step.s, step.b);
      } else {
        ClosesLastSplit(rest, step.s, step.b, more);
      }
    }
  }

  // Then no way of cutting the bytes can be seen.
  lemma {:induction false} FeedSettles(buffer: bytes, s: Session, b: Broker, chunks: seq<bytes>)
    requires Rank(s.parser) >= Rank(WaitingTuneOk) && chunks != [] && !s.closing
    requires ClosesLast(buffer + Join(chunks), s, b)
    ensures var fed := Feed(buffer, s, b, chunks);
      fed.outcome.Done? ==> ReadFrame(fed.outcome.buffer + fed.rest).NoFrame?
    decreases |chunks|
  {
    hide Drain, ReadFrame, ClosesLast;
    var x, rest := chunks[0], Join(chunks[1..]);
    var o := DataReceived(buffer, s, b, x);
    ReturnMeansClosing(buffer, s, b, x);
    assert buffer + Join(chunks) == buffer + x + rest;
    DoneHasNoFrame(buffer, s, b, x);
    assert o.buffer + [] == o.buffer;
    if o.Done? {
      ClosesLastSplit(buffer + x, s, b, rest);
      if StillOpen(o) && chunks[1..] != [] {
        FeedSettles(o.buffer, o.s, o.b, chunks[1..]);
      }
    }
  }

  // Otherwise there is a cut that shows: right behind the frame that closes.
  lemma {:induction false} ShowingCut(buffer: bytes, s: Session, b: Broker) returns (k: nat)
    requires !s.closing && !ClosesLast(buffer, s, b)
    ensures k < |buffer| && !ReadFrame(buffer[..k]).NoFrame? && !ReadFrame(buffer[k..]).NoFrame?
    ensures var o := Drain(buffer[..k], s, b); o.Done? && o.buffer == [] && o.s.closing
    decreases |buffer|
  {
    hide HandleFrame, ReadFrame;
    var f := ReadFrame(buffer).frame;
    var step, rest := HandleFrame(s, b, f), buffer[f.size..];
    EmptyIsNoFrame();
    if step.s.closing {
      k := f.size;
      assert buffer[..k][f.size..] == [];
      FrameAlone(buffer, k);
    } else {
      var i := ShowingCut(rest, step.s, step.b);
      k := f.size + i;
      assert rest[i..] == buffer[k..] && buffer[..k][f.size..] == rest[..i];
      FrameAlone(buffer, k);
    }
  }

  // No way of cutting the bytes that arrive can be seen if and only if no frame closes the transport,
  // without ending the loop, in front of another frame.
  lemma NoCutShowsExactly(buffer: bytes, s: Session, b: Broker, data: bytes)
    requires Rank(s.parser) >= Rank(WaitingTuneOk) && !s.closing && ReadFrame(buffer).NoFrame?
    ensures (forall chunks | CutOf(chunks, data) :: EndsAlike(buffer, s, b, chunks)) <==>
      ClosesLast(buffer + data, s, b)
  {
    hide DataReceived, Feed, Join, ClosesLast, ReadFrame;
    if ClosesLast(buffer + data, s, b) {
      forall chunks | CutOf(chunks, data)
        ensures EndsAlike(buffer, s, b, chunks)
      {
        FeedIsOneCall(buffer, s, b, chunks);
        FeedSettles(buffer, s, b, chunks);
      }
    } else {
      var all := buffer + data;
      var k := ShowingCut(all, s, b);
      if k <= |buffer| {
        assert buffer == all[..k] + buffer[k..];
        NoFrameBefore(all[..k], buffer[k..]);
      }
      assert all[..k] == buffer + data[..k - |buffer|] && all[k..] == data[k - |buffer|..];
      CutAt(buffer, s, b, data, k - |buffer|);
    }
  }

  ghost predicate CutOf(chunks: seq<bytes>, data: bytes) {
    chunks != [] && Join(chunks) == data
  }

  // Fed in these chunks, the connection ends as with one call, the bytes never handed over counted in.
  ghost predicate EndsAlike(buffer: bytes, s: Session, b: Broker, chunks: seq<bytes>) {
    var fed := Feed(buffer, s, b, chunks);
    SameEnd(DataReceived(buffer, s, b, Join(chunks)), WithMore(fed.outcome, fed.rest))
  }

  lemma CutAt(buffer: bytes, s: Session, b: Broker, data: bytes, k: nat)
    requires !s.parser.WaitingProtocolHeader? && k <= |data|
    requires var o := Drain(buffer + data[..k], s, b); o.Done? && o.buffer == [] && o.s.closing
    requires !ReadFrame(data[k..]).NoFrame?
    ensures CutOf([data[..k], data[k..]], data) && !EndsAlike(buffer, s, b, [data[..k], data[k..]])
  {
    hide Drain, ReadFrame;
    var x, y := data[..k], data[k..];
    var o := DataReceived(buffer, s, b, x);
    assert [x, y][1..] == [y] && x + y == data && [] + y == y;
    JoinOne(y);
    CloseShowsExactly(buffer, s, b, x, y);
  }

  // Two ways of cutting the same bytes then cannot be told apart: the same parser state, channels,
  // broker state, outgoing replies and closing flag, and the same buffer once the bytes never handed
  // over are counted in.
  lemma ChunkingInvisible(buffer: bytes, s: Session, b: Broker, chunks: seq<bytes>, others: seq<bytes>)
    requires Rank(s.parser) >= Rank(WaitingTuneOk) && !s.closing && chunks != [] && others != []
    requires Join(chunks) == Join(others) && ClosesLast(buffer + Join(chunks), s, b)
    ensures var x, y := Feed(buffer, s, b, chunks), Feed(buffer, s, b, others);
      SameEnd(WithMore(x.outcome, x.rest), WithMore(y.outcome, y.rest))
  {
    hide Feed, DataReceived, ClosesLast, ReadFrame;
    FeedIsOneCall(buffer, s, b, chunks);
    FeedIsOneCall(buffer, s, b, others);
    FeedSettles(buffer, s, b, chunks);
    FeedSettles(buffer, s, b, others);
  }

  // ---- start-ok ----

  // That happens behind an accepted start-ok: the call returns with the transport open, so whatever
  // frame stands behind the start-ok is handled if it comes in a call of its own and not otherwise.
  lemma StartOkThenMore(s: Session, b: Broker, w: bytes, f: Frame, z: bytes)
    requires s.parser.WaitingStartOk? && ReadFrame(w) == Found(f) && f.size == |w|
    requires f.MethodFrame? && f.channel == 0 && f.call.StartOk?
    requires var c := OfferedCredentials(f); c.Offered? && CredentialsAccepted(b, c.user, c.password)
    ensures var o := DataReceived([], s, b, w);
      && o.Left? && o.buffer == [] && o.s.parser.WaitingTuneOk? && o.s.closing == s.closing
      && DataReceived([], s, b, w + z) == Left(z, o.s, o.b)
      && (SameEnd(DataReceived([], s, b, w + z), DataReceived([], o.s, o.b, z)) <==> ReadFrame(z).NoFrame?)
  {
    hide ReadFrame, HandleFrame;
    assert [] + w == w && w[|w|..] == [] && [] + z == z;
    assert w != [] by { EmptyIsNoFrame(); }
    StartOkAccepted(s, b, f);
    SplitInvisible([], s, b, w, z);
    CutShowsExactly([], s, b, w, z);
  }

  lemma StartOkAccepted(s: Session, b: Broker, f: Frame)
    requires s.parser.WaitingStartOk? && f.MethodFrame? && f.channel == 0 && f.call.StartOk?
    requires var c := OfferedCredentials(f); c.Offered? && CredentialsAccepted(b, c.user, c.password)
    ensures var step := HandleFrame(s, b, f);
      && step.Return? && step.s.parser.WaitingTuneOk? && step.s.closing == s.closing && step.s.channels == s.channels
      && step.b == Apply(b, CheckCredentials(OfferedCredentials(f).user, OfferedCredentials(f).password), {})
  {
    hide Encode, OfferedCredentials, Apply;
    ConnectionRepliesWritten(ConnectionTune);
  }

  // ---- a frame of unknown type ----

  // It is taken for an incomplete frame: with such a frame at the front nothing that arrives later, in
  // whatever chunks, is ever handled.
  lemma UnknownTypeBlocks(buffer: bytes, s: Session, b: Broker, chunks: seq<bytes>)
    requires Cut(buffer).Envelope? && Cut(buffer).kind !in {METHOD_FRAME, HEADER_FRAME, BODY_FRAME, HEARTBEAT_FRAME}
    requires !s.parser.WaitingProtocolHeader?
    ensures DataReceived(buffer, s, b, Join(chunks)) == Done(buffer + Join(chunks), s, b)
    ensures !s.closing ==> Feed(buffer, s, b, chunks) == Fed(Done(buffer + Join(chunks), s, b), [])
  {
    hide Join, Feed;
    if chunks == [] {
      FeedNothing(buffer, s, b);
    }
    NoFrameExactly(buffer);
    CutStable(buffer, Join(chunks));
    NoFrameExactly(buffer + Join(chunks));
    if chunks != [] && !s.closing {
      OpenInAnyChunks(buffer, s, b, chunks);
    }
  }

  lemma FeedNothing(buffer: bytes, s: Session, b: Broker)
    ensures Feed(buffer, s, b, []) == Fed(Done(buffer + Join([]), s, b), [])
  {
    assert buffer + [] == buffer;
  }

  // Such as an empty frame of type 4.
  lemma TypeFourIsUnknown(channel: nat)
    requires channel < 256
    ensures var w := Envelop(4, channel, []);
      w.Ok? && Cut(w.value).Envelope? && Cut(w.value).kind !in {METHOD_FRAME, HEADER_FRAME, BODY_FRAME, HEARTBEAT_FRAME}
  {
    hide Cut;
    EnvelopFits(4, channel, []);
    var w := Envelop(4, channel, []).value;
    CutEnveloped(4, channel, [], []);
    assert w + [] == w;
  }

  // ---- the protocol header ----

  // The protocol header is accepted only when nothing follows it in the buffer.
  lemma HeaderMustBeAlone(s: Session, b: Broker, y: bytes)
    requires s.parser.WaitingProtocolHeader? && y != []
    ensures var alone := DataReceived([], s, b, PROTOCOL_HEADER);
      var followed := DataReceived([], s, b, PROTOCOL_HEADER + y);
      && alone.Done? && alone.s.parser == WaitingStartOk && alone.s.closing == s.closing
      && followed.Done? && followed.s.parser == WaitingProtocolHeader && followed.s.closing && followed.buffer == []
  {
    hide Encode;
    ConnectionRepliesWritten(ConnectionStart);
    assert [] + PROTOCOL_HEADER == PROTOCOL_HEADER && |[] + (PROTOCOL_HEADER + y)| > |PROTOCOL_HEADER|;
  }
}
