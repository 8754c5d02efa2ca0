// Runs of frames: channels do not disturb each other, and body frames add up to exactly the message.
module Interleaving {
  import opened Wrappers
  import opened Bytes
  import opened Methods
  import opened Frames
  import opened Replies
  import opened Broker
  import opened Session
  import opened Chunks
  import opened Channels

  function RunFrames(s: Session, b: Broker, fs: seq<Frame>): Step
    decreases |fs|
  {
    if fs == [] then Next(s, b)
    else
      match HandleFrame(s, b, fs[0])
      case Next(s', b') => RunFrames(s', b', fs[1..])
      case step => step
  }

  predicate OnChannel(f: Frame, n: nat) {
    !f.HeartBeat? && f.channel == n
  }

  function Only(fs: seq<Frame>, n: nat): seq<Frame> {
    if fs == [] then [] else (if OnChannel(fs[0], n) then [fs[0]] else []) + Only(fs[1..], n)
  }

  // ---- the State calls of a run ----

  // A State call, and the channel whose frame makes it.
  datatype Call = Call(channel: nat, op: Op)

  function CallOf(s: Session, f: Frame): seq<Call> {
    if f.HeartBeat? || OpOf(s, f).None? then [] else [Call(f.channel, OpOf(s, f).value)]
  }

  // The State calls that the frames of a run make, in order.
  function Calls(s: Session, b: Broker, fs: seq<Frame>): seq<Call>
    decreases |fs|
  {
    if fs == [] then []
    else
      var step := HandleFrame(s, b, fs[0]);
      CallOf(s, fs[0]) + (if step.Next? then Calls(step.s, step.b, fs[1..]) else [])
  }

  function Ops(calls: seq<Call>): seq<Op> {
    seq(|calls|, i requires 0 <= i < |calls| => calls[i].op)
  }

  // Those that frames of channel n make.
  function MadeOn(calls: seq<Call>, n: nat): seq<Call> {
    if calls == [] then [] else (if calls[0].channel == n then [calls[0]] else []) + MadeOn(calls[1..], n)
  }

  lemma MadeOnBehind(first: seq<Call>, rest: seq<Call>, n: nat)
    requires |first| <= 1
    ensures MadeOn(first + rest, n) == (if first != [] && first[0].channel == n then first else []) + MadeOn(rest, n)
  {
    if first == [] {
      assert [] + rest == rest && [] + MadeOn(rest, n) == MadeOn(rest, n);
    } else {
      assert (first + rest)[1..] == rest && first == [first[0]];
    }
  }

  // The broker a run ends with is what its calls make of the one it began with.
  lemma {:induction false} RunIsItsCalls(s: Session, b: Broker, fs: seq<Frame>)
    ensures RunFrames(s, b, fs).b == ApplyAll(b, Ops(Calls(s, b, fs)))
    decreases |fs|
  {
    hide HandleFrame, Apply, OpOf;
    if fs != [] {
      var step := HandleFrame(s, b, fs[0]);
      FrameIsCall(s, b, fs[0]);
      HeartbeatMakesNone(s, fs[0]);
      var first, rest := CallOf(s, fs[0]), if step.Next? then Calls(step.s, step.b, fs[1..]) else [];
      if step.Next? {
        RunIsItsCalls(step.s, step.b, fs[1..]);
      }
      OpsBehind(b, first, rest);
    }
  }

  lemma HeartbeatMakesNone(s: Session, f: Frame)
    ensures f.HeartBeat? ==> OpOf(s, f).None?
  {
  }

  lemma OpsBehind(b: Broker, first: seq<Call>, rest: seq<Call>)
    requires |first| <= 1
    ensures ApplyAll(b, Ops(first + rest)) ==
      ApplyAll(if first == [] then b else Apply(b, first[0].op, {}), Ops(rest))
  {
    hide Apply;
    if first == [] {
      assert first + rest == rest;
    } else {
      assert Ops(first + rest)[1..] == Ops(rest);
    }
  }

  // ---- non-interference ----

  // The exchange of the message, if there is one, exists.
  predicate Lands(m: Option<(Name, Message)>, b: Broker) {
    m.Some? ==> m.value.0 in b.exchanges
  }

  // Whenever a frame of channel n completes a message in this run, its exchange exists by then.
  predicate StoresLand(s: Session, b: Broker, fs: seq<Frame>, n: nat)
    decreases |fs|
  {
    fs == [] ||
    var step := HandleFrame(s, b, fs[0]);
    && (OnChannel(fs[0], n) ==> Lands(Completes(Look(s, n), fs[0]), b))
    && (step.Next? ==> StoresLand(step.s, step.b, fs[1..], n))
  }

  predicate AllDelivered(fs: seq<Frame>) {
    forall f :: f in fs ==> Delivered(f)
  }

  lemma HeartbeatMoves(s: Session, b: Broker, f: Frame)
    requires f.HeartBeat?
    ensures HandleFrame(s, b, f) == Next(s.(sent := s.sent + [Heartbeat]), b)
  {
    hide Encode;
    AnswerGoesOut(s, b, Heartbeat);
  }

  lemma FrameKeepsExchanges(s: Session, b: Broker, f: Frame)
    ensures b.exchanges.Keys <= HandleFrame(s, b, f).b.exchanges.Keys
  {
    hide HandleFrame, Apply, OpOf;
    FrameIsCall(s, b, f);
    NeverReset(s, f);
    if OpOf(s, f).Some? {
      ApplyExchanges(b, OpOf(s, f).value, {});
    }
  }

  lemma NeverReset(s: Session, f: Frame)
    ensures OpOf(s, f).Some? ==> !OpOf(s, f).value.Reset?
  {
    hide OfferedCredentials, Completes;
  }

  // A frame of another channel, of channel 0, or a heartbeat.
  lemma OthersStay(s: Session, b: Broker, f: Frame, n: nat)
    requires !OnChannel(f, n) && n != 0 && Delivered(f) && SmallChannels(s) && HandleFrame(s, b, f).Next?
    ensures var s' := HandleFrame(s, b, f).s; Look(s', n) == Look(s, n) && s'.me == s.me && SmallChannels(s')
    ensures MadeOn(CallOf(s, f), n) == []
  {
    hide HandleFrame, Move, Delivered, Stored, OpOf;
    if f.HeartBeat? {
      HeartbeatMoves(s, b, f);
    } else if f.channel == 0 {
      ChannelZeroStays(s, b, f);
    } else {
      FrameMoves(s, b, f);
    }
  }

  lemma ChannelZeroStays(s: Session, b: Broker, f: Frame)
    requires !f.HeartBeat? && f.channel == 0
    ensures var s' := HandleFrame(s, b, f).s; s'.channels == s.channels && s'.me == s.me
  {
    hide ConnectionFrame;
    ConnectionFrameKeepsChannels(s, b, f);
  }

  // The same frame of channel n in two sessions that agree on that channel.
  lemma BothMove(s: Session, b: Broker, t: Session, c: Broker, f: Frame, n: nat)
    requires OnChannel(f, n) && n != 0 && Delivered(f) && SmallChannels(s) && SmallChannels(t)
    requires Look(s, n) == Look(t, n) && s.me == t.me && HandleFrame(s, b, f).Next?
    requires Lands(Completes(Look(t, n), f), c) && c.exchanges.Keys <= b.exchanges.Keys
    ensures HandleFrame(t, c, f).Next?
    ensures var s', t' := HandleFrame(s, b, f).s, HandleFrame(t, c, f).s;
      Look(s', n) == Look(t', n) && s'.me == t'.me && SmallChannels(s') && SmallChannels(t')
    ensures CallOf(s, f) == CallOf(t, f) && MadeOn(CallOf(s, f), n) == CallOf(s, f)
    ensures HandleFrame(t, c, f).b.exchanges.Keys <= HandleFrame(s, b, f).b.exchanges.Keys
    ensures Lands(Completes(Look(s, n), f), b)
  {
    hide HandleFrame, Move, Delivered, Completes, Apply, OpOf;
    FrameMoves(s, b, f);
    FrameMoves(t, c, f);
    SameCall(s, t, f);
    FrameIsCall(s, b, f);
    FrameIsCall(t, c, f);
    if OpOf(s, f).Some? {
      ApplyExchanges(b, OpOf(s, f).value, {});
      ApplyExchanges(c, OpOf(t, f).value, {});
    }
    assert MadeOn([], n) == [];
    if OpOf(s, f).Some? {
      var calls := CallOf(s, f);
      assert calls[1..] == [] && calls == [calls[0]];
    }
  }

  lemma SameCall(s: Session, t: Session, f: Frame)
    requires !f.HeartBeat? && f.channel != 0 && Look(s, f.channel) == Look(t, f.channel) && s.me == t.me
    ensures OpOf(s, f) == OpOf(t, f)
  {
    hide Completes;
  }

  // Two sessions that agree on channel n: one sees all the frames, the other only those of n, and
  // knows no exchange the first does not know.
  lemma {:induction false} Simulation(s: Session, b: Broker, t: Session, c: Broker, fs: seq<Frame>, n: nat)
    requires n != 0 && AllDelivered(fs) && SmallChannels(s) && SmallChannels(t)
    requires Look(s, n) == Look(t, n) && s.me == t.me && c.exchanges.Keys <= b.exchanges.Keys
    requires RunFrames(s, b, fs).Next? && StoresLand(t, c, Only(fs, n), n)
    ensures RunFrames(t, c, Only(fs, n)).Next?
    ensures Look(RunFrames(s, b, fs).s, n) == Look(RunFrames(t, c, Only(fs, n)).s, n)
    ensures MadeOn(Calls(s, b, fs), n) == Calls(t, c, Only(fs, n))
    ensures StoresLand(s, b, fs, n)
    decreases |fs|
  {
    hide HandleFrame, Delivered, Completes, Lands, Look, SmallChannels, MadeOn, CallOf;
    if fs == [] {
      assert MadeOn([], n) == [] by { NothingMade(n); }
    } else {
      var f := fs[0];
      var step := HandleFrame(s, b, f);
      var rest := Only(fs[1..], n);
      SingleCall(s, f);
      MadeOnBehind(CallOf(s, f), Calls(step.s, step.b, fs[1..]), n);
      MadeOnBehind(CallOf(s, f), [], n);
      NothingMade(n);
      if OnChannel(f, n) {
        assert Only(fs, n) == [f] + rest && ([f] + rest)[1..] == rest;
        BothMove(s, b, t, c, f, n);
        var step' := HandleFrame(t, c, f);
        Simulation(step.s, step.b, step'.s, step'.b, fs[1..], n);
      } else {
        assert [] + rest == rest;
        OthersStay(s, b, f, n);
        FrameKeepsExchanges(s, b, f);
        Simulation(step.s, step.b, t, c, fs[1..], n);
      }
    }
  }

  lemma NothingMade(n: nat)
    ensures MadeOn([], n) == []
  {
  }

  lemma SingleCall(s: Session, f: Frame)
    ensures |CallOf(s, f)| <= 1 && CallOf(s, f) + [] == CallOf(s, f)
  {
    hide OpOf;
  }

  // In any interleaving of frames that ends neither early nor with an exception, a channel comes to
  // the state, and makes the State calls, that its own frames alone would lead to; and each message it
  // completes is stored, since its exchange exists there too. All that is asked is that in the run of
  // its own frames each message it completes finds its exchange.
  lemma ChannelsDoNotInterfere(s: Session, b: Broker, fs: seq<Frame>, n: nat)
    requires n != 0 && AllDelivered(fs) && SmallChannels(s)
    requires RunFrames(s, b, fs).Next? && StoresLand(s, b, Only(fs, n), n)
    ensures RunFrames(s, b, Only(fs, n)).Next?
    ensures Look(RunFrames(s, b, fs).s, n) == Look(RunFrames(s, b, Only(fs, n)).s, n)
    ensures MadeOn(Calls(s, b, fs), n) == Calls(s, b, Only(fs, n))
    ensures StoresLand(s, b, fs, n)
  {
    Simulation(s, b, s, b, fs, n);
  }

  // ---- exact reassembly ----

  function Bodies(n: nat, contents: seq<bytes>): seq<Frame> {
    if contents == [] then [] else [BodyFrame(n, |contents[0]| + 8, contents[0])] + Bodies(n, contents[1..])
  }

  // How many body frames it takes until the accumulated length is the announced one.
  function Needed(got: nat, contents: seq<bytes>, size: nat): (r: Option<nat>)
    ensures r.Some? ==> 1 <= r.value <= |contents| && got + |Join(contents[..r.value])| == size
    ensures r.Some? ==> forall k :: 1 <= k < r.value ==> got + |Join(contents[..k])| != size
    ensures r.None? ==> forall k :: 1 <= k <= |contents| ==> got + |Join(contents[..k])| != size
    decreases contents
  {
    if contents == [] then None
    else
      JoinPrefixes(contents);
      if got + |contents[0]| == size then
        assert contents[..1] == [contents[0]] && contents[..1][1..] == [];
        Some(1)
      else
        var rest := Needed(got + |contents[0]|, contents[1..], size);
        if rest.None? then None else Some(rest.value + 1)
  }

  lemma JoinPrefixes(contents: seq<bytes>)
    requires contents != []
    ensures forall k :: 1 <= k <= |contents| ==> Join(contents[..k]) == contents[0] + Join(contents[1..][..k - 1])
  {
    forall k | 1 <= k <= |contents|
      ensures Join(contents[..k]) == contents[0] + Join(contents[1..][..k - 1])
    {
      assert contents[..k][1..] == contents[1..][..k - 1];
    }
  }

  lemma BodiesUnfold(n: nat, contents: seq<bytes>)
    requires contents != []
    ensures Bodies(n, contents)[0] == BodyFrame(n, |contents[0]| + 8, contents[0])
    ensures Bodies(n, contents)[1..] == Bodies(n, contents[1..]) && Bodies(n, contents) != []
  {
  }

  // What a body frame does: an opened channel lets it pass.
  lemma BodyHandled(s: Session, b: Broker, n: nat, content: bytes)
    requires n != 0 && n in s.channels
    ensures var step := HandleFrame(s, b, BodyFrame(n, |content| + 8, content));
      var c := s.channels[n];
      && (c.ChannelOpened? ==> step == Next(s, b))
      && (c.WaitingBody? ==>
           var more := c.(content := c.content + content);
           step ==
             if |c.content| + |content| != c.bodySize then Next(SetChannel(s, n, more), b)
             else if c.exchange in b.exchanges then
               Next(SetChannel(s, n, ChannelOpened),
                    Apply(b, Op.StoreMessage(c.exchange, Message(c.headers, more.content)), {}))
             else Next(Shut(SetChannel(s, n, more)), b))
  {
  }

  lemma {:induction false} BodiesIgnored(s: Session, b: Broker, n: nat, contents: seq<bytes>)
    requires n != 0 && n in s.channels && s.channels[n].ChannelOpened?
    ensures RunFrames(s, b, Bodies(n, contents)) == Next(s, b)
    decreases |contents|
  {
    hide HandleFrame;
    if contents != [] {
      BodiesUnfold(n, contents);
      BodyHandled(s, b, n, contents[0]);
      BodiesIgnored(s, b, n, contents[1..]);
    }
  }

  // After a header that announces `size` for an existing exchange, the message is stored at the first
  // body frame where the accumulated length is `size`, holding exactly the bytes so far, and the
  // channel is open again; if no prefix hits that size the broker is not called and the channel keeps
  // all the bytes. Nothing else changes.
  lemma {:induction false} ExactReassembly(s: Session, b: Broker, n: nat, contents: seq<bytes>)
    requires n != 0 && n in s.channels && s.channels[n].WaitingBody? && s.channels[n].exchange in b.exchanges
    ensures var c := s.channels[n];
      var k := Needed(|c.content|, contents, c.bodySize);
      RunFrames(s, b, Bodies(n, contents)) ==
        if k.Some? then
          var m := Message(c.headers, c.content + Join(contents[..k.value]));
          Next(SetChannel(s, n, ChannelOpened), Apply(b, Op.StoreMessage(c.exchange, m), {}))
        else Next(SetChannel(s, n, c.(content := c.content + Join(contents))), b)
    decreases |contents|
  {
    hide HandleFrame, Apply, Join, Needed;
    var c := s.channels[n];
    if contents == [] {
      NothingNeeded(s, n, c.bodySize);
    } else {
      BodiesUnfold(n, contents);
      BodyHandled(s, b, n, contents[0]);
      NeededUnfold(|c.content|, contents, c.bodySize);
      var step := HandleFrame(s, b, BodyFrame(n, |contents[0]| + 8, contents[0]));
      if |c.content| + |contents[0]| == c.bodySize {
        BodiesIgnored(step.s, step.b, n, contents[1..]);
      } else {
        ExactReassembly(step.s, step.b, n, contents[1..]);
        Rejoined(c.content, contents, Needed(|c.content|, contents, c.bodySize));
        SetTwice(s, n, c.(content := c.content + contents[0]));
      }
    }
  }

  lemma NothingNeeded(s: Session, n: nat, size: nat)
    requires n in s.channels && s.channels[n].WaitingBody?
    ensures var c := s.channels[n];
      Needed(|c.content|, [], size).None? && SetChannel(s, n, c.(content := c.content + Join([]))) == s
  {
    var c := s.channels[n];
    assert c.content + [] == c.content;
    assert s.channels[n := c] == s.channels;
  }

  lemma NeededUnfold(got: nat, contents: seq<bytes>, size: nat)
    requires contents != []
    ensures got + |contents[0]| == size ==> Needed(got, contents, size) == Some(1) && Join(contents[..1]) == contents[0]
    ensures got + |contents[0]| != size ==>
      var rest := Needed(got + |contents[0]|, contents[1..], size);
      Needed(got, contents, size) == if rest.None? then None else Some(rest.value + 1)
  {
    assert contents[..1][1..] == [];
  }

  lemma Rejoined(got: bytes, contents: seq<bytes>, k: Option<nat>)
    requires contents != [] && (k.Some? ==> 1 <= k.value <= |contents|)
    ensures k.Some? ==> got + Join(contents[..k.value]) == got + contents[0] + Join(contents[1..][..k.value - 1])
    ensures got + Join(contents) == got + contents[0] + Join(contents[1..])
  {
    hide Join;
    JoinPrefixes(contents);
    Regroup(got, contents[0], Join(contents[1..]));
    assert contents[..|contents|] == contents && contents[1..][..|contents| - 1] == contents[1..];
    if k.Some? {
      Regroup(got, contents[0], Join(contents[1..][..k.value - 1]));
    }
  }

  lemma SetTwice(s: Session, n: nat, c: Channel)
    ensures forall d :: SetChannel(SetChannel(s, n, c), n, d) == SetChannel(s, n, d)
  {
  }

  // Without the exchange nothing is ever stored: the channel keeps all the bytes and goes on waiting,
  // and the transport is closed as soon as some prefix hits the announced size.
  lemma {:induction false} MissingExchangeKeepsContent(s: Session, b: Broker, n: nat, contents: seq<bytes>)
    requires n != 0 && n in s.channels && s.channels[n].WaitingBody? && s.channels[n].exchange !in b.exchanges
    ensures var c := s.channels[n];
      var s' := SetChannel(s, n, c.(content := c.content + Join(contents)));
      RunFrames(s, b, Bodies(n, contents)) ==
        Next(if Needed(|c.content|, contents, c.bodySize).Some? then Shut(s') else s', b)
    decreases |contents|
  {
    hide HandleFrame, Apply, Join, Needed;
    var c := s.channels[n];
    if contents == [] {
      NothingNeeded(s, n, c.bodySize);
    } else {
      BodiesUnfold(n, contents);
      BodyHandled(s, b, n, contents[0]);
      NeededUnfold(|c.content|, contents, c.bodySize);
      var step := HandleFrame(s, b, BodyFrame(n, |contents[0]| + 8, contents[0]));
      MissingExchangeKeepsContent(step.s, step.b, n, contents[1..]);
      Rejoined(c.content, contents, None);
      SetTwice(s, n, c.(content := c.content + contents[0]));
    }
  }

  // The kept message is stored by a later body frame, once the exchange exists: here another channel
  // declares it, and an empty body frame hits the announced size again. By its own frames alone the
  // channel would still be waiting, so the condition of ChannelsDoNotInterfere cannot be dropped.
  lemma LateExchange(s: Session, b: Broker, n: nat, other: nat, content: bytes, kind: Name, size: nat)
    requires n != 0 && n in s.channels && s.channels[n].WaitingBody? && s.channels[n].exchange !in b.exchanges
    requires s.channels[n].content == [] && s.channels[n].bodySize == |content|
    requires 0 < other < 256 && other != n && other in s.channels && s.channels[other].ChannelOpened?
    ensures var c := s.channels[n];
      var fs := [BodyFrame(n, |content| + 8, content), MethodFrame(other, size, ExchangeDeclare(c.exchange, kind)),
                 BodyFrame(n, 8, [])];
      var r, alone := RunFrames(s, b, fs), RunFrames(s, b, Only(fs, n));
      && r.Next? && r.s.closing && Look(r.s, n) == Some(ChannelOpened)
      && c.exchange in r.b.exchanges && r.b.exchanges[c.exchange] == Exchange(kind, [Message(c.headers, content)])
      && alone.Next? && Look(alone.s, n) == Some(c.(content := content)) && alone.b == b
      && !StoresLand(s, b, Only(fs, n), n)
  {
    hide HandleFrame, RunFrames, StoresLand;
    var c := s.channels[n];
    var f, g, h := BodyFrame(n, |content| + 8, content),
      MethodFrame(other, size, ExchangeDeclare(c.exchange, kind)), BodyFrame(n, 8, []);
    assert [] + content == content && content + [] == content;
    BodyHandled(s, b, n, content);
    var shut := HandleFrame(s, b, f).s;
    DeclareHandled(shut, b, other, c.exchange, kind, size);
    var declared := HandleFrame(shut, b, g);
    BodyHandled(declared.s, declared.b, n, []);
    RunThree(s, b, f, g, h);
    OnlyTwo(f, g, h, n);
    BodyHandled(shut, b, n, []);
    RunTwo(s, b, f, h, n);
  }

  lemma RunThree(s: Session, b: Broker, f: Frame, g: Frame, h: Frame)
    requires HandleFrame(s, b, f).Next?
    requires var x := HandleFrame(s, b, f); HandleFrame(x.s, x.b, g).Next?
    requires var x := HandleFrame(s, b, f); var y := HandleFrame(x.s, x.b, g); HandleFrame(y.s, y.b, h).Next?
    ensures var x := HandleFrame(s, b, f);
      var y := HandleFrame(x.s, x.b, g);
      RunFrames(s, b, [f, g, h]) == HandleFrame(y.s, y.b, h)
  {
    hide HandleFrame;
    var x := HandleFrame(s, b, f);
    var y := HandleFrame(x.s, x.b, g);
    var z := HandleFrame(y.s, y.b, h);
    assert [f, g, h][1..] == [g, h] && [g, h][1..] == [h] && [h][1..] == [];
    assert RunFrames(z.s, z.b, []) == z;
    assert RunFrames(y.s, y.b, [h]) == z;
    assert RunFrames(x.s, x.b, [g, h]) == z;
  }

  lemma RunTwo(s: Session, b: Broker, f: Frame, h: Frame, n: nat)
    requires HandleFrame(s, b, f).Next?
    requires var x := HandleFrame(s, b, f); HandleFrame(x.s, x.b, h).Next?
    ensures var x := HandleFrame(s, b, f);
      RunFrames(s, b, [f, h]) == HandleFrame(x.s, x.b, h)
    ensures StoresLand(s, b, [f, h], n) && OnChannel(f, n) ==> Lands(Completes(Look(s, n), f), b)
  {
    hide HandleFrame, Completes;
    var x := HandleFrame(s, b, f);
    var z := HandleFrame(x.s, x.b, h);
    assert [f, h][1..] == [h] && [h][1..] == [];
    assert RunFrames(z.s, z.b, []) == z;
    assert RunFrames(x.s, x.b, [h]) == z;
  }

  lemma OnlyTwo(f: Frame, g: Frame, h: Frame, n: nat)
    requires OnChannel(f, n) && !OnChannel(g, n) && OnChannel(h, n)
    ensures Only([f, g, h], n) == [f, h]
  {
    assert [f, g, h][1..] == [g, h] && [g, h][1..] == [h] && [h][1..] == [];
    assert Only([h], n) == [h];
    assert Only([g, h], n) == [h];
  }

  lemma DeclareHandled(s: Session, b: Broker, n: nat, exchange: Name, kind: Name, size: nat)
    requires 0 < n < 256 && n in s.channels && s.channels[n].ChannelOpened? && exchange !in b.exchanges
    ensures HandleFrame(s, b, MethodFrame(n, size, ExchangeDeclare(exchange, kind))) ==
      Next(s.(sent := s.sent + [ExchangeDeclareOk(n)]), b.(exchanges := b.exchanges[exchange := Exchange(kind, [])]))
  {
    hide Encode, Answer;
    AnswerGoesOut(s, b.(exchanges := b.exchanges[exchange := Exchange(kind, [])]), ExchangeDeclareOk(n));
  }
}
