// What holds of every connection and broker that can come about.
module Reachable {
  import opened Bytes
  import opened Methods
  import opened Frames
  import opened Replies
  import opened Senders
  import opened Broker
  import opened Session
  import opened Handshake
  import opened Channels
  import opened Interleaving

  lemma OpenedCallKeepsSmall(s: Session, b: Broker, n: nat, call: Method)
    requires SmallChannels(s) && n in s.channels && s.channels[n].ChannelOpened?
    ensures SmallChannels(OpenedChannelCall(s, b, n, call).s)
  {
    hide Apply, Encode, Attempt;
  }

  lemma FrameKeepsSmall(s: Session, b: Broker, f: Frame)
    requires SmallChannels(s)
    ensures SmallChannels(HandleFrame(s, b, f).s)
  {
    hide Apply, Encode, Attempt, OpenedChannelCall, ConnectionFrame, ChannelFrame;
    if f.HeartBeat? {
    } else if f.channel != 0 {
      ChannelFrameKeepsSmall(s, b, f.channel, f);
    } else {
      ConnectionFrameKeepsChannels(s, b, f);
    }
  }

  lemma ChannelFrameKeepsSmall(s0: Session, b: Broker, n: nat, f: Frame)
    requires SmallChannels(s0) && !f.HeartBeat?
    ensures SmallChannels(ChannelFrame(s0, b, n, f).s)
  {
    hide Apply, Encode, Attempt, OpenedChannelCall;
    var s := UpsertChannel(s0, n);
    if f.MethodFrame? && s.channels[n].ChannelOpened? {
      OpenedCallKeepsSmall(s, b, n, f.call);
    }
    if n >= 256 {
      NoAnswer(s, b, n);
    }
  }

  lemma {:induction false} DrainKeepsSmall(buffer: bytes, s: Session, b: Broker)
    requires SmallChannels(s)
    ensures SmallChannels(Drain(buffer, s, b).s)
    decreases |buffer|
  {
    hide HandleFrame, SmallChannels;
    if buffer != [] && ReadFrame(buffer).Found? {
      var f := ReadFrame(buffer).frame;
      FrameKeepsSmall(s, b, f);
      var step := HandleFrame(s, b, f);
      if step.Next? {
        DrainKeepsSmall(buffer[f.size..], step.s, step.b);
      }
    }
  }

  lemma DataKeepsSmall(buffer: bytes, s: Session, b: Broker, data: bytes)
    requires SmallChannels(s)
    ensures SmallChannels(DataReceived(buffer, s, b, data).s)
  {
    hide Drain, Encode, Attempt;
    if !s.parser.WaitingProtocolHeader? {
      DrainKeepsSmall(buffer + data, s, b);
    }
  }

  // Whatever a client sends, no channel above 255 is ever opened.
  lemma {:induction false} OnlySmallChannelsOpen(me: Transport, inputs: seq<Input>)
    ensures SmallChannels(After(me, inputs).1)
  {
    hide DataReceived, PushMessage, SmallChannels;
    if inputs == [] {
      assert SmallChannels(Fresh(me)) by { FreshIsSmall(me); }
    } else {
      var earlier := inputs[..|inputs| - 1];
      OnlySmallChannelsOpen(me, earlier);
      var (buffer, s) := After(me, earlier);
      match inputs[|inputs| - 1]
      case Data(data, b) => DataKeepsSmall(buffer, s, b, data);
      case Delivered(channel, tag, delivery, exchange, m) =>
        SentIsNoChannel(s, PushMessage(channel, tag, delivery, exchange, m.headers, m.body).replies);
    }
  }

  lemma FreshIsSmall(me: Transport)
    ensures SmallChannels(Fresh(me))
  {
  }

  lemma SentIsNoChannel(s: Session, replies: seq<Reply>)
    requires SmallChannels(s)
    ensures SmallChannels(s.(sent := s.sent + replies))
  {
  }

  // Whatever a client sends, what data_received makes of the broker is a run of State calls, so the
  // invariants and histories of runs hold behind every connection.
  lemma {:induction false} DataIsARun(buffer: bytes, s: Session, b: Broker, data: bytes) returns (ops: seq<Op>)
    ensures DataReceived(buffer, s, b, data).b == ApplyAll(b, ops)
    ensures forall op | op in ops :: !op.Reset?
  {
    hide Drain, Apply, Encode, Attempt;
    if s.parser.WaitingProtocolHeader? {
      ops := [];
    } else {
      ops := DrainIsARun(buffer + data, s, b);
    }
  }

  lemma {:induction false} DrainIsARun(buffer: bytes, s: Session, b: Broker) returns (ops: seq<Op>)
    ensures Drain(buffer, s, b).b == ApplyAll(b, ops)
    ensures forall op | op in ops :: !op.Reset?
    decreases |buffer|
  {
    hide HandleFrame, Apply, OpOf;
    ops := [];
    if buffer != [] && ReadFrame(buffer).Found? {
      var f := ReadFrame(buffer).frame;
      var step := HandleFrame(s, b, f);
      FrameIsCall(s, b, f);
      NeverReset(s, f);
      var rest := [];
      if step.Next? {
        rest := DrainIsARun(buffer[f.size..], step.s, step.b);
      }
      var op := OpOf(s, f);
      if op.Some? {
        ops := [op.value] + rest;
        assert ops[1..] == rest;
      } else {
        ops := rest;
      }
    }
  }

  lemma {:induction false} ApplyAllConsistent(b: Broker, ops: seq<Op>)
    requires Consistent(b)
    ensures Consistent(ApplyAll(b, ops))
    decreases |ops|
  {
    hide Apply, Consistent;
    if ops != [] {
      ApplyKeepsConsistent(b, ops[0], {});
      ApplyAllConsistent(Apply(b, ops[0], {}), ops[1..]);
    }
  }

  // No bytes a client can send break the binding invariant.
  lemma ClientsKeepBindings(buffer: bytes, s: Session, b: Broker, data: bytes)
    requires Consistent(b)
    ensures Consistent(DataReceived(buffer, s, b, data).b)
  {
    hide DataReceived, Consistent;
    var ops := DataIsARun(buffer, s, b, data);
    ApplyAllConsistent(b, ops);
  }
}
