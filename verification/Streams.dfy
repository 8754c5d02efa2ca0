// A buffer as the frames it is cut into: draining it is running those frames, so what holds of runs
// of frames holds of bytes.
module Streams {
  import opened Wrappers
  import opened Bytes
  import opened Frames
  import opened Broker
  import opened Session
  import opened Channels
  import opened Interleaving

  // The frames at the front, what is left behind them, and what read_frame raises there.
  datatype Parsed = Parsed(frames: seq<Frame>, rest: bytes, error: Option<Error>)

  function Parse(buffer: bytes): (p: Parsed)
    ensures AllDelivered(p.frames)
    decreases |buffer|
  {
    if buffer == [] then Parsed([], [], None)
    else
      match ReadFrame(buffer)
      case NoFrame => Parsed([], buffer, None)
      case Bad(e) => Parsed([], buffer, Some(e))
      case Found(f) =>
        var p := Parse(buffer[f.size..]);
        p.(frames := [f] + p.frames)
  }

  function Octets(fs: seq<Frame>): nat {
    if fs == [] then 0 else fs[0].size + Octets(fs[1..])
  }

  // Nothing is lost: the frames and the rest take up the whole buffer.
  lemma {:induction false} ParseTakesAll(buffer: bytes)
    ensures var p := Parse(buffer); Octets(p.frames) <= |buffer| && p.rest == buffer[Octets(p.frames)..]
    decreases |buffer|
  {
    hide ReadFrame;
    if buffer != [] && ReadFrame(buffer).Found? {
      var f := ReadFrame(buffer).frame;
      ParseTakesAll(buffer[f.size..]);
      var p := Parse(buffer[f.size..]);
      assert Parse(buffer).frames[1..] == p.frames;
    }
  }

  // How many frames a run takes, the one it ends at included.
  function Handled(s: Session, b: Broker, fs: seq<Frame>): (k: nat)
    ensures k <= |fs|
    decreases |fs|
  {
    if fs == [] then 0
    else
      match HandleFrame(s, b, fs[0])
      case Next(s', b') => 1 + Handled(s', b', fs[1..])
      case _ => 1
  }

  // data_received past the protocol header is the run of the frames of its buffer.
  lemma {:induction false} DrainRunsFrames(buffer: bytes, s: Session, b: Broker)
    ensures var p := Parse(buffer);
      var taken := Octets(p.frames[..Handled(s, b, p.frames)]);
      && taken <= |buffer|
      && Drain(buffer, s, b) ==
         match RunFrames(s, b, p.frames)
         case Next(s', b') => if p.error.Some? then Threw(p.rest, s', b', p.error.value) else Done(p.rest, s', b')
         case Return(s', b') => Left(buffer[taken..], s', b')
         case Raise(s', b', e) => Threw(buffer[taken..], s', b', e)
    decreases |buffer|
  {
    hide HandleFrame, ReadFrame;
    if buffer != [] && ReadFrame(buffer).Found? {
      var f := ReadFrame(buffer).frame;
      var step, p := HandleFrame(s, b, f), Parse(buffer[f.size..]);
      var fs := [f] + p.frames;
      assert fs[1..] == p.frames;
      if step.Next? {
        DrainRunsFrames(buffer[f.size..], step.s, step.b);
        var k := Handled(step.s, step.b, p.frames);
        assert fs[..1 + k][1..] == p.frames[..k];
      } else {
        assert fs[..1][1..] == [];
      }
    }
  }

  // The octets of the frames of channel n, without those of other channels and whatever is left over.
  function Sieve(buffer: bytes, n: nat): bytes
    decreases |buffer|
  {
    if buffer == [] || !ReadFrame(buffer).Found? then []
    else
      var f := ReadFrame(buffer).frame;
      (if OnChannel(f, n) then buffer[..f.size] else []) + Sieve(buffer[f.size..], n)
  }

  lemma {:induction false} SieveKeepsFrames(buffer: bytes, n: nat)
    ensures Parse(Sieve(buffer, n)) == Parsed(Only(Parse(buffer).frames, n), [], None)
    decreases |buffer|
  {
    hide ReadFrame;
    if buffer != [] && ReadFrame(buffer).Found? {
      var f := ReadFrame(buffer).frame;
      var rest, sieved := buffer[f.size..], Sieve(buffer[f.size..], n);
      var fs := Parse(rest).frames;
      assert ([f] + fs)[1..] == fs;
      SieveKeepsFrames(rest, n);
      if OnChannel(f, n) {
        FrameAlone(buffer, f.size);
        var front := buffer[..f.size];
        FrameStable(front, sieved);
        assert (front + sieved)[f.size..] == sieved && front + sieved != [];
      } else {
        assert [] + sieved == sieved && [] + Only(fs, n) == Only(fs, n);
      }
    }
  }

  // Draining a buffer with the frames of many channels brings channel n where draining only its own
  // octets does, with the same State calls on its behalf.
  lemma BuffersDoNotInterfere(buffer: bytes, s: Session, b: Broker, n: nat)
    requires n != 0 && SmallChannels(s) && Drain(buffer, s, b).Done?
    requires StoresLand(s, b, Parse(Sieve(buffer, n)).frames, n)
    ensures var alone := Drain(Sieve(buffer, n), s, b);
      alone.Done? && alone.buffer == [] && Look(Drain(buffer, s, b).s, n) == Look(alone.s, n)
    ensures MadeOn(Calls(s, b, Parse(buffer).frames), n) == Calls(s, b, Parse(Sieve(buffer, n)).frames)
  {
    hide Drain, RunFrames, Parse, Sieve, Calls, StoresLand, Handled, Look;
    SieveKeepsFrames(buffer, n);
    DrainRunsFrames(buffer, s, b);
    DrainRunsFrames(Sieve(buffer, n), s, b);
    ChannelsDoNotInterfere(s, b, Parse(buffer).frames, n);
  }
}
