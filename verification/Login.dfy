// What a client meets until its connection is opened, told without the names of the handlers: the
// protocol header, the credentials, tune-ok and open, and how each is refused.
module Login {
  import opened Wrappers
  import opened Bytes
  import opened ArgumentRoundTrip
  import opened Methods
  import opened Frames
  import opened Replies
  import opened Requests
  import opened Senders
  import opened Broker
  import opened Session
  import opened Chunks
  import opened Service

  // ---- PLAIN and AMQPLAIN ----

  // "PLAIN" and "AMQPLAIN".
  lemma MechanismNames()
    ensures PLAIN == [0x50, 0x4C, 0x41, 0x49, 0x4E]
    ensures AMQPLAIN == [0x41, 0x4D, 0x51, 0x50, 0x4C, 0x41, 0x49, 0x4E]
  {
  }

  lemma {:induction false} FirstNulIs(s: bytes, rest: bytes)
    requires 0 !in s
    ensures FirstNul(s + [0] + rest) == |s|
  {
    var all := s + [0] + rest;
    assert all[|s|] == 0;
    if s != [] {
      assert all[0] == s[0] && s[0] in s;
      assert all[1..] == s[1..] + [0] + rest;
      FirstNulIs(s[1..], rest);
    }
  }

  lemma SplitAtNul(s: bytes, rest: bytes, max: nat)
    requires 0 !in s && max > 0
    ensures SplitNul(s + [0] + rest, max) == [s] + SplitNul(rest, max - 1)
  {
    hide FirstNul;
    var all := s + [0] + rest;
    assert all[|s|] == 0;
    FirstNulIs(s, rest);
    assert all[..|s|] == s && all[|s| + 1..] == rest;
  }

  // An authorisation identity, a user and a password, each free of NUL, are offered as they are.
  lemma PlainOffers(f: Frame, identity: bytes, user: bytes, password: bytes)
    requires f.MethodFrame? && f.call.StartOk? && f.call.mechanism == [0x50, 0x4C, 0x41, 0x49, 0x4E]
    requires 0 !in identity && 0 !in user && 0 !in password
    requires f.call.response == identity + [0] + (user + [0] + password)
    ensures OfferedCredentials(f) == Offered(user, password)
  {
    hide SplitNul;
    MechanismNames();
    SplitAtNul(identity, user + [0] + password, 3);
    SplitAtNul(user, password, 2);
    NoNul(password, 1);
  }

  lemma NoNul(s: bytes, max: nat)
    requires 0 !in s
    ensures SplitNul(s, max) == [s]
  {
  }

  function Nuls(s: bytes): nat {
    if s == [] then 0 else (if s[0] == 0 then 1 else 0) + Nuls(s[1..])
  }

  lemma {:induction false} NulsBehindFirst(s: bytes)
    ensures 0 in s <==> Nuls(s) > 0
    ensures 0 in s ==> Nuls(s) == 1 + Nuls(s[FirstNul(s) + 1..])
  {
    if s != [] {
      NulsBehindFirst(s[1..]);
      if s[0] != 0 && 0 in s[1..] {
        assert s[1..][FirstNul(s[1..]) + 1..] == s[FirstNul(s) + 1..];
      }
    }
  }

  lemma {:induction false} SplitCounts(s: bytes, max: nat)
    ensures |SplitNul(s, max)| == 1 + if Nuls(s) < max then Nuls(s) else max
    decreases max
  {
    NulsBehindFirst(s);
    if max > 0 && 0 in s {
      SplitCounts(s[FirstNul(s) + 1..], max - 1);
    }
  }

  // A PLAIN response is taken apart exactly if it has two NULs; any other raises ValueError.
  lemma PlainNeedsTwoNuls(f: Frame)
    requires f.MethodFrame? && f.call.StartOk? && f.call.mechanism == [0x50, 0x4C, 0x41, 0x49, 0x4E]
    ensures if Nuls(f.call.response) == 2 then OfferedCredentials(f).Offered?
      else OfferedCredentials(f) == Unreadable(ValueError)
  {
    hide SplitNul;
    MechanismNames();
    SplitCounts(f.call.response, 3);
  }

  // ---- the protocol header ----

  // "AMQP", 0, 0, 9, 1 and nothing else is answered with start; fewer than eight octets are kept; anything
  // else closes the transport. Only the accepted header is answered.
  lemma HeaderAnswered(buffer: bytes, s: Session, b: Broker, data: bytes)
    requires s.parser.WaitingProtocolHeader?
    ensures var all := buffer + data;
      var o := DataReceived(buffer, s, b, data);
      && o.Done? && o.b == b
      && (|all| < 8 ==> o.buffer == all && o.s == s)
      && (all == [0x41, 0x4D, 0x51, 0x50, 0, 0, 9, 1] ==>
           o.buffer == [] &&
           o.s == s.(parser := WaitingStartOk, sent := s.sent + [ConnectionStart], trail := o.s.trail))
      && (|all| >= 8 && all != [0x41, 0x4D, 0x51, 0x50, 0, 0, 9, 1] ==>
           o.buffer == [] && o.s == s.(closing := true, trail := o.s.trail))
  {
    hide Encode;
    ConnectionRepliesWritten(ConnectionStart);
  }

  // ---- start-ok ----

  predicate OnConnection(f: Frame) {
    !f.HeartBeat? && f.channel == 0 && !(f.MethodFrame? && f.call.Close?)
  }

  // Another mechanism, or credentials that are not accepted: the transport is closed, nothing is sent,
  // and the parser goes on waiting. The attempt is recorded if there was one.
  lemma LoginRefused(w: bytes, s: Session, b: Broker, f: Frame)
    requires s.parser.WaitingStartOk? && ReadFrame(w) == Found(f) && OnConnection(f)
    requires f.MethodFrame? && f.call.StartOk?
    requires
      || f.call.mechanism !in {[0x50, 0x4C, 0x41, 0x49, 0x4E], [0x41, 0x4D, 0x51, 0x50, 0x4C, 0x41, 0x49, 0x4E]}
      || (OfferedCredentials(f).Offered? &&
          !CredentialsAccepted(b, OfferedCredentials(f).user, OfferedCredentials(f).password))
    ensures var o, c := DataReceived([], s, b, w), OfferedCredentials(f);
      && o.Left? && o.buffer == w[f.size..] && o.s == s.(closing := true, trail := o.s.trail)
      && o.b == if c.Offered? then b.(tried := b.tried[c.user := false]) else b
  {
    hide ReadFrame, DataReceived, SplitNul, DecodeAmqplain;
    MechanismNames();
    OneFrame(w, s, b, f);
  }

  // Accepted credentials are recorded and answered with tune; what stands behind is left.
  lemma LoginAccepted(w: bytes, s: Session, b: Broker, f: Frame)
    requires s.parser.WaitingStartOk? && ReadFrame(w) == Found(f) && OnConnection(f)
    requires f.MethodFrame? && f.call.StartOk?
    requires var c := OfferedCredentials(f); c.Offered? && CredentialsAccepted(b, c.user, c.password)
    ensures var o, c := DataReceived([], s, b, w), OfferedCredentials(f);
      && o.Left? && o.buffer == w[f.size..]
      && o.s == s.(parser := WaitingTuneOk, sent := s.sent + [ConnectionTune], trail := o.s.trail)
      && o.b == b.(tried := b.tried[c.user := true])
  {
    hide ReadFrame, DataReceived, OfferedCredentials, Encode;
    ConnectionRepliesWritten(ConnectionTune);
    OneFrame(w, s, b, f);
  }

  // A response that cannot be taken apart, and any frame but start-ok, raise and change nothing.
  lemma LoginUnreadable(w: bytes, s: Session, b: Broker, f: Frame)
    requires s.parser.WaitingStartOk? && ReadFrame(w) == Found(f) && OnConnection(f)
    requires !(f.MethodFrame? && f.call.StartOk?) || OfferedCredentials(f).Unreadable?
    ensures var o := DataReceived([], s, b, w);
      && o.Threw? && o.buffer == w[f.size..] && o.s == s && o.b == b
      && (!(f.MethodFrame? && f.call.StartOk?) ==> o.error == if f.BodyFrame? then AttributeError else KeyError)
  {
    hide ReadFrame, DataReceived, SplitNul, DecodeAmqplain;
    OneFrame(w, s, b, f);
  }

  // ---- tune-ok and open ----

  // The frame expected next, with nothing behind it.
  lemma TuneOkAndOpen(w: bytes, s: Session, b: Broker, f: Frame)
    requires ReadFrame(w) == Found(f) && f.size == |w| && f.MethodFrame? && f.channel == 0
    requires (s.parser.WaitingTuneOk? && f.call.TuneOk?) || (s.parser.WaitingOpen? && f.call.Open?)
    ensures var o := DataReceived([], s, b, w);
      o == Done([], if f.call.TuneOk? then s.(parser := WaitingOpen, trail := o.s.trail)
                    else s.(parser := Opened, sent := s.sent + [ConnectionOpenOk], trail := o.s.trail), b)
  {
    hide ReadFrame, DataReceived, Encode;
    ConnectionRepliesWritten(ConnectionOpenOk);
    LastFrame(w, s, b, f);
  }

  // Any other frame closes the transport; nothing is sent and the parser goes on waiting.
  lemma WrongFrameCloses(w: bytes, s: Session, b: Broker, f: Frame)
    requires ReadFrame(w) == Found(f) && OnConnection(f)
    requires (s.parser.WaitingTuneOk? && !(f.MethodFrame? && f.call.TuneOk?)) ||
      (s.parser.WaitingOpen? && !(f.MethodFrame? && f.call.Open?))
    ensures var o := DataReceived([], s, b, w);
      o == Left(w[f.size..], s.(closing := true, trail := o.s.trail), b)
  {
    hide ReadFrame, DataReceived;
    OneFrame(w, s, b, f);
  }

  // Once opened, a connection passes over everything on channel 0 but close.
  lemma OpenedPassesOver(s: Session, b: Broker, f: Frame)
    requires s.parser.Opened? && OnConnection(f)
    ensures HandleFrame(s, b, f) == Next(s, b)
  {
  }

  // ---- in every state ----

  // Close is answered with close-ok, and the transport is closed.
  lemma CloseAnswered(w: bytes, s: Session, b: Broker, f: Frame)
    requires !s.parser.WaitingProtocolHeader? && ReadFrame(w) == Found(f)
    requires f.MethodFrame? && f.channel == 0 && f.call.Close?
    ensures DataReceived([], s, b, w) ==
      Left(w[f.size..], s.(sent := s.sent + [ConnectionCloseOk], closing := true), b)
  {
    hide ReadFrame, DataReceived, Encode;
    ConnectionRepliesWritten(ConnectionCloseOk);
    OneFrame(w, s, b, f);
  }

  // A heartbeat is answered with a heartbeat.
  lemma HeartbeatAnswered(w: bytes, s: Session, b: Broker, f: Frame)
    requires !s.parser.WaitingProtocolHeader? && ReadFrame(w) == Found(f) && f.size == |w| && f.HeartBeat?
    ensures DataReceived([], s, b, w) == Done([], s.(sent := s.sent + [Heartbeat]), b)
  {
    hide ReadFrame, DataReceived, Encode;
    ConnectionRepliesWritten(Heartbeat);
    LastFrame(w, s, b, f);
  }

  // Bytes that are no frame raise, and stay where they are.
  lemma BadFrameThrows(w: bytes, s: Session, b: Broker)
    requires !s.parser.WaitingProtocolHeader? && ReadFrame(w).Bad?
    ensures DataReceived([], s, b, w) == Threw(w, s, b, ReadFrame(w).error)
  {
    hide ReadFrame;
    assert [] + w == w;
    EmptyIsNoFrame();
  }

  // ---- the whole handshake ----

  // Header, a PLAIN start-ok with accepted credentials, tune-ok and open, each handed over by itself:
  // the connection is opened, and start, tune and open-ok have been sent.
  lemma HandshakeCompletes(me: Transport, b: Broker, r: Request, t: Request, o: Request,
                           identity: bytes, user: bytes, password: bytes)
    requires r.StartOk? && r.mechanism == [0x50, 0x4C, 0x41, 0x49, 0x4E] && t.TuneOk? && o.Open?
    requires r.response == identity + [0] + (user + [0] + password)
    requires 0 !in identity && 0 !in user && 0 !in password && CredentialsAccepted(b, user, password)
    requires Laid(0, r).Ok? && Laid(0, t).Ok? && Laid(0, o).Ok? && AllWellFormed(Args(r))
    ensures var header := [0x41, 0x4D, 0x51, 0x50, 0, 0, 9, 1];
      var fed := Feed([], Fresh(me), b, [header, Laid(0, r).value, Laid(0, t).value, Laid(0, o).value]);
      && fed.outcome.Done? && fed.outcome.buffer == [] && fed.rest == []
      && fed.outcome.s.parser == Opened && !fed.outcome.s.closing && fed.outcome.s.channels == map[]
      && fed.outcome.s.sent == [ConnectionStart, ConnectionTune, ConnectionOpenOk]
      && fed.outcome.b == b.(tried := b.tried[user := true])
  {
    hide DataReceived, ReadFrame, Laid, Args, OfferedCredentials, CredentialsAccepted;
    var header := [0x41, 0x4D, 0x51, 0x50, 0, 0, 9, 1];
    var w, x, y := Laid(0, r).value, Laid(0, t).value, Laid(0, o).value;
    FlatArgs(t, o);
    assert w + [] == w && x + [] == x && y + [] == y && [] + header == header;
    RequestFound(0, r, []);
    RequestFound(0, t, []);
    RequestFound(0, o, []);
    HeaderAnswered([], Fresh(me), b, header);
    var one := DataReceived([], Fresh(me), b, header);
    PlainOffers(ReadFrame(w).frame, identity, user, password);
    LoginAccepted(w, one.s, b, ReadFrame(w).frame);
    assert w[|w|..] == [];
    var two := DataReceived([], one.s, b, w);
    TuneOkAndOpen(x, two.s, two.b, ReadFrame(x).frame);
    var three := DataReceived([], two.s, two.b, x);
    TuneOkAndOpen(y, three.s, three.b, ReadFrame(y).frame);
    FourChunks(Fresh(me), b, header, w, x, y);
  }

  lemma FlatArgs(t: Request, o: Request)
    requires t.TuneOk? && o.Open?
    ensures AllWellFormed(Args(t)) && AllWellFormed(Args(o))
  {
  }

  lemma FourChunks(s: Session, b: Broker, h: bytes, w: bytes, x: bytes, y: bytes)
    requires var one := DataReceived([], s, b, h);
      && one.buffer == [] && StillOpen(one)
      && var two := DataReceived([], one.s, one.b, w);
         && two.buffer == [] && StillOpen(two)
         && var three := DataReceived([], two.s, two.b, x);
            three.buffer == [] && StillOpen(three)
    ensures var one := DataReceived([], s, b, h);
      var two := DataReceived([], one.s, one.b, w);
      var three := DataReceived([], two.s, two.b, x);
      Feed([], s, b, [h, w, x, y]) == Fed(DataReceived([], three.s, three.b, y), [])
  {
    hide DataReceived;
    assert [h, w, x, y][1..] == [w, x, y] && [w, x, y][1..] == [x, y] && [x, y][1..] == [y] && [y][1..] == [];
    var one := DataReceived([], s, b, h);
    var two := DataReceived([], one.s, one.b, w);
    var three := DataReceived([], two.s, two.b, x);
    assert Feed([], three.s, three.b, [y]) == Fed(DataReceived([], three.s, three.b, y), []);
    assert Feed([], two.s, two.b, [x, y]) == Feed([], three.s, three.b, [y]);
    assert Feed([], one.s, one.b, [w, x, y]) == Feed([], two.s, two.b, [x, y]);
  }

  // ---- the first state of the broker ----

  // The account guest with the password guest, the direct exchange with the empty name, nothing else.
  lemma FirstBroker()
    ensures var b, guest := Initial(), [0x67, 0x75, 0x65, 0x73, 0x74];
      && b.users == map[guest := guest]
      && b.exchanges == map[[] := Exchange([0x64, 0x69, 0x72, 0x65, 0x63, 0x74], [])]
      && b.queues == map[] && b.bound == map[] && b.tried == map[]
      && b.acknowledged == b.notAcknowledged == b.requeued == {}
  {
  }
}
