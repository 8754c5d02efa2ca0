// loads undoes dumps exactly for the formats whose bits both sides pack alike.
module ArgumentRoundTrip {
  import opened Wrappers
  import opened Bytes
  import opened Values
  import opened ItemCodec
  import opened ArgumentCodec

  // Known letters only, no run of more than eight bits, and no timestamp directly after a bit
  // (dumps writes a timestamp before the bits that precede it). `run` bits come just before fmt.
  predicate Regular(fmt: string, run: nat) {
    fmt == "" ||
    if fmt[0] == 'b' then run < 8 && Regular(fmt[1..], run + 1)
    else if fmt[0] == 'T' then run == 0 && Regular(fmt[1..], 0)
    else Flushes(fmt[0]) && Regular(fmt[1..], 0)
  }

  // A few known letters that are no timestamps.
  lemma {:induction false} ShortFormat(fmt: string, run: nat)
    requires (forall c | c in fmt :: c == 'b' || Flushes(c)) && run + |fmt| <= 8
    ensures Regular(fmt, run)
    decreases |fmt|
  {
    if fmt != "" {
      ShortFormat(fmt[1..], run + 1);
      ShortFormat(fmt[1..], 0);
    }
  }

  predicate AllWellFormed(vals: seq<Value>) {
    forall v | v in vals :: WellFormed(v)
  }

  function GivenAll(fmt: string, vals: seq<Value>): (r: seq<Value>)
    requires |fmt| == |vals|
    ensures |r| == |fmt|
  {
    if fmt == "" then [] else [Given(fmt[0], vals[0])] + GivenAll(fmt[1..], vals[1..])
  }

  // Where nothing has to be converted nothing is.
  lemma {:induction false} AllGiven(fmt: string, vals: seq<Value>)
    requires |fmt| == |vals| && forall i :: 0 <= i < |fmt| ==> Proper(fmt[i], vals[i])
    ensures GivenAll(fmt, vals) == vals
  {
    hide Proper, Given;
    if fmt != "" {
      ProperIsGiven(fmt[0], vals[0]);
      AllGiven(fmt[1..], vals[1..]);
    }
  }

  lemma ProperIsGiven(p: char, v: Value)
    requires Proper(p, v)
    ensures Given(p, v) == v
  {
  }

  ghost predicate Writable(fmt: string, vals: seq<Value>) {
    |fmt| == |vals| && AllWellFormed(vals) && Dumps(fmt, vals).Ok?
  }

  // The bytes of dumps, wherever they stand in a buffer, load as the values and the offset after them.
  ghost predicate ReadsBackIn(fmt: string, vals: seq<Value>, pre: bytes, post: bytes)
    requires Writable(fmt, vals)
  {
    var w := Dumps(fmt, vals).value;
    Loads(fmt, pre + w + post, |pre|) == Ok(Read(GivenAll(fmt, vals), |pre| + |w|))
  }

  ghost predicate ReadsBack(fmt: string, vals: seq<Value>)
    requires Writable(fmt, vals)
  {
    forall pre, post :: ReadsBackIn(fmt, vals, pre, post)
  }

  lemma RoundTripExactlyWhenRegular(fmt: string)
    ensures Regular(fmt, 0) <==> forall vals | Writable(fmt, vals) :: ReadsBack(fmt, vals)
  {
    if Regular(fmt, 0) {
      forall vals | Writable(fmt, vals)
        ensures ReadsBack(fmt, vals)
      {
        forall pre, post
          ensures ReadsBackIn(fmt, vals, pre, post)
        {
          var w := Dumps(fmt, vals).value;
          AtMiddle(pre, w, post);
          LoadsUndoesDumps(fmt, vals, [], 0, pre + w + post, |pre|);
        }
      }
    } else {
      var vals := Probes(fmt);
      ProbesWritable(fmt, [], 0);
      var w := Dumps(fmt, vals).value;
      AtMiddle([], w, []);
      ProbesMisread(fmt, [], 0, [] + w + [], 0);
      assert Writable(fmt, vals) && !ReadsBackIn(fmt, vals, [], []);
    }
  }

  // Nine bits, a timestamp after a bit, and an unknown letter: formats that lose values.
  lemma FormatsThatLoseValues()
    ensures exists vals | Writable("bbbbbbbbb", vals) :: !ReadsBack("bbbbbbbbb", vals)
    ensures exists vals | Writable("bT", vals) :: !ReadsBack("bT", vals)
    ensures exists vals | Writable("x", vals) :: !ReadsBack("x", vals)
  {
    hide Writable, ReadsBack;
    RoundTripExactlyWhenRegular("bbbbbbbbb");
    RoundTripExactlyWhenRegular("bT");
    RoundTripExactlyWhenRegular("x");
    NineBits();
    assert "bT"[1..] == "T" && !Regular("T", 1);
    assert !Flushes('x');
  }

  lemma NineBits()
    ensures !Regular("bbbbbbbbb", 0)
  {
    assert "bbbbbbbbb"[1..] == "bbbbbbbb" && "bbbbbbbb"[1..] == "bbbbbbb" && "bbbbbbb"[1..] == "bbbbbb";
    assert "bbbbbb"[1..] == "bbbbb" && "bbbbb"[1..] == "bbbb" && "bbbb"[1..] == "bbb"
      && "bbb"[1..] == "bb" && "bb"[1..] == "b";
    assert !Regular("b", 8);
    assert !Regular("bb", 7);
    assert !Regular("bbb", 6);
    assert !Regular("bbbb", 5);
    assert !Regular("bbbbb", 4);
    assert !Regular("bbbbbb", 3);
    assert !Regular("bbbbbbb", 2);
  }

  lemma AtMiddle(pre: bytes, w: bytes, post: bytes)
    ensures At(pre + w + post, |pre|, w)
  {
  }

  // ---- one argument ----

  lemma OneRoundTrip(p: char, v: Value, buf: bytes, offset: nat)
    requires WellFormed(v) && DumpOne(p, v).Ok? && At(buf, offset, DumpOne(p, v).value)
    ensures LoadOne(p, buf, offset) == Ok(Read(Given(p, v), offset + |DumpOne(p, v).value|))
  {
    hide Pack, Unpack, WriteTable, WriteArray, ReadTable, ReadArray, DumpString, LoadString;
    if p == 'o' { UnpackPacked(buf, offset, Given(p, v).number, 1); }
    else if p == 'B' { UnpackPacked(buf, offset, Given(p, v).number, 2); }
    else if p == 'l' { UnpackPacked(buf, offset, Given(p, v).number, 4); }
    else if p == 'L' { UnpackPacked(buf, offset, Given(p, v).number, 8); }
    else if p == 'T' { UnpackPacked(buf, offset, Given(p, v).seconds, 8); }
    else if p == 'f' { InBounds(buf, offset, 4); }
    else if p == 's' { StringRoundTrip(Given(p, v).text, 1, buf, offset); }
    else if p == 'S' { StringRoundTrip(Given(p, v).text, 4, buf, offset); }
    else if p == 'F' { TableRoundTrip(Given(p, v).entries, buf, offset); }
    else { ArrayRoundTrip(Given(p, v).items, buf, offset); }
  }

  lemma StringRoundTrip(s: bytes, width: nat, buf: bytes, offset: nat)
    requires DumpString(s, width).Ok? && At(buf, offset, DumpString(s, width).value)
    ensures LoadString(buf, offset, width) == Ok(Read(Str(s), offset + |DumpString(s, width).value|))
  {
    hide Pack, Unpack, Slice;
    var n := Pack(|s|, width).value;
    AtSplit(buf, offset, n, s);
    UnpackPacked(buf, offset, |s|, width);
    AtSlice(buf, offset + width, s);
  }

  // ---- one argument in front of others ----

  lemma NothingDumped()
    ensures Dumps("", []) == Ok([])
  {
  }

  lemma DumpsLetter(p: char, fmt: string, v: Value, vals: seq<Value>)
    requires Flushes(p)
    ensures Dumps([p] + fmt, [v] + vals) ==
      if DumpOne(p, v).Raised? then DumpOne(p, v) else Append(DumpOne(p, v).value, Dumps(fmt, vals))
  {
    hide DumpOne;
    assert ([p] + fmt)[1..] == fmt && ([v] + vals)[1..] == vals;
    if DumpOne(p, v).Ok? {
      assert [] + DumpOne(p, v).value == DumpOne(p, v).value;
    }
  }

  // ---- a run of bits ----

  // The pending octets after `run` bits.
  predicate Pending(bits: bytes, run: nat) {
    run <= 8 && (if run == 0 then bits == [] else |bits| == 1 && bits[0] < Pow2(run))
  }

  // octet >> k, one place at a time, and the k bits shifted out.
  function Shifted(octet: nat, k: nat): (r: nat)
    ensures r <= octet
  {
    if k == 0 then octet else Shifted(octet, k - 1) / 2
  }

  function Low(octet: nat, k: nat): (r: nat)
    ensures r < Pow2(k)
  {
    if k == 0 then 0 else Low(octet, k - 1) + (if Shifted(octet, k - 1) % 2 == 1 then Pow2(k - 1) else 0)
  }

  lemma {:induction false} LowAndShifted(octet: nat, k: nat)
    ensures octet == Shifted(octet, k) * Pow2(k) + Low(octet, k)
  {
    if k > 0 {
      LowAndShifted(octet, k - 1);
      var s, s', p := Shifted(octet, k), Shifted(octet, k - 1), Pow2(k - 1);
      HalvedProduct(s', s, p);
      assert Pow2(k) == 2 * p;
    }
  }

  lemma HalvedProduct(whole: nat, half: nat, p: nat)
    requires half == whole / 2
    ensures whole * p == half * (2 * p) + (if whole % 2 == 1 then p else 0)
  {
    Halves(half, whole % 2, p);
    assert whole == 2 * half + whole % 2;
  }

  lemma LowOfSmall(octet: nat, k: nat)
    requires octet < Pow2(k)
    ensures Low(octet, k) == octet
  {
    LowAndShifted(octet, k);
    if Shifted(octet, k) >= 1 {
      Multiple(Shifted(octet, k), Pow2(k));
    }
  }

  lemma Halves(h: int, b: int, p: int)
    ensures (2 * h + b) * p == h * (2 * p) + b * p
  {
  }

  lemma Multiple(s: nat, p: nat)
    requires s >= 1
    ensures s * p >= p
  {
  }

  lemma OctetStep(octet: byte, run: nat, flag: bool, final: byte)
    requires run < 8 && octet < Pow2(run)
    ensures Shifted(final, run + 1) == Shifted(final, run) / 2
    ensures OrBit(octet, run, flag) == octet + if flag then Pow2(run) else 0
    ensures OrBit(octet, run, flag) < Pow2(run + 1)
    ensures Low(final, run + 1) == OrBit(octet, run, flag) <==>
      Low(final, run) == octet && (Shifted(final, run) % 2 == 1) == flag
  {
    SmallQuotient(octet, Pow2(run));
  }

  lemma SmallQuotient(n: nat, d: nat)
    requires n < d
    ensures n / d == 0
  {
  }

  lemma PushIntoOctet(bits: bytes, run: nat, flag: bool)
    requires Pending(bits, run) && run < 8
    ensures |PushBit(bits, run, flag)| == 1
    ensures PushBit(bits, run, flag)[0] == OrBit(if run == 0 then 0 else bits[0], run, flag)
  {
  }

  // ---- dumps then loads ----

  // Whatever stands in front of a letter that is not a bit, loads starts it afresh.
  lemma BitsForgotten(fmt: string, buf: bytes, offset: nat, bitcount: nat, bits: nat)
    requires fmt == "" || fmt[0] != 'b'
    ensures LoadsFrom(fmt, buf, offset, bitcount, bits) == LoadsFrom(fmt, buf, offset, 0, 0)
  {
  }

  // At the start of a run the reader is in step with the writer. Inside a run it has taken the
  // final octet, whose low bits are the pending ones, and holds the rest of it.
  ghost predicate InStep(fmt: string, vals: seq<Value>, w: bytes, bits: bytes, run: nat, buf: bytes, offset: nat)
    requires |fmt| == |vals| && Pending(bits, run)
  {
    if run == 0 then LoadsFrom(fmt, buf, offset, 0, 0) == Ok(Read(GivenAll(fmt, vals), offset + |w|))
    else
      && w != [] && Low(w[0], run) == bits[0]
      && LoadsFrom(fmt, buf, offset + 1, 7, Shifted(w[0], run)) == Ok(Read(GivenAll(fmt, vals), offset + |w|))
  }

  lemma {:induction false} LoadsUndoesDumps(
    fmt: string, vals: seq<Value>, bits: bytes, run: nat, buf: bytes, offset: nat)
    requires |fmt| == |vals| && AllWellFormed(vals) && Regular(fmt, run) && Pending(bits, run)
    requires DumpsFrom(fmt, vals, bits, run).Ok? && At(buf, offset, DumpsFrom(fmt, vals, bits, run).value)
    ensures InStep(fmt, vals, DumpsFrom(fmt, vals, bits, run).value, bits, run, buf, offset)
    decreases |fmt|
  {
    hide FitsAll, LoadOne, DumpOne, PushBit, OrBit, Pow2, Shifted, Low, Given;
    var w := DumpsFrom(fmt, vals, bits, run).value;
    if fmt == "" {
      assert GivenAll(fmt, vals) == [];
      SmallOctet(bits, run);
    } else if fmt[0] == 'b' {
      var bits' := PushBit(bits, run, Truthy(vals[0]));
      PushIntoOctet(bits, run, Truthy(vals[0]));
      var octet := if run == 0 then 0 else bits[0];
      OctetStep(octet, run, Truthy(vals[0]), 0);
      LoadsUndoesDumps(fmt[1..], vals[1..], bits', run + 1, buf, offset);
      OctetStep(octet, run, Truthy(vals[0]), w[0]);
      BitStep(fmt, vals, w, bits, run, buf, offset);
    } else {
      FlushStep(fmt, vals, bits, run, buf, offset);
      var one := DumpOne(fmt[0], vals[0]).value;
      LoadsUndoesDumps(fmt[1..], vals[1..], [], 0, buf, offset + |bits| + |one|);
      BitsForgotten(fmt, buf, offset + 1, 7, Shifted(w[0], run));
      SmallOctet(bits, run);
    }
  }

  lemma SmallOctet(bits: bytes, run: nat)
    requires Pending(bits, run)
    ensures run > 0 ==> Low(bits[0], run) == bits[0]
  {
    if run > 0 {
      LowOfSmall(bits[0], run);
    }
  }

  // Reading one bit of the octet that stands at offset.
  lemma BitStep(fmt: string, vals: seq<Value>, w: bytes, bits: bytes, run: nat, buf: bytes, offset: nat)
    requires |fmt| == |vals| && fmt != "" && fmt[0] == 'b' && run < 8 && Pending(bits, run)
    requires w != [] && At(buf, offset, w)
    requires Low(w[0], run) == (if run == 0 then 0 else bits[0])
    requires (Shifted(w[0], run) % 2 == 1) == Truthy(vals[0])
    requires LoadsFrom(fmt[1..], buf, offset + 1, 7, Shifted(w[0], run) / 2) ==
      Ok(Read(GivenAll(fmt[1..], vals[1..]), offset + |w|))
    ensures InStep(fmt, vals, w, bits, run, buf, offset)
  {
    hide LoadOne, Fits, FitsAll, Low, OrBit, Pow2;
    assert buf[offset] == buf[offset..offset + |w|][0] == w[0];
  }

  lemma FlushWritten(fmt: string, vals: seq<Value>, bits: bytes, run: nat)
    requires |fmt| == |vals| && fmt != "" && Pending(bits, run)
    requires Flushes(fmt[0]) || (fmt[0] == 'T' && run == 0)
    requires DumpsFrom(fmt, vals, bits, run).Ok?
    ensures DumpOne(fmt[0], vals[0]).Ok? && DumpsFrom(fmt[1..], vals[1..], [], 0).Ok?
    ensures DumpsFrom(fmt, vals, bits, run).value ==
      bits + DumpOne(fmt[0], vals[0]).value + DumpsFrom(fmt[1..], vals[1..], [], 0).value
  {
    hide DumpOne, Pow2;
    if run == 0 {
      assert bits + DumpOne(fmt[0], vals[0]).value == DumpOne(fmt[0], vals[0]).value;
    }
  }

  // A letter that flushes leaves the pending octets, its own bytes, and the rest, one after the other.
  lemma FlushStep(fmt: string, vals: seq<Value>, bits: bytes, run: nat, buf: bytes, offset: nat)
    requires |fmt| == |vals| && AllWellFormed(vals) && fmt != "" && Pending(bits, run)
    requires Flushes(fmt[0]) || (fmt[0] == 'T' && run == 0)
    requires DumpsFrom(fmt, vals, bits, run).Ok? && At(buf, offset, DumpsFrom(fmt, vals, bits, run).value)
    ensures var w := DumpsFrom(fmt, vals, bits, run).value;
      var one := DumpOne(fmt[0], vals[0]);
      var rest := DumpsFrom(fmt[1..], vals[1..], [], 0);
      && one.Ok? && rest.Ok? && w == bits + one.value + rest.value
      && LoadOne(fmt[0], buf, offset + |bits|) == Ok(Read(Given(fmt[0], vals[0]), offset + |bits| + |one.value|))
      && At(buf, offset + |bits| + |one.value|, rest.value)
  {
    hide FitsAll, LoadOne, DumpOne, DumpsFrom, Given, Pending, Pow2, WellFormed;
    FlushWritten(fmt, vals, bits, run);
    var one, rest := DumpOne(fmt[0], vals[0]).value, DumpsFrom(fmt[1..], vals[1..], [], 0).value;
    AtSplit(buf, offset, bits + one, rest);
    AtSplit(buf, offset, bits, one);
    OneRoundTrip(fmt[0], vals[0], buf, offset + |bits|);
  }

  // ---- every other format has values that do not come back ----

  function Probe(p: char): Value {
    match p
    case 'b' => Bool(true)
    case 'o' => Int(0) case 'B' => Int(0) case 'l' => Int(0) case 'L' => Int(0)
    case 'f' => Single([0, 0, 0, 0])
    case 's' => Str([]) case 'S' => Str([])
    case 'F' => Table([]) case 'A' => Array([])
    case 'T' => Timestamp(0)
    case _ => Void
  }

  function Probes(fmt: string): (vals: seq<Value>)
    ensures |vals| == |fmt| && AllWellFormed(vals) && GivenAll(fmt, vals) == vals
  {
    if fmt == "" then [] else [Probe(fmt[0])] + Probes(fmt[1..])
  }

  lemma ProbeWritable(p: char)
    ensures Flushes(p) || p == 'T' ==> DumpOne(p, Probe(p)).Ok?
    ensures p == 'b' ==> Probe(p) == Bool(true)
    ensures p == 'T' ==> DumpOne(p, Probe(p)).value == [0, 0, 0, 0, 0, 0, 0, 0]
  {
    WidthBounds();
    assert BigEndian(0, 2) == [0, 0];
    assert BigEndian(0, 4) == [0, 0, 0, 0];
    assert BigEndian(0, 6) == [0, 0, 0, 0, 0, 0];
    assert BigEndian(0, 8) == [0, 0, 0, 0, 0, 0, 0, 0];
  }

  lemma {:induction false} ProbesWritable(fmt: string, bits: bytes, count: nat)
    requires |bits| == (count + 7) / 8
    ensures DumpsFrom(fmt, Probes(fmt), bits, count).Ok?
    decreases |fmt|
  {
    hide DumpOne, PushBit, Probe;
    if fmt != "" {
      ProbeWritable(fmt[0]);
      assert Probes(fmt)[1..] == Probes(fmt[1..]);
      if fmt[0] == 'b' {
        ProbesWritable(fmt[1..], PushBit(bits, count, true), count + 1);
      } else {
        ProbesWritable(fmt[1..], [], 0);
        ProbesWritable(fmt[1..], bits, count);
      }
    }
  }

  predicate Misread(fmt: string, r: Result<Read<seq<Value>>>) {
    !(r.Ok? && r.value.value == Probes(fmt))
  }

  lemma MisreadTail(fmt: string, v: Value, rest: Result<Read<seq<Value>>>)
    requires fmt != "" && (v != Probe(fmt[0]) || Misread(fmt[1..], rest))
    ensures rest.Ok? ==> [v] + rest.value.value != Probes(fmt)
  {
    if rest.Ok? {
      var all := [v] + rest.value.value;
      assert all[0] == v && all[1..] == rest.value.value;
      assert Probes(fmt)[0] == Probe(fmt[0]) && Probes(fmt)[1..] == Probes(fmt[1..]);
    }
  }

  // The pending octets are never lost.
  lemma {:induction false} PendingWritten(fmt: string, vals: seq<Value>, bits: bytes, count: nat)
    requires |bits| == (count + 7) / 8
    ensures DumpsFrom(fmt, vals, bits, count).Ok? ==> |DumpsFrom(fmt, vals, bits, count).value| >= |bits|
    decreases |vals|
  {
    hide DumpOne, PushBit;
    if vals != [] && fmt != "" {
      if fmt[0] == 'b' {
        PendingWritten(fmt[1..], vals[1..], PushBit(bits, count, Truthy(vals[0])), count + 1);
      } else {
        PendingWritten(fmt[1..], vals[1..], bits, count);
      }
    }
  }

  // In step with the writer up to the first letter that breaks the rule, and wrong there:
  // a ninth bit reads as false, a bit before a timestamp reads from the timestamp, an unknown
  // letter raises.
  lemma {:induction false} ProbesMisread(fmt: string, bits: bytes, run: nat, buf: bytes, offset: nat)
    requires !Regular(fmt, run) && Pending(bits, run) && (run > 0 ==> bits[0] == Pow2(run) - 1)
    requires DumpsFrom(fmt, Probes(fmt), bits, run).Ok?
    requires At(buf, offset, DumpsFrom(fmt, Probes(fmt), bits, run).value)
    ensures run == 0 ==> Misread(fmt, LoadsFrom(fmt, buf, offset, 0, 0))
    ensures var w := DumpsFrom(fmt, Probes(fmt), bits, run).value;
      run > 0 ==>
        && w != []
        && (Low(w[0], run) != bits[0] || Misread(fmt, LoadsFrom(fmt, buf, offset + 1, 7, Shifted(w[0], run))))
    decreases |fmt|
  {
    hide FitsAll, LoadOne, DumpOne, PushBit, OrBit, Pow2, Shifted, Low, Given, Probe, Misread;
    var vals := Probes(fmt);
    var w := DumpsFrom(fmt, vals, bits, run).value;
    PendingWritten(fmt, vals, bits, run);
    ProbeWritable(fmt[0]);
    assert vals[1..] == Probes(fmt[1..]) && vals[0] == Probe(fmt[0]);
    if fmt[0] == 'b' && run < 8 {
      var octet := if run == 0 then 0 else bits[0];
      PushIntoOctet(bits, run, true);
      OctetStep(octet, run, true, 0);
      PowStep(run);
      ProbesMisread(fmt[1..], PushBit(bits, run, true), run + 1, buf, offset);
      OctetStep(octet, run, true, w[0]);
      MisreadBit(fmt, w, run, octet, buf, offset);
    } else if fmt[0] == 'b' {
      MisreadNinthBit(fmt, w[0], buf, offset + 1);
    } else if fmt[0] == 'T' && run > 0 {
      assert w[0] == 0;
      MisreadStamp(bits, run);
    } else if fmt[0] == 'T' || Flushes(fmt[0]) {
      FlushStep(fmt, vals, bits, run, buf, offset);
      var one := DumpOne(fmt[0], vals[0]).value;
      ProbesMisread(fmt[1..], [], 0, buf, offset + |bits| + |one|);
      MisreadLetter(fmt, buf, offset + |bits|, Given(fmt[0], vals[0]), offset + |bits| + |one|);
      BitsForgotten(fmt, buf, offset + 1, 7, Shifted(w[0], run));
    } else {
      MisreadUnknown(fmt, buf, offset, 0, 0);
      if run > 0 {
        MisreadUnknown(fmt, buf, offset + 1, 7, Shifted(w[0], run));
      }
    }
  }

  lemma MisreadBit(fmt: string, w: bytes, run: nat, octet: byte, buf: bytes, offset: nat)
    requires fmt != "" && fmt[0] == 'b' && run < 8 && w != [] && At(buf, offset, w)
    requires run == 0 ==> octet == 0
    requires !(Low(w[0], run) == octet && Shifted(w[0], run) % 2 == 1) ||
      Misread(fmt[1..], LoadsFrom(fmt[1..], buf, offset + 1, 7, Shifted(w[0], run + 1)))
    ensures run == 0 ==> Misread(fmt, LoadsFrom(fmt, buf, offset, 0, 0))
    ensures run > 0 ==> Low(w[0], run) != octet || Misread(fmt, LoadsFrom(fmt, buf, offset + 1, 7, Shifted(w[0], run)))
  {
    hide Misread, LoadOne, Pow2;
    var rest := LoadsFrom(fmt[1..], buf, offset + 1, 7, Shifted(w[0], run + 1));
    assert buf[offset] == buf[offset..offset + |w|][0] == w[0];
    assert Probe('b') == Bool(true);
    PowStep(0);
    if Low(w[0], run) == octet {
      MisreadTail(fmt, Bool(Shifted(w[0], run) % 2 == 1), rest);
      MisreadMeans(fmt, LoadsFrom(fmt, buf, offset, 0, 0));
      MisreadMeans(fmt, LoadsFrom(fmt, buf, offset + 1, 7, Shifted(w[0], run)));
    }
  }

  lemma PowStep(k: nat)
    ensures Pow2(0) == 1 && Pow2(k + 1) == 2 * Pow2(k)
  {
  }

  lemma MisreadMeans(fmt: string, r: Result<Read<seq<Value>>>)
    ensures Misread(fmt, r) <==> !(r.Ok? && r.value.value == Probes(fmt))
  {
  }

  lemma ShiftedOut(octet: byte)
    ensures Shifted(octet, 8) == 0
  {
    assert Shifted(octet, 1) < 128;
    assert Shifted(octet, 2) < 64;
    assert Shifted(octet, 4) < 16;
    assert Shifted(octet, 6) < 4;
  }

  lemma MisreadNinthBit(fmt: string, octet: byte, buf: bytes, offset: nat)
    requires fmt != "" && fmt[0] == 'b'
    ensures Misread(fmt, LoadsFrom(fmt, buf, offset, 7, Shifted(octet, 8)))
  {
    ShiftedOut(octet);
    assert Probe('b') == Bool(true);
    MisreadTail(fmt, Bool(false), LoadsFrom(fmt[1..], buf, offset, 7, 0));
  }

  lemma MisreadStamp(bits: bytes, run: nat)
    requires Pending(bits, run) && run > 0 && bits[0] == Pow2(run) - 1
    ensures Low(0, run) != bits[0]
  {
    LowOfSmall(0, run);
  }

  lemma MisreadLetter(fmt: string, buf: bytes, offset: nat, v: Value, next: nat)
    requires fmt != "" && fmt[0] != 'b' && LoadOne(fmt[0], buf, offset) == Ok(Read(v, next))
    requires Misread(fmt[1..], LoadsFrom(fmt[1..], buf, next, 0, 0))
    ensures Misread(fmt, LoadsFrom(fmt, buf, offset, 0, 0))
  {
    hide FitsAll, LoadOne, Probe;
    MisreadTail(fmt, v, LoadsFrom(fmt[1..], buf, next, 0, 0));
  }

  lemma MisreadUnknown(fmt: string, buf: bytes, offset: nat, bitcount: nat, bits: nat)
    requires fmt != "" && fmt[0] != 'b' && fmt[0] != 'T' && !Flushes(fmt[0])
    ensures Misread(fmt, LoadsFrom(fmt, buf, offset, bitcount, bits))
  {
  }
}
