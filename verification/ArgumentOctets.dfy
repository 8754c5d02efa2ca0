// The octets of method arguments, one by one: how many a letter takes and in which order.
module ArgumentOctets {
  import opened Wrappers
  import opened Bytes
  import opened Values
  import opened ItemCodec
  import opened ItemOctets
  import opened ArgumentCodec
  import opened ArgumentRoundTrip

  // o, B, l and L: one, two, four and eight octets, unsigned, most significant first.
  lemma LoadsNumbers(buf: bytes, offset: nat, w: bytes)
    requires At(buf, offset, w)
    ensures |w| == 1 ==> LoadOne('o', buf, offset) == Ok(Read(Int(w[0]), offset + 1))
    ensures |w| == 2 ==> LoadOne('B', buf, offset) == Ok(Read(Int(Two(w[0], w[1])), offset + 2))
    ensures |w| == 4 ==> LoadOne('l', buf, offset) == Ok(Read(Int(Four(w[0], w[1], w[2], w[3])), offset + 4))
    ensures |w| == 8 ==> LoadOne('L', buf, offset) == Ok(Read(Int(Eight(w)), offset + 8))
  {
    hide Unpack, FromBigEndian, Eight;
    UnpackAt(buf, offset, w);
    if |w| == 1 {
      SmallNumbers(w[0], 0, 0, 0);
      assert w == [w[0]];
    } else if |w| == 2 {
      SmallNumbers(w[0], w[1], 0, 0);
      assert w == [w[0], w[1]];
    } else if |w| == 4 {
      SmallNumbers(w[0], w[1], w[2], w[3]);
      assert w == [w[0], w[1], w[2], w[3]];
    } else if |w| == 8 {
      LargeNumber(w);
    }
  }

  // f: four octets as they are. T: eight octets of seconds.
  lemma LoadsFloatAndTimestamp(buf: bytes, offset: nat, four: Image4, w: bytes)
    requires |w| == 8
    ensures At(buf, offset, four) ==> LoadOne('f', buf, offset) == Ok(Read(Single(four), offset + 4))
    ensures At(buf, offset, w) ==>
      LoadOne('T', buf, offset) ==
        if Eight(w) <= 253402300799 then Ok(Read(Timestamp(Eight(w)), offset + 8)) else Raised(ValueError)
  {
    hide Unpack, FromBigEndian, Eight;
    if At(buf, offset, four) {
      UnpackAt(buf, offset, four);
    }
    if At(buf, offset, w) {
      UnpackAt(buf, offset, w);
      LargeNumber(w);
    }
  }

  // s: one octet of length, then the text. A buffer that ends before the text does gives what is there.
  lemma LoadsShortText(buf: bytes, offset: nat, n: byte, text: bytes)
    requires At(buf, offset, [n] + text)
    requires |text| == n || (|text| < n && offset + 1 + |text| == |buf|)
    ensures LoadOne('s', buf, offset) == Ok(Read(Str(text), offset + 1 + n))
  {
    hide Unpack, FromBigEndian;
    AtSplit(buf, offset, [n], text);
    UnpackAt(buf, offset, [n]);
    SmallNumbers(n, 0, 0, 0);
    SliceIsText(buf, offset + 1, n, text);
  }

  // S: four octets of length, then the text.
  lemma LoadsLongText(buf: bytes, offset: nat, a: byte, b: byte, c: byte, d: byte, text: bytes)
    requires At(buf, offset, [a, b, c, d] + text)
    requires |text| == Four(a, b, c, d) || (|text| < Four(a, b, c, d) && offset + 4 + |text| == |buf|)
    ensures LoadOne('S', buf, offset) == Ok(Read(Str(text), offset + 4 + Four(a, b, c, d)))
  {
    hide Unpack, FromBigEndian, Four;
    AtSplit(buf, offset, [a, b, c, d], text);
    UnpackAt(buf, offset, [a, b, c, d]);
    SmallNumbers(a, b, c, d);
    SliceIsText(buf, offset + 4, Four(a, b, c, d), text);
  }

  // F and A: a table and an array without their type codes.
  lemma LoadsNested(buf: bytes, offset: nat, flag: byte)
    ensures At(buf, offset, [0x46, 0, 0, 0, 4, 1, 0x78, 0x74, flag]) ==>
      LoadOne('F', buf, offset + 1) == Ok(Read(Table([Entry([0x78], Bool(flag != 0))]), offset + 9))
    ensures At(buf, offset, [0x41, 0, 0, 0, 2, 0x74, flag]) ==>
      LoadOne('A', buf, offset + 1) == Ok(Read(Array([Bool(flag != 0)]), offset + 7))
  {
    hide ReadTable, ReadArray;
    if At(buf, offset, [0x46, 0, 0, 0, 4, 1, 0x78, 0x74, flag]) {
      SmallTable(buf, offset, flag);
    }
    if At(buf, offset, [0x41, 0, 0, 0, 2, 0x74, flag]) {
      SmallArray(buf, offset, flag);
    }
  }

  // b: the bits of one octet, lowest first.
  lemma LoadsBits(buf: bytes, offset: nat)
    requires offset < |buf|
    ensures var x := buf[offset];
      Loads("bbb", buf, offset) == Ok(Read([Bool(x % 2 == 1), Bool(x / 2 % 2 == 1), Bool(x / 4 % 2 == 1)], offset + 1))
  {
    hide FitsAll;
    var x := buf[offset];
    assert "bbb"[1..] == "bb" && "bb"[1..] == "b" && "b"[1..] == "";
    assert LoadsFrom("", buf, offset + 1, 7, x / 2 / 2 / 2) == Ok(Read([], offset + 1));
    var c, d, e := Bool(x / 2 / 2 % 2 == 1), Bool(x / 2 % 2 == 1), Bool(x % 2 == 1);
    assert LoadsFrom("b", buf, offset + 1, 7, x / 2 / 2) == Ok(Read([c] + [], offset + 1));
    assert LoadsFrom("bb", buf, offset + 1, 7, x / 2) == Ok(Read([d] + ([c] + []), offset + 1));
    assert LoadsFrom("bbb", buf, offset, 0, 0) == Ok(Read([e] + ([d] + ([c] + [])), offset + 1));
    assert [e] + ([d] + ([c] + [])) == [e, d, c] && x / 2 / 2 == x / 4;
  }

  lemma BitPacked(octet: byte, run: nat, flag: bool)
    requires 0 < run < 8 && octet < Pow2(run)
    ensures PushBit([octet], run, flag) == [octet + if flag then Pow2(run) else 0]
    ensures PushBit([octet], run, flag)[0] < Pow2(run + 1)
  {
    hide PushBit, OrBit, Pow2, Shifted, Low;
    PushIntoOctet([octet], run, flag);
    OctetStep(octet, run, flag, 0);
  }

  lemma BitsPacked(a: bool, b: bool, c: bool)
    ensures var x: byte := if a then 1 else 0;
      var y: byte := x + if b then 2 else 0;
      && PushBit([], 0, a) == [x] && PushBit([x], 1, b) == [y]
      && PushBit([y], 2, c) == [y + if c then 4 else 0]
  {
    hide PushBit, OrBit, Shifted, Low;
    PowersOfTwo();
    PushIntoOctet([], 0, a);
    OctetStep(0, 0, a, 0);
    var x: byte := if a then 1 else 0;
    BitPacked(x, 1, b);
    BitPacked(x + if b then 2 else 0, 2, c);
  }

  lemma PowersOfTwo()
    ensures Pow2(0) == 1 && Pow2(1) == 2 && Pow2(2) == 4 && Pow2(3) == 8
  {
  }

  lemma DumpsBits(a: bool, b: bool, c: bool)
    ensures Dumps("bbb", [Bool(a), Bool(b), Bool(c)]) ==
      Ok([(if a then 1 else 0) + (if b then 2 else 0) + (if c then 4 else 0)])
  {
    hide PushBit;
    assert "bbb"[1..] == "bb" && "bb"[1..] == "b" && "b"[1..] == "";
    assert [Bool(a), Bool(b), Bool(c)][1..] == [Bool(b), Bool(c)] && [Bool(b), Bool(c)][1..] == [Bool(c)];
    assert [Bool(c)][1..] == [];
    BitsPacked(a, b, c);
    var x: byte := if a then 1 else 0;
    var y: byte := x + if b then 2 else 0;
    var z: byte := y + if c then 4 else 0;
    assert DumpsFrom("", [], [z], 3) == Ok([z]);
    assert DumpsFrom("b", [Bool(c)], [y], 2) == Ok([z]);
    assert DumpsFrom("bb", [Bool(b), Bool(c)], [x], 1) == Ok([z]);
  }

  // A buffer that ends too early: StructError for a number or a length, TypeError for a bit.
  lemma LoadsBeyondEnd(buf: bytes, offset: nat)
    ensures |buf| < offset + 1 ==>
      LoadOne('o', buf, offset) == LoadOne('s', buf, offset) == Raised(StructError)
    ensures |buf| < offset + 2 ==> LoadOne('B', buf, offset) == Raised(StructError)
    ensures |buf| < offset + 4 ==>
      && LoadOne('l', buf, offset) == LoadOne('f', buf, offset) == LoadOne('S', buf, offset) == Raised(StructError)
      && LoadOne('F', buf, offset) == LoadOne('A', buf, offset) == Raised(StructError)
    ensures |buf| < offset + 8 ==> LoadOne('L', buf, offset) == LoadOne('T', buf, offset) == Raised(StructError)
    ensures |buf| <= offset ==> Loads("b", buf, offset) == Raised(TypeError)
  {
    hide FromBigEndian, ReadEntries, ReadItems;
  }

  // No other letter is known.
  lemma LoadsNothingElse(p: char, buf: bytes, offset: nat)
    requires p !in {'o', 'B', 'l', 'L', 'f', 's', 'S', 'F', 'A', 'T'}
    ensures LoadOne(p, buf, offset) == Raised(FrameSyntaxError)
  {
    hide Unpack;
  }

  // ---- writing ----

  lemma FourOctetsOf(n: nat, a: byte, b: byte, c: byte, d: byte)
    requires n == ((a * 256 + b) * 256 + c) * 256 + d
    ensures BigEndian(n, 4) == [a, b, c, d]
  {
    assert BigEndian(a, 1) == [a];
    assert BigEndian(a * 256 + b, 2) == [a, b];
    assert BigEndian((a * 256 + b) * 256 + c, 3) == [a, b, c];
  }

  lemma FewOctetsOf(a: byte)
    ensures BigEndian(a, 1) == [a] && BigEndian(a, 2) == [0, a]
  {
    assert BigEndian(0, 0) == [] && BigEndian(0, 1) == [0];
  }

  // What counts as false: None, False, zeros of every kind, and whatever is empty.
  predicate Falsy(v: Value) {
    || v.Void? || v == Bool(false) || v == Int(0) || v == Str([]) || v == Table([]) || v == Array([])
    || v == Double([0, 0, 0, 0, 0, 0, 0, 0]) || v == Double([0x80, 0, 0, 0, 0, 0, 0, 0])
    || v == Single([0, 0, 0, 0]) || v == Single([0x80, 0, 0, 0])
    || (v.Decimal? && v.coefficient == 0)
  }

  // A bit is written by the truth of its value, a bool as a number, and what is false as nothing;
  // everything else is taken as it is.
  lemma TakenAs(v: Value, p: char)
    ensures Given('b', v) == Bool(!Falsy(v))
    ensures p in {'o', 'B', 'l', 'L'} ==> Given(p, v) == if v.Bool? then Int(if v.flag then 1 else 0) else v
    ensures p in {'s', 'S'} ==> Given(p, v) == if Falsy(v) then Str([]) else v
    ensures Given('F', v) == if Falsy(v) then Table([]) else v
    ensures Given('A', v) == if Falsy(v) then Array([]) else v
    ensures p in {'f', 'T'} ==> Given(p, v) == v
  {
  }

  // What does not fit its letter then: a number out of range, a text too long, or another kind of value.
  lemma NotDumped(v: Value)
    ensures !Given('o', v).Int? ==> DumpOne('o', v) == Raised(StructError)
    ensures !Given('B', v).Int? ==> DumpOne('B', v) == Raised(TypeError)
    ensures !Given('l', v).Int? ==> DumpOne('l', v) == Raised(StructError)
    ensures !Given('L', v).Int? ==> DumpOne('L', v) == Raised(StructError)
    ensures !Given('s', v).Str? ==> DumpOne('s', v) == Raised(TypeError)
    ensures !Given('S', v).Str? ==> DumpOne('S', v) == Raised(TypeError)
    ensures !Given('F', v).Table? ==> DumpOne('F', v) == Raised(AttributeError)
    ensures !Given('A', v).Array? ==> DumpOne('A', v) == Raised(TypeError)
    ensures !v.Timestamp? ==> DumpOne('T', v) == Raised(AttributeError)
    ensures v.Int? && !(0 <= v.number < 256) ==> DumpOne('o', v) == Raised(StructError)
    ensures v.Str? && |v.text| > 255 ==> DumpOne('s', v) == Raised(StructError)
  {
    hide Given, WriteTable, WriteArray, BigEndian;
    WidthBounds();
    TakenAs(v, 'o');
    TakenAs(v, 's');
    TakenAs(v, 'T');
    FalsyText(v);
  }

  lemma FalsyText(v: Value)
    ensures v.Str? && |v.text| > 0 ==> !Falsy(v)
  {
  }

  // One argument in front of others.
  lemma InFront(fmt: string, vals: seq<Value>, w: bytes, rest: bytes)
    requires fmt != "" && vals != [] && Flushes(fmt[0])
    requires DumpOne(fmt[0], vals[0]) == Ok(w) && Dumps(fmt[1..], vals[1..]) == Ok(rest)
    ensures Dumps(fmt, vals) == Ok(w + rest)
  {
    hide Dumps, DumpOne;
    DumpsLetter(fmt[0], fmt[1..], vals[0], vals[1..]);
    assert fmt == [fmt[0]] + fmt[1..] && vals == [vals[0]] + vals[1..];
  }

  // A short string, a long string and an empty table.
  lemma StringsDumped(text: bytes)
    requires |text| < 256
    ensures DumpOne('s', Str(text)) == Ok([|text|] + text)
    ensures DumpOne('S', Str(text)) == Ok([0, 0, 0, |text|] + text)
    ensures DumpOne('F', Table([])) == Ok([0, 0, 0, 0])
  {
    hide BigEndian;
    WidthBounds();
    FewOctetsOf(|text|);
    FourOctetsOf(|text|, 0, 0, 0, |text|);
    FourOctetsOf(0, 0, 0, 0, 0);
    NoEntries();
    NothingDumped();
    assert [0, 0, 0, 0] + [] == [0, 0, 0, 0];
  }

  lemma TwoBits()
    ensures Dumps("bb", [Bool(false), Bool(false)]) == Ok([0])
  {
    assert "bb"[1..] == "b" && "b"[1..] == "";
    assert [Bool(false), Bool(false)][1..] == [Bool(false)] && [Bool(false)][1..] == [];
    assert PushBit([], 0, false) == [0] && PushBit([0], 1, false) == [0];
    assert DumpsFrom("", [], [0], 2) == Ok([0]);
    assert DumpsFrom("b", [Bool(false)], [0], 1) == Ok([0]);
  }

  lemma BitInFront(flag: bool, fmt: string, vals: seq<Value>)
    requires fmt != "" && vals != [] && Flushes(fmt[0])
    ensures Dumps(['b'] + fmt, [Bool(flag)] + vals) == Append([if flag then 1 else 0], Dumps(fmt, vals))
  {
    hide DumpOne;
    assert (['b'] + fmt)[1..] == fmt && ([Bool(flag)] + vals)[1..] == vals;
    var bits := PushBit([], 0, flag);
    assert bits == [if flag then 1 else 0];
    assert Dumps(['b'] + fmt, [Bool(flag)] + vals) == DumpsFrom(fmt, vals, bits, 1);
    if DumpOne(fmt[0], vals[0]).Ok? && DumpsFrom(fmt[1..], vals[1..], [], 0).Ok? {
      var w, rest := DumpOne(fmt[0], vals[0]).value, DumpsFrom(fmt[1..], vals[1..], [], 0).value;
      assert bits + w + rest == bits + ([] + w + rest);
    }
  }
}
