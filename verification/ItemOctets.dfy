// The octets of field-table values, one by one: which type code stands for what, how wide it is, and
// whether it is signed.
module ItemOctets {
  import opened Wrappers
  import opened Bytes
  import opened Values
  import opened ItemCodec

  // ---- reading ----

  // The type code stands in front of its octets.
  lemma CodeThenBody(buf: bytes, offset: nat, code: byte, body: bytes)
    requires At(buf, offset, [code] + body)
    ensures offset < |buf| && buf[offset] == code && At(buf, offset + 1, body)
    ensures Unpack(buf, offset + 1, |body|) == Ok(FromBigEndian(body))
  {
    hide Unpack, FromBigEndian;
    AtSplit(buf, offset, [code], body);
    UnpackAt(buf, offset + 1, body);
    assert buf[offset] == buf[offset..offset + 1][0];
  }

  // 't' (0x74)
  lemma ReadsBool(buf: bytes, offset: nat, x: byte)
    requires At(buf, offset, [0x74, x])
    ensures ReadItem(buf, offset) == Ok(Read(Bool(x != 0), offset + 2))
  {
    hide Unpack, FromBigEndian;
    assert [0x74, x] == [0x74] + [x];
    CodeThenBody(buf, offset, 0x74, [x]);
    SmallNumbers(x, 0, 0, 0);
  }

  // One octet: 'b' (0x62) unsigned, 'B' (0x42) signed.
  lemma ReadsOneOctet(buf: bytes, offset: nat, code: byte, x: byte)
    requires code in {0x62, 0x42} && At(buf, offset, [code, x])
    ensures ReadItem(buf, offset) == Ok(Read(Int(if code == 0x62 then x else TwosComplement(x, 0x80)), offset + 2))
  {
    hide Unpack, FromBigEndian;
    WidthBounds();
    assert [code, x] == [code] + [x];
    CodeThenBody(buf, offset, code, [x]);
    SmallNumbers(x, 0, 0, 0);
  }

  // Two octets: 'U' (0x55) and 's' (0x73) signed, 'u' (0x75) unsigned.
  lemma ReadsTwoOctets(buf: bytes, offset: nat, code: byte, x: byte, y: byte)
    requires code in {0x55, 0x73, 0x75} && At(buf, offset, [code, x, y])
    ensures ReadItem(buf, offset) ==
      Ok(Read(Int(if code == 0x75 then Two(x, y) else TwosComplement(Two(x, y), 0x8000)), offset + 3))
  {
    hide Unpack, FromBigEndian;
    WidthBounds();
    assert [code, x, y] == [code] + [x, y];
    CodeThenBody(buf, offset, code, [x, y]);
    SmallNumbers(x, y, 0, 0);
  }

  // Four octets: 'I' (0x49) signed, 'i' (0x69) unsigned.
  lemma ReadsFourOctets(buf: bytes, offset: nat, code: byte, w: bytes)
    requires code in {0x49, 0x69} && |w| == 4 && At(buf, offset, [code] + w)
    ensures var n := Four(w[0], w[1], w[2], w[3]);
      ReadItem(buf, offset) == Ok(Read(Int(if code == 0x69 then n else TwosComplement(n, 0x8000_0000)), offset + 5))
  {
    hide Unpack, FromBigEndian;
    WidthBounds();
    CodeThenBody(buf, offset, code, w);
    SmallNumbers(w[0], w[1], w[2], w[3]);
    assert w == [w[0], w[1], w[2], w[3]];
  }

  // Eight octets: 'L' (0x4C) signed, 'l' (0x6C) unsigned.
  lemma ReadsEightOctets(buf: bytes, offset: nat, code: byte, w: bytes)
    requires code in {0x4C, 0x6C} && |w| == 8 && At(buf, offset, [code] + w)
    ensures var n := Eight(w);
      ReadItem(buf, offset) ==
        Ok(Read(Int(if code == 0x6C then n else TwosComplement(n, 0x8000_0000_0000_0000)), offset + 9))
  {
    hide Unpack, FromBigEndian, Eight;
    WidthBounds();
    CodeThenBody(buf, offset, code, w);
    LargeNumber(w);
  }

  // 'f' (0x66) four octets and 'd' (0x64) eight octets, kept as they are.
  lemma ReadsFloats(buf: bytes, offset: nat, four: Image4, eight: Image8)
    ensures At(buf, offset, [0x66] + four) ==> ReadItem(buf, offset) == Ok(Read(Single(four), offset + 5))
    ensures At(buf, offset, [0x64] + eight) ==> ReadItem(buf, offset) == Ok(Read(Double(eight), offset + 9))
  {
    hide Unpack, FromBigEndian;
    if At(buf, offset, [0x66] + four) {
      CodeThenBody(buf, offset, 0x66, four);
    }
    if At(buf, offset, [0x64] + eight) {
      CodeThenBody(buf, offset, 0x64, eight);
    }
  }

  // 'D' (0x44): one octet of scale, then the signed coefficient.
  lemma ReadsDecimal(buf: bytes, offset: nat, scale: byte, a: byte, b: byte, c: byte, d: byte)
    requires At(buf, offset, [0x44, scale, a, b, c, d])
    ensures ReadItem(buf, offset) ==
      Ok(Read(Decimal(TwosComplement(Four(a, b, c, d), 0x8000_0000), scale), offset + 6))
  {
    hide Unpack, FromBigEndian;
    WidthBounds();
    assert [0x44, scale, a, b, c, d] == [0x44] + ([scale] + [a, b, c, d]);
    CodeThenBody(buf, offset, 0x44, [scale] + [a, b, c, d]);
    AtSplit(buf, offset + 1, [scale], [a, b, c, d]);
    UnpackAt(buf, offset + 1, [scale]);
    UnpackAt(buf, offset + 2, [a, b, c, d]);
    SmallNumbers(scale, 0, 0, 0);
    SmallNumbers(a, b, c, d);
  }

  // 'T' (0x54): seconds, up to the end of the year 9999.
  lemma ReadsTimestamp(buf: bytes, offset: nat, w: bytes)
    requires |w| == 8 && At(buf, offset, [0x54] + w)
    ensures ReadItem(buf, offset) ==
      if Eight(w) <= 253402300799 then Ok(Read(Timestamp(Eight(w)), offset + 9)) else Raised(ValueError)
  {
    hide Unpack, FromBigEndian, Eight;
    CodeThenBody(buf, offset, 0x54, w);
    LargeNumber(w);
  }

  // 'V' (0x56): nothing follows.
  lemma ReadsVoid(buf: bytes, offset: nat)
    requires At(buf, offset, [0x56])
    ensures ReadItem(buf, offset) == Ok(Read(Void, offset + 1))
  {
    assert buf[offset] == buf[offset..offset + 1][0];
  }

  // 'S' (0x53): four octets of length, then the text. A buffer that ends before the text does gives
  // what is there, and an offset beyond its end.
  lemma ReadsText(buf: bytes, offset: nat, a: byte, b: byte, c: byte, d: byte, text: bytes)
    requires At(buf, offset, [0x53, a, b, c, d] + text)
    requires |text| == Four(a, b, c, d) || (|text| < Four(a, b, c, d) && offset + 5 + |text| == |buf|)
    ensures ReadItem(buf, offset) == Ok(Read(Str(text), offset + 5 + Four(a, b, c, d)))
  {
    hide Unpack, FromBigEndian, Four;
    assert [0x53, a, b, c, d] + text == [0x53] + ([a, b, c, d] + text);
    CodeThenBody(buf, offset, 0x53, [a, b, c, d] + text);
    AtSplit(buf, offset + 1, [a, b, c, d], text);
    UnpackAt(buf, offset + 1, [a, b, c, d]);
    SmallNumbers(a, b, c, d);
    SliceIsText(buf, offset + 5, Four(a, b, c, d), text);
  }

  lemma SliceIsText(buf: bytes, offset: nat, n: nat, text: bytes)
    requires At(buf, offset, text) && (|text| == n || (|text| < n && offset + |text| == |buf|))
    ensures Slice(buf, offset, n) == text
  {
  }

  // 'F' (0x46) and 'A' (0x41): the table or array behind the code. Its length is four octets, and a key
  // is one octet of length and the key.
  lemma ReadsNested(buf: bytes, offset: nat)
    requires offset < |buf|
    ensures buf[offset] == 0x46 ==>
      var t := ReadTable(buf, offset + 1);
      ReadItem(buf, offset) == if t.Ok? then Ok(Read(Table(t.value.value), t.value.next)) else Raised(t.error)
    ensures buf[offset] == 0x41 ==>
      var t := ReadArray(buf, offset + 1);
      ReadItem(buf, offset) == if t.Ok? then Ok(Read(Array(t.value.value), t.value.next)) else Raised(t.error)
  {
    hide ReadTable, ReadArray, ReadScalar;
  }

  // The table with one boolean 'x', and the array of that boolean alone.
  lemma ReadsSmallTable(buf: bytes, offset: nat, flag: byte)
    ensures At(buf, offset, [0x46, 0, 0, 0, 4, 1, 0x78, 0x74, flag]) ==>
      ReadItem(buf, offset) == Ok(Read(Table([Entry([0x78], Bool(flag != 0))]), offset + 9))
    ensures At(buf, offset, [0x41, 0, 0, 0, 2, 0x74, flag]) ==>
      ReadItem(buf, offset) == Ok(Read(Array([Bool(flag != 0)]), offset + 7))
  {
    hide Unpack, FromBigEndian, ReadScalar, ReadItem, ReadTable, ReadArray;
    if At(buf, offset, [0x46, 0, 0, 0, 4, 1, 0x78, 0x74, flag]) {
      SmallTable(buf, offset, flag);
      assert buf[offset] == buf[offset..offset + 9][0];
      ReadsNested(buf, offset);
    }
    if At(buf, offset, [0x41, 0, 0, 0, 2, 0x74, flag]) {
      SmallArray(buf, offset, flag);
      assert buf[offset] == buf[offset..offset + 7][0];
      ReadsNested(buf, offset);
    }
  }

  lemma SmallTable(buf: bytes, offset: nat, flag: byte)
    requires At(buf, offset, [0x46, 0, 0, 0, 4, 1, 0x78, 0x74, flag])
    ensures ReadTable(buf, offset + 1) == Ok(Read([Entry([0x78], Bool(flag != 0))], offset + 9))
  {
    hide Unpack, FromBigEndian, ReadItem;
    assert [0x46, 0, 0, 0, 4, 1, 0x78, 0x74, flag] == [0x46] + [0, 0, 0, 4] + [1] + ([0x78] + [0x74, flag]);
    AtSplitFour(buf, offset, [0x46], [0, 0, 0, 4], [1], [0x78] + [0x74, flag]);
    AtSplit(buf, offset + 6, [0x78], [0x74, flag]);
    UnpackAt(buf, offset + 1, [0, 0, 0, 4]);
    UnpackAt(buf, offset + 5, [1]);
    SmallNumbers(0, 0, 0, 4);
    SmallNumbers(1, 0, 0, 0);
    AtSlice(buf, offset + 6, [0x78]);
    ReadsBool(buf, offset + 7, flag);
    var e := Entry([0x78], Bool(flag != 0));
    assert ReadEntries(buf, offset + 9, offset + 9) == Ok(Read([], offset + 9));
    EntryRead(buf, offset + 5, offset + 9, e, offset + 9, [], offset + 9);
    assert [e] + [] == [e] && [e][1..] == [] && Put([], e) == [e] && PutAll([e], []) == [e];
    assert PutAll([], [e]) == [e];
    assert ReadEntries(buf, offset + 5, offset + 9) == Ok(Read([e], offset + 9));
  }

  lemma SmallArray(buf: bytes, offset: nat, flag: byte)
    requires At(buf, offset, [0x41, 0, 0, 0, 2, 0x74, flag])
    ensures ReadArray(buf, offset + 1) == Ok(Read([Bool(flag != 0)], offset + 7))
  {
    hide Unpack, FromBigEndian, ReadItem;
    assert [0x41, 0, 0, 0, 2, 0x74, flag] == [0x41] + ([0, 0, 0, 2] + [0x74, flag]);
    AtSplit(buf, offset, [0x41], [0, 0, 0, 2] + [0x74, flag]);
    AtSplit(buf, offset + 1, [0, 0, 0, 2], [0x74, flag]);
    UnpackAt(buf, offset + 1, [0, 0, 0, 2]);
    SmallNumbers(0, 0, 0, 2);
    ReadsBool(buf, offset + 5, flag);
    assert ReadItems(buf, offset + 7, offset + 7) == Ok(Read([], offset + 7));
    assert [Bool(flag != 0)] + [] == [Bool(flag != 0)];
    assert ReadItems(buf, offset + 5, offset + 7) == Ok(Read([Bool(flag != 0)], offset + 7));
  }

  // A buffer that ends too early: IndexError for the code, StructError for a number behind it.
  lemma ReadsBeyondEnd(buf: bytes, offset: nat)
    ensures offset >= |buf| ==> ReadItem(buf, offset) == Raised(IndexError)
    ensures offset < |buf| && buf[offset] in {0x74, 0x62, 0x42} && |buf| < offset + 2 ==>
      ReadItem(buf, offset) == Raised(StructError)
    ensures offset < |buf| && buf[offset] in {0x55, 0x73, 0x75} && |buf| < offset + 3 ==>
      ReadItem(buf, offset) == Raised(StructError)
    ensures offset < |buf| && buf[offset] in {0x49, 0x69, 0x66, 0x53, 0x46, 0x41} && |buf| < offset + 5 ==>
      ReadItem(buf, offset) == Raised(StructError)
    ensures offset < |buf| && buf[offset] in {0x4C, 0x6C, 0x64, 0x54} && |buf| < offset + 9 ==>
      ReadItem(buf, offset) == Raised(StructError)
  {
    hide FromBigEndian, ReadEntries, ReadItems;
  }

  // No other code is known.
  lemma ReadsNothingElse(buf: bytes, offset: nat)
    requires offset < |buf|
    requires buf[offset] !in {0x53, 0x62, 0x42, 0x55, 0x73, 0x75, 0x49, 0x69, 0x4C, 0x6C, 0x66, 0x64, 0x44, 0x46, 0x41,
                              0x74, 0x54, 0x56}
    ensures ReadItem(buf, offset) == Raised(FrameSyntaxError)
  {
    hide Unpack, ReadTable, ReadArray;
  }

  // ---- writing ----

  // The code of each kind of value, integers of more than 31 bits being the long ones.
  lemma CodeWritten(v: Value)
    requires WriteItem(v).Ok?
    ensures WriteItem(v).value != []
    ensures WriteItem(v).value[0] ==
      match v
      case Str(_) => 0x53
      case Bool(_) => 0x74
      case Int(n) => if -0x7FFF_FFFF <= n <= 0x7FFF_FFFF then 0x49 else 0x4C
      case Double(_) => 0x64
      case Decimal(_, _) => 0x44
      case Timestamp(_) => 0x54
      case Table(_) => 0x46
      case Array(_) => 0x41
      case _ => 0x56
  {
    hide Pack, PackSigned, WriteTable, WriteArray;
  }

  // Negative numbers in two's complement, the scale of a decimal in front.
  lemma SmallValuesWritten(flag: bool)
    ensures WriteItem(Bool(flag)) == Ok([0x74, if flag then 1 else 0])
    ensures WriteItem(Void) == Ok([0x56])
    ensures WriteItem(Int(-2)) == Ok([0x49, 0xFF, 0xFF, 0xFF, 0xFE])
    ensures WriteItem(Decimal(-2, 3)) == Ok([0x44, 3, 0xFF, 0xFF, 0xFF, 0xFE])
  {
    hide Pack, PackSigned;
    MinusTwo();
    var w := [0xFF, 0xFF, 0xFF, 0xFE];
    assert [0x49] + w == [0x49, 0xFF, 0xFF, 0xFF, 0xFE] && [0x44] + [3] + w == [0x44, 3, 0xFF, 0xFF, 0xFF, 0xFE];
  }

  lemma MinusTwo()
    ensures PackSigned(-2, 4) == Ok([0xFF, 0xFF, 0xFF, 0xFE]) && Pack(3, 1) == Ok([3])
  {
    WidthBounds();
    assert BigEndian(0xFF, 1) == [0xFF];
    assert BigEndian(0xFFFF, 2) == [0xFF, 0xFF];
    assert BigEndian(0xFF_FFFF, 3) == [0xFF, 0xFF, 0xFF];
    assert BigEndian(0xFFFF_FFFE, 4) == [0xFF, 0xFF, 0xFF, 0xFE];
    assert BigEndian(3, 1) == [3];
    assert -2 + Pow256(4) == 0xFFFF_FFFE;
  }
}
