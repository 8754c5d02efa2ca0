// The property list of a content header: the flag-driven decoding of Header, decode_properties_basic,
// and the flags, formats and values that send_content_header gathers.
module Properties {
  import opened Wrappers
  import opened Bytes
  import opened Values
  import opened ItemCodec
  import opened ArgumentCodec
  import opened ArgumentLoops

  // Other is any header name a client of the HTTP side may use; senders skip it.
  datatype Property =
    | ContentType | ContentEncoding | ApplicationHeaders | DeliveryMode | Priority
    | CorrelationId | ReplyTo | Expiration | MessageId | SentAt | MessageType
    | UserId | AppId | ClusterId
    | Other(name: bytes)

  type PropertyMap = map<Property, Value>

  const PROPERTY_COUNT := 14

  // The i-th row of PROPERTIES: its name, its format letter, and the bit 1 << (15 - i).
  function Name(i: nat): Property
    requires i < PROPERTY_COUNT
  {
    match i
    case 0 => ContentType
    case 1 => ContentEncoding
    case 2 => ApplicationHeaders
    case 3 => DeliveryMode
    case 4 => Priority
    case 5 => CorrelationId
    case 6 => ReplyTo
    case 7 => Expiration
    case 8 => MessageId
    case 9 => SentAt
    case 10 => MessageType
    case 11 => UserId
    case 12 => AppId
    case _ => ClusterId
  }

  function Letter(i: nat): (p: char)
    requires i < PROPERTY_COUNT
    ensures p in {'s', 'F', 'o', 'L'} && Flushes(p)
  {
    match i
    case 2 => 'F'
    case 3 => 'o'
    case 4 => 'o'
    case 9 => 'L'
    case _ => 's'
  }

  function Mask(i: nat): (m: nat)
    requires i < PROPERTY_COUNT
    ensures m >= 1
  {
    Pow2(15 - i)
  }

  // flags & mask, for a mask of one bit
  predicate HasBit(flags: nat, mask: nat)
    requires mask >= 1
  {
    (flags / mask) % 2 == 1
  }

  // ---- Header ----

  // The format string and the keys that Header gathers from row i on.
  function HeaderFormat(flags: nat, i: nat): string
    requires i <= PROPERTY_COUNT
    decreases PROPERTY_COUNT - i, flags
  {
    if i == PROPERTY_COUNT then ""
    else (if HasBit(flags, Mask(i)) then [Letter(i)] else "") + HeaderFormat(flags, i + 1)
  }

  function HeaderKeys(flags: nat, i: nat): (keys: seq<Property>)
    requires i <= PROPERTY_COUNT
    ensures |keys| == |HeaderFormat(flags, i)|
    decreases PROPERTY_COUNT - i, flags
  {
    if i == PROPERTY_COUNT then []
    else (if HasBit(flags, Mask(i)) then [Name(i)] else []) + HeaderKeys(flags, i + 1)
  }

  // The properties as a map, a later key overriding an earlier one.
  function Zip(keys: seq<Property>, values: seq<Value>): PropertyMap
    requires |keys| == |values|
  {
    if keys == [] then map[] else map[keys[0] := values[0]] + Zip(keys[1..], values[1..])
  }

  function DecodeHeader(flags: nat, payload: bytes, offset: nat): Result<Read<PropertyMap>> {
    var r :- Loads(HeaderFormat(flags, 0), payload, offset);
    Ok(Read(Zip(HeaderKeys(flags, 0), r.value), r.next))
  }

  // Header.__init__
  method DecodeHeaderLoop(flags: nat, payload: bytes) returns (r: Result<PropertyMap>)
    ensures r == (var d := DecodeHeader(flags, payload, 14); if d.Ok? then Ok(d.value.value) else Raised(d.error))
  {
    hide Loads, Letter, Name, Mask, HasBit, Zip, HeaderFormat, HeaderKeys;
    var format: string, keys: seq<Property>, i := "", [], 0;
    while i < PROPERTY_COUNT
      invariant i <= PROPERTY_COUNT
      invariant format + HeaderFormat(flags, i) == HeaderFormat(flags, 0)
      invariant keys + HeaderKeys(flags, i) == HeaderKeys(flags, 0)
    {
      HeaderRow(flags, i);
      Regroup(format, [Letter(i)], HeaderFormat(flags, i + 1));
      Regroup(keys, [Name(i)], HeaderKeys(flags, i + 1));
      if HasBit(flags, Mask(i)) {
        format := format + [Letter(i)];
        keys := keys + [Name(i)];
      }
      i := i + 1;
    }
    HeaderEnd(flags);
    assert format == HeaderFormat(flags, 0) && keys == HeaderKeys(flags, 0);
    var values := LoadsLoop(format, payload, 14);
    if values.Raised? {
      return Raised(values.error);
    }
    r := Ok(Zip(keys, values.value.value));
  }

  lemma HeaderRow(flags: nat, i: nat)
    requires i < PROPERTY_COUNT
    ensures HeaderFormat(flags, i) == (if HasBit(flags, Mask(i)) then [Letter(i)] else "") + HeaderFormat(flags, i + 1)
    ensures HeaderKeys(flags, i) == (if HasBit(flags, Mask(i)) then [Name(i)] else []) + HeaderKeys(flags, i + 1)
  {
  }

  lemma HeaderEnd(flags: nat)
    ensures HeaderFormat(flags, PROPERTY_COUNT) == "" && HeaderKeys(flags, PROPERTY_COUNT) == []
  {
  }

  // ---- decode_properties_basic ----

  // How one property is read there: a short string by its length octet and a slice, an octet and
  // a timestamp by unpack_from, the application headers by loads.
  function DecodeField(letter: char, buf: bytes, offset: nat): Result<Read<Value>>
    requires letter in {'s', 'F', 'o', 'L'}
  {
    if letter == 's' then
      var slen :- Unpack(buf, offset, 1);
      Ok(Read(Str(Slice(buf, offset + 1, slen)), offset + 1 + slen))
    else if letter == 'F' then
      var f :- Loads("F", buf, offset);
      Ok(Read(f.value[0], f.next))
    else if letter == 'o' then
      var n :- Unpack(buf, offset, 1);
      Ok(Read(Int(n), offset + 1))
    else
      var n :- Unpack(buf, offset, 8);
      Ok(Read(Int(n), offset + 8))
  }

  lemma FieldIsArgument(letter: char, buf: bytes, offset: nat)
    requires letter in {'s', 'F', 'o', 'L'}
    ensures DecodeField(letter, buf, offset) == LoadOne(letter, buf, offset)
  {
    hide Unpack, Slice, ReadTable;
    if letter == 'F' {
      var turn := LoadTurn('F', buf, offset, 0, 0);
      assert "F"[1..] == "";
      assert turn.Ok? ==> LoadsFrom("", buf, turn.value.next, 0, 0) == Ok(Read([], turn.value.next));
      assert turn.Ok? ==> Loads("F", buf, offset) == Ok(Read([turn.value.value] + [], turn.value.next));
    }
  }

  // Row by row: a set flag reads one argument, the rest follow.
  function DecodeRows(flags: nat, payload: bytes, offset: nat, i: nat): Result<Read<PropertyMap>>
    requires i <= PROPERTY_COUNT
    decreases PROPERTY_COUNT - i, flags
  {
    if i == PROPERTY_COUNT then Ok(Read(map[], offset))
    else if HasBit(flags, Mask(i)) then
      var one :- DecodeField(Letter(i), payload, offset);
      var rest :- DecodeRows(flags, payload, one.next, i + 1);
      Ok(Read(map[Name(i) := one.value] + rest.value, rest.next))
    else
      DecodeRows(flags, payload, offset, i + 1)
  }

  function DecodePropertiesBasic(payload: bytes, offset: nat): Result<Read<PropertyMap>> {
    var flags :- Unpack(payload, offset, 2);
    DecodeRows(flags, payload, offset + 2, 0)
  }

  // For every payload, well formed or not, the table-driven decoder and the hand-written one agree,
  // on the properties, on the end offset, and on the exception.
  lemma DecodersAgree(payload: bytes)
    requires |payload| >= 14
    ensures DecodePropertiesBasic(payload, 12) == DecodeHeader(Unpack(payload, 12, 2).value, payload, 14)
  {
    InBounds(payload, 12, 2);
    RowsAreLoads(Unpack(payload, 12, 2).value, payload, 14, 0);
  }

  lemma {:induction false} RowsAreLoads(flags: nat, payload: bytes, offset: nat, i: nat)
    requires i <= PROPERTY_COUNT
    ensures var r := LoadsFrom(HeaderFormat(flags, i), payload, offset, 0, 0);
      DecodeRows(flags, payload, offset, i) ==
        if r.Ok? then Ok(Read(Zip(HeaderKeys(flags, i), r.value.value), r.value.next)) else Raised(r.error)
    decreases PROPERTY_COUNT - i
  {
    hide DecodeField, LoadOne, Letter, Name, Mask, HasBit, FitsAll;
    if i < PROPERTY_COUNT {
      var fmt, rest := HeaderFormat(flags, i), HeaderFormat(flags, i + 1);
      if HasBit(flags, Mask(i)) {
        assert fmt == [Letter(i)] + rest && fmt[0] == Letter(i) && fmt[1..] == rest;
        var keys := HeaderKeys(flags, i);
        assert keys == [Name(i)] + HeaderKeys(flags, i + 1) && keys[1..] == HeaderKeys(flags, i + 1);
        var one := LoadOne(Letter(i), payload, offset);
        FieldIsArgument(Letter(i), payload, offset);
        if one.Ok? {
          RowsAreLoads(flags, payload, one.value.next, i + 1);
          var tail := LoadsFrom(rest, payload, one.value.next, 0, 0);
          assert tail.Ok? ==> ([one.value.value] + tail.value.value)[1..] == tail.value.value;
        }
      } else {
        assert fmt == rest && HeaderKeys(flags, i) == HeaderKeys(flags, i + 1);
        RowsAreLoads(flags, payload, offset, i + 1);
      }
    }
  }

  // What the straight-line decoder has before row i, once the remaining rows are read.
  ghost function RowsSoFar(done: Result<Read<PropertyMap>>, flags: nat,
    payload: bytes, i: nat): Result<Read<PropertyMap>>
    requires i <= PROPERTY_COUNT
  {
    var d :- done;
    var rest :- DecodeRows(flags, payload, d.next, i);
    Ok(Read(d.value + rest.value, rest.next))
  }

  // One `if flags & mask: properties[key], offset = ...`; nothing happens once a read has raised.
  method DecodeRow(ghost i: nat, key: Property, letter: char, mask: nat, flags: nat, payload: bytes,
                   done: Result<Read<PropertyMap>>)
    returns (r: Result<Read<PropertyMap>>)
    requires IsRow(i, key, letter, mask)
    ensures RowsSoFar(done, flags, payload, i) == RowsSoFar(r, flags, payload, i + 1)
  {
    hide DecodeField, Name, Letter, Mask;
    if done.Raised? || !HasBit(flags, mask) {
      return done;
    }
    var properties := done.value.value;
    var field := DecodeField(letter, payload, done.value.next);
    if field.Raised? {
      return Raised(field.error);
    }
    ghost var rest := DecodeRows(flags, payload, field.value.next, i + 1);
    var v := field.value.value;
    assert rest.Ok? ==> properties + (map[key := v] + rest.value.value) == properties[key := v] + rest.value.value;
    r := Ok(Read(properties[key := v], field.value.next));
  }

  predicate IsRow(i: nat, key: Property, letter: char, mask: nat) {
    i < PROPERTY_COUNT && key == Name(i) && letter == Letter(i) && mask == Mask(i)
  }

  lemma TableRows()
    ensures IsRow(0, ContentType, 's', 0x8000) && IsRow(1, ContentEncoding, 's', 0x4000)
    ensures IsRow(2, ApplicationHeaders, 'F', 0x2000) && IsRow(3, DeliveryMode, 'o', 0x1000)
    ensures IsRow(4, Priority, 'o', 0x0800) && IsRow(5, CorrelationId, 's', 0x0400)
    ensures IsRow(6, ReplyTo, 's', 0x0200) && IsRow(7, Expiration, 's', 0x0100)
    ensures IsRow(8, MessageId, 's', 0x0080) && IsRow(9, SentAt, 'L', 0x0040)
    ensures IsRow(10, MessageType, 's', 0x0020) && IsRow(11, UserId, 's', 0x0010)
    ensures IsRow(12, AppId, 's', 0x0008) && IsRow(13, ClusterId, 's', 0x0004)
  {
    assert Pow2(2) == 4 && Pow2(3) == 8 && Pow2(4) == 16 && Pow2(5) == 32;
    assert Pow2(6) == 64 && Pow2(7) == 128 && Pow2(8) == 256 && Pow2(9) == 512;
    assert Pow2(10) == 1024 && Pow2(11) == 2048 && Pow2(12) == 4096 && Pow2(13) == 8192;
  }

  method DecodePropertiesBasicRows(payload: bytes, start: nat) returns (r: Result<Read<PropertyMap>>)
    ensures r == DecodePropertiesBasic(payload, start)
  {
    hide DecodeRows, Unpack, IsRow, RowsSoFar;
    TableRows();
    var head := Unpack(payload, start, 2);
    if head.Raised? {
      return Raised(head.error);
    }
    var flags := head.value;
    RowsStart(flags, payload, start + 2);
    r := Ok(Read(map[], start + 2));
    r := DecodeRow(0, ContentType, 's', 0x8000, flags, payload, r);
    r := DecodeRow(1, ContentEncoding, 's', 0x4000, flags, payload, r);
    r := DecodeRow(2, ApplicationHeaders, 'F', 0x2000, flags, payload, r);
    r := DecodeRow(3, DeliveryMode, 'o', 0x1000, flags, payload, r);
    r := DecodeRow(4, Priority, 'o', 0x0800, flags, payload, r);
    r := DecodeRow(5, CorrelationId, 's', 0x0400, flags, payload, r);
    r := DecodeRow(6, ReplyTo, 's', 0x0200, flags, payload, r);
    r := DecodeRow(7, Expiration, 's', 0x0100, flags, payload, r);
    r := DecodeRow(8, MessageId, 's', 0x0080, flags, payload, r);
    r := DecodeRow(9, SentAt, 'L', 0x0040, flags, payload, r);
    r := DecodeRow(10, MessageType, 's', 0x0020, flags, payload, r);
    r := DecodeRow(11, UserId, 's', 0x0010, flags, payload, r);
    r := DecodeRow(12, AppId, 's', 0x0008, flags, payload, r);
    r := DecodeRow(13, ClusterId, 's', 0x0004, flags, payload, r);
    RowsEnd(r, flags, payload);
  }

  lemma RowsStart(flags: nat, payload: bytes, offset: nat)
    ensures RowsSoFar(Ok(Read(map[], offset)), flags, payload, 0) == DecodeRows(flags, payload, offset, 0)
  {
    hide DecodeRows;
    var all := DecodeRows(flags, payload, offset, 0);
    assert all.Ok? ==> map[] + all.value.value == all.value.value;
  }

  lemma RowsEnd(done: Result<Read<PropertyMap>>, flags: nat, payload: bytes)
    ensures RowsSoFar(done, flags, payload, PROPERTY_COUNT) == done
  {
    assert done.Ok? ==> done.value.value + map[] == done.value.value;
  }
}
