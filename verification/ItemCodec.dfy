// Tagged values inside field tables and arrays: _write_item and _read_item,
// their tables and arrays, as functions; ItemLoops.dfy has the loops.
module ItemCodec {
  import opened Wrappers
  import opened Bytes
  import opened Values

  const LONG_STRING: byte := 'S' as int
  const BOOLEAN: byte := 't' as int
  const DOUBLE: byte := 'd' as int
  const SINGLE: byte := 'f' as int
  const INT32: byte := 'I' as int
  const INT64: byte := 'L' as int
  const DECIMAL: byte := 'D' as int
  const TIMESTAMP: byte := 'T' as int
  const TABLE: byte := 'F' as int
  const ARRAY: byte := 'A' as int
  const VOID: byte := 'V' as int

  // What a reader returns: the value and the offset just after it.
  datatype Read<+T> = Read(value: T, next: nat)

  // ---- writing ----

  function WriteItem(v: Value): Result<bytes>
    decreases v
  {
    match v
    case Str(s) =>
      var n :- Pack(|s|, 4);
      Ok([LONG_STRING] + n + s)
    case Bool(b) => Ok([BOOLEAN, if b then 1 else 0])
    case Double(image) => Ok([DOUBLE] + image)
    case Int(n) =>
      if n > 2147483647 || n < -2147483647 then
        var w :- PackSigned(n, 8);
        Ok([INT64] + w)
      else
        var w :- PackSigned(n, 4);
        Ok([INT32] + w)
    case Decimal(c, scale) =>
      var d :- Pack(scale, 1);
      var w :- PackSigned(c, 4);
      Ok([DECIMAL] + d + w)
    case Timestamp(seconds) =>
      var w :- Pack(seconds, 8);
      Ok([TIMESTAMP] + w)
    case Table(es) =>
      var w :- WriteTable(es);
      Ok([TABLE] + w)
    case Array(vs) =>
      var w :- WriteArray(vs);
      Ok([ARRAY] + w)
    case Void => Ok([VOID])
    case Single(_) => Raised(ValueError)
    case Foreign => Raised(ValueError)
  }

  function WriteTable(es: seq<Entry>): Result<bytes>
    decreases es, 1
  {
    var data :- WriteEntries(es);
    var n :- Pack(|data|, 4);
    Ok(n + data)
  }

  function WriteEntries(es: seq<Entry>): Result<bytes>
    decreases es, 0
  {
    if es == [] then Ok([])
    else
      var n :- Pack(|es[0].key|, 1);
      var w :- Unhandled(WriteItem(es[0].value));
      var rest :- WriteEntries(es[1..]);
      Ok(n + es[0].key + w + rest)
  }

  function WriteArray(vs: seq<Value>): Result<bytes>
    decreases vs, 1
  {
    var data :- WriteItems(vs);
    var n :- Pack(|data|, 4);
    Ok(n + data)
  }

  function WriteItems(vs: seq<Value>): Result<bytes>
    decreases vs, 0
  {
    if vs == [] then Ok([])
    else
      var w :- Unhandled(WriteItem(vs[0]));
      var rest :- WriteItems(vs[1..]);
      Ok(w + rest)
  }

  // A table or array reports a value it cannot write as a syntax error.
  function Unhandled(r: Result<bytes>): Result<bytes> {
    if r == Raised(ValueError) then Raised(FrameSyntaxError) else r
  }

  // ---- reading ----

  // Width in octets and signedness of the integer codes ('b' is read unsigned and 'B' signed).
  function IntWidth(code: byte): nat {
    match code as char
    case 'b' => 1 case 'B' => 1
    case 'U' => 2 case 's' => 2 case 'u' => 2
    case 'I' => 4 case 'i' => 4
    case 'L' => 8 case 'l' => 8
    case _ => 0
  }

  predicate IntSigned(code: byte) {
    code as char in {'B', 'U', 's', 'I', 'L'}
  }

  function ReadScalar(code: byte, buf: bytes, offset: nat): (r: Result<Read<Value>>)
    ensures r.Ok? ==> r.value.next >= offset
  {
    if code == LONG_STRING then
      var n :- Unpack(buf, offset, 4);
      Ok(Read(Str(Slice(buf, offset + 4, n)), offset + 4 + n))
    else if IntWidth(code) > 0 then
      var n :- Unpack(buf, offset, IntWidth(code));
      Ok(Read(Int(if IntSigned(code) then Signed(n, IntWidth(code)) else n), offset + IntWidth(code)))
    else if code == SINGLE then
      var _ :- Unpack(buf, offset, 4);
      Ok(Read(Single(buf[offset..offset + 4]), offset + 4))
    else if code == DOUBLE then
      var _ :- Unpack(buf, offset, 8);
      Ok(Read(Double(buf[offset..offset + 8]), offset + 8))
    else if code == DECIMAL then
      var d :- Unpack(buf, offset, 1);
      var n :- Unpack(buf, offset + 1, 4);
      Ok(Read(Decimal(Signed(n, 4), d), offset + 5))
    else if code == BOOLEAN then
      var n :- Unpack(buf, offset, 1);
      Ok(Read(Bool(n != 0), offset + 1))
    else if code == TIMESTAMP then
      var n :- Unpack(buf, offset, 8);
      if n <= MAX_TIMESTAMP then Ok(Read(Timestamp(n), offset + 8)) else Raised(ValueError)
    else if code == VOID then Ok(Read(Void, offset))
    else Raised(FrameSyntaxError)
  }

  function ReadItem(buf: bytes, offset: nat): (r: Result<Read<Value>>)
    ensures r.Ok? ==> r.value.next > offset
    decreases |buf| - offset, 1
  {
    if offset >= |buf| then Raised(IndexError)
    else if buf[offset] == TABLE then
      var r :- ReadTable(buf, offset + 1);
      Ok(Read(Table(r.value), r.next))
    else if buf[offset] == ARRAY then
      var r :- ReadArray(buf, offset + 1);
      Ok(Read(Array(r.value), r.next))
    else
      ReadScalar(buf[offset], buf, offset + 1)
  }

  function ReadTable(buf: bytes, offset: nat): (r: Result<Read<seq<Entry>>>)
    ensures r.Ok? ==> r.value.next >= offset + 4
    decreases |buf| - offset, 0
  {
    var n :- Unpack(buf, offset, 4);
    var r :- ReadEntries(buf, offset + 4, offset + 4 + n);
    Ok(Read(PutAll([], r.value), r.next))
  }

  // The entries in the order they are met, a repeated key included.
  function ReadEntries(buf: bytes, offset: nat, limit: nat): (r: Result<Read<seq<Entry>>>)
    ensures r.Ok? ==> r.value.next >= offset && r.value.next >= limit
    decreases |buf| - offset, 2
  {
    if offset >= limit then Ok(Read([], offset))
    else
      var n :- Unpack(buf, offset, 1);
      var item :- ReadItem(buf, offset + 1 + n);
      var rest :- ReadEntries(buf, item.next, limit);
      Ok(Read([Entry(Slice(buf, offset + 1, n), item.value)] + rest.value, rest.next))
  }

  function ReadArray(buf: bytes, offset: nat): (r: Result<Read<seq<Value>>>)
    ensures r.Ok? ==> r.value.next >= offset + 4
    decreases |buf| - offset, 0
  {
    var n :- Unpack(buf, offset, 4);
    ReadItems(buf, offset + 4, offset + 4 + n)
  }

  function ReadItems(buf: bytes, offset: nat, limit: nat): (r: Result<Read<seq<Value>>>)
    ensures r.Ok? ==> r.value.next >= offset && r.value.next >= limit
    decreases |buf| - offset, 2
  {
    if offset >= limit then Ok(Read([], offset))
    else
      var item :- ReadItem(buf, offset);
      var rest :- ReadItems(buf, item.next, limit);
      Ok(Read([item.value] + rest.value, rest.next))
  }

  // ---- reading back what was written ----

  lemma {:induction false} ItemRoundTrip(v: Value, buf: bytes, offset: nat)
    requires WellFormed(v) && WriteItem(v).Ok? && At(buf, offset, WriteItem(v).value)
    ensures ReadItem(buf, offset) == Ok(Read(v, offset + |WriteItem(v).value|))
    decreases v
  {
    hide Pack, PackSigned, Unpack, ReadScalar, WriteTable, WriteArray, ReadTable, ReadArray;
    var w := WriteItem(v).value;
    assert w == [w[0]] + w[1..];
    AtSplit(buf, offset, [w[0]], w[1..]);
    if v.Table? {
      assert w[1..] == WriteTable(v.entries).value;
      TableRoundTrip(v.entries, buf, offset + 1);
    } else if v.Array? {
      assert w[1..] == WriteArray(v.items).value;
      ArrayRoundTrip(v.items, buf, offset + 1);
    } else {
      ScalarRoundTrip(v, buf, offset + 1);
    }
  }

  lemma ScalarRoundTrip(v: Value, buf: bytes, offset: nat)
    requires !v.Table? && !v.Array? && WriteItem(v).Ok? && At(buf, offset, WriteItem(v).value[1..])
    ensures ReadScalar(WriteItem(v).value[0], buf, offset) == Ok(Read(v, offset + |WriteItem(v).value| - 1))
  {
    hide Pack, PackSigned, Unpack, Slice;
    var body := WriteItem(v).value[1..];
    if v.Str? {
      var n := Pack(|v.text|, 4).value;
      assert body == n + v.text;
      AtSplit(buf, offset, n, v.text);
      UnpackPacked(buf, offset, |v.text|, 4);
      AtSlice(buf, offset + 4, v.text);
    } else if v.Int? {
      var width := if v.number > 2147483647 || v.number < -2147483647 then 8 else 4;
      assert body == PackSigned(v.number, width).value;
      UnpackPackedSigned(buf, offset, v.number, width);
    } else if v.Decimal? {
      var d, n := Pack(v.scale, 1).value, PackSigned(v.coefficient, 4).value;
      assert body == d + n;
      AtSplit(buf, offset, d, n);
      UnpackPacked(buf, offset, v.scale, 1);
      UnpackPackedSigned(buf, offset + 1, v.coefficient, 4);
    } else if v.Timestamp? {
      assert body == Pack(v.seconds, 8).value;
      UnpackPacked(buf, offset, v.seconds, 8);
    } else if v.Bool? {
      assert buf[offset] == buf[offset..offset + 1][0] == body[0];
      UnpackOne(buf, offset);
    } else if v.Double? {
      assert body == v.image;
      InBounds(buf, offset, 8);
    }
  }

  lemma UnpackOne(buf: bytes, offset: nat)
    requires offset < |buf|
    ensures Unpack(buf, offset, 1) == Ok(buf[offset])
  {
    var s := buf[offset..offset + 1];
    assert s[..0] == [] && s[0] == buf[offset];
    assert FromBigEndian(s[..0]) == 0;
  }

  lemma {:induction false} TableRoundTrip(es: seq<Entry>, buf: bytes, offset: nat)
    requires WellFormed(Table(es)) && WriteTable(es).Ok? && At(buf, offset, WriteTable(es).value)
    ensures ReadTable(buf, offset) == Ok(Read(es, offset + |WriteTable(es).value|))
    decreases es, 1
  {
    hide Pack, Unpack, PutAll, WriteEntries, ReadEntries;
    var data := WriteEntries(es).value;
    var n := Pack(|data|, 4).value;
    AtSplit(buf, offset, n, data);
    UnpackPacked(buf, offset, |data|, 4);
    EntriesRoundTrip(es, buf, offset + 4);
    PutAllDistinct([], es);
    assert [] + es == es;
  }

  lemma NoEntries()
    ensures WriteEntries([]) == Ok([])
  {
  }

  lemma EntryWritten(es: seq<Entry>) returns (n: bytes, w: bytes, rest: bytes)
    requires es != [] && WriteEntries(es).Ok?
    ensures Pack(|es[0].key|, 1) == Ok(n) && WriteItem(es[0].value) == Ok(w) && WriteEntries(es[1..]) == Ok(rest)
    ensures WriteEntries(es).value == n + es[0].key + w + rest && |n| == 1
  {
    n, w, rest := Pack(|es[0].key|, 1).value, WriteItem(es[0].value).value, WriteEntries(es[1..]).value;
  }

  lemma EntryRead(buf: bytes, offset: nat, limit: nat, e: Entry, next: nat, rest: seq<Entry>, end: nat)
    requires offset < limit && Unpack(buf, offset, 1) == Ok(|e.key|) && Slice(buf, offset + 1, |e.key|) == e.key
    requires ReadItem(buf, offset + 1 + |e.key|) == Ok(Read(e.value, next))
    requires ReadEntries(buf, next, limit) == Ok(Read(rest, end))
    ensures ReadEntries(buf, offset, limit) == Ok(Read([e] + rest, end))
  {
  }

  // The loop over the entries ends exactly on the announced limit.
  lemma {:induction false} EntriesRoundTrip(es: seq<Entry>, buf: bytes, offset: nat)
    requires (forall e | e in es :: WellFormed(e.value)) && WriteEntries(es).Ok?
    requires At(buf, offset, WriteEntries(es).value)
    ensures var limit := offset + |WriteEntries(es).value|;
      ReadEntries(buf, offset, limit) == Ok(Read(es, limit))
    decreases es, 0
  {
    hide Pack, Slice, Unpack, WriteItem, ReadItem;
    if es != [] {
      var e, limit := es[0], offset + |WriteEntries(es).value|;
      var n, w, rest := EntryWritten(es);
      AtSplitFour(buf, offset, n, e.key, w, rest);
      UnpackPacked(buf, offset, |e.key|, 1);
      AtSlice(buf, offset + 1, e.key);
      ItemRoundTrip(e.value, buf, offset + 1 + |e.key|);
      var next := offset + 1 + |e.key| + |w|;
      EntriesRoundTrip(es[1..], buf, next);
      EntryRead(buf, offset, limit, e, next, es[1..], limit);
      assert es == [e] + es[1..];
    }
  }

  lemma {:induction false} ArrayRoundTrip(vs: seq<Value>, buf: bytes, offset: nat)
    requires WellFormed(Array(vs)) && WriteArray(vs).Ok? && At(buf, offset, WriteArray(vs).value)
    ensures ReadArray(buf, offset) == Ok(Read(vs, offset + |WriteArray(vs).value|))
    decreases vs, 1
  {
    hide Pack, Unpack, WriteItems, ReadItems;
    var data := WriteItems(vs).value;
    var n := Pack(|data|, 4).value;
    AtSplit(buf, offset, n, data);
    UnpackPacked(buf, offset, |data|, 4);
    ItemsRoundTrip(vs, buf, offset + 4);
  }

  lemma {:induction false} ItemsRoundTrip(vs: seq<Value>, buf: bytes, offset: nat)
    requires (forall x | x in vs :: WellFormed(x)) && WriteItems(vs).Ok?
    requires At(buf, offset, WriteItems(vs).value)
    ensures var limit := offset + |WriteItems(vs).value|;
      ReadItems(buf, offset, limit) == Ok(Read(vs, limit))
    decreases vs, 0
  {
    hide WriteItem, ReadItem;
    if vs != [] {
      var w, rest := WriteItem(vs[0]).value, WriteItems(vs[1..]).value;
      AtSplit(buf, offset, w, rest);
      ItemRoundTrip(vs[0], buf, offset);
      ItemsRoundTrip(vs[1..], buf, offset + |w|);
      assert vs == [vs[0]] + vs[1..];
    }
  }

  // ---- which values can be written, and how long they come out ----

  function Size(v: Value): nat
    decreases v
  {
    match v
    case Str(s) => 5 + |s|
    case Bool(_) => 2
    case Int(n) => if n > 2147483647 || n < -2147483647 then 9 else 5
    case Double(_) => 9
    case Decimal(_, _) => 6
    case Timestamp(_) => 9
    case Table(es) => 5 + SizeOfEntries(es)
    case Array(vs) => 5 + SizeOfItems(vs)
    case _ => 1
  }

  function SizeOfEntries(es: seq<Entry>): nat
    decreases es
  {
    if es == [] then 0 else 1 + |es[0].key| + Size(es[0].value) + SizeOfEntries(es[1..])
  }

  function SizeOfItems(vs: seq<Value>): nat
    decreases vs
  {
    if vs == [] then 0 else Size(vs[0]) + SizeOfItems(vs[1..])
  }

  // Lengths fit their prefixes, numbers fit their codes, and nothing foreign is inside.
  predicate Encodable(v: Value)
    decreases v
  {
    match v
    case Str(s) => |s| < 0x1_0000_0000
    case Int(n) => -0x8000_0000_0000_0000 <= n < 0x8000_0000_0000_0000
    case Decimal(c, scale) => -0x8000_0000 <= c < 0x8000_0000 && 0 <= scale < 256
    case Timestamp(seconds) => seconds >= 0
    case Table(es) => EncodableEntries(es) && SizeOfEntries(es) < 0x1_0000_0000
    case Array(vs) => EncodableItems(vs) && SizeOfItems(vs) < 0x1_0000_0000
    case Single(_) => false
    case Foreign => false
    case _ => true
  }

  predicate EncodableEntries(es: seq<Entry>)
    decreases es
  {
    es == [] || (|es[0].key| < 256 && Encodable(es[0].value) && EncodableEntries(es[1..]))
  }

  predicate EncodableItems(vs: seq<Value>)
    decreases vs
  {
    vs == [] || (Encodable(vs[0]) && EncodableItems(vs[1..]))
  }

  lemma {:induction false} WritableExactlyWhenEncodable(v: Value)
    ensures WriteItem(v).Ok? <==> Encodable(v)
    ensures WriteItem(v).Ok? ==> |WriteItem(v).value| == Size(v)
    decreases v
  {
    WidthBounds();
    if v.Table? {
      EntriesWritableExactlyWhenEncodable(v.entries);
    } else if v.Array? {
      ItemsWritableExactlyWhenEncodable(v.items);
    }
  }

  lemma {:induction false} EntriesWritableExactlyWhenEncodable(es: seq<Entry>)
    ensures WriteEntries(es).Ok? <==> EncodableEntries(es)
    ensures WriteEntries(es).Ok? ==> |WriteEntries(es).value| == SizeOfEntries(es)
    decreases es
  {
    if es != [] {
      WidthBounds();
      WritableExactlyWhenEncodable(es[0].value);
      EntriesWritableExactlyWhenEncodable(es[1..]);
    }
  }

  lemma {:induction false} ItemsWritableExactlyWhenEncodable(vs: seq<Value>)
    ensures WriteItems(vs).Ok? <==> EncodableItems(vs)
    ensures WriteItems(vs).Ok? ==> |WriteItems(vs).value| == SizeOfItems(vs)
    decreases vs
  {
    if vs != [] {
      WritableExactlyWhenEncodable(vs[0]);
      ItemsWritableExactlyWhenEncodable(vs[1..]);
    }
  }

  // ---- a read depends only on the bytes it covers ----

  lemma {:induction false} ItemLocality(buf: bytes, offset: nat, other: bytes, offset': nat)
    requires ReadItem(buf, offset).Ok?
    requires SameWindow(buf, offset, other, offset', ReadItem(buf, offset).value.next - offset)
    ensures ReadItem(other, offset') ==
      Ok(Read(ReadItem(buf, offset).value.value, offset' + (ReadItem(buf, offset).value.next - offset)))
    decreases |buf| - offset, 1
  {
    hide BigEndian, FromBigEndian, PutAll, Unpack, Slice, ReadScalar, ReadTable, ReadArray;
    var count := ReadItem(buf, offset).value.next - offset;
    SubWindow(buf, offset, other, offset', count, 1, count - 1);
    assert buf[offset] == buf[offset..offset + count][0];
    if buf[offset] == TABLE {
      TableLocality(buf, offset + 1, other, offset' + 1);
    } else if buf[offset] == ARRAY {
      ArrayLocality(buf, offset + 1, other, offset' + 1);
    } else {
      ScalarLocality(buf[offset], buf, offset + 1, other, offset' + 1);
    }
  }

  lemma ScalarLocality(code: byte, buf: bytes, offset: nat, other: bytes, offset': nat)
    requires ReadScalar(code, buf, offset).Ok?
    requires SameWindow(buf, offset, other, offset', ReadScalar(code, buf, offset).value.next - offset)
    ensures ReadScalar(code, other, offset') ==
      Ok(Read(ReadScalar(code, buf, offset).value.value, offset' + (ReadScalar(code, buf, offset).value.next - offset)))
  {
    hide BigEndian, FromBigEndian, Unpack, Slice;
    var count := ReadScalar(code, buf, offset).value.next - offset;
    SubWindow(buf, offset, other, offset', count, 0, count);
    if code == LONG_STRING {
      SubWindow(buf, offset, other, offset', count, 0, 4);
      SubWindow(buf, offset, other, offset', count, 4, count - 4);
    } else if code == DECIMAL {
      SubWindow(buf, offset, other, offset', count, 0, 1);
      SubWindow(buf, offset, other, offset', count, 1, 4);
    }
  }

  lemma {:induction false} TableLocality(buf: bytes, offset: nat, other: bytes, offset': nat)
    requires ReadTable(buf, offset).Ok?
    requires SameWindow(buf, offset, other, offset', ReadTable(buf, offset).value.next - offset)
    ensures ReadTable(other, offset') ==
      Ok(Read(ReadTable(buf, offset).value.value, offset' + (ReadTable(buf, offset).value.next - offset)))
    decreases |buf| - offset, 0
  {
    hide BigEndian, FromBigEndian, PutAll, Unpack, ReadEntries;
    var count := ReadTable(buf, offset).value.next - offset;
    SubWindow(buf, offset, other, offset', count, 0, 4);
    SubWindow(buf, offset, other, offset', count, 4, count - 4);
    var n := Unpack(buf, offset, 4).value;
    EntriesLocality(buf, offset + 4, offset + 4 + n, other, offset' + 4);
  }

  lemma {:induction false} EntriesLocality(buf: bytes, offset: nat, limit: nat, other: bytes, offset': nat)
    requires ReadEntries(buf, offset, limit).Ok?
    requires SameWindow(buf, offset, other, offset', ReadEntries(buf, offset, limit).value.next - offset)
    requires offset' + limit >= offset
    ensures ReadEntries(other, offset', offset' + limit - offset) ==
      Ok(Read(ReadEntries(buf, offset, limit).value.value,
              offset' + (ReadEntries(buf, offset, limit).value.next - offset)))
    decreases |buf| - offset, 2
  {
    hide BigEndian, FromBigEndian, PutAll, Unpack, Slice, ReadItem;
    if offset < limit {
      var end := ReadEntries(buf, offset, limit).value.next;
      var n := Unpack(buf, offset, 1).value;
      var item := ReadItem(buf, offset + 1 + n).value;
      SubWindow(buf, offset, other, offset', end - offset, 0, 1);
      SubWindow(buf, offset, other, offset', end - offset, 1, n);
      SubWindow(buf, offset, other, offset', end - offset, 1 + n, item.next - (offset + 1 + n));
      ItemLocality(buf, offset + 1 + n, other, offset' + 1 + n);
      SubWindow(buf, offset, other, offset', end - offset, item.next - offset, end - item.next);
      EntriesLocality(buf, item.next, limit, other, offset' + (item.next - offset));
    }
  }

  lemma {:induction false} ArrayLocality(buf: bytes, offset: nat, other: bytes, offset': nat)
    requires ReadArray(buf, offset).Ok?
    requires SameWindow(buf, offset, other, offset', ReadArray(buf, offset).value.next - offset)
    ensures ReadArray(other, offset') ==
      Ok(Read(ReadArray(buf, offset).value.value, offset' + (ReadArray(buf, offset).value.next - offset)))
    decreases |buf| - offset, 0
  {
    hide BigEndian, FromBigEndian, PutAll, Unpack, ReadItems;
    var count := ReadArray(buf, offset).value.next - offset;
    SubWindow(buf, offset, other, offset', count, 0, 4);
    SubWindow(buf, offset, other, offset', count, 4, count - 4);
    var n := Unpack(buf, offset, 4).value;
    ItemsLocality(buf, offset + 4, offset + 4 + n, other, offset' + 4);
  }

  lemma {:induction false} ItemsLocality(buf: bytes, offset: nat, limit: nat, other: bytes, offset': nat)
    requires ReadItems(buf, offset, limit).Ok? && offset' + limit >= offset
    requires SameWindow(buf, offset, other, offset', ReadItems(buf, offset, limit).value.next - offset)
    ensures ReadItems(other, offset', offset' + limit - offset) ==
      Ok(Read(ReadItems(buf, offset, limit).value.value, offset' + (ReadItems(buf, offset, limit).value.next - offset)))
    decreases |buf| - offset, 2
  {
    hide BigEndian, FromBigEndian, PutAll, Unpack, Slice, ReadItem;
    if offset < limit {
      var end := ReadItems(buf, offset, limit).value.next;
      var item := ReadItem(buf, offset).value;
      SubWindow(buf, offset, other, offset', end - offset, 0, item.next - offset);
      ItemLocality(buf, offset, other, offset');
      SubWindow(buf, offset, other, offset', end - offset, item.next - offset, end - item.next);
      ItemsLocality(buf, item.next, limit, other, offset' + (item.next - offset));
    }
  }
}
