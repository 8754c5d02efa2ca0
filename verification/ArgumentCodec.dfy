// Method arguments driven by a format string: dumps and loads.
//   b bit, o octet, B short, l long, L long long, f float, s short string,
//   S long string, F table, A array, T timestamp
module ArgumentCodec {
  import opened Wrappers
  import opened Bytes
  import opened Values
  import opened ItemCodec

  function Pow2(k: nat): (p: nat)
    ensures p >= 1
  {
    if k == 0 then 1 else 2 * Pow2(k - 1)
  }

  // ---- dumps ----

  // octet | (flag << shift)
  function OrBit(octet: byte, shift: nat, flag: bool): byte
    requires shift < 8
  {
    if flag && (octet / Pow2(shift)) % 2 == 0 then
      OrBitFits(octet, shift);
      octet + Pow2(shift)
    else
      octet
  }

  lemma OrBitFits(octet: byte, shift: nat)
    requires shift < 8 && (octet / Pow2(shift)) % 2 == 0
    ensures octet + Pow2(shift) < 256
  {
    if shift == 0 {} else if shift == 1 {} else if shift == 2 {} else if shift == 3 {}
    else if shift == 4 {} else if shift == 5 {} else if shift == 6 {} else { assert shift == 7; }
  }

  // A ninth bit opens a second octet.
  function PushBit(bits: bytes, count: nat, flag: bool): (r: bytes)
    requires |bits| == (count + 7) / 8
    ensures |r| == (count + 8) / 8
  {
    var shift := count % 8;
    var octets := if shift == 0 then bits + [0] else bits;
    octets[..|octets| - 1] + [OrBit(octets[|octets| - 1], shift, flag)]
  }

  // The letters for which dumps writes out the pending bits first.
  predicate Flushes(p: char) {
    p in {'o', 'B', 'l', 'L', 'f', 's', 'S', 'F', 'A'}
  }

  // A value is converted as Given says and then has to be of the letter's kind.
  function DumpOne(p: char, v: Value): Result<bytes> {
    var g := Given(p, v);
    if p == 'o' && g.Int? then Pack(g.number, 1)
    else if p == 'B' && g.Int? then Pack(g.number, 2)
    else if p == 'l' && g.Int? then Pack(g.number, 4)
    else if p == 'L' && g.Int? then Pack(g.number, 8)
    else if p == 'f' && g.Single? then Ok(g.image4)
    else if p == 's' && g.Str? then DumpString(g.text, 1)
    else if p == 'S' && g.Str? then DumpString(g.text, 4)
    else if p == 'F' && g.Table? then WriteTable(g.entries)
    else if p == 'A' && g.Array? then WriteArray(g.items)
    else if p == 'T' && g.Timestamp? then Pack(g.seconds, 8)
    else if p in {'F', 'T'} then Raised(AttributeError)
    else if p in {'o', 'l', 'L', 'f'} then Raised(StructError)
    else Raised(TypeError)
  }

  function DumpString(s: bytes, width: nat): Result<bytes> {
    var n :- Pack(|s|, width);
    Ok(n + s)
  }

  // Python's truth of a value: None, zeros and whatever is empty are false.
  predicate Truthy(v: Value) {
    match v
    case Str(s) => s != []
    case Bool(b) => b
    case Int(n) => n != 0
    case Double(image) => image != [0, 0, 0, 0, 0, 0, 0, 0] && image != [0x80, 0, 0, 0, 0, 0, 0, 0]
    case Single(image) => image != [0, 0, 0, 0] && image != [0x80, 0, 0, 0]
    case Decimal(c, _) => c != 0
    case Timestamp(_) => true
    case Table(es) => es != []
    case Array(vs) => vs != []
    case Void => false
    case Foreign => true
  }

  // What dumps takes a value for: a bit is its truth, a bool is the number 1 or 0, and every false
  // value is the empty string, table or array.
  function Given(p: char, v: Value): Value {
    if p == 'b' then Bool(Truthy(v))
    else if p in {'o', 'B', 'l', 'L'} then (if v.Bool? then Int(if v.flag then 1 else 0) else v)
    else if Truthy(v) then v
    else if p == 's' || p == 'S' then Str([])
    else if p == 'F' then Table([])
    else if p == 'A' then Array([])
    else v
  }

  // Nothing has to be converted.
  predicate Proper(p: char, v: Value) {
    match p
    case 'b' => v.Bool?
    case 'o' => v.Int?
    case 'B' => v.Int?
    case 'l' => v.Int?
    case 'L' => v.Int?
    case 's' => v.Str?
    case 'S' => v.Str?
    case 'F' => v.Table?
    case 'A' => v.Array?
    case _ => true
  }

  // What dumps still writes, with `bits` pending from a run of `count` bits.
  // A letter it does not know is passed over.
  function DumpsFrom(fmt: string, vals: seq<Value>, bits: bytes, count: nat): Result<bytes>
    requires |bits| == (count + 7) / 8
    decreases |vals|
  {
    if vals == [] then Ok(bits)
    else if fmt == "" then Raised(IndexError)
    else if fmt[0] == 'b' then
      DumpsFrom(fmt[1..], vals[1..], PushBit(bits, count, Truthy(vals[0])), count + 1)
    else if Flushes(fmt[0]) then
      var w :- DumpOne(fmt[0], vals[0]);
      var rest :- DumpsFrom(fmt[1..], vals[1..], [], 0);
      Ok(bits + w + rest)
    else if fmt[0] == 'T' then
      var w :- DumpOne('T', vals[0]);
      var rest :- DumpsFrom(fmt[1..], vals[1..], bits, count);
      Ok(w + rest)
    else
      DumpsFrom(fmt[1..], vals[1..], bits, count)
  }

  function Dumps(fmt: string, vals: seq<Value>): Result<bytes> {
    DumpsFrom(fmt, vals, [], 0)
  }

  // ---- loads ----

  function LoadOne(p: char, buf: bytes, offset: nat): (r: Result<Read<Value>>)
    ensures r.Ok? ==> r.value.next > offset && Fits(p, r.value.value)
  {
    WidthBounds();
    if p == 'o' then LoadNumber(buf, offset, 1)
    else if p == 'B' then LoadNumber(buf, offset, 2)
    else if p == 'l' then LoadNumber(buf, offset, 4)
    else if p == 'L' then LoadNumber(buf, offset, 8)
    else if p == 'f' then
      var _ :- Unpack(buf, offset, 4);
      Ok(Read(Single(buf[offset..offset + 4]), offset + 4))
    else if p == 's' then LoadString(buf, offset, 1)
    else if p == 'S' then LoadString(buf, offset, 4)
    else if p == 'F' then
      var t :- ReadTable(buf, offset);
      Ok(Read(Table(t.value), t.next))
    else if p == 'A' then
      var a :- ReadArray(buf, offset);
      Ok(Read(Array(a.value), a.next))
    else if p == 'T' then
      var n :- Unpack(buf, offset, 8);
      if n <= MAX_TIMESTAMP then Ok(Read(Timestamp(n), offset + 8)) else Raised(ValueError)
    else Raised(FrameSyntaxError)
  }

  function LoadNumber(buf: bytes, offset: nat, width: nat): (r: Result<Read<Value>>)
    ensures r.Ok? ==> r.value.next == offset + width && r.value.value.Int? && 0 <= r.value.value.number < Pow256(width)
  {
    var n :- Unpack(buf, offset, width);
    Ok(Read(Int(n), offset + width))
  }

  function LoadString(buf: bytes, offset: nat, width: nat): (r: Result<Read<Value>>)
    ensures r.Ok? ==> r.value.next >= offset + width && r.value.value.Str? && |r.value.value.text| < Pow256(width)
  {
    var n :- Unpack(buf, offset, width);
    Ok(Read(Str(Slice(buf, offset + width, n)), offset + width + n))
  }

  // The kind of value a letter reads.
  predicate Fits(p: char, v: Value) {
    match p
    case 'b' => v.Bool?
    case 'o' => v.Int? && 0 <= v.number < 0x100
    case 'B' => v.Int? && 0 <= v.number < 0x1_0000
    case 'l' => v.Int? && 0 <= v.number < 0x1_0000_0000
    case 'L' => v.Int? && 0 <= v.number < 0x1_0000_0000_0000_0000
    case 'f' => v.Single?
    case 's' => v.Str? && |v.text| < 0x100
    case 'S' => v.Str? && |v.text| < 0x1_0000_0000
    case 'F' => v.Table?
    case 'A' => v.Array?
    case 'T' => v.Timestamp?
    case _ => false
  }

  predicate FitsAll(fmt: string, vals: seq<Value>) {
    |vals| == |fmt| && forall i :: 0 <= i < |fmt| ==> Fits(fmt[i], vals[i])
  }

  lemma FitsCons(fmt: string, v: Value, vals: seq<Value>)
    requires fmt != "" && Fits(fmt[0], v) && FitsAll(fmt[1..], vals)
    ensures FitsAll(fmt, [v] + vals)
  {
  }

  // One turn of the loop of loads: the value, the new offset, and what is left of the octet of bits.
  datatype Turn = Turn(value: Value, next: nat, bitcount: nat, bits: nat)

  // `bits` is the octet being taken apart, `bitcount` what loads believes is left of it.
  // After every bit bitcount is 7, so a run of bits reads one octet only.
  function LoadTurn(p: char, buf: bytes, offset: nat, bitcount: nat, bits: nat): (r: Result<Turn>)
    ensures r.Ok? ==> r.value.next >= offset && Fits(p, r.value.value)
  {
    if p == 'b' then
      if bitcount == 0 && offset >= |buf| then Raised(TypeError)
      else
        var octet: nat := if bitcount == 0 then buf[offset] else bits;
        Ok(Turn(Bool(octet % 2 == 1), if bitcount == 0 then offset + 1 else offset, 7, octet / 2))
    else
      var one :- LoadOne(p, buf, offset);
      Ok(Turn(one.value, one.next, 0, 0))
  }

  function LoadsFrom(fmt: string, buf: bytes, offset: nat, bitcount: nat, bits: nat): (r: Result<Read<seq<Value>>>)
    ensures r.Ok? ==> r.value.next >= offset && FitsAll(fmt, r.value.value)
    decreases |fmt|
  {
    if fmt == "" then Ok(Read([], offset))
    else
      var turn :- LoadTurn(fmt[0], buf, offset, bitcount, bits);
      var rest :- LoadsFrom(fmt[1..], buf, turn.next, turn.bitcount, turn.bits);
      FitsCons(fmt, turn.value, rest.value);
      Ok(Read([turn.value] + rest.value, rest.next))
  }

  function Loads(fmt: string, buf: bytes, offset: nat): (r: Result<Read<seq<Value>>>)
    ensures r.Ok? ==> r.value.next >= offset && FitsAll(fmt, r.value.value)
  {
    LoadsFrom(fmt, buf, offset, 0, 0)
  }

  // ---- a load depends only on the bytes it covers ----

  lemma OneLocality(p: char, buf: bytes, offset: nat, other: bytes, offset': nat)
    requires LoadOne(p, buf, offset).Ok?
    requires SameWindow(buf, offset, other, offset', LoadOne(p, buf, offset).value.next - offset)
    ensures LoadOne(p, other, offset') ==
      Ok(Read(LoadOne(p, buf, offset).value.value, offset' + (LoadOne(p, buf, offset).value.next - offset)))
  {
    hide Unpack, Slice, ReadTable, ReadArray, LoadString, Fits;
    var count := LoadOne(p, buf, offset).value.next - offset;
    SubWindow(buf, offset, other, offset', count, 0, count);
    if p == 'F' {
      TableLocality(buf, offset, other, offset');
    } else if p == 'A' {
      ArrayLocality(buf, offset, other, offset');
    } else if p == 's' {
      StringLocality(1, buf, offset, other, offset');
    } else if p == 'S' {
      StringLocality(4, buf, offset, other, offset');
    }
  }

  lemma StringLocality(width: nat, buf: bytes, offset: nat, other: bytes, offset': nat)
    requires LoadString(buf, offset, width).Ok?
    requires SameWindow(buf, offset, other, offset', LoadString(buf, offset, width).value.next - offset)
    ensures LoadString(other, offset', width) ==
      Ok(Read(LoadString(buf, offset, width).value.value,
              offset' + (LoadString(buf, offset, width).value.next - offset)))
  {
    hide Unpack, Slice;
    var count := LoadString(buf, offset, width).value.next - offset;
    SubWindow(buf, offset, other, offset', count, 0, width);
    SubWindow(buf, offset, other, offset', count, width, count - width);
  }

  lemma TurnLocality(p: char, buf: bytes, offset: nat, bitcount: nat, bits: nat, other: bytes, offset': nat)
    requires LoadTurn(p, buf, offset, bitcount, bits).Ok?
    requires SameWindow(buf, offset, other, offset', LoadTurn(p, buf, offset, bitcount, bits).value.next - offset)
    ensures var t := LoadTurn(p, buf, offset, bitcount, bits).value;
      LoadTurn(p, other, offset', bitcount, bits) == Ok(t.(next := offset' + (t.next - offset)))
  {
    hide LoadOne, Fits;
    if p != 'b' {
      OneLocality(p, buf, offset, other, offset');
    } else if bitcount == 0 {
      WindowHead(buf, offset, other, offset', 1);
    }
  }

  lemma {:induction false} LoadsLocality(
    fmt: string, buf: bytes, offset: nat, bitcount: nat, bits: nat, other: bytes, offset': nat)
    requires LoadsFrom(fmt, buf, offset, bitcount, bits).Ok?
    requires SameWindow(buf, offset, other, offset', LoadsFrom(fmt, buf, offset, bitcount, bits).value.next - offset)
    ensures var r := LoadsFrom(fmt, buf, offset, bitcount, bits).value;
      LoadsFrom(fmt, other, offset', bitcount, bits) == Ok(Read(r.value, offset' + (r.next - offset)))
    decreases |fmt|
  {
    hide LoadTurn, FitsAll, Fits;
    if fmt != "" {
      var count := LoadsFrom(fmt, buf, offset, bitcount, bits).value.next - offset;
      var turn := LoadTurn(fmt[0], buf, offset, bitcount, bits).value;
      var took := turn.next - offset;
      SubWindow(buf, offset, other, offset', count, 0, took);
      TurnLocality(fmt[0], buf, offset, bitcount, bits, other, offset');
      SubWindow(buf, offset, other, offset', count, took, count - took);
      LoadsLocality(fmt[1..], buf, turn.next, turn.bitcount, turn.bits, other, offset' + took);
    }
  }
}
