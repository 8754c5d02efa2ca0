// The loops of _write_table, _write_array and _read_item, each proved against its function in ItemCodec.
module ItemLoops {
  import opened Wrappers
  import opened Bytes
  import opened Values
  import opened ItemCodec

  method WriteTableLoop(d: seq<Entry>) returns (r: Result<bytes>)
    ensures r == WriteTable(d)
    decreases d, 1
  {
    hide Pack, WriteItem;
    var out: bytes, i := [], 0;
    ghost var all := WriteEntries(d);
    assert d[0..] == d && (all.Ok? ==> out + all.value == all.value);
    while i < |d|
      invariant i <= |d|
      invariant Append(out, WriteEntries(d[i..])) == WriteEntries(d)
    {
      var e := d[i];
      assert d[i..][0] == e && d[i..][1..] == d[i + 1..];
      var n := Pack(|e.key|, 1);
      if n.Raised? {
        return n;
      }
      var w := WriteItemInto(e.value);
      if w.Raised? {
        return Unhandled(w);
      }
      ghost var rest := WriteEntries(d[i + 1..]);
      assert rest.Ok? ==>
        out + (n.value + e.key + w.value + rest.value) == out + n.value + e.key + w.value + rest.value;
      out := out + n.value + e.key + w.value;
      i := i + 1;
    }
    assert out + [] == out;
    var n := Pack(|out|, 4);
    r := if n.Ok? then Ok(n.value + out) else n;
  }

  method WriteArrayLoop(l: seq<Value>) returns (r: Result<bytes>)
    ensures r == WriteArray(l)
    decreases l, 1
  {
    hide Pack, WriteItem;
    var out: bytes, i := [], 0;
    ghost var all := WriteItems(l);
    assert l[0..] == l && (all.Ok? ==> out + all.value == all.value);
    while i < |l|
      invariant i <= |l|
      invariant Append(out, WriteItems(l[i..])) == WriteItems(l)
    {
      assert l[i..][0] == l[i] && l[i..][1..] == l[i + 1..];
      var w := WriteItemInto(l[i]);
      if w.Raised? {
        return Unhandled(w);
      }
      ghost var rest := WriteItems(l[i + 1..]);
      assert rest.Ok? ==> out + (w.value + rest.value) == out + w.value + rest.value;
      out := out + w.value;
      i := i + 1;
    }
    assert out + [] == out;
    var n := Pack(|out|, 4);
    r := if n.Ok? then Ok(n.value + out) else n;
  }

  method WriteItemInto(v: Value) returns (r: Result<bytes>)
    ensures r == WriteItem(v)
    decreases v
  {
    match v
    case Table(es) =>
      var w := WriteTableLoop(es);
      r := Append([TABLE], w);
    case Array(vs) =>
      var w := WriteArrayLoop(vs);
      r := Append([ARRAY], w);
    case _ =>
      r := WriteItem(v);
  }

  // A dict being filled while the entries up to limit are read.
  ghost function TableSoFar(val: seq<Entry>, buf: bytes, offset: nat, limit: nat): Result<Read<seq<Entry>>> {
    var r :- ReadEntries(buf, offset, limit);
    Ok(Read(PutAll(val, r.value), r.next))
  }

  ghost function ArraySoFar(val: seq<Value>, buf: bytes, offset: nat, limit: nat): Result<Read<seq<Value>>> {
    var r :- ReadItems(buf, offset, limit);
    Ok(Read(val + r.value, r.next))
  }

  lemma TableSoFarStep(val: seq<Entry>, buf: bytes, offset: nat, limit: nat)
    requires offset < limit && Unpack(buf, offset, 1).Ok?
    requires ReadItem(buf, offset + 1 + Unpack(buf, offset, 1).value).Ok?
    ensures var n := Unpack(buf, offset, 1).value;
      var item := ReadItem(buf, offset + 1 + n).value;
      TableSoFar(val, buf, offset, limit) ==
        TableSoFar(Put(val, Entry(Slice(buf, offset + 1, n), item.value)), buf, item.next, limit)
  {
    hide Unpack, Slice, ReadItem;
    var n := Unpack(buf, offset, 1).value;
    var item := ReadItem(buf, offset + 1 + n).value;
    var rest := ReadEntries(buf, item.next, limit);
    if rest.Ok? {
      var e := Entry(Slice(buf, offset + 1, n), item.value);
      assert ([e] + rest.value.value)[1..] == rest.value.value;
    }
  }

  // The 'F' branches of _read_item and loads.
  method ReadTableLoop(buf: bytes, start: nat) returns (r: Result<Read<seq<Entry>>>)
    ensures r == ReadTable(buf, start)
    decreases |buf| - start, 0
  {
    hide Unpack, Slice, ReadItem, Put, PutAll;
    var tlen := Unpack(buf, start, 4);
    if tlen.Raised? {
      return Raised(tlen.error);
    }
    InBounds(buf, start, 4);
    var offset := start + 4;
    var limit := offset + tlen.value;
    var val: seq<Entry> := [];
    while offset < limit
      invariant start + 4 <= offset
      invariant TableSoFar(val, buf, offset, limit) == ReadTable(buf, start)
      decreases limit - offset
    {
      var keylen := Unpack(buf, offset, 1);
      if keylen.Raised? {
        return Raised(keylen.error);
      }
      var key := Slice(buf, offset + 1, keylen.value);
      var item := ReadItemLoop(buf, offset + 1 + keylen.value);
      if item.Raised? {
        return Raised(item.error);
      }
      TableSoFarStep(val, buf, offset, limit);
      val := Put(val, Entry(key, item.value.value));
      offset := item.value.next;
    }
    PutNothing(val);
    r := Ok(Read(val, offset));
  }

  lemma PutNothing(d: seq<Entry>)
    ensures PutAll(d, []) == d
  {
  }

  // The 'A' branches of _read_item and loads.
  method ReadArrayLoop(buf: bytes, start: nat) returns (r: Result<Read<seq<Value>>>)
    ensures r == ReadArray(buf, start)
    decreases |buf| - start, 0
  {
    hide Unpack, ReadItem;
    var alen := Unpack(buf, start, 4);
    if alen.Raised? {
      return Raised(alen.error);
    }
    InBounds(buf, start, 4);
    var offset := start + 4;
    var limit := offset + alen.value;
    var val: seq<Value> := [];
    ghost var all := ReadItems(buf, offset, limit);
    assert all.Ok? ==> val + all.value.value == all.value.value;
    while offset < limit
      invariant start + 4 <= offset
      invariant ArraySoFar(val, buf, offset, limit) == ReadArray(buf, start)
      decreases limit - offset
    {
      var item := ReadItemLoop(buf, offset);
      if item.Raised? {
        return Raised(item.error);
      }
      ghost var rest := ReadItems(buf, item.value.next, limit);
      assert rest.Ok? ==> val + ([item.value.value] + rest.value.value) == val + [item.value.value] + rest.value.value;
      val := val + [item.value.value];
      offset := item.value.next;
    }
    assert val + [] == val;
    r := Ok(Read(val, offset));
  }

  method ReadItemLoop(buf: bytes, offset: nat) returns (r: Result<Read<Value>>)
    ensures r == ReadItem(buf, offset)
    decreases |buf| - offset, 1
  {
    if offset >= |buf| {
      r := Raised(IndexError);
    } else if buf[offset] == TABLE {
      var t := ReadTableLoop(buf, offset + 1);
      r := if t.Ok? then Ok(Read(Table(t.value.value), t.value.next)) else Raised(t.error);
    } else if buf[offset] == ARRAY {
      var a := ReadArrayLoop(buf, offset + 1);
      r := if a.Ok? then Ok(Read(Array(a.value.value), a.value.next)) else Raised(a.error);
    } else {
      r := ReadScalar(buf[offset], buf, offset + 1);
    }
  }
}
