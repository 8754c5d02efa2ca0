// The values a field table can hold, and Python's dict built while reading one.
module Values {
  import opened Bytes

  const MAX_TIMESTAMP := 253402300799  // 9999-12-31T23:59:59, the last datetime

  type Image4 = s: bytes | |s| == 4 witness [0, 0, 0, 0]
  type Image8 = s: bytes | |s| == 8 witness [0, 0, 0, 0, 0, 0, 0, 0]
  type Seconds = s: int | s <= MAX_TIMESTAMP

  // Text is its encoded bytes. Decimal(c, s) is the number c / 10^s. A float is its IEEE image.
  // Foreign is any Python object the writer does not know; it counts as true.
  datatype Value =
    | Str(text: bytes)
    | Bool(flag: bool)
    | Int(number: int)
    | Double(image: Image8)
    | Single(image4: Image4)
    | Decimal(coefficient: int, scale: int)
    | Timestamp(seconds: Seconds)
    | Table(entries: seq<Entry>)
    | Array(items: seq<Value>)
    | Void
    | Foreign

  datatype Entry = Entry(key: bytes, value: Value)

  // d[key] = value on a dict that remembers insertion order.
  function Put(d: seq<Entry>, e: Entry): (r: seq<Entry>)
    ensures DistinctKeys(d) ==> DistinctKeys(r)
    ensures forall k :: HasKey(r, k) <==> HasKey(d, k) || k == e.key
  {
    if d == [] then [e]
    else
      assert d == [d[0]] + d[1..];
      KeysOfCons(d[0], d[1..]);
      if d[0].key == e.key then
        KeysOfCons(e, d[1..]);
        [e] + d[1..]
      else
        KeysOfCons(d[0], Put(d[1..], e));
        [d[0]] + Put(d[1..], e)
  }

  predicate HasKey(d: seq<Entry>, key: bytes) {
    exists i :: 0 <= i < |d| && d[i].key == key
  }

  lemma KeysOfCons(e: Entry, d: seq<Entry>)
    ensures forall k :: HasKey([e] + d, k) <==> k == e.key || HasKey(d, k)
    ensures ([e] + d)[1..] == d
  {
    forall k
      ensures HasKey([e] + d, k) <==> k == e.key || HasKey(d, k)
    {
      if HasKey(d, k) {
        var i :| 0 <= i < |d| && d[i].key == k;
        assert ([e] + d)[i + 1].key == k;
      }
      if k == e.key {
        assert ([e] + d)[0].key == k;
      }
    }
  }

  predicate DistinctKeys(d: seq<Entry>) {
    d == [] || (!HasKey(d[1..], d[0].key) && DistinctKeys(d[1..]))
  }

  function PutAll(d: seq<Entry>, es: seq<Entry>): (r: seq<Entry>)
    ensures DistinctKeys(d) ==> DistinctKeys(r)
    decreases es
  {
    if es == [] then d else PutAll(Put(d, es[0]), es[1..])
  }

  lemma {:induction false} PutFresh(d: seq<Entry>, e: Entry)
    requires !HasKey(d, e.key)
    ensures Put(d, e) == d + [e]
  {
    if d != [] {
      assert d == [d[0]] + d[1..];
      KeysOfCons(d[0], d[1..]);
      PutFresh(d[1..], e);
    }
  }

  // A known key keeps its place and gets the new value; a new one comes last; nothing else moves.
  lemma {:induction false} PutPlaces(d: seq<Entry>, e: Entry)
    ensures if HasKey(d, e.key) then exists i :: 0 <= i < |d| && d[i].key == e.key && Put(d, e) == d[i := e]
      else Put(d, e) == d + [e]
  {
    if !HasKey(d, e.key) {
      PutFresh(d, e);
    } else if d[0].key == e.key {
      assert [e] + d[1..] == d[0 := e];
    } else {
      assert d == [d[0]] + d[1..];
      KeysOfCons(d[0], d[1..]);
      PutPlaces(d[1..], e);
      var i :| 0 <= i < |d[1..]| && d[1..][i].key == e.key && Put(d[1..], e) == d[1..][i := e];
      assert d[i + 1].key == e.key && [d[0]] + d[1..][i := e] == d[i + 1 := e];
    }
  }

  // So of entries with the same key the last one counts.
  lemma {:induction false} LastEntryCounts(d: seq<Entry>, es: seq<Entry>, e: Entry)
    requires DistinctKeys(d)
    ensures e in PutAll(d, es + [e])
    decreases es
  {
    if es == [] {
      assert [e][1..] == [] && PutAll(d, [e]) == PutAll(Put(d, e), []) == Put(d, e);
      PutPlaces(d, e);
      if HasKey(d, e.key) {
        var i :| 0 <= i < |d| && d[i].key == e.key && Put(d, e) == d[i := e];
        assert d[i := e][i] == e;
      }
      assert [] + [e] == [e];
    } else {
      assert (es + [e])[1..] == es[1..] + [e] && (es + [e])[0] == es[0];
      LastEntryCounts(Put(d, es[0]), es[1..], e);
    }
  }

  // Entries with distinct keys rebuild the dict they were listed from.
  lemma {:induction false} PutAllDistinct(d: seq<Entry>, es: seq<Entry>)
    requires DistinctKeys(es)
    requires forall k :: HasKey(es, k) ==> !HasKey(d, k)
    ensures PutAll(d, es) == d + es
    decreases es
  {
    if es == [] {
      assert d + es == d;
    } else {
      assert es == [es[0]] + es[1..];
      KeysOfCons(es[0], es[1..]);
      PutFresh(d, es[0]);
      PutAllDistinct(Put(d, es[0]), es[1..]);
      assert d + es == d + [es[0]] + es[1..];
    }
  }

  // Every dict inside a value has distinct keys, as every Python dict does.
  predicate WellFormed(v: Value)
    decreases v
  {
    match v
    case Table(es) => DistinctKeys(es) && forall e | e in es :: WellFormed(e.value)
    case Array(vs) => forall x | x in vs :: WellFormed(x)
    case _ => true
  }
}
