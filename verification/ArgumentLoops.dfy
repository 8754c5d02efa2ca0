// The loops of dumps and loads, proved against their functions in ArgumentCodec.
module ArgumentLoops {
  import opened Wrappers
  import opened Bytes
  import opened Values
  import opened ItemCodec
  import opened ItemLoops
  import opened ArgumentCodec

  method DumpsLoop(format: string, values: seq<Value>) returns (r: Result<bytes>)
    ensures r == Dumps(format, values)
  {
    hide DumpOne, PushBit, Truthy;
    var bitcount, i := 0, 0;
    var bits: bytes, out: bytes := [], [];
    ghost var all := Dumps(format, values);
    assert format[0..] == format && values[0..] == values && (all.Ok? ==> out + all.value == all.value);
    while i < |values|
      invariant i <= |values| && i <= |format| && |bits| == (bitcount + 7) / 8
      invariant Append(out, DumpsFrom(format[i..], values[i..], bits, bitcount)) == all
    {
      if i == |format| {
        return Raised(IndexError);
      }
      var p, val := format[i], values[i];
      Advance(format, values, i);
      if p == 'b' {
        bits := PushBit(bits, bitcount, Truthy(val));
        bitcount := bitcount + 1;
      } else if Flushes(p) {
        var w := DumpArgument(p, val);
        if w.Raised? {
          return w;
        }
        AppendTwice(out, bits + w.value, DumpsFrom(format[i + 1..], values[i + 1..], [], 0));
        out := out + (bits + w.value);
        bits, bitcount := [], 0;
      } else if p == 'T' {
        var w := DumpArgument(p, val);
        if w.Raised? {
          return w;
        }
        AppendTwice(out, w.value, DumpsFrom(format[i + 1..], values[i + 1..], bits, bitcount));
        out := out + w.value;
      }
      i := i + 1;
    }
    r := Ok(out + bits);
  }

  lemma Advance(format: string, values: seq<Value>, i: nat)
    requires i < |format| && i < |values|
    ensures format[i..] != "" && format[i..][0] == format[i] && format[i..][1..] == format[i + 1..]
    ensures values[i..] != [] && values[i..][0] == values[i] && values[i..][1..] == values[i + 1..]
  {
  }

  lemma AppendTwice(out: bytes, w: bytes, rest: Result<bytes>)
    ensures Append(out, Append(w, rest)) == Append(out + w, rest)
    ensures rest.Ok? ==> Append(out, Ok(w + rest.value)) == Append(out + w, rest)
  {
    assert rest.Ok? ==> out + (w + rest.value) == out + w + rest.value;
  }

  method DumpArgument(p: char, v: Value) returns (r: Result<bytes>)
    ensures r == DumpOne(p, v)
  {
    var g := Given(p, v);
    if p == 'F' && g.Table? {
      r := WriteTableLoop(g.entries);
    } else if p == 'A' && g.Array? {
      r := WriteArrayLoop(g.items);
    } else {
      r := DumpOne(p, v);
    }
  }

  // The values loaded so far, once the rest is loaded.
  ghost function LoadedSoFar(values: seq<Value>, rest: Result<Read<seq<Value>>>): Result<Read<seq<Value>>> {
    if rest.Ok? then Ok(Read(values + rest.value.value, rest.value.next)) else rest
  }

  lemma AppendLoaded(values: seq<Value>, val: Value, rest: Result<Read<seq<Value>>>)
    ensures rest.Ok? ==>
      LoadedSoFar(values + [val], rest) == Ok(Read(values + ([val] + rest.value.value), rest.value.next))
  {
    assert rest.Ok? ==> values + ([val] + rest.value.value) == values + [val] + rest.value.value;
  }

  method LoadsLoop(format: string, buf: bytes, start: nat) returns (r: Result<Read<seq<Value>>>)
    ensures r == Loads(format, buf, start)
  {
    hide LoadOne, FitsAll;
    var offset: nat, bitcount: nat, bits: nat, i: nat := start, 0, 0, 0;
    var values: seq<Value> := [];
    ghost var all := Loads(format, buf, start);
    assert format[0..] == format && (all.Ok? ==> values + all.value.value == all.value.value);
    while i < |format|
      invariant i <= |format|
      invariant LoadedSoFar(values, LoadsFrom(format[i..], buf, offset, bitcount, bits)) == all
    {
      var p := format[i];
      assert format[i..][0] == p && format[i..][1..] == format[i + 1..];
      var val;
      if p == 'b' {
        if bitcount == 0 {
          if offset >= |buf| {
            return Raised(TypeError);
          }
          bits := buf[offset];
          offset := offset + 1;
        }
        bitcount := 8;
        val := Bool(bits % 2 == 1);
        bits := bits / 2;
        bitcount := bitcount - 1;
      } else {
        bitcount, bits := 0, 0;
        var one := LoadArgument(p, buf, offset);
        if one.Raised? {
          return Raised(one.error);
        }
        val, offset := one.value.value, one.value.next;
      }
      ghost var rest := LoadsFrom(format[i + 1..], buf, offset, bitcount, bits);
      AppendLoaded(values, val, rest);
      values := values + [val];
      i := i + 1;
    }
    assert values + [] == values;
    r := Ok(Read(values, offset));
  }

  method LoadArgument(p: char, buf: bytes, offset: nat) returns (r: Result<Read<Value>>)
    ensures r == LoadOne(p, buf, offset)
  {
    if p == 'F' {
      var t := ReadTableLoop(buf, offset);
      r := if t.Ok? then Ok(Read(Table(t.value.value), t.value.next)) else Raised(t.error);
    } else if p == 'A' {
      var a := ReadArrayLoop(buf, offset);
      r := if a.Ok? then Ok(Read(Array(a.value.value), a.value.next)) else Raised(a.error);
    } else {
      r := LoadOne(p, buf, offset);
    }
  }
}
