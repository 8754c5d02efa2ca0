// What send_content_header gathers from a property map, and that Header recovers exactly that.
module HeaderRoundTrip {
  import opened Wrappers
  import opened Bytes
  import opened Values
  import opened ItemCodec
  import opened ArgumentCodec
  import opened ArgumentRoundTrip
  import opened Properties

  // ---- the loop of send_content_header, from row i on ----

  function GatherFlags(props: PropertyMap, i: nat): nat
    requires i <= PROPERTY_COUNT
    decreases PROPERTY_COUNT - i, props
  {
    if i == PROPERTY_COUNT then 0
    else (if Name(i) in props then Mask(i) else 0) + GatherFlags(props, i + 1)
  }

  function GatherFormat(props: PropertyMap, i: nat): string
    requires i <= PROPERTY_COUNT
    decreases PROPERTY_COUNT - i, props
  {
    if i == PROPERTY_COUNT then ""
    else (if Name(i) in props then [Letter(i)] else "") + GatherFormat(props, i + 1)
  }

  function GatherValues(props: PropertyMap, i: nat): (vals: seq<Value>)
    requires i <= PROPERTY_COUNT
    ensures |vals| == |GatherFormat(props, i)|
    decreases PROPERTY_COUNT - i, props
  {
    if i == PROPERTY_COUNT then []
    else (if Name(i) in props then [props[Name(i)]] else []) + GatherValues(props, i + 1)
  }

  ghost function GatherKeys(props: PropertyMap, i: nat): (keys: seq<Property>)
    requires i <= PROPERTY_COUNT
    ensures |keys| == |GatherFormat(props, i)|
    decreases PROPERTY_COUNT - i, props
  {
    if i == PROPERTY_COUNT then []
    else (if Name(i) in props then [Name(i)] else []) + GatherKeys(props, i + 1)
  }

  // The arguments of the header frame: class basic, weight, body size, flags, then the properties.
  function HeaderArguments(props: PropertyMap, bodySize: int): Result<bytes> {
    Dumps("BBLB" + GatherFormat(props, 0),
          [Int(60), Int(0), Int(bodySize), Int(GatherFlags(props, 0))] + GatherValues(props, 0))
  }

  // ---- summing distinct bits ----

  // The flags of the rows before i, counted in units of 2 * Mask(i).
  function Above(props: PropertyMap, i: nat): nat
    requires i <= PROPERTY_COUNT
  {
    if i == 0 then 0 else 2 * Above(props, i - 1) + (if Name(i - 1) in props then 1 else 0)
  }

  function Unit(i: nat): (u: nat)
    requires i <= PROPERTY_COUNT
    ensures u >= 1
  {
    Pow2(16 - i)
  }

  lemma UnitStep(i: nat)
    requires i < PROPERTY_COUNT
    ensures Unit(i) == 2 * Unit(i + 1) && Mask(i) == Unit(i + 1)
  {
  }

  lemma {:induction false} FlagsBelow(props: PropertyMap, i: nat)
    requires i <= PROPERTY_COUNT
    ensures GatherFlags(props, i) < Unit(i)
    decreases PROPERTY_COUNT - i
  {
    hide Unit, Mask, Name;
    if i < PROPERTY_COUNT {
      FlagsBelow(props, i + 1);
      UnitStep(i);
    }
  }

  lemma {:induction false} FlagsSplit(props: PropertyMap, i: nat)
    requires i <= PROPERTY_COUNT
    ensures GatherFlags(props, 0) == Above(props, i) * Unit(i) + GatherFlags(props, i)
  {
    hide Unit, Mask, Name, GatherFlags;
    if i > 0 {
      FlagsSplit(props, i - 1);
      UnitStep(i - 1);
      FlagsRow(props, i - 1);
      var b := if Name(i - 1) in props then 1 else 0;
      Halves(Above(props, i - 1), b, Unit(i));
    }
  }

  lemma FlagsRow(props: PropertyMap, i: nat)
    requires i < PROPERTY_COUNT
    ensures GatherFlags(props, i) == (if Name(i) in props then Mask(i) else 0) + GatherFlags(props, i + 1)
  {
  }

  lemma Quotient(n: nat, d: nat, q: nat, r: nat)
    requires n == q * d + r && r < d
    ensures n / d == q
  {
    var q' := n / d;
    assert n == q' * d + n % d;
    assert (q - q') * d == n % d - r;
    if q > q' {
      Multiple(q - q', d);
    } else if q' > q {
      Multiple(q' - q, d);
    }
  }

  lemma FlagBit(props: PropertyMap, i: nat)
    requires i < PROPERTY_COUNT
    ensures HasBit(GatherFlags(props, 0), Mask(i)) <==> Name(i) in props
  {
    hide Unit, Mask, Name, GatherFlags;
    UnitStep(i);
    FlagsSplit(props, i + 1);
    FlagsBelow(props, i + 1);
    Quotient(GatherFlags(props, 0), Mask(i), Above(props, i + 1), GatherFlags(props, i + 1));
  }

  lemma FlagsFit(props: PropertyMap)
    ensures GatherFlags(props, 0) < 0x1_0000
  {
    FlagsBelow(props, 0);
    assert Pow2(8) == 256 && Pow2(12) == 4096;
  }

  lemma {:induction false} FormatRecovered(props: PropertyMap, i: nat)
    requires i <= PROPERTY_COUNT
    ensures HeaderFormat(GatherFlags(props, 0), i) == GatherFormat(props, i)
    ensures HeaderKeys(GatherFlags(props, 0), i) == GatherKeys(props, i)
    decreases PROPERTY_COUNT - i
  {
    hide Unit, Mask, Name, Letter, GatherFlags, HasBit;
    if i < PROPERTY_COUNT {
      FlagBit(props, i);
      FormatRecovered(props, i + 1);
    }
  }

  lemma {:induction false} GatheredRegular(props: PropertyMap, i: nat)
    requires i <= PROPERTY_COUNT
    ensures Regular(GatherFormat(props, i), 0)
    decreases PROPERTY_COUNT - i
  {
    hide Name, Letter;
    if i < PROPERTY_COUNT {
      GatheredRegular(props, i + 1);
      var rest := GatherFormat(props, i + 1);
      assert ([Letter(i)] + rest)[1..] == rest && "" + rest == rest;
    }
  }

  // ---- the properties that come back ----

  function Row(p: Property): (i: nat)
    requires !p.Other?
    ensures i < PROPERTY_COUNT && Name(i) == p
    ensures forall j | 0 <= j < PROPERTY_COUNT && Name(j) == p :: j == i
  {
    match p
    case ContentType => 0 case ContentEncoding => 1 case ApplicationHeaders => 2 case DeliveryMode => 3
    case Priority => 4 case CorrelationId => 5 case ReplyTo => 6 case Expiration => 7 case MessageId => 8
    case SentAt => 9 case MessageType => 10 case UserId => 11 case AppId => 12 case ClusterId => 13
  }

  // Exactly the standard properties of the map, each as its letter takes it.
  function Carried(props: PropertyMap): PropertyMap {
    map p | p in props && !p.Other? :: Given(Letter(Row(p)), props[p])
  }

  ghost predicate CarriedFrom(props: PropertyMap, i: nat, m: PropertyMap) {
    && (forall p :: p in m <==> p in props && !p.Other? && Row(p) >= i)
    && (forall p | p in m :: m[p] == Given(Letter(Row(p)), props[p]))
  }

  lemma {:induction false} ZipGathered(props: PropertyMap, i: nat)
    requires i <= PROPERTY_COUNT
    ensures CarriedFrom(props, i, Zip(GatherKeys(props, i), GivenAll(GatherFormat(props, i), GatherValues(props, i))))
    decreases PROPERTY_COUNT - i
  {
    hide Letter, Given, Name, Row, CarriedFrom, Zip, GivenAll;
    if i < PROPERTY_COUNT {
      ZipGathered(props, i + 1);
      var keys, fmt, vals := GatherKeys(props, i + 1), GatherFormat(props, i + 1), GatherValues(props, i + 1);
      CarriedCons(props, i, Zip(keys, GivenAll(fmt, vals)));
      if Name(i) in props {
        ZipCons(Name(i), Letter(i), props[Name(i)], keys, fmt, vals);
      } else {
        assert GatherKeys(props, i) == keys && GatherFormat(props, i) == fmt && GatherValues(props, i) == vals;
      }
    } else {
      CarriedNone(props);
    }
  }

  lemma CarriedNone(props: PropertyMap)
    ensures CarriedFrom(props, PROPERTY_COUNT, Zip([], GivenAll("", [])))
  {
    RowsFrom(PROPERTY_COUNT);
  }

  lemma CarriedCons(props: PropertyMap, i: nat, m: PropertyMap)
    requires i < PROPERTY_COUNT && CarriedFrom(props, i + 1, m)
    ensures if Name(i) in props then CarriedFrom(props, i, map[Name(i) := Given(Letter(i), props[Name(i)])] + m)
      else CarriedFrom(props, i, m)
  {
    hide Letter, Given, Name, Row;
    RowsFrom(i);
  }

  lemma RowsFrom(i: nat)
    requires i <= PROPERTY_COUNT
    ensures forall p: Property | !p.Other? :: Row(p) < PROPERTY_COUNT
    ensures i < PROPERTY_COUNT ==> !Name(i).Other? && Row(Name(i)) == i
    ensures i < PROPERTY_COUNT ==> forall p: Property | !p.Other? :: Row(p) >= i <==> Row(p) >= i + 1 || p == Name(i)
  {
  }

  lemma ZipCons(key: Property, p: char, v: Value, keys: seq<Property>, fmt: string, vals: seq<Value>)
    requires |keys| == |fmt| == |vals|
    ensures Zip([key] + keys, GivenAll([p] + fmt, [v] + vals)) ==
      map[key := Given(p, v)] + Zip(keys, GivenAll(fmt, vals))
  {
    assert ([p] + fmt)[1..] == fmt && ([v] + vals)[1..] == vals && ([key] + keys)[1..] == keys;
    var all := GivenAll([p] + fmt, [v] + vals);
    assert all[1..] == GivenAll(fmt, vals);
  }

  // ---- the header frame's payload ----

  // The four fixed fields, then the properties.
  lemma HeaderDumped(props: PropertyMap, bodySize: int)
    ensures var rest := Dumps(GatherFormat(props, 0), GatherValues(props, 0));
      HeaderArguments(props, bodySize) ==
        if Pack(bodySize, 8).Raised? then Pack(bodySize, 8)
        else Append(Fixed(bodySize, GatherFlags(props, 0)), rest)
  {
    hide BigEndian, GatherFormat, GatherValues, GatherFlags, Dumps;
    WidthBounds();
    FlagsFit(props);
    var fmt, vals, flags := GatherFormat(props, 0), GatherValues(props, 0), GatherFlags(props, 0);
    var rest := Dumps(fmt, vals);
    DumpsLetter('B', "BLB" + fmt, Int(60), [Int(0), Int(bodySize), Int(flags)] + vals);
    DumpsLetter('B', "LB" + fmt, Int(0), [Int(bodySize), Int(flags)] + vals);
    DumpsLetter('L', "B" + fmt, Int(bodySize), [Int(flags)] + vals);
    DumpsLetter('B', fmt, Int(flags), vals);
    assert "BBLB" + fmt == ['B'] + ("BLB" + fmt);
    assert "BLB" + fmt == ['B'] + ("LB" + fmt);
    assert "LB" + fmt == ['L'] + ("B" + fmt);
    assert [Int(60), Int(0), Int(bodySize), Int(flags)] + vals ==
      [Int(60)] + ([Int(0), Int(bodySize), Int(flags)] + vals);
    assert [Int(0), Int(bodySize), Int(flags)] + vals == [Int(0)] + ([Int(bodySize), Int(flags)] + vals);
    assert [Int(bodySize), Int(flags)] + vals == [Int(bodySize)] + ([Int(flags)] + vals);
    if rest.Ok? && Pack(bodySize, 8).Ok? {
      FixedFirst(bodySize, flags, rest.value);
    }
  }

  function Fixed(bodySize: nat, flags: nat): (fixed: bytes)
    ensures |fixed| == 14
  {
    BigEndian(60, 2) + BigEndian(0, 2) + BigEndian(bodySize, 8) + BigEndian(flags, 2)
  }

  lemma FixedFirst(bodySize: nat, flags: nat, w: bytes)
    ensures BigEndian(60, 2) + (BigEndian(0, 2) + (BigEndian(bodySize, 8) + (BigEndian(flags, 2) + w))) ==
      Fixed(bodySize, flags) + w
  {
    hide BigEndian;
  }

  lemma ArgumentsLayout(props: PropertyMap, bodySize: int)
    requires HeaderArguments(props, bodySize).Ok?
    ensures 0 <= bodySize < 0x1_0000_0000_0000_0000
    ensures Dumps(GatherFormat(props, 0), GatherValues(props, 0)).Ok?
    ensures HeaderArguments(props, bodySize).value ==
      Fixed(bodySize, GatherFlags(props, 0)) + Dumps(GatherFormat(props, 0), GatherValues(props, 0)).value
  {
    hide BigEndian, GatherFormat, GatherValues, GatherFlags, HeaderArguments, Dumps, Fixed;
    WidthBounds();
    HeaderDumped(props, bodySize);
  }

  // Reading the fixed 14 bytes as '>HHQH' gives back class, weight, size and flags, and the flags
  // lead Header to exactly the properties that were sent.
  lemma PropertiesRecovered(props: PropertyMap, bodySize: int)
    requires HeaderArguments(props, bodySize).Ok?
    requires forall p | p in props :: WellFormed(props[p])
    ensures var payload := HeaderArguments(props, bodySize).value;
      && |payload| >= 14 && 0 <= bodySize
      && Unpack(payload, 0, 2) == Ok(60) && Unpack(payload, 4, 8) == Ok(bodySize as nat)
      && Unpack(payload, 12, 2) == Ok(GatherFlags(props, 0))
      && DecodeHeader(GatherFlags(props, 0), payload, 14) == Ok(Read(Carried(props), |payload|))
  {
    hide BigEndian, Unpack, GatherFormat, GatherValues, GatherFlags, GatherKeys, HeaderArguments,
      HeaderFormat, HeaderKeys, Dumps,
      Carried, Zip, GivenAll;
    var payload := HeaderArguments(props, bodySize).value;
    var flags := GatherFlags(props, 0);
    var fmt, vals := GatherFormat(props, 0), GatherValues(props, 0);
    ArgumentsLayout(props, bodySize);
    FlagsFit(props);
    var a, b, c, d := BigEndian(60, 2), BigEndian(0, 2), BigEndian(bodySize, 8), BigEndian(flags, 2);
    var w := Dumps(fmt, vals).value;
    assert payload == [] + (a + b + c + d + w) + [];
    AtSplit(payload, 0, a + b + c + d, w);
    AtSplitFour(payload, 0, a, b, c, d);
    FixedFields(payload, bodySize, flags);
    GatheredWellFormed(props, 0);
    GatheredRegular(props, 0);
    FormatRecovered(props, 0);
    LoadsGathered(props, payload);
    ZipGathered(props, 0);
    CarriedAll(props, Zip(GatherKeys(props, 0), GivenAll(fmt, vals)));
  }

  lemma FixedFields(payload: bytes, bodySize: nat, flags: nat)
    requires bodySize < 0x1_0000_0000_0000_0000 && flags < 0x1_0000
    requires At(payload, 0, BigEndian(60, 2)) && At(payload, 4, BigEndian(bodySize, 8))
    requires At(payload, 12, BigEndian(flags, 2))
    ensures Unpack(payload, 0, 2) == Ok(60) && Unpack(payload, 4, 8) == Ok(bodySize)
    ensures Unpack(payload, 12, 2) == Ok(flags)
  {
    hide BigEndian, Unpack;
    WidthBounds();
    UnpackPacked(payload, 0, 60, 2);
    UnpackPacked(payload, 4, bodySize, 8);
    UnpackPacked(payload, 12, flags, 2);
  }

  lemma LoadsGathered(props: PropertyMap, payload: bytes)
    requires AllWellFormed(GatherValues(props, 0)) && Regular(GatherFormat(props, 0), 0)
    requires Dumps(GatherFormat(props, 0), GatherValues(props, 0)).Ok?
    requires At(payload, 14, Dumps(GatherFormat(props, 0), GatherValues(props, 0)).value)
    ensures Loads(GatherFormat(props, 0), payload, 14) ==
      Ok(Read(GivenAll(GatherFormat(props, 0), GatherValues(props, 0)),
              14 + |Dumps(GatherFormat(props, 0), GatherValues(props, 0)).value|))
  {
    hide GatherFormat, GatherValues, LoadsFrom, DumpsFrom, Regular;
    LoadsUndoesDumps(GatherFormat(props, 0), GatherValues(props, 0), [], 0, payload, 14);
  }

  lemma {:induction false} GatheredWellFormed(props: PropertyMap, i: nat)
    requires i <= PROPERTY_COUNT && forall p | p in props :: WellFormed(props[p])
    ensures AllWellFormed(GatherValues(props, i))
    decreases PROPERTY_COUNT - i
  {
    hide Name, WellFormed;
    if i < PROPERTY_COUNT {
      GatheredWellFormed(props, i + 1);
    }
  }

  lemma CarriedAll(props: PropertyMap, m: PropertyMap)
    requires CarriedFrom(props, 0, m)
    ensures m == Carried(props)
  {
    hide Row, Letter, Given;
  }
}
