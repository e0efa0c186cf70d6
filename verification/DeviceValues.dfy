/** The values of the codec and the values of the device: fromPropertyValue and toPropertyValue
    (simulator/services.go). How bit patterns stand for numbers is a parameter. */
module DeviceValues {
  import opened Octets
  import opened ContextFields
  import opened ValueLists
  import opened ReadRequests
  import opened WriteRequests
  import opened PropertyCodec
  import opened Tags
  import TagScanner
  import Codec = ApplicationValues
  import Model

  /** What the 32 and 64-bit patterns mean. */
  datatype Floats = Floats(single: Uint32 -> real, bits: real -> Uint32,
                           double: (Uint32, Uint32) -> real, high: real -> Uint32, low: real -> Uint32)

  /** A Go string is a run of octets; a char stands for one. */
  function TextOf(octets: Octets): (s: string)
    ensures |s| == |octets|
  {
    if octets == [] then [] else [octets[0] as char] + TextOf(octets[1..])
  }

  function OctetsOf(s: string): (octets: Octets)
    ensures |octets| == |s|
  {
    if s == [] then [] else [s[0] as int % 0x100] + OctetsOf(s[1..])
  }

  lemma {:induction false} TextRoundTrip(octets: Octets)
    ensures OctetsOf(TextOf(octets)) == octets
  {
    if octets != [] {
      TextRoundTrip(octets[1..]);
    }
  }

  function ObjectKeyOf(o: Codec.ObjectId): (key: Model.ObjectKey)
  {
    Model.ObjectKey(o.kind, o.instance)
  }

  function IdOf(key: Model.ObjectKey): (o: Codec.ObjectId)
    ensures ObjectKeyOf(o) == key
  {
    Codec.ObjectId(key.kind, key.instance)
  }

  /** fromPropertyValue */
  function FromCodec(f: Floats, v: Codec.AppValue): (w: Model.Value)
    ensures Model.TagOf(w) == Codec.TagNumber(v)
    ensures Codec.InRange(v) ==> Encodes(w)
  {
    match v
    case Null => Model.Null
    case Boolean(flag) => Model.Boolean(flag)
    case Unsigned(n) => Model.Unsigned(n)
    case Signed(i) => Model.Signed(i)
    case Real(bits) => Model.Real(f.single(bits), false)
    case Double(high, low) => Model.Double(f.double(high, low))
    case OctetString(octets) => Model.OctetString(octets)
    case CharacterString(_, chars) => Model.CharacterString(TextOf(chars))
    case BitString(octets) => Model.BitString(octets)
    case Enumerated(n) => Model.Enumerated(n)
    case Date(year, month, day, weekday) => Model.Date(Model.Day(year, month, day, weekday))
    case Time(hour, minute, second, hundredths) => Model.Time(Model.Clock(hour, minute, second, hundredths))
    case ObjectIdentifier(id) => Model.ObjectIdentifier(ObjectKeyOf(id))
  }

  /** toPropertyValue refuses an object identifier whose instance needs more than 22 bits. */
  predicate Encodes(v: Model.Value) {
    v.ObjectIdentifier? ==> v.id.instance <= MAX_INSTANCE
  }

  /** toPropertyValue */
  function ToCodec(f: Floats, v: Model.Value): (w: Option<Codec.AppValue>)
    ensures w.Some? <==> Encodes(v)
    ensures w.Some? ==> Codec.TagNumber(w.value) == Model.TagOf(v)
  {
    match v
    case Null => Some(Codec.Null)
    case Boolean(flag) => Some(Codec.Boolean(flag))
    case Unsigned(n) => Some(Codec.Unsigned(n))
    case Signed(i) => Some(Codec.Signed(i))
    case Real(x, _) => Some(Codec.Real(f.bits(x)))
    case Double(x) => Some(Codec.Double(f.high(x), f.low(x)))
    case OctetString(octets) => Some(Codec.OctetString(octets))
    case CharacterString(text) => Some(Codec.CharacterString(0, OctetsOf(text)))
    case BitString(octets) => Some(Codec.BitString(octets))
    case Enumerated(n) => Some(Codec.Enumerated(n))
    case Date(d) => Some(Codec.Date(d.year, d.month, d.day, d.weekday))
    case Time(c) => Some(Codec.Time(c.hour, c.minute, c.second, c.hundredths))
    case ObjectIdentifier(id) => if id.instance <= MAX_INSTANCE then Some(Codec.ObjectIdentifier(IdOf(id))) else None
  }

  function FromAll(f: Floats, vs: seq<Codec.AppValue>): (ws: seq<Model.Value>)
    ensures |ws| == |vs| && forall i :: 0 <= i < |vs| ==> ws[i] == FromCodec(f, vs[i])
  {
    if vs == [] then [] else [FromCodec(f, vs[0])] + FromAll(f, vs[1..])
  }

  function ToAll(f: Floats, vs: seq<Model.Value>): (ws: Option<seq<Codec.AppValue>>)
    ensures ws.Some? <==> forall i :: 0 <= i < |vs| ==> Encodes(vs[i])
    ensures ws.Some? ==> |ws.value| == |vs| && forall i :: 0 <= i < |vs| ==> ToCodec(f, vs[i]) == Some(ws.value[i])
  {
    if vs == [] then Some([])
    else match ToCodec(f, vs[0])
      case None => None
      case Some(w) =>
        match ToAll(f, vs[1..])
        case None => None
        case Some(ws) => Some([w] + ws)
  }

  /** A pattern the device gives back for every number it was given. */
  predicate Exact(f: Floats, v: Codec.AppValue) {
    && (v.Real? ==> f.bits(f.single(v.bits)) == v.bits)
    && (v.Double? ==> f.high(f.double(v.high, v.low)) == v.high && f.low(f.double(v.high, v.low)) == v.low)
  }

  /** A value that goes through the device comes back, with plain characters. */
  lemma ThroughTheDevice(f: Floats, v: Codec.AppValue)
    requires Exact(f, v) && Codec.InRange(v)
    ensures ToCodec(f, FromCodec(f, v)) == Some(Plain(v))
  {
    if v.CharacterString? {
      TextRoundTrip(v.chars);
    }
  }

  lemma {:induction false} AllThroughTheDevice(f: Floats, vs: seq<Codec.AppValue>)
    requires forall i :: 0 <= i < |vs| ==> Exact(f, vs[i]) && Codec.InRange(vs[i])
    ensures ToAll(f, FromAll(f, vs)) == Some(PlainAll(vs))
  {
    hide FromCodec;
    hide ToCodec;
    hide Plain;
    hide Exact;
    hide Codec.InRange;
    if vs != [] {
      ThroughTheDevice(f, vs[0]);
      AllThroughTheDevice(f, vs[1..]);
    }
  }

  // ---- What decoders yield is in range -----------------------------------

  predicate AllInRange(vs: seq<Codec.AppValue>) {
    forall i :: 0 <= i < |vs| ==> Codec.InRange(vs[i])
  }

  lemma NextValueInRange(b: Octets)
    requires Codec.NextValue(b).Some?
    ensures Codec.InRange(Codec.NextValue(b).value.0)
  {
    hide DecodeTag;
    hide DecodeVarInt;
    hide BigEndian;
    hide ReverseEach;
  }

  lemma {:induction false} FlatInRange(b: Octets, limit: int)
    requires ReadFlat(b, limit).FlatValues?
    ensures AllInRange(ReadFlat(b, limit).values)
    decreases |b|
  {
    hide DecodeTag;
    hide Codec.NextValue;
    hide Codec.InRange;
    if limit > 0 {
      var n := Codec.NextValue(b).value.1;
      NextValueInRange(b);
      FlatInRange(b[n..], limit - n);
    }
  }

  lemma {:induction false} PlainInRange(vs: seq<Codec.AppValue>)
    requires AllInRange(vs)
    ensures AllInRange(PlainAll(vs))
  {
    if vs != [] {
      PlainInRange(vs[1..]);
    }
  }

  lemma {:induction false} SimValuesInRange(b: Octets)
    requires SimValues(b).Ok?
    ensures AllInRange(SimValues(b).value)
    decreases |b|
  {
    hide DecodeTag;
    hide Codec.NextValue;
    hide Codec.InRange;
    if ConstructedSize(b, 2, false) == Some(0) {
      var v, n := Codec.NextValue(b).value.0, Codec.NextValue(b).value.1;
      NextValueInRange(b);
      PlainIsInRange(v);
      SimValuesInRange(b[n..]);
    }
  }

  lemma PlainIsInRange(v: Codec.AppValue)
    requires Codec.InRange(v)
    ensures Codec.InRange(Plain(v))
  {
  }

  lemma {:induction false} SimWritesInRange(b: Octets)
    requires SimWrites(b).Ok?
    ensures forall w <- SimWrites(b).value :: AllInRange(w.values)
    decreases |b|
  {
    hide DecodeTag;
    hide SimValues;
    hide SimWrite;
    hide AllInRange;
    if ConstructedSize(b, 1, false) == Some(0) {
      SimWriteInRange(b);
      SimWritesInRange(b[SimWrite(b).size..]);
    }
  }

  lemma SimWriteInRange(b: Octets)
    requires SimWrite(b).Ok?
    ensures AllInRange(SimWrite(b).value.values)
  {
    hide DecodeTag;
    hide SimValues;
    hide AllInRange;
    hide SimReference;
    hide TryUnsigned;
    hide OpeningSize;
    var n := SimReference(b).size;
    SimValuesInRange(b[n + OpeningSize(b[n..], 2)..]);
  }

  /** Every write of a request, and every object it names, is in range. */
  lemma {:induction false} SpecsInRange(b: Octets)
    requires DecodeWriteSpecs(Simulator, b).Ok?
    ensures forall s <- DecodeWriteSpecs(Simulator, b).value ::
              Codec.ObjectIdInRange(s.object_) && forall w <- s.writes :: AllInRange(w.values)
    decreases |b|
  {
    hide ReadObjectId;
    hide OpeningSize;
    hide SimWrites;
    hide LibWrites;
    hide AllInRange;
    if b != [] {
      var n := ReadObjectId(b, 0).size;
      SimWritesInRange(b[n + OpeningSize(b[n..], 1)..]);
      SpecsInRange(b[DecodeWriteSpec(Simulator, b).size..]);
    }
  }

  lemma PropertyInRange(b: Octets, known: Option<Codec.ObjectId>)
    requires DecodeProperty(b, known).Ok?
    ensures var p := DecodeProperty(b, known).value;
            && (p.content.Values? ==> AllInRange(p.content.values))
            && (p.object_.Some? ==> p.object_ == known || Codec.ObjectIdInRange(p.object_.value))
  {
    hide DecodeTag;
    hide ReadUnsigned;
    hide ReadObjectId;
    hide OptionalUnsigned;
    hide DecodeContent;
    hide AllInRange;
    hide StartsFull;
    var n, t := if StartsFull(b) then ReadObjectId(b, 0).size else 0, if StartsFull(b) then 1 else 0;
    assert b[0..] == b;
    BodyInRange(b[n..], t);
  }

  lemma BodyInRange(b: Octets, t: Byte)
    requires t < 250 && DecodeBody(b, t).Ok?
    ensures DecodeBody(b, t).value.content.Values? ==> AllInRange(DecodeBody(b, t).value.content.values)
  {
    hide DecodeTag;
    hide ReadUnsigned;
    hide OptionalUnsigned;
    hide AllInRange;
    hide TagScanner.Find;
    hide ReadFlat;
    var n := ReadUnsigned(b, t).size;
    var k := OptionalUnsigned(b[n..], t + 1).size;
    if n + k < |b| {
      var rest := b[n + k..];
      var h := DecodeTag(rest).value;
      var v := TagScanner.Find(rest[h.size..], t + 2).value;
      if ReadFlat(rest[h.size..], v.contentEnd).FlatValues? {
        FlatInRange(rest[h.size..], v.contentEnd);
      }
    }
  }
}
