/** Application-tagged values (bacnet/types/property_value.go and the payload codecs
    beside it). Real and Double are IEEE bit patterns, which the codec never interprets. */
module ApplicationValues {
  import opened Octets
  import opened Tags

  /** A 10-bit object type and a 22-bit instance number when it is in range. */
  datatype ObjectId = ObjectId(kind: Uint16, instance: Uint32)

  datatype AppValue =
    | Null
    | Boolean(flag: bool)
    | Unsigned(n: Uint32)
    | Signed(i: Int32)
    | Real(bits: Uint32)
    | Double(high: Uint32, low: Uint32)
    | OctetString(octets: Octets)
    | CharacterString(encoding: Byte, chars: Octets)
    | BitString(bitOctets: Octets)
    | Enumerated(n: Uint32)
    | Date(year: Uint16, month: Byte, day: Byte, weekday: Byte)
    | Time(hour: Byte, minute: Byte, second: Byte, hundredths: Byte)
    | ObjectIdentifier(id: ObjectId)

  /** The 10+22-bit word; type and instance are masked to their fields. */
  function PackObjectId(o: ObjectId): (w: Uint32)
    ensures w / 0x40_0000 == o.kind % 0x400 && w % 0x40_0000 == o.instance % 0x40_0000
  {
    o.kind % 0x400 * 0x40_0000 + o.instance % 0x40_0000
  }

  function EncodeObjectId(o: ObjectId): (b: Octets)
    ensures |b| == 4
  {
    EncodeUint32(PackObjectId(o))
  }

  function DecodeObjectId(b: Octets): (o: ObjectId)
    requires |b| == 4
    ensures ObjectIdInRange(o)
  {
    var w := BigEndian(b);
    ObjectId(w / 0x40_0000, w % 0x40_0000)
  }

  predicate ObjectIdInRange(o: ObjectId) {
    o.kind <= MAX_OBJECT_TYPE && o.instance <= MAX_INSTANCE
  }

  lemma ObjectIdRoundTrip(o: ObjectId)
    ensures DecodeObjectId(EncodeObjectId(o)) == o <==> ObjectIdInRange(o)
  {
    var w := PackObjectId(o);
    EncodedUintReads(w);
    var b := EncodeObjectId(o);
    assert BigEndian(b) == w;
    FieldsFit(o);
  }

  lemma FieldsFit(o: ObjectId)
    ensures o.kind % 0x400 == o.kind && o.instance % 0x40_0000 == o.instance <==> ObjectIdInRange(o)
  {
  }

  function TagNumber(v: AppValue): (n: Byte)
    ensures n <= 12
  {
    match v
    case Null => 0
    case Boolean(_) => 1
    case Unsigned(_) => 2
    case Signed(_) => 3
    case Real(_) => 4
    case Double(_, _) => 5
    case OctetString(_) => 6
    case CharacterString(_, _) => 7
    case BitString(_) => 8
    case Enumerated(_) => 9
    case Date(_, _, _, _) => 10
    case Time(_, _, _, _) => 11
    case ObjectIdentifier(_) => 12
  }

  function Payload(v: AppValue): (b: Octets)
  {
    match v
    case Null => []
    case Boolean(_) => []
    case Unsigned(n) => EncodeVarUint(n)
    case Signed(i) => EncodeVarInt(i)
    case Real(bits) => EncodeUint32(bits)
    case Double(high, low) => EncodeUint32(high) + EncodeUint32(low)
    case OctetString(s) => s
    case CharacterString(encoding, chars) => [encoding] + chars
    case BitString(s) => [0] + ReverseEach(s)
    case Enumerated(n) => EncodeVarUint(n)
    case Date(year, month, day, weekday) => [(year - 1900) % 0x100, month, day, weekday]
    case Time(hour, minute, second, hundredths) => [hour, minute, second, hundredths]
    case ObjectIdentifier(o) => EncodeObjectId(o)
  }

  /** A Boolean has no payload: its value is the length field of its tag. */
  function LengthField(v: AppValue): (n: nat)
  {
    if v.Boolean? then (if v.flag then 1 else 0) else |Payload(v)|
  }

  function EncodeValue(v: AppValue): (b: Octets)
  {
    EncodePrimitive(false, TagNumber(v), LengthField(v)) + Payload(v)
  }

  /** The payload octets that follow the header of an application tag. */
  function PayloadSize(t: Tag): (n: nat)
  {
    if t.number <= 1 then 0 else t.len
  }

  function DecodePayload(t: Tag, b: Octets): (v: Option<AppValue>)
    requires |b| == PayloadSize(t)
  {
    match t.number
    case 0 => Some(Null)
    case 1 => Some(Boolean(t.len != 0))
    case 2 => if 1 <= |b| <= 4 then Some(Unsigned(DecodeVarUint(b))) else None
    case 3 => if 1 <= |b| <= 4 then Some(Signed(DecodeVarInt(b))) else None
    case 4 => if |b| == 4 then Some(Real(BigEndian(b))) else None
    case 5 => if |b| == 8 then Some(Double(BigEndian(b[..4]), BigEndian(b[4..]))) else None
    case 6 => Some(OctetString(b))
    case 7 => if b == [] then None else Some(CharacterString(b[0], b[1..]))
    case 8 => if b == [] || b[0] > 7 then None else Some(BitString(ReverseEach(b[1..])))
    case 9 => if 1 <= |b| <= 4 then Some(Enumerated(DecodeVarUint(b))) else None
    case 10 => if |b| == 4 then Some(Date(b[0] as int + 1900, b[1], b[2], b[3])) else None
    case 11 => if |b| == 4 then Some(Time(b[0], b[1], b[2], b[3])) else None
    case 12 => if |b| == 4 then Some(ObjectIdentifier(DecodeObjectId(b))) else None
    case _ => None
  }

  /** PropertyValue.UnmarshalBinary; octets after the value are not looked at. */
  function DecodeValue(b: Octets): (v: Option<AppValue>)
  {
    match DecodeTag(b)
    case None => None
    case Some(h) =>
      if h.tag.context || !h.tag.Primitive() || |b| - h.size < PayloadSize(h.tag) then None
      else DecodePayload(h.tag, b[h.size..h.size + PayloadSize(h.tag)])
  }

  /** One round of the loops that read a flat run of values: the value at the front of
      `b` and the octets it takes, or None where those loops give up. */
  function NextValue(b: Octets): (r: Option<(AppValue, nat)>)
    ensures r.Some? ==> 1 <= r.value.1 <= |b|
  {
    match DecodeTag(b)
    case None => None
    case Some(h) =>
      var size := h.size + PayloadSize(h.tag);
      if h.tag.context || !h.tag.Primitive() || |b| < size then None
      else match DecodeValue(b[..size])
        case None => None
        case Some(v) => Some((v, size))
  }

  /** decodePropertyResultValues: the whole of `b` as a flat run of values. */
  function DecodeValues(b: Octets): (r: Option<seq<AppValue>>)
    decreases |b|
  {
    if b == [] then Some([])
    else match NextValue(b)
      case None => None
      case Some((v, size)) => Prepended([v], DecodeValues(b[size..]))
  }

  function EncodeValues(vs: seq<AppValue>): (b: Octets)
  {
    if vs == [] then [] else EncodeValue(vs[0]) + EncodeValues(vs[1..])
  }

  /** Strings short enough for the 32-bit length field of a tag. */
  predicate Encodable(v: AppValue) {
    |Payload(v)| <= 0xFFFF_FFFF
  }

  /** The values their own encoding can express: years 1900..2155, 10+22-bit object ids. */
  predicate InRange(v: AppValue) {
    && (v.Date? ==> 1900 <= v.year <= 2155)
    && (v.ObjectIdentifier? ==> ObjectIdInRange(v.id))
  }

  predicate WellFormed(v: AppValue) {
    Encodable(v) && InRange(v)
  }

  predicate AllWellFormed(vs: seq<AppValue>) {
    forall i :: 0 <= i < |vs| ==> WellFormed(vs[i])
  }

  lemma BitStringPayload(s: Octets)
    ensures ReverseEach(ReverseEach(s)) == s
  {
    forall i | 0 <= i < |s|
      ensures ReverseEach(ReverseEach(s))[i] == s[i]
    {
      Reverse8Involution(s[i]);
    }
  }

  lemma NumberPayload(v: AppValue, t: Tag)
    requires v.Unsigned? || v.Signed? || v.Enumerated? || v.Real? || v.Double?
    requires t == Tag(TagNumber(v), LengthField(v), false, false, false)
    ensures DecodePayload(t, Payload(v)) == Some(v)
  {
    if v.Signed? {
      VarIntRoundTrip(v.i);
    } else if v.Real? {
      EncodedUintReads(v.bits);
    } else if v.Double? {
      EncodedUintReads(v.high);
      EncodedUintReads(v.low);
    } else {
      VarUintRoundTrip(v.n);
    }
  }

  lemma StringPayload(v: AppValue, t: Tag)
    requires Encodable(v)
    requires v.OctetString? || v.CharacterString? || v.BitString?
    requires t == Tag(TagNumber(v), LengthField(v), false, false, false)
    ensures DecodePayload(t, Payload(v)) == Some(v)
  {
    if v.CharacterString? {
      assert Payload(v)[1..] == v.chars;
    } else if v.BitString? {
      BitStringPayload(v.bitOctets);
      assert Payload(v)[1..] == ReverseEach(v.bitOctets);
    }
  }

  lemma PayloadRoundTrip(v: AppValue)
    requires Encodable(v)
    ensures DecodePayload(Tag(TagNumber(v), LengthField(v), false, false, false), Payload(v)) == Some(v) <==> InRange(v)
  {
    var t := Tag(TagNumber(v), LengthField(v), false, false, false);
    if v.Unsigned? || v.Signed? || v.Enumerated? || v.Real? || v.Double? {
      NumberPayload(v, t);
    } else if v.OctetString? || v.CharacterString? || v.BitString? {
      StringPayload(v, t);
    } else if v.ObjectIdentifier? {
      ObjectIdRoundTrip(v.id);
    }
  }

  /** Whatever follows it, an encoded value is read back with exactly its own octets,
      and the value read is the one encoded exactly when that value is in range. */
  lemma ValueRoundTrip(v: AppValue, rest: Octets)
    requires Encodable(v)
    ensures NextValue(EncodeValue(v) + rest) == Some((v, |EncodeValue(v)|)) <==> InRange(v)
  {
    hide DecodeTag;
    hide EncodePrimitive;
    hide Payload;
    hide DecodePayload;
    var head := EncodePrimitive(false, TagNumber(v), LengthField(v));
    var b := EncodeValue(v) + rest;
    SizesMatch(v);
    var size := |EncodeValue(v)|;
    var t := Tag(TagNumber(v), LengthField(v), false, false, false);
    assert b == head + (Payload(v) + rest);
    PrimitiveHeaderRoundTrip(false, TagNumber(v), LengthField(v), Payload(v) + rest);
    PrimitiveHeaderRoundTrip(false, TagNumber(v), LengthField(v), Payload(v));
    assert b[..size] == head + Payload(v);
    assert (head + Payload(v))[|head|..size] == Payload(v);
    PayloadRoundTrip(v);
  }

  lemma EncodedValueHeader(v: AppValue, rest: Octets)
    requires Encodable(v)
    ensures DecodeTag(EncodeValue(v) + rest).Some?
    ensures var h := DecodeTag(EncodeValue(v) + rest).value;
            && h.tag == Tag(TagNumber(v), LengthField(v), false, false, false)
            && h.size + PayloadSize(h.tag) == |EncodeValue(v)|
  {
    hide DecodeTag;
    hide EncodePrimitive;
    hide Payload;
    var head := EncodePrimitive(false, TagNumber(v), LengthField(v));
    assert EncodeValue(v) + rest == head + (Payload(v) + rest);
    PrimitiveHeaderRoundTrip(false, TagNumber(v), LengthField(v), Payload(v) + rest);
    SizesMatch(v);
  }

  lemma SizesMatch(v: AppValue)
    ensures |Payload(v)| == if TagNumber(v) <= 1 then 0 else LengthField(v)
  {
  }

  lemma NextValueHeader(b: Octets)
    requires NextValue(b).Some?
    ensures DecodeTag(b).Some?
    ensures var h := DecodeTag(b).value;
            !h.tag.context && h.tag.Primitive() && NextValue(b).value.1 == h.size + PayloadSize(h.tag)
  {
    hide DecodeTag;
    hide DecodeValue;
  }

  /** Reading the value at the front looks at no octet past it. */
  lemma NextValueIsPrefix(b: Octets, c: Octets)
    requires NextValue(b).Some?
    requires NextValue(b).value.1 <= |c| && c[..NextValue(b).value.1] == b[..NextValue(b).value.1]
    ensures NextValue(c) == NextValue(b)
  {
    hide DecodeTag;
    hide DecodePayload;
    var size := DecodeTag(b).value.size;
    assert c[..size] == c[..NextValue(b).value.1][..size];
    assert b[..size] == b[..NextValue(b).value.1][..size];
    HeaderIsPrefix(b, c);
  }

  /** Value lists are uniquely decodable: the encoding of a list is read back as that list. */
  lemma {:induction false} ValuesRoundTrip(vs: seq<AppValue>)
    requires AllWellFormed(vs)
    ensures DecodeValues(EncodeValues(vs)) == Some(vs)
  {
    if vs != [] {
      ValueRoundTrip(vs[0], EncodeValues(vs[1..]));
      ValuesRoundTrip(vs[1..]);
      var b := EncodeValues(vs);
      assert b[|EncodeValue(vs[0])|..] == EncodeValues(vs[1..]);
      assert [vs[0]] + vs[1..] == vs;
      assert b != [];
    }
  }

  lemma EncodedListsDiffer(vs: seq<AppValue>, ws: seq<AppValue>)
    requires AllWellFormed(vs) && AllWellFormed(ws) && EncodeValues(vs) == EncodeValues(ws)
    ensures vs == ws
  {
    ValuesRoundTrip(vs);
    ValuesRoundTrip(ws);
  }

  /** The loop of decodePropertyResultValues. */
  method ReadValues(b: Octets) returns (r: Option<seq<AppValue>>)
    ensures r == DecodeValues(b)
  {
    hide NextValue;
    var values, offset := [], 0;
    assert b[0..] == b;
    PrependedStep(values, Null, DecodeValues(b));
    while offset < |b|
      invariant 0 <= offset <= |b|
      invariant DecodeValues(b) == Prepended(values, DecodeValues(b[offset..]))
    {
      var next := NextValue(b[offset..]);
      if next.None? {
        return None;
      }
      assert b[offset..][next.value.1..] == b[offset + next.value.1..];
      PrependedStep(values, next.value.0, DecodeValues(b[offset + next.value.1..]));
      values := values + [next.value.0];
      offset := offset + next.value.1;
    }
    assert b[offset..] == [] && values + [] == values;
    return Some(values);
  }
}
