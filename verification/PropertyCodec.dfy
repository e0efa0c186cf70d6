/** types.Property (bacnet/types/property.go) and the services that carry one property:
    ReadProperty and WriteProperty, between the library and the simulator. */
module PropertyCodec {
  import opened Octets
  import opened Tags
  import opened TagScanner
  import opened ApplicationValues
  import opened ContextFields
  import opened ValueLists
  import opened ReadRequests

  datatype Property = Property(object_: Option<ObjectId>, reference: Reference, content: Content)

  datatype Body = Body(reference: Reference, content: Content)

  // ---- Encoding ----------------------------------------------------------

  /** Property id, optional index: tags `t` and `t + 1`. */
  function EncodeBare(t: Byte, r: Reference): (b: Octets)
    requires t < 250
  {
    WriteUnsigned(t, r.id) + WriteOptional(t + 1, r.index)
  }

  /** The same, then the values between opening and closing tag `t + 2`. */
  function EncodeBody(t: Byte, r: Reference, vs: seq<AppValue>): (b: Octets)
    requires t < 250
  {
    EncodeBare(t, r) + (EncodeOpening(t + 2) + (EncodeValues(vs) + EncodeClosing(t + 2)))
  }

  /** Property.MarshalBinary with an object identifier; no values, no value part. */
  function EncodeProperty(o: ObjectId, r: Reference, vs: seq<AppValue>): (b: Octets)
  {
    WriteObjectId(0, o) + if vs == [] then EncodeBare(1, r) else EncodeBody(1, r, vs)
  }

  // ---- Decoding ----------------------------------------------------------

  /** The constructed value that starts `b`. */
  function DecodeContent(b: Octets, number: Byte): (r: Parsed<Content>)
    ensures r.Ok? ==> 1 <= r.size <= |b|
    ensures !r.PriorityOutOfRange?
  {
    match DecodeTag(b)
    case None => Malformed
    case Some(h) =>
      if !h.tag.IsOpening(number) then Malformed
      else match Find(b[h.size..], number)
        case None => Malformed
        case Some(v) =>
          match ReadFlat(b[h.size..], v.contentEnd)
          case FlatValues(vs) => Ok(Values(vs), h.size + v.valueEnd)
          case Constructed => Ok(Raw(b[h.size..][..v.contentEnd]), h.size + v.valueEnd)
          case Truncated => Malformed
  }

  /** Everything after the object identifier. */
  function DecodeBody(b: Octets, t: Byte): (r: Parsed<Body>)
    requires t < 250
    ensures r.Ok? ==> 1 <= r.size <= |b|
    ensures !r.PriorityOutOfRange?
  {
    match ReadUnsigned(b, t)
    case Ok(id, n) =>
      if n < |b| && DecodeTag(b[n..]).None? then Malformed
      else (match OptionalUnsigned(b[n..], t + 1)
        case Ok(index, k) =>
          if n + k == |b| then Ok(Body(Reference(id, index), NoContent), n + k)
          else (match DecodeContent(b[n + k..], t + 2)
            case Ok(content, m) => Ok(Body(Reference(id, index), content), n + k + m)
            case _ => Malformed)
        case _ => Malformed)
    case _ => Malformed
  }

  /** The property starts with its own object identifier: context tag 0 of four octets. */
  predicate StartsFull(b: Octets) {
    AtPrimitive(b, 0) && DecodeTag(b).value.tag.len == 4
  }

  /** Property.UnmarshalBinary on a property whose object identifier was `known`. */
  function DecodeProperty(b: Octets, known: Option<ObjectId>): (r: Parsed<Property>)
    ensures r.Ok? ==> 1 <= r.size <= |b|
    ensures !r.PriorityOutOfRange?
  {
    if DecodeTag(b).None? then Malformed
    else if StartsFull(b) then
      match ReadObjectId(b, 0)
      case Ok(o, n) => (match DecodeBody(b[n..], 1)
        case Ok(body, m) => Ok(Property(Some(o), body.reference, body.content), n + m)
        case _ => Malformed)
      case _ => Malformed
    else match DecodeBody(b, 0)
      case Ok(body, m) => Ok(Property(known, body.reference, body.content), m)
      case _ => Malformed
  }

  // ---- Round trips -------------------------------------------------------

  lemma ContentRoundTrip(number: Byte, vs: seq<AppValue>, rest: Octets)
    requires AllWellFormed(vs)
    ensures var content := EncodeOpening(number) + (EncodeValues(vs) + EncodeClosing(number));
            && DecodeContent(content + rest, number) == Ok(Values(vs), |content|)
            && DecodeTag(content + rest).Some? && forall n: Byte :: !AtPrimitive(content + rest, n)
  {
    hide DecodeTag;
    hide Find;
    hide ReadFlat;
    hide AtPrimitive;
    hide EncodeOpening;
    hide EncodeClosing;
    hide EncodeValues;
    hide AllWellFormed;
    var open, list, close := EncodeOpening(number), EncodeValues(vs), EncodeClosing(number);
    var b := open + (list + close) + rest;
    assert b == open + (list + (close + rest));
    assert b[|open|..] == list + (close + rest);
    WrittenConstructed(number, list + (close + rest));
    EncodedListIsFound(vs, number, rest);
    FlatRoundTrip(vs, close + rest);
  }

  lemma BodyRoundTrip(t: Byte, r: Reference, vs: seq<AppValue>, rest: Octets)
    requires t < 250 && AllWellFormed(vs)
    ensures DecodeBody(EncodeBody(t, r, vs) + rest, t) == Ok(Body(r, Values(vs)), |EncodeBody(t, r, vs)|)
  {
    hide DecodeTag;
    hide AtPrimitive;
    hide DecodeContent;
    hide ReadUnsigned;
    hide OptionalUnsigned;
    hide WriteUnsigned;
    hide WriteOptional;
    hide AllWellFormed;
    var id, index := WriteUnsigned(t, r.id), WriteOptional(t + 1, r.index);
    var content := EncodeOpening(t + 2) + (EncodeValues(vs) + EncodeClosing(t + 2));
    var b := EncodeBody(t, r, vs) + rest;
    assert b == id + (index + (content + rest));
    ContentRoundTrip(t + 2, vs, rest);
    WrittenUnsigned(t, r.id, index + (content + rest));
    assert b[|id|..] == index + (content + rest);
    WrittenOptional(t + 1, r.index, content + rest);
    assert b[|id| + |index|..] == content + rest;
    OptionalIsTagged(t + 1, r.index, content + rest);
  }

  /** Something decodes where an optional field is followed by something that does. */
  lemma OptionalIsTagged(number: Byte, n: Option<Uint32>, rest: Octets)
    requires DecodeTag(rest).Some?
    ensures DecodeTag(WriteOptional(number, n) + rest).Some?
  {
    hide DecodeTag;
    hide EncodePrimitive;
    if n.None? {
      assert WriteOptional(number, n) + rest == rest;
    } else {
      WrittenUnsigned(number, n.value, rest);
    }
  }

  lemma BareRoundTrip(t: Byte, r: Reference)
    requires t < 250
    ensures DecodeBody(EncodeBare(t, r), t) == Ok(Body(r, NoContent), |EncodeBare(t, r)|)
  {
    hide DecodeTag;
    hide AtPrimitive;
    hide DecodeContent;
    hide ReadUnsigned;
    hide OptionalUnsigned;
    hide WriteUnsigned;
    var id, index := WriteUnsigned(t, r.id), WriteOptional(t + 1, r.index);
    var b := EncodeBare(t, r);
    WrittenUnsigned(t, r.id, index);
    assert b[|id|..] == index + [];
    NothingIsNotPrimitive(t + 1);
    WrittenOptional(t + 1, r.index, []);
    assert b == id + index && index + [] == index;
    if r.index.Some? {
      WrittenUnsigned(t + 1, r.index.value, []);
      AtPrimitiveIsTagged(index + [], t + 1);
    } else {
      assert index == [] && |id| == |b|;
    }
  }

  lemma NothingIsNotPrimitive(number: Byte)
    ensures !AtPrimitive([], number)
  {
  }

  /** A property with an object identifier decodes to itself, consuming exactly its own
      octets; without values it must be the last thing in the message. */
  lemma PropertyRoundTrip(o: ObjectId, r: Reference, vs: seq<AppValue>, rest: Octets, known: Option<ObjectId>)
    requires ObjectIdInRange(o) && AllWellFormed(vs) && (vs == [] ==> rest == [])
    ensures DecodeProperty(EncodeProperty(o, r, vs) + rest, known)
         == Ok(Property(Some(o), r, if vs == [] then NoContent else Values(vs)), |EncodeProperty(o, r, vs)|)
  {
    hide DecodeTag;
    hide AtPrimitive;
    hide DecodeBody;
    hide EncodeBody;
    hide EncodeBare;
    hide ReadObjectId;
    hide WriteObjectId;
    hide AllWellFormed;
    var head := WriteObjectId(0, o);
    var tail := if vs == [] then EncodeBare(1, r) else EncodeBody(1, r, vs);
    var b := EncodeProperty(o, r, vs) + rest;
    assert b == head + (tail + rest);
    WrittenObjectId(0, o, tail + rest);
    assert StartsFull(b) by { AtPrimitiveIsTagged(b, 0); }
    AtPrimitiveIsTagged(b, 0);
    assert b[|head|..] == tail + rest;
    if vs == [] {
      assert tail + rest == tail;
      BareRoundTrip(1, r);
    } else {
      BodyRoundTrip(1, r, vs, rest);
    }
  }

  lemma AtPrimitiveIsTagged(b: Octets, number: Byte)
    requires AtPrimitive(b, number)
    ensures DecodeTag(b).Some?
  {
  }

  // ---- ReadProperty ------------------------------------------------------

  datatype Target = Target(object_: ObjectId, reference: Reference)

  /** The simulator's decodeReadProperty */
  function SimDecodeReadProperty(b: Octets): (r: Option<Target>)
  {
    match DecodeProperty(b, None)
    case Ok(p, size) => if p.object_.None? || size != |b| then None else Some(Target(p.object_.value, p.reference))
    case _ => None
  }

  /** ReadPropertyPdu.UnmarshalBinary on an acknowledgement, which must carry values. */
  function LibDecodeReadResult(b: Octets): (r: Option<Property>)
  {
    match DecodeProperty(b, None)
    case Ok(p, _) => if p.content.Values? && p.content.values != [] then Some(p) else None
    case _ => None
  }

  /** The library's request reaches the simulator, and the simulator's result reaches the
      library, exactly when there is a value to report. */
  lemma ReadPropertyRoundTrip(o: ObjectId, r: Reference, vs: seq<AppValue>)
    requires ObjectIdInRange(o) && AllWellFormed(vs)
    ensures SimDecodeReadProperty(EncodeProperty(o, r, [])) == Some(Target(o, r))
    ensures LibDecodeReadResult(EncodeProperty(o, r, vs))
         == if vs == [] then None else Some(Property(Some(o), r, Values(vs)))
    ensures DecodeProperty(EncodeProperty(o, r, vs), None).Ok?
         && DecodeProperty(EncodeProperty(o, r, vs), None).size == |EncodeProperty(o, r, vs)|
  {
    hide DecodeProperty;
    hide EncodeProperty;
    hide WellFormed;
    assert EncodeProperty(o, r, []) + [] == EncodeProperty(o, r, []);
    assert EncodeProperty(o, r, vs) + [] == EncodeProperty(o, r, vs);
    PropertyRoundTrip(o, r, [], [], None);
    PropertyRoundTrip(o, r, vs, [], None);
  }

  // ---- WriteProperty -----------------------------------------------------

  datatype WriteRequest = WriteRequest(target: Target, values: seq<AppValue>, priority: Byte)

  /** WriteProperty.MarshalBinary, which refuses a priority beyond 16. */
  function LibEncodeWrite(w: WriteRequest): (b: Option<Octets>)
  {
    if w.priority > 16 then None
    else Some(EncodeProperty(w.target.object_, w.target.reference, w.values)
              + if w.priority == 0 then [] else WriteUnsigned(4, w.priority))
  }

  /** The simulator's decodeWriteProperty */
  function SimDecodeWrite(b: Octets): (r: Parsed<WriteRequest>)
    ensures r.Ok? ==> r.size == |b| && r.value.values != [] && r.value.priority <= 16
  {
    match DecodeProperty(b, None)
    case Ok(p, n) =>
      if p.object_.None? || !p.content.Values? || p.content.values == [] then Malformed
      else
        var target, values := Target(p.object_.value, p.reference), PlainAll(p.content.values);
        if n == |b| then Ok(WriteRequest(target, values, 0), n)
        else (match ReadUnsigned(b[n..], 4)
          case Ok(priority, k) =>
            if n + k != |b| then Malformed
            else if priority < 1 || priority > 16 then PriorityOutOfRange
            else Ok(WriteRequest(target, values, priority), n + k)
          case _ => Malformed)
    case _ => Malformed
  }

  /** A request with values the library encodes decodes in the simulator to the same object,
      property, index, values and priority; without values it is refused. */
  lemma WritePropertyRoundTrip(w: WriteRequest)
    requires ObjectIdInRange(w.target.object_) && AllWellFormed(w.values) && w.priority <= 16
    ensures var b := LibEncodeWrite(w).value;
            if w.values != [] then SimDecodeWrite(b) == Ok(w.(values := PlainAll(w.values)), |b|)
            else SimDecodeWrite(b).Malformed?
  {
    hide DecodeProperty;
    hide EncodeProperty;
    hide ReadUnsigned;
    hide WriteUnsigned;
    hide WellFormed;
    hide AtPrimitive;
    hide DecodeTag;
    var head := EncodeProperty(w.target.object_, w.target.reference, w.values);
    var tail := if w.priority == 0 then [] else WriteUnsigned(4, w.priority);
    if w.values != [] || w.priority == 0 {
      PropertyRoundTrip(w.target.object_, w.target.reference, w.values, tail, None);
    } else {
      PriorityIsNoValue(w.target.object_, w.target.reference, w.priority);
    }
    assert (head + tail)[|head|..] == tail == tail + [];
    if w.priority != 0 {
      WrittenUnsigned(4, w.priority, []);
      WrittenUnsignedIsSome(4, w.priority);
    }
  }

  /** A priority where the value should be is not a property. */
  lemma PriorityIsNoValue(o: ObjectId, r: Reference, priority: Byte)
    requires ObjectIdInRange(o)
    ensures DecodeProperty(EncodeProperty(o, r, []) + WriteUnsigned(4, priority), None).Malformed?
  {
    hide DecodeTag;
    hide AtPrimitive;
    hide ReadUnsigned;
    hide OptionalUnsigned;
    hide ReadObjectId;
    hide WriteObjectId;
    hide WriteUnsigned;
    hide WriteOptional;
    var head, id := WriteObjectId(0, o), WriteUnsigned(1, r.id);
    var index, tail := WriteOptional(2, r.index), WriteUnsigned(4, priority);
    var b := EncodeProperty(o, r, []) + tail;
    assert b == head + (id + (index + tail));
    WrittenObjectId(0, o, id + (index + tail));
    AtPrimitiveIsTagged(b, 0);
    assert b[|head|..] == id + (index + tail);
    WrittenUnsigned(1, r.id, index + tail);
    assert (id + (index + tail))[|id|..] == index + tail;
    WrittenUnsigned(4, priority, []);
    assert tail + [] == tail;
    WrittenIsPrimitive(tail, 4);
    WrittenOptional(2, r.index, tail);
    assert (id + (index + tail))[|id| + |index|..] == tail;
    PrimitiveIsNotOpening(tail, 4);
    WrittenUnsignedIsSome(4, priority);
  }

  lemma PrimitiveIsNotOpening(b: Octets, number: Byte)
    requires AtPrimitive(b, number)
    ensures forall n: Byte :: DecodeContent(b, n) == Malformed
  {
  }

  lemma WrittenUnsignedIsSome(number: Byte, n: Uint32)
    ensures WriteUnsigned(number, n) != []
  {
    hide DecodeTag;
    hide EncodePrimitive;
    WrittenUnsigned(number, n, []);
    NothingIsNotPrimitive(number);
    assert WriteUnsigned(number, n) + [] == WriteUnsigned(number, n);
  }

  // ---- The loops ---------------------------------------------------------

  /** What the value loop of UnmarshalBinary answers, `done` being read already. */
  function FlatAfter(done: seq<AppValue>, r: Flat): (f: Flat)
  {
    match r
    case FlatValues(vs) => FlatValues(done + vs)
    case _ => r
  }

  method ReadFlatLoop(b: Octets, start: nat, end: nat) returns (r: Flat)
    requires start <= |b|
    ensures r == ReadFlat(b[start..], end - start)
  {
    hide NextValue;
    hide DecodeTag;
    var values, offset := [], start;
    assert ReadFlat(b[start..], end - start) == FlatAfter([], ReadFlat(b[start..], end - start)) by {
      FlatAfterNothing(ReadFlat(b[start..], end - start));
    }
    while offset < end
      invariant start <= offset <= |b|
      invariant ReadFlat(b[start..], end - start) == FlatAfter(values, ReadFlat(b[offset..], end - offset))
      decreases |b| - offset
    {
      var rest := b[offset..];
      var header := DecodeTag(rest);
      if header.None? {
        return Truncated;
      }
      if header.value.tag.context || !header.value.tag.Primitive() {
        return Constructed;
      }
      var next := NextValue(rest);
      if next.None? {
        return Truncated;
      }
      var (v, n) := next.value;
      assert rest[n..] == b[offset + n..];
      FlatAfterStep(values, v, ReadFlat(b[offset + n..], end - (offset + n)));
      values, offset := values + [v], offset + n;
    }
    assert values + [] == values;
    return FlatValues(values);
  }

  lemma FlatAfterNothing(r: Flat)
    ensures FlatAfter([], r) == r
  {
    assert r.FlatValues? ==> [] + r.values == r.values;
  }

  lemma FlatAfterStep(done: seq<AppValue>, v: AppValue, r: Flat)
    ensures FlatAfter(done, match r case FlatValues(vs) => FlatValues([v] + vs) case other => other)
         == FlatAfter(done + [v], r)
  {
    assert r.FlatValues? ==> done + ([v] + r.values) == done + [v] + r.values;
  }

  /** The value part: bounds by the stack scan, then the values. */
  method ReadContent(b: Octets, start: nat, number: Byte) returns (r: Parsed<Content>)
    requires start <= |b|
    ensures r == DecodeContent(b[start..], number)
  {
    hide DecodeTag;
    hide Find;
    hide ReadFlat;
    var header := DecodeTag(b[start..]);
    if header.None? || !header.value.tag.IsOpening(number) {
      return Malformed;
    }
    var content := start + header.value.size;
    assert b[start..][header.value.size..] == b[content..];
    var bounds := PropertyValueBounds(b, content, number);
    if bounds.None? {
      return Malformed;
    }
    var flat := ReadFlatLoop(b, content, bounds.value.contentEnd);
    if flat.Truncated? {
      return Malformed;
    }
    var size := bounds.value.valueEnd - start;
    if flat.Constructed? {
      assert b[content..bounds.value.contentEnd] == b[content..][..bounds.value.contentEnd - content];
      return Ok(Raw(b[content..bounds.value.contentEnd]), size);
    }
    return Ok(Values(flat.values), size);
  }

  /** Property.UnmarshalBinary with its moving offset, from the property identifier on. */
  method UnmarshalBody(b: Octets, start: nat, t: Byte) returns (r: Parsed<Body>)
    requires start <= |b| && t < 250
    ensures r == DecodeBody(b[start..], t)
  {
    hide DecodeTag;
    hide ReadUnsigned;
    hide OptionalUnsigned;
    hide DecodeContent;
    var offset := start;
    var id := ReadUnsigned(b[offset..], t);
    if !id.Ok? {
      return Malformed;
    }
    assert b[start..][id.size..] == b[start + id.size..];
    offset := offset + id.size;
    if offset < |b| && DecodeTag(b[offset..]).None? {
      return Malformed;
    }
    var index := OptionalUnsigned(b[offset..], t + 1);
    if !index.Ok? {
      return Malformed;
    }
    assert b[start..][id.size + index.size..] == b[offset + index.size..];
    offset := offset + index.size;
    var reference := Reference(id.value, index.value);
    if offset == |b| {
      return Ok(Body(reference, NoContent), offset - start);
    }
    var content := ReadContent(b, offset, t + 2);
    if !content.Ok? {
      return Malformed;
    }
    return Ok(Body(reference, content.value), offset + content.size - start);
  }

  method UnmarshalProperty(b: Octets, known: Option<ObjectId>) returns (r: Parsed<Property>)
    ensures r == DecodeProperty(b, known)
  {
    hide DecodeTag;
    hide DecodeBody;
    hide ReadObjectId;
    hide StartsFull;
    if DecodeTag(b).None? {
      return Malformed;
    }
    var object_, offset, t := known, 0, 0;
    if StartsFull(b) {
      var o := ReadObjectId(b, 0);
      if !o.Ok? {
        return Malformed;
      }
      object_, offset, t := Some(o.value), o.size, 1;
    }
    assert b[0..] == b;
    var body := UnmarshalBody(b, offset, t);
    if !body.Ok? {
      return Malformed;
    }
    return Ok(Property(object_, body.value.reference, body.value.content), offset + body.size);
  }
}
