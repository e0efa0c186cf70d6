/** ReadPropertyMultiple requests: the library codec (bacnet/pdu/read_property_multiple.go)
    and the simulator's own decoder (simulator/services.go). */
module ReadRequests {
  import opened Octets
  import opened Tags
  import opened ApplicationValues
  import opened ContextFields

  datatype Reference = Reference(id: Uint32, index: Option<Uint32>)
  datatype ReadSpec = ReadSpec(object_: ObjectId, references: seq<Reference>)

  // ---- The simulator's decoder -------------------------------------------

  /** One reference: an identifier and an index that is ignored when unreadable. */
  function SimReference(b: Octets): (r: Parsed<Reference>)
    ensures r.Ok? ==> 1 <= r.size <= |b|
    ensures !r.PriorityOutOfRange?
  {
    match ReadUnsigned(b, 0)
    case Ok(id, n) =>
      var index := TryUnsigned(b[n..], 1);
      Ok(Reference(id, index.value), n + index.size)
    case _ => Malformed
  }

  /** The references up to the closing tag of the list. */
  function SimReferences(b: Octets): (r: Parsed<seq<Reference>>)
    ensures r.Ok? ==> 1 <= r.size <= |b|
    decreases |b|
  {
    match ConstructedSize(b, 1, false)
    case None => Malformed
    case Some(closing) =>
      if closing > 0 then Ok([], closing)
      else match SimReference(b)
        case Ok(reference, n) => After([reference], n, SimReferences(b[n..]))
        case _ => Malformed
  }

  // ---- The library's decoder ---------------------------------------------

  /** An index that is there but unreadable is an error here. */
  function LibReference(b: Octets): (r: Parsed<Reference>)
    ensures r.Ok? ==> 1 <= r.size <= |b|
    ensures !r.PriorityOutOfRange?
  {
    match ReadUnsigned(b, 0)
    case Ok(id, n) => (match OptionalUnsigned(b[n..], 1)
      case Ok(index, m) => Ok(Reference(id, index), n + m)
      case _ => Malformed)
    case _ => Malformed
  }

  function LibReferences(b: Octets): (r: Parsed<seq<Reference>>)
    ensures r.Ok? ==> 1 <= r.size <= |b|
    decreases |b|
  {
    match DecodeTag(b)
    case None => Malformed
    case Some(h) =>
      if h.tag.IsClosing(1) then Ok([], h.size)
      else match LibReference(b)
        case Ok(reference, n) => After([reference], n, LibReferences(b[n..]))
        case _ => Malformed
  }

  // ---- Specifications and requests, the same around either list reader ----

  datatype Decoder = Simulator | Library

  function References(d: Decoder, b: Octets): (r: Parsed<seq<Reference>>)
    ensures r.Ok? ==> 1 <= r.size <= |b|
  {
    if d.Simulator? then SimReferences(b) else LibReferences(b)
  }

  /** decodeReadAccessSpec, and the body of the simulator's outer loop. */
  function DecodeSpec(d: Decoder, b: Octets): (r: Parsed<ReadSpec>)
    ensures r.Ok? ==> 1 <= r.size <= |b|
  {
    match ReadObjectId(b, 0)
    case Ok(object_, n) =>
      var opening := OpeningSize(b[n..], 1);
      if opening == 0 then Malformed
      else (match References(d, b[n + opening..])
        case Ok(references, m) =>
          if references == [] then Malformed else Ok(ReadSpec(object_, references), n + opening + m)
        case _ => Malformed)
    case _ => Malformed
  }

  function DecodeSpecs(d: Decoder, b: Octets): (r: Parsed<seq<ReadSpec>>)
    decreases |b|
  {
    if b == [] then Ok([], 0)
    else match DecodeSpec(d, b)
      case Ok(spec, n) => After([spec], n, DecodeSpecs(d, b[n..]))
      case _ => Malformed
  }

  /** The whole request; a request with no specification is refused. */
  function DecodeRequest(d: Decoder, b: Octets): (r: Option<seq<ReadSpec>>)
  {
    match DecodeSpecs(d, b)
    case Ok(specs, _) => if specs == [] then None else Some(specs)
    case _ => None
  }

  // ---- Agreement on all octet strings ------------------------------------

  /** Both readers stop or go on together: an unreadable index stops the library at once
      and the simulator at the property identifier it then expects. */
  lemma {:induction false} ReferencesAgree(b: Octets)
    ensures SimReferences(b) == LibReferences(b)
    decreases |b|
  {
    hide DecodeTag;
    hide ReadUnsigned;
    hide OptionalUnsigned;
    hide TryUnsigned;
    if DecodeTag(b).Some? && !DecodeTag(b).value.tag.IsClosing(1) {
      match ReadUnsigned(b, 0)
      case Ok(id, n) =>
        var rest := b[n..];
        if OptionalUnsigned(rest, 1).Ok? {
          TryIsOptional(rest, 1);
          ReferencesAgree(b[SimReference(b).size..]);
        } else {
          UnreadableIndex(rest);
        }
      case _ =>
    }
  }

  lemma TryIsOptional(b: Octets, number: Byte)
    requires OptionalUnsigned(b, number).Ok?
    ensures TryUnsigned(b, number) == OptionalUnsigned(b, number)
  {
    hide DecodeTag;
  }

  lemma {:induction false} UnreadableIndex(rest: Octets)
    requires !OptionalUnsigned(rest, 1).Ok?
    ensures TryUnsigned(rest, 1) == Ok(None, 0)
    ensures SimReferences(rest) == Malformed
  {
    hide DecodeTag;
    WrittenIsPrimitive(rest, 1);
    assert ReadUnsigned(rest, 0).Malformed?;
  }

  lemma {:induction false} SpecsAgree(b: Octets)
    ensures DecodeSpecs(Simulator, b) == DecodeSpecs(Library, b)
    decreases |b|
  {
    hide SimReferences;
    hide LibReferences;
    hide ReadObjectId;
    hide OpeningSize;
    if b != [] {
      if ReadObjectId(b, 0).Ok? {
        ReferencesAgree(b[ReadObjectId(b, 0).size + OpeningSize(b[ReadObjectId(b, 0).size..], 1)..]);
      }
      if DecodeSpec(Simulator, b).Ok? {
        SpecsAgree(b[DecodeSpec(Simulator, b).size..]);
      }
    }
  }

  /** The simulator and the library accept the same requests with the same content. */
  lemma DecodersAgree(b: Octets)
    ensures DecodeRequest(Simulator, b) == DecodeRequest(Library, b)
  {
    SpecsAgree(b);
  }

  // ---- Encoder and round trip --------------------------------------------

  function EncodeReference(r: Reference): (b: Octets)
  {
    WriteUnsigned(0, r.id) + WriteOptional(1, r.index)
  }

  function EncodeReferences(rs: seq<Reference>): (b: Octets)
  {
    if rs == [] then [] else EncodeReference(rs[0]) + EncodeReferences(rs[1..])
  }

  function EncodeSpec(s: ReadSpec): (b: Octets)
  {
    WriteObjectId(0, s.object_) + (EncodeOpening(1) + (EncodeReferences(s.references) + EncodeClosing(1)))
  }

  function EncodeRequest(specs: seq<ReadSpec>): (b: Octets)
  {
    if specs == [] then [] else EncodeSpec(specs[0]) + EncodeRequest(specs[1..])
  }

  predicate ValidSpec(s: ReadSpec) {
    ObjectIdInRange(s.object_) && s.references != []
  }

  lemma {:induction false} ReferencesRoundTrip(rs: seq<Reference>, rest: Octets)
    ensures SimReferences(EncodeReferences(rs) + (EncodeClosing(1) + rest))
         == Ok(rs, |EncodeReferences(rs)| + |EncodeClosing(1)|)
    ensures !AtPrimitive(EncodeReferences(rs) + (EncodeClosing(1) + rest), 1)
    decreases |rs|
  {
    hide AtPrimitive;
    hide ConstructedSize;
    hide SimReference;
    hide EncodeReference;
    hide EncodeClosing;
    var b := EncodeReferences(rs) + (EncodeClosing(1) + rest);
    if rs == [] {
      assert b == EncodeClosing(1) + rest;
      WrittenConstructed(1, rest);
    } else {
      var tail := EncodeReferences(rs[1..]) + (EncodeClosing(1) + rest);
      ReferencesRoundTrip(rs[1..], rest);
      ReferenceRoundTrip(rs[0], tail);
      assert b == EncodeReference(rs[0]) + tail;
      assert b[|EncodeReference(rs[0])|..] == tail;
      assert [rs[0]] + rs[1..] == rs;
    }
  }

  lemma ReferenceRoundTrip(r: Reference, tail: Octets)
    requires !AtPrimitive(tail, 1)
    ensures var b := EncodeReference(r) + tail;
            && SimReference(b) == Ok(r, |EncodeReference(r)|)
            && ConstructedSize(b, 1, false) == Some(0)
            && !AtPrimitive(b, 1)
  {
    hide DecodeTag;
    hide EncodePrimitive;
    var b := EncodeReference(r) + tail;
    var head, index := WriteUnsigned(0, r.id), WriteOptional(1, r.index);
    assert b == head + (index + tail);
    WrittenUnsigned(0, r.id, index + tail);
    WrittenOptional(1, r.index, tail);
    assert b[|head|..] == index + tail;
    WrittenIsPrimitive(b, 0);
  }

  lemma SpecRoundTrip(s: ReadSpec, rest: Octets)
    requires ValidSpec(s)
    ensures DecodeSpec(Simulator, EncodeSpec(s) + rest) == Ok(s, |EncodeSpec(s)|)
  {
    hide DecodeTag;
    hide AtPrimitive;
    hide LibReferences;
    hide ReadObjectId;
    hide WriteObjectId;
    hide ConstructedSize;
    hide EncodeOpening;
    hide EncodeClosing;
    hide SimReferences;
    hide EncodeReferences;
    var head, open, close := WriteObjectId(0, s.object_), EncodeOpening(1), EncodeClosing(1);
    var list := EncodeReferences(s.references);
    ListLayout(head, open, list, close, rest);
    WrittenObjectId(0, s.object_, open + (list + (close + rest)));
    WrittenConstructed(1, list + (close + rest));
    ReferencesRoundTrip(s.references, rest);
  }

  /** Every request the library can encode is read back whole by both decoders. */
  lemma RequestRoundTrip(specs: seq<ReadSpec>)
    requires forall s <- specs :: ValidSpec(s)
    ensures DecodeSpecs(Simulator, EncodeRequest(specs)) == Ok(specs, |EncodeRequest(specs)|)
    ensures specs != [] ==> DecodeRequest(Simulator, EncodeRequest(specs)) == Some(specs)
    ensures specs != [] ==> DecodeRequest(Library, EncodeRequest(specs)) == Some(specs)
  {
    hide DecodeSpecs;
    hide EncodeRequest;
    SpecsRoundTrip(specs);
    DecodersAgree(EncodeRequest(specs));
  }

  lemma {:induction false} SpecsRoundTrip(specs: seq<ReadSpec>)
    requires forall s <- specs :: ValidSpec(s)
    ensures DecodeSpecs(Simulator, EncodeRequest(specs)) == Ok(specs, |EncodeRequest(specs)|)
    decreases |specs|
  {
    hide DecodeSpec;
    hide EncodeSpec;
    if specs != [] {
      var tail := EncodeRequest(specs[1..]);
      SpecRoundTrip(specs[0], tail);
      SpecsRoundTrip(specs[1..]);
      var b, n := EncodeRequest(specs), |EncodeSpec(specs[0])|;
      assert b[n..] == tail;
      assert DecodeSpecs(Simulator, b) == After([specs[0]], n, DecodeSpecs(Simulator, tail));
      assert [specs[0]] + specs[1..] == specs;
    }
  }

  // ---- The loops ---------------------------------------------------------

  /** The inner loop of the simulator's decodeReadPropertyMultiple. */
  method SimReadReferences(b: Octets, start: nat) returns (r: Parsed<seq<Reference>>)
    requires start <= |b|
    ensures r == SimReferences(b[start..])
  {
    hide SimReference;
    hide ConstructedSize;
    var references, offset := [], start;
    AfterStep(references, 0, Reference(0, None), 0, SimReferences(b[start..]));
    while true
      invariant start <= offset <= |b|
      invariant SimReferences(b[start..]) == After(references, offset - start, SimReferences(b[offset..]))
      decreases |b| - offset
    {
      var closing := ConstructedSize(b[offset..], 1, false);
      if closing.None? {
        return Malformed;
      }
      if closing.value > 0 {
        assert references + [] == references;
        return Ok(references, offset + closing.value - start);
      }
      var next := SimReference(b[offset..]);
      if !next.Ok? {
        return Malformed;
      }
      assert b[offset..][next.size..] == b[offset + next.size..];
      AfterStep(references, offset - start, next.value, next.size, SimReferences(b[offset + next.size..]));
      references, offset := references + [next.value], offset + next.size;
    }
  }

  /** decodeReadPropertyMultiple */
  method SimDecodeRequest(b: Octets) returns (r: Option<seq<ReadSpec>>)
    ensures r == DecodeRequest(Simulator, b)
  {
    hide SimReferences;
    hide ReadObjectId;
    hide OpeningSize;
    var specs, offset := [], 0;
    assert b[0..] == b;
    AfterStep(specs, 0, ReadSpec(ObjectId(0, 0), []), 0, DecodeSpecs(Simulator, b));
    while offset < |b|
      invariant 0 <= offset <= |b|
      invariant DecodeSpecs(Simulator, b) == After(specs, offset, DecodeSpecs(Simulator, b[offset..]))
    {
      var rest := b[offset..];
      var object_ := ReadObjectId(rest, 0);
      if !object_.Ok? {
        return None;
      }
      var opening := OpeningSize(rest[object_.size..], 1);
      if opening == 0 {
        return None;
      }
      var start := object_.size + opening;
      var references := SimReadReferences(rest, start);
      if !references.Ok? || references.value == [] {
        return None;
      }
      var spec, size := ReadSpec(object_.value, references.value), start + references.size;
      assert DecodeSpec(Simulator, rest) == Ok(spec, size);
      assert rest[size..] == b[offset + size..];
      AfterStep(specs, offset, spec, size, DecodeSpecs(Simulator, b[offset + size..]));
      specs, offset := specs + [spec], offset + size;
    }
    assert b[offset..] == [] && specs + [] == specs;
    if specs == [] {
      return None;
    }
    return Some(specs);
  }

  /** ReadAccessSpec.MarshalBinary: a buffer that grows, nothing for an empty list. */
  method LibEncodeSpec(s: ReadSpec) returns (r: Option<Octets>)
    ensures r == if s.references == [] then None else Some(EncodeSpec(s))
  {
    hide EncodeReference;
    hide EncodeClosing;
    hide WriteObjectId;
    if s.references == [] {
      return None;
    }
    var buffer := WriteObjectId(0, s.object_) + EncodeOpening(1);
    ghost var head := buffer;
    for i := 0 to |s.references|
      invariant head + EncodeReferences(s.references) == buffer + EncodeReferences(s.references[i..])
    {
      assert s.references[i..][1..] == s.references[i + 1..];
      buffer := buffer + EncodeReference(s.references[i]);
    }
    ghost var list := EncodeReferences(s.references);
    assert buffer == head + list;
    assert EncodeSpec(s) == head + list + EncodeClosing(1);
    return Some(buffer + EncodeClosing(1));
  }

  /** ReadPropertyMultiplePdu.MarshalBinary */
  method LibEncodeRequest(specs: seq<ReadSpec>) returns (r: Option<Octets>)
    ensures r == if specs == [] || exists s <- specs :: s.references == [] then None
                 else Some(EncodeRequest(specs))
  {
    hide EncodeSpec;
    if specs == [] {
      return None;
    }
    var buffer := [];
    for i := 0 to |specs|
      invariant forall k :: 0 <= k < i ==> specs[k].references != []
      invariant EncodeRequest(specs) == buffer + EncodeRequest(specs[i..])
    {
      var encoded := LibEncodeSpec(specs[i]);
      if encoded.None? {
        return None;
      }
      assert specs[i..][1..] == specs[i + 1..];
      buffer := buffer + encoded.value;
    }
    assert buffer == EncodeRequest(specs);
    return Some(buffer);
  }
}
