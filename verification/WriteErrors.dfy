/** WritePropertyMultiple-Error (bacnet/pdu/write_property_multiple.go): the error of the
    first failed write and the property it names. */
module WriteErrors {
  import opened Octets
  import opened Tags
  import opened ApplicationValues
  import opened ContextFields
  import opened ReadRequests
  import opened ReadResults

  datatype WriteError = WriteError(class_: Uint32, code: Uint32, object_: ObjectId, reference: Reference)

  function EncodeFailed(o: ObjectId, r: Reference): (b: Octets)
  {
    WriteObjectId(0, o) + (WriteUnsigned(1, r.id) + WriteOptional(2, r.index))
  }

  function EncodeWriteError(e: WriteError): (b: Octets)
  {
    Between(0, ErrorValues(e.class_, e.code))
    + (EncodeOpening(1) + (EncodeFailed(e.object_, e.reference) + EncodeClosing(1)))
  }

  datatype ErrorType = ErrorType(class_: Uint32, code: Uint32)

  function ReadClosing(b: Octets, number: Byte): (n: nat)
    ensures n <= |b|
  {
    match DecodeTag(b)
    case Some(h) => if h.tag.IsClosing(number) then h.size else 0
    case None => 0
  }

  function ReadOpening(b: Octets, number: Byte): (n: nat)
    ensures n <= |b|
  {
    match DecodeTag(b)
    case Some(h) => if h.tag.IsOpening(number) then h.size else 0
    case None => 0
  }

  /** errorType: class and code between opening and closing tag [0]. */
  function DecodeErrorType(b: Octets): (r: Parsed<ErrorType>)
    ensures r.Ok? ==> r.size <= |b|
  {
    var open := ReadOpening(b, 0);
    if open == 0 then Malformed
    else match NextEnumerated(b[open..])
      case Ok(class_, m) =>
        (match NextEnumerated(b[open + m..])
         case Ok(code, n) =>
           var close := ReadClosing(b[open + m + n..], 0);
           if close == 0 then Malformed else Ok(ErrorType(class_, code), open + m + n + close)
         case _ => Malformed)
      case _ => Malformed
  }

  datatype Attempt = Attempt(object_: ObjectId, reference: Reference)

  /** firstFailedWriteAttempt, up to and with the closing tag [1]. */
  function DecodeFailed(b: Octets): (r: Parsed<Attempt>)
    ensures r.Ok? ==> r.size <= |b|
  {
    match ReadObjectId(b, 0)
    case Ok(o, i) =>
      (match ReadUnsigned(b[i..], 1)
       case Ok(id, j) =>
         (match OptionalUnsigned(b[i + j..], 2)
          case Ok(index, k) =>
            var close := ReadClosing(b[i + j + k..], 1);
            if close == 0 then Malformed else Ok(Attempt(o, Reference(id, index)), i + j + k + close)
          case _ => Malformed)
       case _ => Malformed)
    case _ => Malformed
  }

  function DecodeWriteError(b: Octets): (r: Option<WriteError>)
  {
    match DecodeErrorType(b)
    case Ok(t, n) =>
      var open := ReadOpening(b[n..], 1);
      if open == 0 then None
      else (match DecodeFailed(b[n + open..])
        case Ok(f, m) =>
          if n + open + m == |b| then Some(WriteError(t.class_, t.code, f.object_, f.reference)) else None
        case _ => None)
    case _ => None
  }

  lemma ErrorTypeRoundTrip(class_: Uint32, code: Uint32, rest: Octets)
    ensures var b := Between(0, ErrorValues(class_, code));
            DecodeErrorType(b + rest) == Ok(ErrorType(class_, code), |b|)
  {
    hide DecodeTag;
    hide EncodeOpening;
    hide EncodeClosing;
    hide EncodeValue;
    hide NextEnumerated;
    hide AtPrimitive;
    hide ConstructedSize;
    var open, close := EncodeOpening(0), EncodeClosing(0);
    var first, second := EncodeValue(Enumerated(class_)), EncodeValue(Enumerated(code));
    ErrorLayout(class_, code);
    var b := Between(0, ErrorValues(class_, code)) + rest;
    var inner := first + (second + (close + rest));
    assert b == open + inner && b[|open|..] == inner;
    WrittenConstructed(0, inner);
    EnumeratedRoundTrip(class_, second + (close + rest));
    assert b[|open| + |first|..] == second + (close + rest);
    EnumeratedRoundTrip(code, close + rest);
    assert b[|open| + |first| + |second|..] == close + rest;
    WrittenConstructed(0, rest);
  }

  lemma FailedRoundTrip(o: ObjectId, r: Reference, rest: Octets)
    requires ObjectIdInRange(o)
    ensures DecodeFailed(EncodeFailed(o, r) + (EncodeClosing(1) + rest))
         == Ok(Attempt(o, r), |EncodeFailed(o, r)| + |EncodeClosing(1)|)
  {
    hide DecodeTag;
    hide AtPrimitive;
    hide ConstructedSize;
    hide ReadObjectId;
    hide ReadUnsigned;
    hide OptionalUnsigned;
    hide WriteObjectId;
    hide WriteUnsigned;
    hide WriteOptional;
    hide EncodeClosing;
    var object_, id := WriteObjectId(0, o), WriteUnsigned(1, r.id);
    var index, close := WriteOptional(2, r.index), EncodeClosing(1);
    var b := EncodeFailed(o, r) + (close + rest);
    assert b == object_ + (id + (index + (close + rest)));
    WrittenConstructed(1, rest);
    WrittenObjectId(0, o, id + (index + (close + rest)));
    assert b[|object_|..] == id + (index + (close + rest));
    WrittenUnsigned(1, r.id, index + (close + rest));
    assert b[|object_| + |id|..] == index + (close + rest);
    WrittenOptional(2, r.index, close + rest);
    assert b[|object_| + |id| + |index|..] == close + rest;
  }

  /** The client learns the error, the object, the property and the index of the first
      failed write. */
  lemma WriteErrorRoundTrip(e: WriteError)
    requires ObjectIdInRange(e.object_)
    ensures DecodeWriteError(EncodeWriteError(e)) == Some(e)
  {
    hide DecodeTag;
    hide AtPrimitive;
    hide ConstructedSize;
    hide DecodeErrorType;
    hide DecodeFailed;
    hide Between;
    hide EncodeFailed;
    hide EncodeOpening;
    hide EncodeClosing;
    var head, open := Between(0, ErrorValues(e.class_, e.code)), EncodeOpening(1);
    var inner, close := EncodeFailed(e.object_, e.reference), EncodeClosing(1);
    var b := EncodeWriteError(e);
    ErrorTypeRoundTrip(e.class_, e.code, open + (inner + close));
    assert b[|head|..] == open + (inner + close);
    WrittenConstructed(1, inner + close);
    assert b[|head| + |open|..] == inner + (close + []);
    FailedRoundTrip(e.object_, e.reference, []);
  }
}
