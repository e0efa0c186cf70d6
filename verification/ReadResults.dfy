/** ReadPropertyMultiple acknowledgements, from the simulator (simulator/services.go) to the
    library (bacnet/pdu/read_property_multiple.go). */
module ReadResults {
  import opened Octets
  import opened Tags
  import opened TagScanner
  import opened ApplicationValues
  import opened ContextFields
  import opened ValueLists
  import opened ReadRequests
  import opened WriteRequests

  datatype Answer = Answered(values: seq<AppValue>) | Failed(class_: Uint32, code: Uint32)
  datatype PropertyResult = PropertyResult(reference: Reference, answer: Answer)
  datatype AccessResult = AccessResult(object_: ObjectId, results: seq<PropertyResult>)

  /** The simulator reports an error exactly when its code is not zero. */
  predicate ValidResult(r: PropertyResult) {
    match r.answer
    case Answered(vs) => AllWellFormed(vs)
    case Failed(_, code) => code != 0
  }

  predicate ValidAccess(a: AccessResult) {
    ObjectIdInRange(a.object_) && a.results != [] && forall r <- a.results :: ValidResult(r)
  }

  // ---- The simulator's encoder -------------------------------------------

  function ErrorValues(class_: Uint32, code: Uint32): (vs: seq<AppValue>)
  {
    [Enumerated(class_), Enumerated(code)]
  }

  function Between(number: Byte, vs: seq<AppValue>): (b: Octets)
  {
    EncodeOpening(number) + (EncodeValues(vs) + EncodeClosing(number))
  }

  function EncodeAnswer(a: Answer): (b: Octets)
  {
    match a
    case Answered(vs) => Between(4, vs)
    case Failed(class_, code) => Between(5, ErrorValues(class_, code))
  }

  function EncodeResult(r: PropertyResult): (b: Octets)
  {
    WriteUnsigned(2, r.reference.id) + (WriteOptional(3, r.reference.index) + EncodeAnswer(r.answer))
  }

  function EncodeResults(rs: seq<PropertyResult>): (b: Octets)
  {
    if rs == [] then [] else EncodeResult(rs[0]) + EncodeResults(rs[1..])
  }

  function EncodeAccess(a: AccessResult): (b: Octets)
  {
    WriteObjectId(0, a.object_) + (EncodeOpening(1) + (EncodeResults(a.results) + EncodeClosing(1)))
  }

  function EncodeAck(as_: seq<AccessResult>): (b: Octets)
  {
    if as_ == [] then [] else EncodeAccess(as_[0]) + EncodeAck(as_[1..])
  }

  // ---- The library's decoder ---------------------------------------------

  function NextEnumerated(b: Octets): (r: Parsed<Uint32>)
    ensures r.Ok? ==> 1 <= r.size <= |b|
  {
    match NextValue(b)
    case Some((v, n)) => if v.Enumerated? then Ok(v.n, n) else Malformed
    case None => Malformed
  }

  /** Error class, error code and the closing tag [5]. */
  function DecodeFailure(b: Octets): (r: Parsed<Answer>)
    ensures r.Ok? ==> r.size <= |b|
  {
    match NextEnumerated(b)
    case Ok(class_, m) =>
      (match NextEnumerated(b[m..])
       case Ok(code, n) =>
         (match DecodeTag(b[m + n..])
          case Some(h) => if h.tag.IsClosing(5) then Ok(Failed(class_, code), m + n + h.size) else Malformed
          case None => Malformed)
       case _ => Malformed)
    case _ => Malformed
  }

  function DecodeAnswered(b: Octets): (r: Parsed<Answer>)
    ensures r.Ok? ==> r.size <= |b|
  {
    match Find(b, 4)
    case None => Malformed
    case Some(v) =>
      match DecodeValues(b[..v.contentEnd])
      case None => Malformed
      case Some(vs) => Ok(Answered(vs), v.valueEnd)
  }

  function DecodeAnswer(b: Octets): (r: Parsed<Answer>)
    ensures r.Ok? ==> 1 <= r.size <= |b|
  {
    match DecodeTag(b)
    case None => Malformed
    case Some(h) =>
      var inner := if h.tag.IsOpening(4) then DecodeAnswered(b[h.size..])
                   else if h.tag.IsOpening(5) then DecodeFailure(b[h.size..])
                   else Malformed;
      if inner.Ok? then Ok(inner.value, h.size + inner.size) else Malformed
  }

  function DecodeResult(b: Octets): (r: Parsed<PropertyResult>)
    ensures r.Ok? ==> 1 <= r.size <= |b|
  {
    match ReadUnsigned(b, 2)
    case Ok(id, n) =>
      (match OptionalUnsigned(b[n..], 3)
       case Ok(index, k) =>
         (match DecodeAnswer(b[n + k..])
          case Ok(answer, m) => Ok(PropertyResult(Reference(id, index), answer), n + k + m)
          case _ => Malformed)
       case _ => Malformed)
    case _ => Malformed
  }

  function DecodeResults(b: Octets): (r: Parsed<seq<PropertyResult>>)
    ensures r.Ok? ==> 1 <= r.size <= |b|
    decreases |b|
  {
    match DecodeTag(b)
    case None => Malformed
    case Some(h) =>
      if h.tag.IsClosing(1) then Ok([], h.size)
      else match DecodeResult(b)
        case Ok(r, n) => After([r], n, DecodeResults(b[n..]))
        case _ => Malformed
  }

  function DecodeAccess(b: Octets): (r: Parsed<AccessResult>)
    ensures r.Ok? ==> 1 <= r.size <= |b|
  {
    match ReadObjectId(b, 0)
    case Ok(o, n) =>
      var open := DecodeTag(b[n..]);
      if open.None? || !open.value.tag.IsOpening(1) then Malformed
      else (match DecodeResults(b[n + open.value.size..])
        case Ok(rs, m) => if rs == [] then Malformed else Ok(AccessResult(o, rs), n + open.value.size + m)
        case _ => Malformed)
    case _ => Malformed
  }

  function DecodeAccesses(b: Octets): (r: Parsed<seq<AccessResult>>)
    decreases |b|
  {
    if b == [] then Ok([], 0)
    else match DecodeAccess(b)
      case Ok(a, n) => After([a], n, DecodeAccesses(b[n..]))
      case _ => Malformed
  }

  function DecodeAck(b: Octets): (r: Option<seq<AccessResult>>)
  {
    match DecodeAccesses(b)
    case Ok(as_, _) => if as_ == [] then None else Some(as_)
    case _ => None
  }

  // ---- Server to client --------------------------------------------------

  lemma AnsweredRoundTrip(vs: seq<AppValue>, rest: Octets)
    requires AllWellFormed(vs)
    ensures DecodeAnswer(Between(4, vs) + rest) == Ok(Answered(vs), |Between(4, vs)|)
  {
    hide DecodeTag;
    hide Find;
    hide EncodeOpening;
    hide EncodeClosing;
    hide EncodeValues;
    hide DecodeValues;
    hide AllWellFormed;
    hide AtPrimitive;
    hide ConstructedSize;
    var open, list, close := EncodeOpening(4), EncodeValues(vs), EncodeClosing(4);
    var b := Between(4, vs) + rest;
    assert b == open + (list + (close + rest));
    assert b[|open|..] == list + (close + rest);
    WrittenConstructed(4, list + (close + rest));
    EncodedListIsFound(vs, 4, rest);
    ValuesRoundTrip(vs);
    assert b[|open|..][..|list|] == list;
  }

  lemma EnumeratedRoundTrip(n: Uint32, rest: Octets)
    ensures NextEnumerated(EncodeValue(Enumerated(n)) + rest) == Ok(n, |EncodeValue(Enumerated(n))|)
  {
    hide DecodeTag;
    hide EncodeValue;
    hide NextValue;
    VarUintRoundTrip(n);
    ValueRoundTrip(Enumerated(n), rest);
  }

  lemma FailureRoundTrip(class_: Uint32, code: Uint32, rest: Octets)
    ensures var b := Between(5, ErrorValues(class_, code)); DecodeAnswer(b + rest) == Ok(Failed(class_, code), |b|)
  {
    hide DecodeTag;
    hide EncodeOpening;
    hide EncodeClosing;
    hide EncodeValue;
    hide NextEnumerated;
    hide AtPrimitive;
    hide ConstructedSize;
    var open, close := EncodeOpening(5), EncodeClosing(5);
    var first, second := EncodeValue(Enumerated(class_)), EncodeValue(Enumerated(code));
    ErrorLayout(class_, code);
    var b := Between(5, ErrorValues(class_, code)) + rest;
    var inner := first + (second + (close + rest));
    assert b == open + inner && b[|open|..] == inner;
    WrittenConstructed(5, inner);
    EnumeratedRoundTrip(class_, second + (close + rest));
    assert inner[|first|..] == second + (close + rest);
    EnumeratedRoundTrip(code, close + rest);
    assert inner[|first| + |second|..] == close + rest;
    WrittenConstructed(5, rest);
  }

  lemma ErrorLayout(class_: Uint32, code: Uint32)
    ensures EncodeValues(ErrorValues(class_, code)) == EncodeValue(Enumerated(class_)) + EncodeValue(Enumerated(code))
  {
    hide EncodeValue;
    var vs := ErrorValues(class_, code);
    assert vs[1..] == [Enumerated(code)] && vs[1..][1..] == [];
    assert EncodeValues([]) == [];
    assert EncodeValues(vs[1..]) == EncodeValue(Enumerated(code)) + [] == EncodeValue(Enumerated(code));
  }

  lemma ResultRoundTrip(r: PropertyResult, tail: Octets)
    requires ValidResult(r)
    ensures DecodeResult(EncodeResult(r) + tail) == Ok(r, |EncodeResult(r)|)
    ensures DecodeTag(EncodeResult(r) + tail).Some? && !DecodeTag(EncodeResult(r) + tail).value.tag.IsClosing(1)
  {
    hide DecodeTag;
    hide DecodeAnswer;
    hide Between;
    hide ReadUnsigned;
    hide OptionalUnsigned;
    hide WriteUnsigned;
    hide WriteOptional;
    hide AllWellFormed;
    hide ConstructedSize;
    var id, index := WriteUnsigned(2, r.reference.id), WriteOptional(3, r.reference.index);
    var answer := EncodeAnswer(r.answer);
    var b := EncodeResult(r) + tail;
    assert b == id + (index + (answer + tail));
    WrittenUnsigned(2, r.reference.id, index + (answer + tail));
    assert b[|id|..] == index + (answer + tail);
    AnswerIsConstructed(r.answer, tail);
    WrittenOptional(3, r.reference.index, answer + tail);
    assert b[|id| + |index|..] == answer + tail;
    if r.answer.Answered? {
      AnsweredRoundTrip(r.answer.values, tail);
    } else {
      FailureRoundTrip(r.answer.class_, r.answer.code, tail);
    }
  }

  lemma AnswerIsConstructed(a: Answer, tail: Octets)
    ensures !AtPrimitive(EncodeAnswer(a) + tail, 3)
  {
    hide DecodeTag;
    hide EncodeValues;
    hide EncodeOpening;
    hide EncodeClosing;
    hide ConstructedSize;
    hide AtPrimitive;
    var number := if a.Answered? then 4 else 5;
    var list := if a.Answered? then a.values else ErrorValues(a.class_, a.code);
    var inner := EncodeValues(list) + EncodeClosing(number);
    assert EncodeAnswer(a) + tail == EncodeOpening(number) + (inner + tail);
    WrittenConstructed(number, inner + tail);
  }

  lemma {:induction false} ResultsRoundTrip(rs: seq<PropertyResult>, rest: Octets)
    requires forall r <- rs :: ValidResult(r)
    ensures DecodeResults(EncodeResults(rs) + (EncodeClosing(1) + rest)) == Ok(rs,
        |EncodeResults(rs)| + |EncodeClosing(1)|)
    decreases |rs|
  {
    hide DecodeTag;
    hide DecodeResult;
    hide EncodeResult;
    hide EncodeClosing;
    hide ValidResult;
    hide ConstructedSize;
    var b := EncodeResults(rs) + (EncodeClosing(1) + rest);
    if rs == [] {
      assert b == EncodeClosing(1) + rest;
      WrittenConstructed(1, rest);
    } else {
      var tail := EncodeResults(rs[1..]) + (EncodeClosing(1) + rest);
      ResultsRoundTrip(rs[1..], rest);
      ResultRoundTrip(rs[0], tail);
      assert b == EncodeResult(rs[0]) + tail;
      assert b[|EncodeResult(rs[0])|..] == tail;
      assert [rs[0]] + rs[1..] == rs;
    }
  }

  lemma AccessRoundTrip(a: AccessResult, rest: Octets)
    requires ValidAccess(a)
    ensures DecodeAccess(EncodeAccess(a) + rest) == Ok(a, |EncodeAccess(a)|)
  {
    hide DecodeTag;
    hide ReadObjectId;
    hide WriteObjectId;
    hide EncodeOpening;
    hide EncodeClosing;
    hide DecodeResults;
    hide EncodeResults;
    hide ValidResult;
    hide ConstructedSize;
    hide AtPrimitive;
    var head, open, close := WriteObjectId(0, a.object_), EncodeOpening(1), EncodeClosing(1);
    var list := EncodeResults(a.results);
    ListLayout(head, open, list, close, rest);
    WrittenObjectId(0, a.object_, open + (list + (close + rest)));
    WrittenConstructed(1, list + (close + rest));
    ResultsRoundTrip(a.results, rest);
  }

  /** Server to client: every acknowledgement the simulator sends, values and errors mixed,
      decodes in the library to the same content, every octet consumed. */
  lemma {:induction false} AckRoundTrip(as_: seq<AccessResult>)
    requires forall a <- as_ :: ValidAccess(a)
    ensures DecodeAccesses(EncodeAck(as_)) == Ok(as_, |EncodeAck(as_)|)
    ensures DecodeAck(EncodeAck(as_)) == if as_ == [] then None else Some(as_)
    decreases |as_|
  {
    hide DecodeAccess;
    hide EncodeAccess;
    hide ValidAccess;
    if as_ != [] {
      var tail := EncodeAck(as_[1..]);
      AccessRoundTrip(as_[0], tail);
      AckRoundTrip(as_[1..]);
      var b, n := EncodeAck(as_), |EncodeAccess(as_[0])|;
      assert b[n..] == tail;
      assert DecodeAccesses(b) == After([as_[0]], n, DecodeAccesses(tail));
      assert [as_[0]] + as_[1..] == as_;
    }
  }

  // ---- The loops ---------------------------------------------------------

  method SimWriteResult(r: PropertyResult) returns (encoded: Octets)
    ensures encoded == EncodeResult(r)
  {
    hide EncodeOpening;
    hide EncodeClosing;
    hide WriteUnsigned;
    hide WriteOptional;
    hide EncodeValues;
    encoded := WriteUnsigned(2, r.reference.id) + WriteOptional(3, r.reference.index);
    ghost var head := encoded;
    if r.answer.Failed? {
      var values := WriteValues(ErrorValues(r.answer.class_, r.answer.code));
      encoded := encoded + (EncodeOpening(5) + (values + EncodeClosing(5)));
    } else {
      var values := WriteValues(r.answer.values);
      encoded := encoded + (EncodeOpening(4) + (values + EncodeClosing(4)));
    }
    assert encoded == head + EncodeAnswer(r.answer);
  }

  /** The encoder's loop over the results of one object. */
  method SimWriteAccess(a: AccessResult) returns (buffer: Octets)
    ensures buffer == EncodeAccess(a)
  {
    hide WriteObjectId;
    hide EncodeOpening;
    hide EncodeClosing;
    hide EncodeResult;
    var head := WriteObjectId(0, a.object_) + EncodeOpening(1);
    buffer := head;
    for i := 0 to |a.results|
      invariant head + EncodeResults(a.results) == buffer + EncodeResults(a.results[i..])
    {
      var encoded := SimWriteResult(a.results[i]);
      assert a.results[i..][1..] == a.results[i + 1..];
      buffer := buffer + encoded;
    }
    assert a.results[|a.results|..] == [] && buffer == head + EncodeResults(a.results);
    buffer := buffer + EncodeClosing(1);
    assert buffer == EncodeAccess(a);
  }

  /** The decoder's loop over the results of one object. */
  method LibReadResults(b: Octets, start: nat) returns (r: Parsed<seq<PropertyResult>>)
    requires start <= |b|
    ensures r == DecodeResults(b[start..])
  {
    hide DecodeResult;
    hide DecodeTag;
    var results, offset := [], start;
    AfterStep(results, 0, PropertyResult(Reference(0, None), Answered([])), 0, DecodeResults(b[start..]));
    while true
      invariant start <= offset <= |b|
      invariant DecodeResults(b[start..]) == After(results, offset - start, DecodeResults(b[offset..]))
      decreases |b| - offset
    {
      var rest := b[offset..];
      var header := DecodeTag(rest);
      if header.None? {
        return Malformed;
      }
      if header.value.tag.IsClosing(1) {
        assert results + [] == results;
        return Ok(results, offset + header.value.size - start);
      }
      var result := DecodeResult(rest);
      if !result.Ok? {
        return Malformed;
      }
      assert rest[result.size..] == b[offset + result.size..];
      AfterStep(results, offset - start, result.value, result.size, DecodeResults(b[offset + result.size..]));
      results, offset := results + [result.value], offset + result.size;
    }
  }
}
