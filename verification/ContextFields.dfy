/** Context-tagged fields: the helpers at the end of simulator/services.go, and the same
    tests as the library decoders write them out. */
module ContextFields {
  import opened Octets
  import opened Tags
  import opened ApplicationValues

  /** A decoded value and the octets it took. The simulator answers a priority out of
      range with another reject reason than any other malformed request. */
  datatype Parsed<+T> = Ok(value: T, size: nat) | Malformed | PriorityOutOfRange

  /** What a loop that has read `xs` from `n` octets returns when the rest gives `r`. */
  function After<T>(xs: seq<T>, n: nat, r: Parsed<seq<T>>): (p: Parsed<seq<T>>)
  {
    match r
    case Ok(ys, k) => Ok(xs + ys, n + k)
    case _ => r
  }

  lemma AfterStep<T>(xs: seq<T>, n: nat, x: T, m: nat, r: Parsed<seq<T>>)
    ensures After([], 0, r) == r
    ensures After(xs, n, After([x], m, r)) == After(xs + [x], n + m, r)
  {
    if r.Ok? {
      assert [] + r.value == r.value;
      assert xs + ([x] + r.value) == xs + [x] + r.value;
    }
  }

  // ---- Readers -----------------------------------------------------------

  /** decodeContext */
  function ReadContext(b: Octets, number: Byte): (r: Parsed<Octets>)
    ensures r.Ok? ==> 1 <= r.size <= |b| && |r.value| <= r.size
    ensures !r.PriorityOutOfRange?
  {
    match DecodeTag(b)
    case None => Malformed
    case Some(h) =>
      if !h.tag.IsContext(number) || !h.tag.Primitive() || |b| - h.size < h.tag.len then Malformed
      else Ok(b[h.size..h.size + h.tag.len], h.size + h.tag.len)
  }

  /** decodeContextUnsigned */
  function ReadUnsigned(b: Octets, number: Byte): (r: Parsed<Uint32>)
    ensures r.Ok? ==> 1 <= r.size <= |b|
    ensures !r.PriorityOutOfRange?
  {
    match ReadContext(b, number)
    case Ok(octets, size) => if 1 <= |octets| <= 4 then Ok(DecodeVarUint(octets), size) else Malformed
    case _ => Malformed
  }

  function ReadObjectId(b: Octets, number: Byte): (r: Parsed<ObjectId>)
    ensures r.Ok? ==> 1 <= r.size <= |b| && ObjectIdInRange(r.value)
    ensures !r.PriorityOutOfRange?
  {
    match ReadContext(b, number)
    case Ok(octets, size) => if |octets| == 4 then Ok(DecodeObjectId(octets), size) else Malformed
    case _ => Malformed
  }

  predicate AtPrimitive(b: Octets, number: Byte) {
    DecodeTag(b).Some? && DecodeTag(b).value.tag.IsContext(number) && DecodeTag(b).value.tag.Primitive()
  }

  /** tryDecodeContextUnsigned: a field that cannot be read is taken to be absent. */
  function TryUnsigned(b: Octets, number: Byte): (r: Parsed<Option<Uint32>>)
    ensures r.Ok? && r.size <= |b|
  {
    if !AtPrimitive(b, number) then Ok(None, 0)
    else match ReadUnsigned(b, number)
      case Ok(n, size) => Ok(Some(n), size)
      case _ => Ok(None, 0)
  }

  /** The library's optional field: absent under another tag, an error when it is truncated. */
  function OptionalUnsigned(b: Octets, number: Byte): (r: Parsed<Option<Uint32>>)
    ensures r.Ok? ==> r.size <= |b|
    ensures !r.PriorityOutOfRange?
  {
    if !AtPrimitive(b, number) then Ok(None, 0)
    else match ReadUnsigned(b, number)
      case Ok(n, size) => Ok(Some(n), size)
      case _ => Malformed
  }

  /** isConstructedTag: None on a malformed tag, 0 on another tag, else its size. */
  function ConstructedSize(b: Octets, number: Byte, opening: bool): (r: Option<nat>)
    ensures r.Some? ==> r.value <= |b|
  {
    match DecodeTag(b)
    case None => None
    case Some(h) =>
      if !h.tag.IsContext(number) || h.tag.opening != opening || h.tag.closing == opening then Some(0)
      else Some(h.size)
  }

  /** decodeConstructedTag for an opening tag, zero when it is not there. */
  function OpeningSize(b: Octets, number: Byte): (n: nat)
    ensures n <= |b|
  {
    match ConstructedSize(b, number, true)
    case None => 0
    case Some(size) => size
  }

  // ---- Writers -----------------------------------------------------------

  /** writeContext */
  function WriteContext(number: Byte, payload: Octets): (b: Octets)
  {
    EncodePrimitive(true, number, |payload|) + payload
  }

  function WriteUnsigned(number: Byte, n: Uint32): (b: Octets)
  {
    WriteContext(number, EncodeVarUint(n))
  }

  function WriteObjectId(number: Byte, o: ObjectId): (b: Octets)
  {
    WriteContext(number, EncodeObjectId(o))
  }

  function WriteOptional(number: Byte, n: Option<Uint32>): (b: Octets)
  {
    match n
    case None => []
    case Some(v) => WriteUnsigned(number, v)
  }

  // ---- Round trips -------------------------------------------------------

  lemma WrittenContext(number: Byte, payload: Octets, rest: Octets)
    requires |payload| <= 0xFFFF_FFFF
    ensures var b := WriteContext(number, payload) + rest;
            && DecodeTag(b).Some?
            && DecodeTag(b).value.tag == Tag(number, |payload|, true, false, false)
            && ReadContext(b, number) == Ok(payload, |WriteContext(number, payload)|)
  {
    hide DecodeTag;
    hide EncodePrimitive;
    var head := EncodePrimitive(true, number, |payload|);
    var b := WriteContext(number, payload) + rest;
    assert b == head + (payload + rest);
    PrimitiveHeaderRoundTrip(true, number, |payload|, payload + rest);
    assert b[|head|..|head| + |payload|] == payload;
  }

  lemma WrittenUnsigned(number: Byte, n: Uint32, rest: Octets)
    ensures var b := WriteUnsigned(number, n) + rest;
            && AtPrimitive(b, number)
            && DecodeTag(b).value.tag == Tag(number, |EncodeVarUint(n)|, true, false, false)
            && ReadUnsigned(b, number) == Ok(n, |WriteUnsigned(number, n)|)
  {
    hide DecodeTag;
    hide EncodePrimitive;
    WrittenContext(number, EncodeVarUint(n), rest);
    VarUintRoundTrip(n);
  }

  lemma WrittenObjectId(number: Byte, o: ObjectId, rest: Octets)
    requires ObjectIdInRange(o)
    ensures var b := WriteObjectId(number, o) + rest;
            && AtPrimitive(b, number)
            && DecodeTag(b).value.tag == Tag(number, 4, true, false, false)
            && ReadObjectId(b, number) == Ok(o, |WriteObjectId(number, o)|)
  {
    hide DecodeTag;
    hide EncodePrimitive;
    WrittenContext(number, EncodeObjectId(o), rest);
    ObjectIdRoundTrip(o);
  }

  /** A written field is not mistaken for a constructed tag, nor for one of another number. */
  lemma WrittenIsPrimitive(b: Octets, number: Byte)
    requires AtPrimitive(b, number)
    ensures forall n, opening :: ConstructedSize(b, n, opening) == Some(0)
    ensures forall n :: n != number ==> !AtPrimitive(b, n)
  {
  }

  lemma WrittenConstructed(number: Byte, rest: Octets)
    ensures var b := EncodeOpening(number) + rest;
            && DecodeTag(b) == Some(Header(Tag(number, 0, true, true, false), |EncodeOpening(number)|))
            && ConstructedSize(b, number, true) == Some(|EncodeOpening(number)|)
            && forall n: Byte :: !AtPrimitive(b, n)
    ensures var b := EncodeClosing(number) + rest;
            && DecodeTag(b) == Some(Header(Tag(number, 0, true, false, true), |EncodeClosing(number)|))
            && ConstructedSize(b, number, false) == Some(|EncodeClosing(number)|)
            && forall n: Byte :: !AtPrimitive(b, n)
  {
    ConstructedHeaderRoundTrip(number, rest);
    hide DecodeTag;
  }

  /** An optional field is read back, by both readers, before anything that is not one. */
  lemma WrittenOptional(number: Byte, n: Option<Uint32>, rest: Octets)
    requires !AtPrimitive(rest, number)
    ensures var b := WriteOptional(number, n) + rest;
            TryUnsigned(b, number) == OptionalUnsigned(b, number) == Ok(n, |WriteOptional(number, n)|)
  {
    hide DecodeTag;
    hide EncodePrimitive;
    if n.None? {
      assert WriteOptional(number, n) + rest == rest;
    } else {
      WrittenUnsigned(number, n.value, rest);
    }
  }
}
