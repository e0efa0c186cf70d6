/** Flat value lists between an opening and a closing tag, as the three readers of such
    lists see them: the library (bounds first, then values), the simulator's
    WritePropertyMultiple decoder (values until the closing tag), and Property.UnmarshalBinary
    (bounds first, and raw octets when a value is itself constructed). */
module ValueLists {
  import opened Octets
  import opened Tags
  import opened TagScanner
  import opened ApplicationValues
  import opened ContextFields

  /** The scanner finds the end of an encoded value list, whatever follows it. */
  lemma {:induction false} EncodedListIsFound(vs: seq<AppValue>, number: Byte, rest: Octets)
    requires AllWellFormed(vs)
    ensures Find(EncodeValues(vs) + (EncodeClosing(number) + rest), number)
         == Some(Bounds(|EncodeValues(vs)|, |EncodeValues(vs)| + |EncodeClosing(number)|))
    decreases |vs|
  {
    hide DecodeTag;
    hide Find;
    hide EncodeValue;
    hide Payload;
    hide TagNumber;
    hide LengthField;
    hide EncodeClosing;
    var b := EncodeValues(vs) + (EncodeClosing(number) + rest);
    if vs == [] {
      assert b == EncodeClosing(number) + rest;
      ConstructedHeaderRoundTrip(number, rest);
      FindClosing(b, number, DecodeTag(b).value);
    } else {
      var tail := EncodeValues(vs[1..]) + (EncodeClosing(number) + rest);
      EncodedListIsFound(vs[1..], number, rest);
      assert b == EncodeValue(vs[0]) + tail;
      EncodedValueHeader(vs[0], tail);
      FindPrimitive(b, number, DecodeTag(b).value);
      assert b[|EncodeValue(vs[0])|..] == tail;
    }
  }

  /** The simulator keeps the characters of a string and forgets their encoding octet;
      it sends strings with encoding 0 (fromPropertyValue, toPropertyValue). */
  function Plain(v: AppValue): (p: AppValue)
  {
    if v.CharacterString? then v.(encoding := 0) else v
  }

  function PlainAll(vs: seq<AppValue>): (ps: seq<AppValue>)
    ensures |ps| == |vs|
  {
    if vs == [] then [] else [Plain(vs[0])] + PlainAll(vs[1..])
  }

  /** The simulator's loop over the values of one write, up to the closing tag [2]. */
  function SimValues(b: Octets): (r: Parsed<seq<AppValue>>)
    ensures r.Ok? ==> 1 <= r.size <= |b|
    ensures !r.PriorityOutOfRange?
    decreases |b|
  {
    match ConstructedSize(b, 2, false)
    case None => Malformed
    case Some(closing) =>
      if closing > 0 then Ok([], closing)
      else match NextValue(b)
        case None => Malformed
        case Some((v, n)) => After([Plain(v)], n, SimValues(b[n..]))
  }

  lemma {:induction false} SimValuesRoundTrip(vs: seq<AppValue>, rest: Octets)
    requires AllWellFormed(vs)
    ensures SimValues(EncodeValues(vs) + (EncodeClosing(2) + rest))
         == Ok(PlainAll(vs), |EncodeValues(vs)| + |EncodeClosing(2)|)
    decreases |vs|
  {
    hide DecodeTag;
    hide NextValue;
    hide Plain;
    hide EncodeValue;
    hide Payload;
    hide TagNumber;
    hide LengthField;
    hide EncodeClosing;
    hide AtPrimitive;
    var b := EncodeValues(vs) + (EncodeClosing(2) + rest);
    if vs == [] {
      assert b == EncodeClosing(2) + rest;
      WrittenConstructed(2, rest);
    } else {
      var tail := EncodeValues(vs[1..]) + (EncodeClosing(2) + rest);
      SimValuesRoundTrip(vs[1..], rest);
      assert b == EncodeValue(vs[0]) + tail;
      EncodedValueHeader(vs[0], tail);
      ValueRoundTrip(vs[0], tail);
      assert b[|EncodeValue(vs[0])|..] == tail;
    }
  }

  /** What the simulator's loop reads, the library finds and reads: the same values,
      the same octets. */
  lemma {:induction false} SimValuesAreLibraryValues(b: Octets)
    requires SimValues(b).Ok?
    ensures Find(b, 2).Some? && Find(b, 2).value.valueEnd == SimValues(b).size
    ensures DecodeValues(b[..Find(b, 2).value.contentEnd]).Some?
    ensures PlainAll(DecodeValues(b[..Find(b, 2).value.contentEnd]).value) == SimValues(b).value
    decreases |b|
  {
    hide DecodeTag;
    hide Find;
    hide Plain;
    hide NextValue;
    var h := DecodeTag(b).value;
    if ConstructedSize(b, 2, false).value > 0 {
      FindClosing(b, 2, h);
    } else {
      var (v, n) := NextValue(b).value;
      SimValuesAreLibraryValues(b[n..]);
      NextValueHeader(b);
      FindPrimitive(b, 2, h);
      LibraryStep(b, v, n, Find(b[n..], 2).value.contentEnd);
    }
  }

  lemma {:induction false} LibraryStep(b: Octets, v: AppValue, n: nat, end: nat)
    requires NextValue(b) == Some((v, n)) && n + end <= |b|
    ensures DecodeValues(b[..n + end]) == Prepended([v], DecodeValues(b[n..][..end]))
  {
    hide NextValue;
    var content := b[..n + end];
    assert content[..n] == b[..n];
    NextValueIsPrefix(b, content);
    assert content[n..] == b[n..][..end];
  }

  // ---- Property.UnmarshalBinary ------------------------------------------

  /** The value part of a property: none, a flat list, or raw octets. */
  datatype Content = NoContent | Values(values: seq<AppValue>) | Raw(octets: Octets)

  datatype Flat = FlatValues(values: seq<AppValue>) | Constructed | Truncated

  /** The loop over the values of a property while `limit` octets of content remain. */
  function ReadFlat(b: Octets, limit: int): (r: Flat)
    decreases |b|
  {
    if limit <= 0 then FlatValues([])
    else match DecodeTag(b)
      case None => Truncated
      case Some(h) =>
        if h.tag.context || !h.tag.Primitive() then Constructed
        else match NextValue(b)
          case None => Truncated
          case Some((v, n)) => (match ReadFlat(b[n..], limit - n)
            case FlatValues(vs) => FlatValues([v] + vs)
            case other => other)
  }

  lemma {:induction false} FlatRoundTrip(vs: seq<AppValue>, rest: Octets)
    requires AllWellFormed(vs)
    ensures ReadFlat(EncodeValues(vs) + rest, |EncodeValues(vs)|) == FlatValues(vs)
    decreases |vs|
  {
    hide DecodeTag;
    hide NextValue;
    hide EncodeValue;
    hide Payload;
    hide TagNumber;
    hide LengthField;
    if vs != [] {
      var tail := EncodeValues(vs[1..]) + rest;
      var b := EncodeValues(vs) + rest;
      FlatRoundTrip(vs[1..], rest);
      assert b == EncodeValue(vs[0]) + tail;
      EncodedValueHeader(vs[0], tail);
      ValueRoundTrip(vs[0], tail);
      assert b[|EncodeValue(vs[0])|..] == tail;
      assert [vs[0]] + vs[1..] == vs;
    }
  }
}
