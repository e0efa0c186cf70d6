/** BACnet tag headers (bacnet/types/tag.go; section 20.2.1 of ASHRAE 135). */
module Tags {
  import opened Octets

  datatype Tag = Tag(number: Byte, len: Uint32, context: bool, opening: bool, closing: bool) {
    predicate IsContext(n: Byte) {
      context && number == n
    }

    predicate Primitive() {
      !opening && !closing
    }

    predicate IsOpening(n: Byte) {
      IsContext(n) && opening
    }

    predicate IsClosing(n: Byte) {
      IsContext(n) && closing
    }
  }

  /** A decoded tag together with the number of octets its header took. */
  datatype Header = Header(tag: Tag, size: nat)

  /** The first octet without the length field, then the extended tag number. */
  function NumberOctets(number: Byte, low: Byte): (b: Octets)
    requires low < 16
    ensures 1 <= |b| <= 2
  {
    if number <= 14 then [number * 16 + low] else [0xF0 + low, number]
  }

  /** encodeTag for a primitive tag; a length beyond 32 bits encodes to nothing. */
  function EncodePrimitive(context: bool, number: Byte, len: nat): (b: Octets)
  {
    var class_ := if context then 8 else 0;
    if len > 0xFFFF_FFFF then []
    else if len <= 4 then NumberOctets(number, class_ + len)
    else if len <= 253 then NumberOctets(number, class_ + 5) + [len]
    else if len <= 65535 then NumberOctets(number, class_ + 5) + ([254] + EncodeUint16(len))
    else NumberOctets(number, class_ + 5) + ([255] + EncodeUint32(len))
  }

  function EncodeOpening(number: Byte): (b: Octets)
    ensures 1 <= |b| <= 2
  {
    NumberOctets(number, 14)
  }

  function EncodeClosing(number: Byte): (b: Octets)
    ensures 1 <= |b| <= 2
  {
    NumberOctets(number, 15)
  }

  /** The length field, which starts at `rest`, after a header of `used` octets. */
  function DecodeLength(rest: Octets, number: Byte, context: bool, used: nat): (r: Option<Header>)
  {
    if rest == [] then None
    else if rest[0] == 255 then
      if |rest| < 5 then None
      else Some(Header(Tag(number, BigEndian(rest[1..5]), context, false, false), used + 5))
    else if rest[0] == 254 then
      if |rest| < 3 then None
      else Some(Header(Tag(number, BigEndian(rest[1..3]), context, false, false), used + 3))
    else Some(Header(Tag(number, rest[0], context, false, false), used + 1))
  }

  function DecodeTag(b: Octets): (r: Option<Header>)
    ensures r.Some? ==> 1 <= r.value.size <= |b|
    ensures r.Some? ==> !(r.value.tag.opening && r.value.tag.closing)
  {
    if b == [] then None
    else
      var context := b[0] / 8 % 2 == 1;
      var extended := b[0] / 16 == 15;
      if extended && |b| < 2 then None
      else
        var number := if extended then b[1] else b[0] / 16;
        var used := if extended then 2 else 1;
        match b[0] % 8
        case 5 => DecodeLength(b[used..], number, context, used)
        case 6 => Some(Header(Tag(number, 0, context, true, false), used))
        case 7 => Some(Header(Tag(number, 0, context, false, true), used))
        case low => Some(Header(Tag(number, low, context, false, false), used))
  }

  lemma NumberOctetsRead(number: Byte, low: Byte, rest: Octets)
    requires low < 16
    ensures var b := NumberOctets(number, low) + rest;
            && b[0] % 8 == low % 8
            && b[0] / 8 % 2 == low / 8
            && (b[0] / 16 == 15 <==> number > 14)
            && (if number > 14 then b[1] else b[0] / 16) == number
            && |NumberOctets(number, low)| == (if number > 14 then 2 else 1)
            && b[|NumberOctets(number, low)|..] == rest
  {
  }

  /** A primitive header decodes to itself whatever follows it. */
  lemma PrimitiveHeaderRoundTrip(context: bool, number: Byte, len: Uint32, rest: Octets)
    ensures var e := EncodePrimitive(context, number, len);
            DecodeTag(e + rest) == Some(Header(Tag(number, len, context, false, false), |e|))
  {
    hide NumberOctets;
    hide DecodeLength;
    var class_ := if context then 8 else 0;
    var e := EncodePrimitive(context, number, len);
    if len <= 4 {
      NumberOctetsRead(number, class_ + len, rest);
    } else {
      var head := NumberOctets(number, class_ + 5);
      var field := if len <= 253 then [len]
                   else if len <= 65535 then [254] + EncodeUint16(len) else [255] + EncodeUint32(len);
      assert e + rest == head + (field + rest);
      NumberOctetsRead(number, class_ + 5, field + rest);
      LengthFieldRoundTrip(len, field, number, context, |head|, rest);
    }
  }

  lemma LengthFieldRoundTrip(len: Uint32, field: Octets, number: Byte, context: bool, used: nat, rest: Octets)
    requires len > 4
    requires field == if len <= 253 then [len]
                      else if len <= 65535 then [254] + EncodeUint16(len) else [255] + EncodeUint32(len)
    ensures DecodeLength(field + rest, number, context, used)
         == Some(Header(Tag(number, len, context, false, false), used + |field|))
  {
    EncodedUintReads(len);
    if 253 < len <= 65535 {
      assert (field + rest)[1..3] == EncodeUint16(len);
    } else if len > 65535 {
      assert (field + rest)[1..5] == EncodeUint32(len);
    }
  }

  lemma ConstructedHeaderRoundTrip(number: Byte, rest: Octets)
    ensures DecodeTag(EncodeOpening(number) + rest)
         == Some(Header(Tag(number, 0, true, true, false), |EncodeOpening(number)|))
    ensures DecodeTag(EncodeClosing(number) + rest)
         == Some(Header(Tag(number, 0, true, false, true), |EncodeClosing(number)|))
  {
  }

  /** Decoding looks at no octet past the header it returns. */
  lemma HeaderIsPrefix(b: Octets, c: Octets)
    requires DecodeTag(b).Some?
    requires DecodeTag(b).value.size <= |c|
    requires c[..DecodeTag(b).value.size] == b[..DecodeTag(b).value.size]
    ensures DecodeTag(c) == DecodeTag(b)
  {
    var n := DecodeTag(b).value.size;
    assert forall i :: 0 <= i < n ==> c[i] == c[..n][i] == b[..n][i] == b[i];
    var used := if b[0] / 16 == 15 then 2 else 1;
    if b[0] % 8 == 5 {
      var s, t := b[used..], c[used..];
      assert forall i :: used <= i < n ==> s[i - used] == b[i] && t[i - used] == c[i];
      if s[0] == 255 {
        assert s[1] == t[1] && s[2] == t[2] && s[3] == t[3] && s[4] == t[4];
        assert s[1..5] == t[1..5];
      } else if s[0] == 254 {
        assert s[1..3] == t[1..3];
      }
    }
  }
}
