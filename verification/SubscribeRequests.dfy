/** SubscribeCOV requests: the library's encoder and decoder (bacnet/pdu/cov_request.go), which
    work at an offset into the whole request, and the simulator's decoder
    (simulator/services.go), which works through its context-field helpers. */
module SubscribeRequests {
  import opened Octets
  import opened Tags
  import opened ApplicationValues
  import opened ContextFields
  import opened PropertyCodec

  datatype Subscribe = Subscribe(process: Uint32, object_: ObjectId, cancel: bool, confirmed: bool,
                                 lifetime: Option<Uint32>)

  /** SubscribeCov.MarshalBinary: a cancellation carries neither flag nor lifetime. */
  function EncodeSubscribe(s: Subscribe): (b: Octets)
  {
    WriteUnsigned(0, s.process) + (WriteObjectId(1, s.object_) + EncodeTerms(s))
  }

  function EncodeTerms(s: Subscribe): (b: Octets)
  {
    if s.cancel then [] else WriteContext(2, [if s.confirmed then 1 else 0]) + WriteOptional(3, s.lifetime)
  }

  // ---- The simulator's decoder -------------------------------------------

  /** An absent lifetime is zero. */
  datatype SimSubscribe = SimSubscribe(process: Uint32, object_: ObjectId, confirmed: bool, lifetime: Uint32,
                                       cancel: bool)

  /** The optional flag [2], which must be 0 or 1. */
  function SimFlag(b: Octets): (r: Parsed<bool>)
    ensures r.Ok? ==> r.size <= |b|
  {
    if !AtPrimitive(b, 2) then Ok(false, 0)
    else match ReadContext(b, 2)
      case Ok(octets, size) => if |octets| == 1 && octets[0] <= 1 then Ok(octets[0] == 1, size) else Malformed
      case _ => Malformed
  }

  /** What follows the object identifier. */
  function SimTerms(process: Uint32, o: ObjectId, b: Octets): (r: Option<SimSubscribe>)
  {
    if b == [] then Some(SimSubscribe(process, o, false, 0, true))
    else match SimFlag(b)
      case Ok(confirmed, n) =>
        if n == |b| then Some(SimSubscribe(process, o, confirmed, 0, false))
        else (match ReadUnsigned(b[n..], 3)
          case Ok(seconds, k) =>
            if n + k == |b| then Some(SimSubscribe(process, o, confirmed, seconds, false)) else None
          case _ => None)
      case _ => None
  }

  /** decodeSubscribeCOV */
  function SimDecodeSubscribe(b: Octets): (r: Option<SimSubscribe>)
  {
    match ReadUnsigned(b, 0)
    case Ok(process, i) =>
      (match ReadObjectId(b[i..], 1)
       case Ok(o, j) => SimTerms(process, o, b[i + j..])
       case _ => None)
    case _ => None
  }

  // ---- The library's decoder ---------------------------------------------

  datatype Cursor<+T> = Cursor(value: T, offset: nat)

  /** The process identifier: at least one octet, and no limit. */
  function LibProcess(b: Octets): (r: Option<Cursor<Uint32>>)
    ensures r.Some? ==> r.value.offset <= |b|
  {
    match DecodeTag(b)
    case None => None
    case Some(h) =>
      if !h.tag.IsContext(0) || !h.tag.Primitive() then None
      else if h.tag.len < 1 || h.size + h.tag.len > |b| then None
      else Some(Cursor(DecodeVarUint(b[h.size..h.size + h.tag.len]), h.size + h.tag.len))
  }

  function LibObject(b: Octets, offset: nat): (r: Option<Cursor<ObjectId>>)
    requires offset <= |b|
    ensures r.Some? ==> r.value.offset <= |b|
  {
    match DecodeTag(b[offset..])
    case None => None
    case Some(h) =>
      if !h.tag.IsContext(1) || !h.tag.Primitive() || h.tag.len != 4 then None
      else if offset + h.size + 4 > |b| then None
      else Some(Cursor(DecodeObjectId(b[offset + h.size..offset + h.size + 4]), offset + h.size + 4))
  }

  function LibFlag(b: Octets, offset: nat): (r: Option<Cursor<bool>>)
    requires offset <= |b|
    ensures r.Some? ==> offset <= r.value.offset <= |b|
  {
    match DecodeTag(b[offset..])
    case None => Some(Cursor(false, offset))
    case Some(h) =>
      if !h.tag.IsContext(2) || !h.tag.Primitive() then Some(Cursor(false, offset))
      else if h.tag.len != 1 || offset + h.size + 1 > |b| then None
      else if b[offset + h.size] != 0 && b[offset + h.size] != 1 then None
      else Some(Cursor(b[offset + h.size] != 0, offset + h.size + 1))
  }

  /** The lifetime: at least one octet, and no limit. */
  function LibLifetime(b: Octets, offset: nat): (r: Option<Cursor<Uint32>>)
    requires offset <= |b|
    ensures r.Some? ==> r.value.offset <= |b|
  {
    match DecodeTag(b[offset..])
    case None => None
    case Some(h) =>
      if !h.tag.IsContext(3) || !h.tag.Primitive() then None
      else if h.tag.len < 1 || offset + h.size + h.tag.len > |b| then None
      else Some(Cursor(DecodeVarUint(b[offset + h.size..offset + h.size + h.tag.len]), offset + h.size + h.tag.len))
  }

  function LibTerms(process: Uint32, o: ObjectId, b: Octets, offset: nat): (r: Option<Subscribe>)
    requires offset <= |b|
  {
    if offset == |b| then Some(Subscribe(process, o, true, false, None))
    else match LibFlag(b, offset)
      case None => None
      case Some(flag) =>
        if flag.offset == |b| then Some(Subscribe(process, o, false, flag.value, None))
        else match LibLifetime(b, flag.offset)
          case None => None
          case Some(lifetime) =>
            if lifetime.offset != |b| then None
            else Some(Subscribe(process, o, false, flag.value, Some(lifetime.value)))
  }

  /** SubscribeCov.UnmarshalBinary */
  function LibDecodeSubscribe(b: Octets): (r: Option<Subscribe>)
  {
    match LibProcess(b)
    case None => None
    case Some(process) =>
      match LibObject(b, process.offset)
      case None => None
      case Some(o) => LibTerms(process.value, o.value, b, o.offset)
  }

  /** The same with the source's moving offset. */
  method UnmarshalSubscribe(b: Octets) returns (r: Option<Subscribe>)
    ensures r == LibDecodeSubscribe(b)
  {
    hide DecodeTag;
    hide DecodeVarUint;
    hide DecodeObjectId;
    var offset := 0;
    var header := DecodeTag(b);
    if header.None? || !header.value.tag.IsContext(0) || !header.value.tag.Primitive() {
      return None;
    }
    offset := header.value.size;
    if header.value.tag.len < 1 || offset + header.value.tag.len > |b| {
      return None;
    }
    var process := DecodeVarUint(b[offset..offset + header.value.tag.len]);
    offset := offset + header.value.tag.len;
    header := DecodeTag(b[offset..]);
    if header.None? || !header.value.tag.IsContext(1) || !header.value.tag.Primitive() || header.value.tag.len != 4 {
      return None;
    }
    offset := offset + header.value.size;
    if offset + 4 > |b| {
      return None;
    }
    var o := DecodeObjectId(b[offset..offset + 4]);
    offset := offset + 4;
    r := UnmarshalTerms(process, o, b, offset);
  }

  method UnmarshalTerms(process: Uint32, o: ObjectId, b: Octets, start: nat) returns (r: Option<Subscribe>)
    requires start <= |b|
    ensures r == LibTerms(process, o, b, start)
  {
    hide DecodeTag;
    hide DecodeVarUint;
    var offset, confirmed := start, false;
    if offset == |b| {
      return Some(Subscribe(process, o, true, false, None));
    }
    var header := DecodeTag(b[offset..]);
    if header.Some? && header.value.tag.IsContext(2) && header.value.tag.Primitive() {
      if header.value.tag.len != 1 || offset + header.value.size + 1 > |b| {
        return None;
      }
      offset := offset + header.value.size;
      if b[offset] != 0 && b[offset] != 1 {
        return None;
      }
      confirmed := b[offset] != 0;
      offset := offset + 1;
    }
    var lifetime := None;
    if offset < |b| {
      header := DecodeTag(b[offset..]);
      if header.None? || !header.value.tag.IsContext(3) || !header.value.tag.Primitive() {
        return None;
      }
      offset := offset + header.value.size;
      if header.value.tag.len < 1 || offset + header.value.tag.len > |b| {
        return None;
      }
      lifetime := Some(DecodeVarUint(b[offset..offset + header.value.tag.len]));
      offset := offset + header.value.tag.len;
    }
    if offset != |b| {
      return None;
    }
    return Some(Subscribe(process, o, false, confirmed, lifetime));
  }

  // ---- Agreement on all octet strings ------------------------------------

  function SimView(s: Subscribe): (v: SimSubscribe)
  {
    SimSubscribe(s.process, s.object_, s.confirmed, if s.lifetime.Some? then s.lifetime.value else 0, s.cancel)
  }

  /** The field at `offset` has at most four octets. */
  predicate ShortField(b: Octets, offset: nat)
    requires offset <= |b|
  {
    DecodeTag(b[offset..]).Some? ==> DecodeTag(b[offset..]).value.tag.len <= 4
  }

  /** So have the process identifier and, when the request has one, the lifetime. */
  predicate ShortNumbers(b: Octets) {
    && ShortField(b, 0)
    && (LibProcess(b).Some? && LibObject(b, LibProcess(b).value.offset).Some? ==>
          var terms := LibObject(b, LibProcess(b).value.offset).value.offset;
          LibFlag(b, terms).Some? ==> ShortField(b, LibFlag(b, terms).value.offset) || terms == |b|)
  }

  lemma ProcessAgrees(b: Octets)
    ensures ReadUnsigned(b, 0).Ok? <==> LibProcess(b).Some? && ShortField(b, 0)
    ensures ReadUnsigned(b, 0).Ok? ==>
              LibProcess(b).value == Cursor(ReadUnsigned(b, 0).value, ReadUnsigned(b, 0).size)
  {
    hide DecodeTag;
    assert b[0..] == b;
  }

  lemma ObjectAgrees(b: Octets, offset: nat)
    requires offset <= |b|
    ensures ReadObjectId(b[offset..], 1).Ok? <==> LibObject(b, offset).Some?
    ensures var r := ReadObjectId(b[offset..], 1);
            r.Ok? ==> LibObject(b, offset).value == Cursor(r.value, offset + r.size)
  {
    hide DecodeTag;
    if DecodeTag(b[offset..]).Some? && offset + DecodeTag(b[offset..]).value.size + 4 <= |b| {
      var n := DecodeTag(b[offset..]).value.size;
      assert b[offset..][n..n + 4] == b[offset + n..offset + n + 4];
    }
  }

  lemma FlagAgrees(b: Octets, offset: nat)
    requires offset <= |b|
    ensures SimFlag(b[offset..]).Ok? <==> LibFlag(b, offset).Some?
    ensures SimFlag(b[offset..]).Ok? ==>
              LibFlag(b, offset).value == Cursor(SimFlag(b[offset..]).value, offset + SimFlag(b[offset..]).size)
  {
    hide DecodeTag;
  }

  lemma LifetimeAgrees(b: Octets, offset: nat)
    requires offset <= |b|
    ensures ReadUnsigned(b[offset..], 3).Ok? <==> LibLifetime(b, offset).Some? && ShortField(b, offset)
    ensures var r := ReadUnsigned(b[offset..], 3);
            r.Ok? ==> LibLifetime(b, offset).value == Cursor(r.value, offset + r.size)
  {
    hide DecodeTag;
    hide DecodeVarUint;
    if DecodeTag(b[offset..]).Some? {
      var h := DecodeTag(b[offset..]).value;
      if offset + h.size + h.tag.len <= |b| {
        assert b[offset..][h.size..h.size + h.tag.len] == b[offset + h.size..offset + h.size + h.tag.len];
      }
    }
  }

  lemma TermsAgree(process: Uint32, o: ObjectId, b: Octets, offset: nat)
    requires offset <= |b|
    ensures SimTerms(process, o, b[offset..]).Some? <==>
              && LibTerms(process, o, b, offset).Some?
              && (offset == |b| || ShortField(b, LibFlag(b, offset).value.offset))
    ensures SimTerms(process, o, b[offset..]).Some? ==>
              SimTerms(process, o, b[offset..]).value == SimView(LibTerms(process, o, b, offset).value)
  {
    hide DecodeTag;
    hide ReadUnsigned;
    hide SimFlag;
    hide LibFlag;
    hide LibLifetime;
    FlagAgrees(b, offset);
    if offset < |b| && LibFlag(b, offset).Some? {
      var n := LibFlag(b, offset).value.offset;
      assert b[offset..][n - offset..] == b[n..];
      LifetimeAgrees(b, n);
      if n == |b| {
        NothingIsShort(b);
      }
    }
  }

  lemma NothingIsShort(b: Octets)
    ensures ShortField(b, |b|)
  {
  }

  /** On every octet string, the simulator accepts a request if and only if the library does and
      both numbers have at most four octets; and then with the same content. */
  lemma SimulatorAcceptsIffShort(b: Octets)
    ensures SimDecodeSubscribe(b).Some? <==> LibDecodeSubscribe(b).Some? && ShortNumbers(b)
    ensures SimDecodeSubscribe(b).Some? ==> SimDecodeSubscribe(b).value == SimView(LibDecodeSubscribe(b).value)
  {
    hide DecodeTag;
    hide ReadUnsigned;
    hide ReadObjectId;
    hide SimTerms;
    hide LibTerms;
    hide LibProcess;
    hide LibObject;
    hide ShortField;
    ProcessAgrees(b);
    if ReadUnsigned(b, 0).Ok? {
      var i := LibProcess(b).value.offset;
      ObjectAgrees(b, i);
      if LibObject(b, i).Some? {
        var n := LibObject(b, i).value.offset;
        TermsAgree(LibProcess(b).value.value, LibObject(b, i).value.value, b, n);
        TermsHaveFlag(LibProcess(b).value.value, LibObject(b, i).value.value, b, n);
      }
    }
  }

  lemma TermsHaveFlag(process: Uint32, o: ObjectId, b: Octets, offset: nat)
    requires offset <= |b|
    ensures LibTerms(process, o, b, offset).Some? && offset < |b| ==> LibFlag(b, offset).Some?
  {
    hide LibFlag;
    hide LibLifetime;
  }

  /** A request that only the library accepts: any cancellation whose process identifier has more
      than four octets. */
  lemma LibrarySubscribeIsLooser(process: Octets, o: ObjectId)
    requires 4 < |process| <= 0xFFFF_FFFF && ObjectIdInRange(o)
    ensures var b := WriteContext(0, process) + WriteObjectId(1, o);
            LibDecodeSubscribe(b).Some? && !ShortNumbers(b) && SimDecodeSubscribe(b).None?
  {
    hide DecodeTag;
    hide EncodePrimitive;
    hide WriteObjectId;
    hide AtPrimitive;
    hide ReadObjectId;
    hide ReadUnsigned;
    hide LibObject;
    hide LibFlag;
    hide SimDecodeSubscribe;
    hide DecodeVarUint;
    var head, tail := WriteContext(0, process), WriteObjectId(1, o);
    var b := head + tail;
    WrittenContext(0, process, tail);
    WrittenObjectId(1, o, []);
    assert b[|head|..] == tail + [] && b[0..] == b;
    ObjectAgrees(b, |head|);
    SimulatorAcceptsIffShort(b);
  }

  // ---- Client to server --------------------------------------------------

  /** What of a request goes over the wire: a cancellation carries neither a flag nor a lifetime,
      and an object identifier its low 10 and 22 bits. */
  function Carried(s: Subscribe): (t: Subscribe)
    ensures ObjectIdInRange(t.object_)
    ensures t == s <==> ObjectIdInRange(s.object_) && (s.cancel ==> !s.confirmed && s.lifetime.None?)
  {
    var o := ObjectId(s.object_.kind % 0x400, s.object_.instance % 0x40_0000);
    if s.cancel then Subscribe(s.process, o, true, false, None) else s.(object_ := o)
  }

  lemma CarriedEncodes(s: Subscribe)
    ensures EncodeSubscribe(s) == EncodeSubscribe(Carried(s))
  {
    hide EncodeUint32;
    hide WriteContext;
    assert PackObjectId(s.object_) == PackObjectId(Carried(s).object_);
  }

  /** Every request, whatever it says, decodes in the simulator to the terms it carries and in the
      library to what it carries, which is the request itself exactly when its object identifier
      is in range and it is no cancellation with a flag or a lifetime. */
  lemma SubscribeRoundTrip(s: Subscribe)
    ensures SimDecodeSubscribe(EncodeSubscribe(s)) == Some(SimView(Carried(s)))
    ensures LibDecodeSubscribe(EncodeSubscribe(s)) == Some(Carried(s))
    ensures LibDecodeSubscribe(EncodeSubscribe(s)) == Some(s)
       <==> ObjectIdInRange(s.object_) && (s.cancel ==> !s.confirmed && s.lifetime.None?)
  {
    hide SimDecodeSubscribe;
    hide LibDecodeSubscribe;
    hide EncodeSubscribe;
    CarriedEncodes(s);
    CarriedRoundTrip(Carried(s));
  }

  lemma CarriedRoundTrip(s: Subscribe)
    requires Carried(s) == s
    ensures SimDecodeSubscribe(EncodeSubscribe(s)) == Some(SimView(s))
    ensures LibDecodeSubscribe(EncodeSubscribe(s)) == Some(s)
  {
    hide DecodeTag;
    hide AtPrimitive;
    hide ReadUnsigned;
    hide ReadObjectId;
    hide WriteUnsigned;
    hide WriteObjectId;
    hide EncodeTerms;
    hide SimTerms;
    hide LibTerms;
    hide LibProcess;
    hide LibObject;
    var p, o, terms := WriteUnsigned(0, s.process), WriteObjectId(1, s.object_), EncodeTerms(s);
    var b := EncodeSubscribe(s);
    WrittenUnsigned(0, s.process, o + terms);
    assert b[|p|..] == o + terms;
    WrittenObjectId(1, s.object_, terms);
    assert b[|p| + |o|..] == terms;
    ProcessAgrees(b);
    ObjectAgrees(b, |p|);
    TermsRoundTrip(s, p + o);
    assert b == p + o + terms;
  }

  lemma FlagRoundTrip(confirmed: bool, rest: Octets)
    ensures var flag := WriteContext(2, [if confirmed then 1 else 0]);
            flag != [] && SimFlag(flag + rest) == Ok(confirmed, |flag|)
  {
    hide DecodeTag;
    hide EncodePrimitive;
    hide ReadContext;
    WrittenContext(2, [if confirmed then 1 else 0], rest);
  }

  lemma TermsRoundTrip(s: Subscribe, head: Octets)
    requires Carried(s) == s
    ensures SimTerms(s.process, s.object_, EncodeTerms(s)) == Some(SimView(s))
    ensures LibTerms(s.process, s.object_, head + EncodeTerms(s), |head|) == Some(s)
  {
    hide DecodeTag;
    hide AtPrimitive;
    hide ReadUnsigned;
    hide WriteUnsigned;
    hide WriteContext;
    hide SimFlag;
    hide LibLifetime;
    hide LibFlag;
    hide ShortField;
    var b := head + EncodeTerms(s);
    assert b[|head|..] == EncodeTerms(s);
    if !s.cancel {
      var flag, lifetime := WriteContext(2, [if s.confirmed then 1 else 0]), WriteOptional(3, s.lifetime);
      FlagRoundTrip(s.confirmed, lifetime);
      assert (flag + lifetime)[|flag|..] == lifetime == lifetime + [];
      FlagAgrees(b, |head|);
      assert b[|head| + |flag|..] == lifetime;
      if s.lifetime.Some? {
        WrittenUnsigned(3, s.lifetime.value, []);
        WrittenUnsignedIsSome(3, s.lifetime.value);
        LifetimeAgrees(b, |head| + |flag|);
      }
    }
  }
}
