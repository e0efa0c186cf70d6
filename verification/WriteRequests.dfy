/** WritePropertyMultiple requests: the library codec (bacnet/pdu/write_property_multiple.go)
    and the simulator's own decoder (simulator/services.go). */
module WriteRequests {
  import opened Octets
  import opened Tags
  import opened TagScanner
  import opened ApplicationValues
  import opened ContextFields
  import opened ValueLists
  import opened ReadRequests

  /** Priority 0 stands for an absent priority; a present one is in 1..16. */
  datatype PropertyWrite = PropertyWrite(reference: Reference, values: seq<AppValue>, priority: Byte)
  datatype WriteSpec = WriteSpec(object_: ObjectId, writes: seq<PropertyWrite>)

  // ---- The simulator's decoder -------------------------------------------

  function PriorityOf(r: Parsed<Option<Uint32>>): (p: Parsed<Byte>)
    ensures p.Ok? ==> r.Ok? && p.size == r.size && p.value <= 16
  {
    match r
    case Ok(None, size) => Ok(0, size)
    case Ok(Some(n), size) => if 1 <= n <= 16 then Ok(n, size) else PriorityOutOfRange
    case Malformed => Malformed
    case PriorityOutOfRange => PriorityOutOfRange
  }

  function SimWrite(b: Octets): (r: Parsed<PropertyWrite>)
    ensures r.Ok? ==> 1 <= r.size <= |b|
  {
    match SimReference(b)
    case Ok(reference, n) =>
      var opening := OpeningSize(b[n..], 2);
      if opening == 0 then Malformed
      else (match SimValues(b[n + opening..])
        case Ok(values, m) =>
          if values == [] then Malformed
          else (match PriorityOf(TryUnsigned(b[n + opening + m..], 3))
            case Ok(priority, k) => Ok(PropertyWrite(reference, values, priority), n + opening + m + k)
            case Malformed => Malformed
            case PriorityOutOfRange => PriorityOutOfRange)
        case _ => Malformed)
    case _ => Malformed
  }

  function SimWrites(b: Octets): (r: Parsed<seq<PropertyWrite>>)
    ensures r.Ok? ==> 1 <= r.size <= |b|
    decreases |b|
  {
    match ConstructedSize(b, 1, false)
    case None => Malformed
    case Some(closing) =>
      if closing > 0 then Ok([], closing)
      else match SimWrite(b)
        case Ok(write, n) => After([write], n, SimWrites(b[n..]))
        case Malformed => Malformed
        case PriorityOutOfRange => PriorityOutOfRange
  }

  // ---- The library's decoder ---------------------------------------------

  function LibWrite(b: Octets): (r: Parsed<PropertyWrite>)
    ensures r.Ok? ==> 1 <= r.size <= |b|
  {
    match LibReference(b)
    case Ok(reference, n) =>
      var opening := OpeningSize(b[n..], 2);
      if opening == 0 then Malformed
      else (match Find(b[n + opening..], 2)
        case None => Malformed
        case Some(v) => (match DecodeValues(b[n + opening..][..v.contentEnd])
          case None => Malformed
          case Some(values) =>
            if values == [] then Malformed
            else (match PriorityOf(OptionalUnsigned(b[n + opening + v.valueEnd..], 3))
              case Ok(priority, k) => Ok(PropertyWrite(reference, values, priority), n + opening + v.valueEnd + k)
              case Malformed => Malformed
              case PriorityOutOfRange => PriorityOutOfRange)))
    case _ => Malformed
  }

  function LibWrites(b: Octets): (r: Parsed<seq<PropertyWrite>>)
    ensures r.Ok? ==> 1 <= r.size <= |b|
    decreases |b|
  {
    match DecodeTag(b)
    case None => Malformed
    case Some(h) =>
      if h.tag.IsClosing(1) then Ok([], h.size)
      else match LibWrite(b)
        case Ok(write, n) => After([write], n, LibWrites(b[n..]))
        case Malformed => Malformed
        case PriorityOutOfRange => PriorityOutOfRange
  }

  // ---- Specifications and requests ---------------------------------------

  function Writes(d: Decoder, b: Octets): (r: Parsed<seq<PropertyWrite>>)
    ensures r.Ok? ==> 1 <= r.size <= |b|
  {
    if d.Simulator? then SimWrites(b) else LibWrites(b)
  }

  /** decodeWriteAccessSpec, and the body of the simulator's outer loop. */
  function DecodeWriteSpec(d: Decoder, b: Octets): (r: Parsed<WriteSpec>)
    ensures r.Ok? ==> 1 <= r.size <= |b|
  {
    match ReadObjectId(b, 0)
    case Ok(object_, n) =>
      var opening := OpeningSize(b[n..], 1);
      if opening == 0 then Malformed
      else (match Writes(d, b[n + opening..])
        case Ok(writes, m) =>
          if writes == [] then Malformed else Ok(WriteSpec(object_, writes), n + opening + m)
        case Malformed => Malformed
        case PriorityOutOfRange => PriorityOutOfRange)
    case _ => Malformed
  }

  function DecodeWriteSpecs(d: Decoder, b: Octets): (r: Parsed<seq<WriteSpec>>)
    decreases |b|
  {
    if b == [] then Ok([], 0)
    else match DecodeWriteSpec(d, b)
      case Ok(spec, n) => After([spec], n, DecodeWriteSpecs(d, b[n..]))
      case Malformed => Malformed
      case PriorityOutOfRange => PriorityOutOfRange
  }

  function DecodeWriteRequest(d: Decoder, b: Octets): (r: Parsed<seq<WriteSpec>>)
  {
    match DecodeWriteSpecs(d, b)
    case Ok(specs, n) => if specs == [] then Malformed else Ok(specs, n)
    case other => other
  }

  // ---- What the simulator keeps of a request -----------------------------

  function PlainWrite(w: PropertyWrite): (p: PropertyWrite)
  {
    w.(values := PlainAll(w.values))
  }

  function PlainWrites(ws: seq<PropertyWrite>): (ps: seq<PropertyWrite>)
    ensures |ps| == |ws|
  {
    if ws == [] then [] else [PlainWrite(ws[0])] + PlainWrites(ws[1..])
  }

  function PlainSpec(s: WriteSpec): (p: WriteSpec)
  {
    s.(writes := PlainWrites(s.writes))
  }

  function PlainSpecs(ss: seq<WriteSpec>): (ps: seq<WriteSpec>)
    ensures |ps| == |ss|
  {
    if ss == [] then [] else [PlainSpec(ss[0])] + PlainSpecs(ss[1..])
  }

  // ---- Every request the simulator accepts, the library accepts ----------

  /** One write: the library reads the same one unless the octets that follow are a
      priority field neither can read, where the simulator fails next. */
  lemma {:induction false} LibraryWrite(b: Octets)
    requires SimWrite(b).Ok?
    ensures LibWrite(b).Ok? ==>
              PlainWrite(LibWrite(b).value) == SimWrite(b).value && LibWrite(b).size == SimWrite(b).size
    ensures !LibWrite(b).Ok? ==> SimWrites(b[SimWrite(b).size..]) == Malformed
  {
    hide DecodeTag;
    hide SimValues;
    hide DecodeValues;
    hide Find;
    hide ReadUnsigned;
    hide PlainAll;
    var n := SimReference(b).size;
    ReferenceBeforeOpening(b);
    var opening := OpeningSize(b[n..], 2);
    SimValuesAreLibraryValues(b[n + opening..]);
    var rest := b[n + opening + SimValues(b[n + opening..]).size..];
    UnreadablePriority(rest);
  }

  lemma {:induction false} ReferenceBeforeOpening(b: Octets)
    requires SimReference(b).Ok? && OpeningSize(b[SimReference(b).size..], 2) > 0
    ensures LibReference(b) == SimReference(b)
  {
    hide DecodeTag;
  }

  lemma {:induction false} UnreadablePriority(rest: Octets)
    ensures OptionalUnsigned(rest, 3).Ok? ==> OptionalUnsigned(rest, 3) == TryUnsigned(rest, 3)
    ensures !OptionalUnsigned(rest, 3).Ok? ==> TryUnsigned(rest, 3) == Ok(None, 0) && SimWrites(rest) == Malformed
  {
    hide DecodeTag;
    if !OptionalUnsigned(rest, 3).Ok? {
      WrittenIsPrimitive(rest, 3);
      assert ReadUnsigned(rest, 0).Malformed?;
    }
  }

  lemma {:induction false} LibraryWrites(b: Octets)
    requires SimWrites(b).Ok?
    ensures LibWrites(b).Ok? && LibWrites(b).size == SimWrites(b).size
    ensures PlainWrites(LibWrites(b).value) == SimWrites(b).value
    decreases |b|
  {
    hide DecodeTag;
    hide SimWrite;
    hide LibWrite;
    hide PlainWrite;
    if ConstructedSize(b, 1, false) == Some(0) {
      LibraryWrite(b);
      LibraryWrites(b[SimWrite(b).size..]);
    }
  }

  lemma {:induction false} LibrarySpecs(b: Octets)
    requires DecodeWriteSpecs(Simulator, b).Ok?
    ensures DecodeWriteSpecs(Library, b).Ok?
    ensures PlainSpecs(DecodeWriteSpecs(Library, b).value) == DecodeWriteSpecs(Simulator, b).value
    decreases |b|
  {
    hide ReadObjectId;
    hide OpeningSize;
    hide SimWrites;
    hide LibWrites;
    hide PlainWrites;
    if b != [] {
      var n := ReadObjectId(b, 0).size;
      LibraryWrites(b[n + OpeningSize(b[n..], 1)..]);
      LibrarySpecs(b[DecodeWriteSpec(Simulator, b).size..]);
    }
  }

  /** A request the simulator accepts is accepted by the library with the same objects,
      properties, indexes, values and priorities. */
  lemma SimulatorAcceptsLibraryAccepts(b: Octets)
    requires DecodeWriteRequest(Simulator, b).Ok?
    ensures DecodeWriteRequest(Library, b).Ok?
    ensures PlainSpecs(DecodeWriteRequest(Library, b).value) == DecodeWriteRequest(Simulator, b).value
  {
    LibrarySpecs(b);
  }

  /** The converse fails: the library matches closing tags by number only and takes an
      application-class closing tag (0x27), which the simulator refuses. */
  lemma LibraryAcceptsMore()
    ensures exists b :: DecodeWriteRequest(Library, b).Ok? && DecodeWriteRequest(Simulator, b).Malformed?
  {
    hide ReadObjectId;
    hide OpeningSize;
    hide LibWrites;
    hide SimWrites;
    var write: Octets := [0x09, 0x55, 0x2E, 0x11, 0x27, 0x1F];
    var b: Octets := [0x0C, 0x00, 0x80, 0x00, 0x01, 0x1E] + write;
    SampleSpec(b, write);
    SampleWriteInLibrary(write);
    SampleWriteInSimulator(write);
    var spec := WriteSpec(ReadObjectId(b, 0).value, LibWrites(write).value);
    assert DecodeWriteSpec(Library, b) == Ok(spec, |b|);
    assert DecodeWriteSpec(Simulator, b) == Malformed;
    assert b[|b|..] == [];
    assert DecodeWriteSpecs(Library, b) == Ok([spec] + [], |b|);
    assert DecodeWriteRequest(Library, b).Ok? && DecodeWriteRequest(Simulator, b).Malformed?;
  }

  lemma SampleSpec(b: Octets, write: Octets)
    requires b == [0x0C, 0x00, 0x80, 0x00, 0x01, 0x1E] + write
    ensures ReadObjectId(b, 0).Ok? && ReadObjectId(b, 0).size == 5
    ensures OpeningSize(b[5..], 1) == 1 && b[6..] == write
  {
    assert b[1..5] == [0x00, 0x80, 0x00, 0x01] && b[5..] == [0x1E] + write;
  }

  lemma SampleReference(write: Octets)
    requires write == [0x09, 0x55, 0x2E, 0x11, 0x27, 0x1F]
    ensures SimReference(write) == LibReference(write) == Ok(Reference(0x55, None), 2)
    ensures OpeningSize(write[2..], 2) == 1 && write[3..] == [0x11, 0x27, 0x1F]
    ensures ConstructedSize(write, 1, false) == Some(0)
    ensures DecodeTag(write).Some? && !DecodeTag(write).value.tag.closing
  {
    hide DecodeTag;
    hide SimReference;
    hide LibReference;
    hide AtPrimitive;
    var reference, content := Reference(0x55, None), [0x11, 0x27, 0x1F];
    assert EncodeReference(reference) == [0x09, 0x55];
    var tail := EncodeOpening(2) + content;
    assert write == EncodeReference(reference) + tail;
    WrittenConstructed(2, content);
    ReferenceRoundTrip(reference, tail);
    ReferenceBeforeOpening(write);
    assert write[2..] == tail;
    assert DecodeTag(write).Some? && !DecodeTag(write).value.tag.closing by {
      assert write == WriteUnsigned(0, 0x55) + tail;
      WrittenUnsigned(0, 0x55, tail);
    }
  }

  lemma {:induction false} SampleValue(content: Octets)
    requires content == [0x11, 0x27, 0x1F]
    ensures NextValue(content) == Some((Boolean(true), 1)) && ConstructedSize(content, 2, false) == Some(0)
    ensures DecodeTag(content) == Some(Header(Tag(1, 1, false, false, false), 1))
    ensures DecodeTag(content[1..]) == Some(Header(Tag(2, 0, false, false, true), 1))
    ensures DecodeValues(content[..1]) == Some([Boolean(true)])
  {
    var one := content[..1];
    assert one == [0x11] && one[1..] == [] && content[1..] == [0x27, 0x1F];
    assert DecodeValue(one) == Some(Boolean(true));
    assert NextValue(one) == Some((Boolean(true), 1)) by { assert one[..1] == one; }
    assert DecodeValues(one[1..]) == Some([]);
    assert [Boolean(true)] + [] == [Boolean(true)];
  }

  lemma {:induction false} SampleWriteInLibrary(write: Octets)
    requires write == [0x09, 0x55, 0x2E, 0x11, 0x27, 0x1F]
    ensures LibWrites(write) == Ok([PropertyWrite(Reference(0x55, None), [Boolean(true)], 0)], |write|)
  {
    hide DecodeTag;
    hide LibReference;
    hide OpeningSize;
    hide DecodeValues;
    var content := write[3..];
    SampleReference(write);
    SampleValue(content);
    FindPrimitive(content, 2, DecodeTag(content).value);
    FindClosing(content[1..], 2, DecodeTag(content[1..]).value);
    var rest := write[5..];
    assert rest == EncodeClosing(1) + [];
    WrittenConstructed(1, []);
    assert OptionalUnsigned(rest, 3) == Ok(None, 0);
    var w := PropertyWrite(Reference(0x55, None), [Boolean(true)], 0);
    assert LibWrite(write) == Ok(w, 5);
    assert LibWrites(rest) == Ok([], 1);
    assert [w] + [] == [w];
  }

  lemma {:induction false} SampleWriteInSimulator(write: Octets)
    requires write == [0x09, 0x55, 0x2E, 0x11, 0x27, 0x1F]
    ensures SimWrites(write) == Malformed
  {
    hide DecodeTag;
    hide SimReference;
    hide OpeningSize;
    var content := write[3..];
    SampleReference(write);
    SampleValue(content);
    assert SimValues(content[1..]) == Malformed;
    assert SimValues(content) == Malformed;
  }

  // ---- Encoder and client-to-server round trip ---------------------------

  function WritePriority(priority: Byte): (b: Octets)
  {
    if priority == 0 then [] else WriteUnsigned(3, priority)
  }

  function EncodeWrite(w: PropertyWrite): (b: Octets)
  {
    EncodeReference(w.reference) + (EncodeOpening(2) + (EncodeValues(w.values) + EncodeClosing(2)))
    + WritePriority(w.priority)
  }

  function EncodeWrites(ws: seq<PropertyWrite>): (b: Octets)
  {
    if ws == [] then [] else EncodeWrite(ws[0]) + EncodeWrites(ws[1..])
  }

  function EncodeWriteSpec(s: WriteSpec): (b: Octets)
  {
    WriteObjectId(0, s.object_) + (EncodeOpening(1) + (EncodeWrites(s.writes) + EncodeClosing(1)))
  }

  function EncodeWriteRequest(specs: seq<WriteSpec>): (b: Octets)
  {
    if specs == [] then [] else EncodeWriteSpec(specs[0]) + EncodeWriteRequest(specs[1..])
  }

  predicate ValidWrite(w: PropertyWrite) {
    w.values != [] && AllWellFormed(w.values) && w.priority <= 16
  }

  predicate ValidWriteSpec(s: WriteSpec) {
    ObjectIdInRange(s.object_) && s.writes != [] && forall w <- s.writes :: ValidWrite(w)
  }

  lemma PriorityRoundTrip(priority: Byte, tail: Octets)
    requires priority <= 16 && !AtPrimitive(tail, 3)
    ensures PriorityOf(TryUnsigned(WritePriority(priority) + tail, 3)) == Ok(priority, |WritePriority(priority)|)
  {
    hide TryUnsigned;
    hide AtPrimitive;
    var field: Option<Uint32> := if priority == 0 then None else Some(priority);
    assert WritePriority(priority) == WriteOptional(3, field);
    WrittenOptional(3, field, tail);
  }

  lemma {:induction false} WriteRoundTrip(w: PropertyWrite, tail: Octets)
    requires ValidWrite(w) && !AtPrimitive(tail, 3)
    ensures SimWrite(EncodeWrite(w) + tail) == Ok(PlainWrite(w), |EncodeWrite(w)|)
    ensures ConstructedSize(EncodeWrite(w) + tail, 1, false) == Some(0)
    ensures !AtPrimitive(EncodeWrite(w) + tail, 3)
  {
    hide DecodeTag;
    hide ConstructedSize;
    hide AtPrimitive;
    hide EncodeOpening;
    hide EncodeClosing;
    hide EncodeReference;
    hide SimReference;
    hide SimValues;
    hide EncodeValues;
    hide WritePriority;
    hide TryUnsigned;
    hide PriorityOf;
    hide AllWellFormed;
    hide PlainAll;
    var head, open, close := EncodeReference(w.reference), EncodeOpening(2), EncodeClosing(2);
    var list, rest := EncodeValues(w.values), WritePriority(w.priority) + tail;
    var b := EncodeWrite(w) + tail;
    assert b == head + (open + (list + close)) + rest;
    ListLayout(head, open, list, close, rest);
    var body := open + (list + (close + rest));
    WrittenConstructed(2, list + (close + rest));
    ReferenceRoundTrip(w.reference, body);
    SimValuesRoundTrip(w.values, rest);
    PriorityRoundTrip(w.priority, tail);
    ReferenceIsNotPriority(w.reference, body);
    assert OpeningSize(b[|head|..], 2) == |open|;
    assert b[|head| + |open|..] == list + (close + rest);
    assert b[|head| + |open| + (|list| + |close|)..] == rest;
  }

  lemma ReferenceIsNotPriority(r: Reference, tail: Octets)
    ensures !AtPrimitive(EncodeReference(r) + tail, 3)
  {
    hide DecodeTag;
    hide WriteUnsigned;
    var head, index := WriteUnsigned(0, r.id), WriteOptional(1, r.index);
    assert EncodeReference(r) + tail == head + (index + tail);
    WrittenUnsigned(0, r.id, index + tail);
  }

  lemma {:induction false} WritesRoundTrip(ws: seq<PropertyWrite>, rest: Octets)
    requires forall w <- ws :: ValidWrite(w)
    ensures SimWrites(EncodeWrites(ws) + (EncodeClosing(1) + rest))
         == Ok(PlainWrites(ws), |EncodeWrites(ws)| + |EncodeClosing(1)|)
    ensures !AtPrimitive(EncodeWrites(ws) + (EncodeClosing(1) + rest), 3)
    decreases |ws|
  {
    hide AtPrimitive;
    hide ConstructedSize;
    hide SimWrite;
    hide EncodeWrite;
    hide EncodeClosing;
    hide ValidWrite;
    hide PlainWrite;
    var b := EncodeWrites(ws) + (EncodeClosing(1) + rest);
    if ws == [] {
      assert b == EncodeClosing(1) + rest;
      WrittenConstructed(1, rest);
    } else {
      var tail := EncodeWrites(ws[1..]) + (EncodeClosing(1) + rest);
      WritesRoundTrip(ws[1..], rest);
      WriteRoundTrip(ws[0], tail);
      assert b == EncodeWrite(ws[0]) + tail;
      assert b[|EncodeWrite(ws[0])|..] == tail;
    }
  }

  lemma {:induction false} WriteSpecRoundTrip(s: WriteSpec, rest: Octets)
    requires ValidWriteSpec(s)
    ensures DecodeWriteSpec(Simulator, EncodeWriteSpec(s) + rest) == Ok(PlainSpec(s), |EncodeWriteSpec(s)|)
  {
    hide DecodeTag;
    hide AtPrimitive;
    hide LibWrites;
    hide ReadObjectId;
    hide WriteObjectId;
    hide ConstructedSize;
    hide EncodeOpening;
    hide EncodeClosing;
    hide SimWrites;
    hide EncodeWrites;
    hide ValidWrite;
    var head, open, close := WriteObjectId(0, s.object_), EncodeOpening(1), EncodeClosing(1);
    var list := EncodeWrites(s.writes);
    ListLayout(head, open, list, close, rest);
    WrittenObjectId(0, s.object_, open + (list + (close + rest)));
    WrittenConstructed(1, list + (close + rest));
    WritesRoundTrip(s.writes, rest);
  }

  /** Client to server: every valid request the library encodes is decoded by the simulator
      to the same objects, property ids, indexes, values and priorities. */
  lemma {:induction false} WriteRequestRoundTrip(specs: seq<WriteSpec>)
    requires forall s <- specs :: ValidWriteSpec(s)
    ensures DecodeWriteSpecs(Simulator, EncodeWriteRequest(specs)) == Ok(PlainSpecs(specs), |EncodeWriteRequest(specs)|)
    ensures specs != [] ==>
              DecodeWriteRequest(Simulator, EncodeWriteRequest(specs))
                == Ok(PlainSpecs(specs), |EncodeWriteRequest(specs)|)
    decreases |specs|
  {
    hide DecodeWriteSpec;
    hide EncodeWriteSpec;
    hide ValidWriteSpec;
    hide PlainSpec;
    if specs != [] {
      var tail := EncodeWriteRequest(specs[1..]);
      WriteSpecRoundTrip(specs[0], tail);
      WriteRequestRoundTrip(specs[1..]);
      assert EncodeWriteRequest(specs)[|EncodeWriteSpec(specs[0])|..] == tail;
    }
  }

  // ---- The loops ---------------------------------------------------------

  /** The innermost loop of the simulator's decodeWritePropertyMultiple: the values of one write. */
  method SimReadValues(b: Octets, start: nat) returns (r: Parsed<seq<AppValue>>)
    requires start <= |b|
    ensures r == SimValues(b[start..])
  {
    hide NextValue;
    hide ConstructedSize;
    hide Plain;
    var values, offset := [], start;
    AfterStep(values, 0, Null, 0, SimValues(b[start..]));
    while true
      invariant start <= offset <= |b|
      invariant SimValues(b[start..]) == After(values, offset - start, SimValues(b[offset..]))
      decreases |b| - offset
    {
      var closing := ConstructedSize(b[offset..], 2, false);
      if closing.None? {
        return Malformed;
      }
      if closing.value > 0 {
        assert values + [] == values;
        return Ok(values, offset + closing.value - start);
      }
      var next := NextValue(b[offset..]);
      if next.None? {
        return Malformed;
      }
      var (v, n) := next.value;
      assert b[offset..][n..] == b[offset + n..];
      AfterStep(values, offset - start, Plain(v), n, SimValues(b[offset + n..]));
      values, offset := values + [Plain(v)], offset + n;
    }
  }

  /** The body of the middle loop. */
  method SimReadWrite(b: Octets) returns (r: Parsed<PropertyWrite>)
    ensures r == SimWrite(b)
  {
    hide SimReference;
    hide SimValues;
    hide OpeningSize;
    hide TryUnsigned;
    var reference := SimReference(b);
    if !reference.Ok? {
      return Malformed;
    }
    var opening := OpeningSize(b[reference.size..], 2);
    if opening == 0 {
      return Malformed;
    }
    var values := SimReadValues(b, reference.size + opening);
    if !values.Ok? || values.value == [] {
      return Malformed;
    }
    var used := reference.size + opening + values.size;
    var priority := PriorityOf(TryUnsigned(b[used..], 3));
    if !priority.Ok? {
      return PriorityOutOfRange;
    }
    return Ok(PropertyWrite(reference.value, values.value, priority.value), used + priority.size);
  }

  /** The middle loop: the writes of one object. */
  method SimReadWrites(b: Octets, start: nat) returns (r: Parsed<seq<PropertyWrite>>)
    requires start <= |b|
    ensures r == SimWrites(b[start..])
  {
    hide SimWrite;
    hide ConstructedSize;
    var writes, offset := [], start;
    AfterStep(writes, 0, PropertyWrite(Reference(0, None), [], 0), 0, SimWrites(b[start..]));
    while true
      invariant start <= offset <= |b|
      invariant SimWrites(b[start..]) == After(writes, offset - start, SimWrites(b[offset..]))
      decreases |b| - offset
    {
      var rest := b[offset..];
      var closing := ConstructedSize(rest, 1, false);
      if closing.None? {
        return Malformed;
      }
      if closing.value > 0 {
        assert writes + [] == writes;
        return Ok(writes, offset + closing.value - start);
      }
      var write := SimReadWrite(rest);
      if write.Malformed? {
        return Malformed;
      }
      if write.PriorityOutOfRange? {
        return PriorityOutOfRange;
      }
      assert rest[write.size..] == b[offset + write.size..];
      AfterStep(writes, offset - start, write.value, write.size, SimWrites(b[offset + write.size..]));
      writes, offset := writes + [write.value], offset + write.size;
    }
  }

  /** decodeWritePropertyMultiple */
  method SimDecodeWriteRequest(b: Octets) returns (r: Parsed<seq<WriteSpec>>)
    ensures r == DecodeWriteRequest(Simulator, b)
  {
    hide SimWrites;
    hide LibWrites;
    hide ReadObjectId;
    hide OpeningSize;
    var specs, offset := [], 0;
    assert b[0..] == b;
    AfterStep(specs, 0, WriteSpec(ObjectId(0, 0), []), 0, DecodeWriteSpecs(Simulator, b));
    while offset < |b|
      invariant 0 <= offset <= |b|
      invariant DecodeWriteSpecs(Simulator, b) == After(specs, offset, DecodeWriteSpecs(Simulator, b[offset..]))
    {
      var rest := b[offset..];
      var object_ := ReadObjectId(rest, 0);
      if !object_.Ok? {
        return Malformed;
      }
      var opening := OpeningSize(rest[object_.size..], 1);
      if opening == 0 {
        return Malformed;
      }
      var start := object_.size + opening;
      var writes := SimReadWrites(rest, start);
      if writes.PriorityOutOfRange? {
        return PriorityOutOfRange;
      }
      if writes.Malformed? || writes.value == [] {
        return Malformed;
      }
      var spec, size := WriteSpec(object_.value, writes.value), start + writes.size;
      assert DecodeWriteSpec(Simulator, rest) == Ok(spec, size);
      assert rest[size..] == b[offset + size..];
      AfterStep(specs, offset, spec, size, DecodeWriteSpecs(Simulator, b[offset + size..]));
      specs, offset := specs + [spec], offset + size;
    }
    assert b[offset..] == [] && specs + [] == specs;
    if specs == [] {
      return Malformed;
    }
    return Ok(specs, offset);
  }

  /** The body of the property loop of the library's decodeWriteAccessSpec: bounds first,
      then the values between them. */
  method LibReadWrite(b: Octets) returns (r: Parsed<PropertyWrite>)
    ensures r == LibWrite(b)
  {
    hide LibReference;
    hide DecodeValues;
    hide Find;
    hide OpeningSize;
    hide OptionalUnsigned;
    var reference := LibReference(b);
    if !reference.Ok? {
      return Malformed;
    }
    var opening := OpeningSize(b[reference.size..], 2);
    if opening == 0 {
      return Malformed;
    }
    var content := reference.size + opening;
    var bounds := PropertyValueBounds(b, content, 2);
    if bounds.None? {
      return Malformed;
    }
    var v := bounds.value;
    assert b[content..][..v.contentEnd - content] == b[content..v.contentEnd];
    var values := ReadValues(b[content..v.contentEnd]);
    if values.None? || values.value == [] {
      return Malformed;
    }
    var priority := PriorityOf(OptionalUnsigned(b[v.valueEnd..], 3));
    if priority.Malformed? {
      return Malformed;
    }
    if priority.PriorityOutOfRange? {
      return PriorityOutOfRange;
    }
    return Ok(PropertyWrite(reference.value, values.value, priority.value), v.valueEnd + priority.size);
  }

  method LibReadWrites(b: Octets, start: nat) returns (r: Parsed<seq<PropertyWrite>>)
    requires start <= |b|
    ensures r == LibWrites(b[start..])
  {
    hide LibWrite;
    hide DecodeTag;
    var writes, offset := [], start;
    AfterStep(writes, 0, PropertyWrite(Reference(0, None), [], 0), 0, LibWrites(b[start..]));
    while true
      invariant start <= offset <= |b|
      invariant LibWrites(b[start..]) == After(writes, offset - start, LibWrites(b[offset..]))
      decreases |b| - offset
    {
      var rest := b[offset..];
      var header := DecodeTag(rest);
      if header.None? {
        return Malformed;
      }
      if header.value.tag.IsClosing(1) {
        assert writes + [] == writes;
        return Ok(writes, offset + header.value.size - start);
      }
      var write := LibReadWrite(rest);
      if write.Malformed? {
        return Malformed;
      }
      if write.PriorityOutOfRange? {
        return PriorityOutOfRange;
      }
      assert rest[write.size..] == b[offset + write.size..];
      AfterStep(writes, offset - start, write.value, write.size, LibWrites(b[offset + write.size..]));
      writes, offset := writes + [write.value], offset + write.size;
    }
  }

  /** A write as the caller gives it: a present priority may be anything, 0 included. */
  datatype GivenWrite = GivenWrite(reference: Reference, values: seq<AppValue>, priority: Option<Byte>)

  predicate Refused(w: GivenWrite) {
    w.values == [] || (w.priority.Some? && !(1 <= w.priority.value <= 16))
  }

  function WriteOf(w: GivenWrite): (p: PropertyWrite)
    ensures !Refused(w) ==> p.values != [] && p.priority <= 16 && (p.priority == 0 <==> w.priority.None?)
  {
    PropertyWrite(w.reference, w.values, if w.priority.Some? then w.priority.value else 0)
  }

  function WritesOf(ws: seq<GivenWrite>): (ps: seq<PropertyWrite>)
    ensures |ps| == |ws|
  {
    if ws == [] then [] else [WriteOf(ws[0])] + WritesOf(ws[1..])
  }

  /** WriteAccessSpec.MarshalBinary: refuses an empty list, an empty value list and a present
      priority outside 1..16. */
  method LibEncodeWriteSpec(o: ObjectId, ws: seq<GivenWrite>) returns (r: Option<Octets>)
    ensures r == if ws == [] || exists w <- ws :: Refused(w) then None
                 else Some(EncodeWriteSpec(WriteSpec(o, WritesOf(ws))))
  {
    hide WriteObjectId;
    hide EncodeWrites;
    hide EncodeOpening;
    hide EncodeClosing;
    hide WritesOf;
    hide Refused;
    if ws == [] {
      return None;
    }
    var list := LibWriteAll(ws);
    if list.None? {
      return None;
    }
    return Some(WriteObjectId(0, o) + (EncodeOpening(1) + (list.value + EncodeClosing(1))));
  }

  method LibWriteAll(ws: seq<GivenWrite>) returns (r: Option<Octets>)
    ensures r == if exists w <- ws :: Refused(w) then None else Some(EncodeWrites(WritesOf(ws)))
  {
    hide EncodeWrite;
    hide WriteOf;
    hide Refused;
    var buffer := [];
    for i := 0 to |ws|
      invariant forall k :: 0 <= k < i ==> !Refused(ws[k])
      invariant EncodeWrites(WritesOf(ws)) == buffer + EncodeWrites(WritesOf(ws[i..]))
    {
      if Refused(ws[i]) {
        return None;
      }
      assert ws[i..][1..] == ws[i + 1..];
      assert WritesOf(ws[i..])[1..] == WritesOf(ws[i + 1..]) && WritesOf(ws[i..])[0] == WriteOf(ws[i]);
      var encoded := LibWriteOne(ws[i]);
      buffer := buffer + encoded;
    }
    assert ws[|ws|..] == [] && WritesOf([]) == [] && EncodeWrites([]) == [];
    assert buffer == EncodeWrites(WritesOf(ws));
    return Some(buffer);
  }

  method LibWriteOne(w: GivenWrite) returns (encoded: Octets)
    requires !Refused(w)
    ensures encoded == EncodeWrite(WriteOf(w))
  {
    hide EncodeReference;
    hide EncodeOpening;
    hide EncodeClosing;
    hide EncodeValue;
    var values := WriteValues(w.values);
    encoded := EncodeReference(w.reference) + (EncodeOpening(2) + (values + EncodeClosing(2)));
    if w.priority.Some? {
      encoded := encoded + WriteUnsigned(3, w.priority.value);
    }
  }

  /** The value loop the encoders share. */
  method WriteValues(vs: seq<AppValue>) returns (buffer: Octets)
    ensures buffer == EncodeValues(vs)
  {
    hide EncodeValue;
    buffer := [];
    for i := 0 to |vs|
      invariant EncodeValues(vs) == buffer + EncodeValues(vs[i..])
    {
      assert vs[i..][1..] == vs[i + 1..];
      buffer := buffer + EncodeValue(vs[i]);
    }
    assert vs[|vs|..] == [];
  }
}
