/** COV notifications from the simulator to the library (simulator/services.go,
    bacnet/pdu/cov_notification.go). */
module CovMessages {
  import opened Octets
  import opened Tags
  import opened TagScanner
  import opened ApplicationValues
  import opened ContextFields
  import opened ValueLists
  import opened ReadRequests
  import opened PropertyCodec

  const DEVICE: Uint16 := 8

  // ---- Notifications -----------------------------------------------------

  datatype Report = Report(reference: Reference, values: seq<AppValue>)

  datatype Notification = Notification(process: Uint32, device: Uint32, object_: ObjectId, remaining: Uint32,
                                       reports: seq<Report>)

  function EncodeReports(rs: seq<Report>): (b: Octets)
  {
    if rs == [] then [] else EncodeBody(0, rs[0].reference, rs[0].values) + EncodeReports(rs[1..])
  }

  function EncodeHead(n: Notification): (b: Octets)
  {
    WriteUnsigned(0, n.process) + (WriteObjectId(1, ObjectId(DEVICE, n.device))
      + (WriteObjectId(2, n.object_) + WriteUnsigned(3, n.remaining)))
  }

  /** encodeCOVNotification */
  function EncodeNotification(n: Notification): (b: Octets)
  {
    EncodeHead(n) + (EncodeOpening(4) + (EncodeReports(n.reports) + EncodeClosing(4)))
  }

  /** What the library decodes of one property, with the priority that may follow it. */
  datatype Received = Received(property: Property, priority: Byte)

  function ReportPriority(b: Octets): (r: Parsed<Byte>)
    ensures r.Ok? ==> r.size <= |b|
  {
    if b == [] then Ok(0, 0)
    else if DecodeTag(b).None? then Malformed
    else match OptionalUnsigned(b, 3)
      case Ok(None, n) => Ok(0, n)
      case Ok(Some(p), n) => if 1 <= p <= 16 then Ok(p, n) else Malformed
      case _ => Malformed
  }

  /** The loop over the list of values, up to the closing tag [4]. */
  function DecodeReports(b: Octets, known: ObjectId): (r: Parsed<seq<Received>>)
    ensures r.Ok? ==> 1 <= r.size <= |b|
    decreases |b|
  {
    match DecodeTag(b)
    case None => Malformed
    case Some(h) =>
      if h.tag.IsClosing(4) then Ok([], h.size)
      else match DecodeProperty(b, Some(known))
        case Ok(p, n) =>
          (match ReportPriority(b[n..])
           case Ok(priority, k) => After([Received(p, priority)], n + k, DecodeReports(b[n + k..], known))
           case _ => Malformed)
        case _ => Malformed
  }

  datatype Head = Head(process: Uint32, device: ObjectId, object_: ObjectId, remaining: Uint32)

  function DecodeHead(b: Octets): (r: Parsed<Head>)
    ensures r.Ok? ==> r.size <= |b|
  {
    match ReadUnsigned(b, 0)
    case Ok(process, i) =>
      (match ReadObjectId(b[i..], 1)
       case Ok(device, j) =>
         if device.kind != DEVICE then Malformed
         else (match ReadObjectId(b[i + j..], 2)
           case Ok(object_, k) =>
             (match ReadUnsigned(b[i + j + k..], 3)
              case Ok(remaining, m) => Ok(Head(process, device, object_, remaining), i + j + k + m)
              case _ => Malformed)
           case _ => Malformed)
       case _ => Malformed)
    case _ => Malformed
  }

  datatype Decoded = Decoded(head: Head, list: seq<Received>)

  /** CovNotification.UnmarshalBinary */
  function DecodeNotification(b: Octets): (r: Option<Decoded>)
  {
    match DecodeHead(b)
    case Ok(head, n) =>
      var open := DecodeTag(b[n..]);
      if open.None? || !open.value.tag.IsOpening(4) then None
      else (match DecodeReports(b[n + open.value.size..], head.object_)
        case Ok(rs, m) => if n + open.value.size + m != |b| || rs == [] then None else Some(Decoded(head, rs))
        case _ => None)
    case _ => None
  }

  /** What the client should see of a notification. */
  function Seen(o: ObjectId, rs: seq<Report>): (ps: seq<Received>)
  {
    if rs == [] then []
    else [Received(Property(Some(o), rs[0].reference, Values(rs[0].values)), 0)] + Seen(o, rs[1..])
  }

  function Content(n: Notification): (d: Decoded)
  {
    Decoded(Head(n.process, ObjectId(DEVICE, n.device), n.object_, n.remaining), Seen(n.object_, n.reports))
  }

  predicate ValidNotification(n: Notification) {
    n.device <= MAX_INSTANCE && ObjectIdInRange(n.object_) && forall r <- n.reports :: AllWellFormed(r.values)
  }

  /** A property id of four octets looks like an object identifier. */
  predicate Short(r: Report) {
    r.reference.id < 0x100_0000
  }

  lemma BodyStarts(r: Report, rest: Octets)
    ensures var b := EncodeBody(0, r.reference, r.values) + rest;
            AtPrimitive(b, 0) && (StartsFull(b) <==> !Short(r))
  {
    hide DecodeTag;
    hide EncodePrimitive;
    hide EncodeValues;
    hide WriteOptional;
    var id := WriteUnsigned(0, r.reference.id);
    var tail := WriteOptional(1, r.reference.index) + (EncodeOpening(2) + (EncodeValues(r.values) + EncodeClosing(2)));
    assert EncodeBody(0, r.reference, r.values) + rest == id + (tail + rest);
    WrittenUnsigned(0, r.reference.id, tail + rest);
  }

  /** A short id: the property is read back, and no priority is seen after it. */
  lemma ShortReportRoundTrip(r: Report, known: ObjectId, rest: Octets)
    requires Short(r) && AllWellFormed(r.values) && DecodeTag(rest).Some? && !AtPrimitive(rest, 3)
    ensures var body := EncodeBody(0, r.reference, r.values);
            && DecodeProperty(body + rest, Some(known))
                 == Ok(Property(Some(known), r.reference, Values(r.values)), |body|)
            && ReportPriority((body + rest)[|body|..]) == Ok(0, 0)
  {
    hide DecodeTag;
    hide DecodeBody;
    hide EncodeBody;
    hide AtPrimitive;
    hide AllWellFormed;
    hide StartsFull;
    var body := EncodeBody(0, r.reference, r.values);
    BodyRoundTrip(0, r.reference, r.values, rest);
    BodyStarts(r, rest);
    AtPrimitiveIsTagged(body + rest, 0);
    assert (body + rest)[|body|..] == rest;
  }

  /** A long id: the property is refused. */
  lemma LongReportIsRefused(r: Report, known: ObjectId, rest: Octets)
    requires !Short(r)
    ensures DecodeProperty(EncodeBody(0, r.reference, r.values) + rest, Some(known)) == Malformed
  {
    hide DecodeTag;
    hide AtPrimitive;
    hide EncodeValues;
    hide EncodeOpening;
    hide EncodeClosing;
    hide DecodeBody;
    hide ReadObjectId;
    hide WriteUnsigned;
    hide WriteOptional;
    hide StartsFull;
    var id, index := WriteUnsigned(0, r.reference.id), WriteOptional(1, r.reference.index);
    var content := EncodeOpening(2) + (EncodeValues(r.values) + EncodeClosing(2));
    var b := EncodeBody(0, r.reference, r.values) + rest;
    assert b == id + (index + (content + rest));
    BodyStarts(r, rest);
    LongIdIsAnObject(r.reference.id, index + (content + rest));
    assert b[|id|..] == index + (content + rest);
    assert content + rest == EncodeOpening(2) + (EncodeValues(r.values) + EncodeClosing(2) + rest);
    WrittenConstructed(2, EncodeValues(r.values) + EncodeClosing(2) + rest);
    NoBodyHere(r.reference.index, content + rest);
  }

  lemma LongIdIsAnObject(id: Uint32, rest: Octets)
    requires id >= 0x100_0000
    ensures var b := WriteUnsigned(0, id) + rest;
            ReadObjectId(b, 0).Ok? && ReadObjectId(b, 0).size == |WriteUnsigned(0, id)|
  {
    hide DecodeTag;
    hide EncodePrimitive;
    WrittenContext(0, EncodeVarUint(id), rest);
  }

  /** An index and a value under tags [1] and [2] are no property body under [1], [2], [3]. */
  lemma NoBodyHere(index: Option<Uint32>, content: Octets)
    requires DecodeTag(content).Some? && DecodeTag(content).value.tag == Tag(2, 0, true, true, false)
    ensures DecodeBody(WriteOptional(1, index) + content, 1) == Malformed
  {
    hide DecodeTag;
    hide EncodePrimitive;
    hide ReadUnsigned;
    hide WriteUnsigned;
    hide Find;
    hide ReadFlat;
    if index.None? {
      assert WriteOptional(1, index) + content == content;
      assert ReadUnsigned(content, 1) == Malformed by { OpeningIsNoField(content, 1); }
    } else {
      var field := WriteUnsigned(1, index.value);
      WrittenUnsigned(1, index.value, content);
      assert (field + content)[|field|..] == content;
      OpeningIsNoField(content, 2);
    }
  }

  lemma OpeningIsNoField(b: Octets, number: Byte)
    requires DecodeTag(b).Some? && DecodeTag(b).value.tag.opening
    ensures ReadUnsigned(b, number) == Malformed && OptionalUnsigned(b, number) == Ok(None, 0)
  {
    hide DecodeTag;
  }

  /** The list is read back exactly when every id is short. */
  lemma {:induction false} ReportsRoundTrip(rs: seq<Report>, known: ObjectId)
    requires forall r <- rs :: AllWellFormed(r.values)
    ensures var b := EncodeReports(rs) + EncodeClosing(4);
            && DecodeTag(b).Some? && !AtPrimitive(b, 3)
            && DecodeReports(b, known) == (if forall r <- rs :: Short(r) then Ok(Seen(known, rs), |b|) else Malformed)
    decreases |rs|
  {
    hide DecodeTag;
    hide AtPrimitive;
    hide EncodeBody;
    hide EncodeClosing;
    hide DecodeProperty;
    hide ReportPriority;
    hide AllWellFormed;
    hide Short;
    var b := EncodeReports(rs) + EncodeClosing(4);
    if rs == [] {
      assert b == EncodeClosing(4) + [];
      WrittenConstructed(4, []);
    } else {
      var body, tail := EncodeBody(0, rs[0].reference, rs[0].values), EncodeReports(rs[1..]) + EncodeClosing(4);
      ReportsRoundTrip(rs[1..], known);
      assert b == body + tail;
      BodyStarts(rs[0], tail);
      PrimitiveZero(b);
      assert b[|body|..] == tail;
      assert (forall r <- rs :: Short(r)) <==> Short(rs[0]) && forall r <- rs[1..] :: Short(r) by {
        assert rs == [rs[0]] + rs[1..];
      }
      if Short(rs[0]) {
        ShortReportRoundTrip(rs[0], known, tail);
      } else {
        LongReportIsRefused(rs[0], known, tail);
      }
    }
  }

  lemma PrimitiveZero(b: Octets)
    requires AtPrimitive(b, 0)
    ensures DecodeTag(b).Some? && !DecodeTag(b).value.tag.IsClosing(4) && !AtPrimitive(b, 3)
  {
  }

  lemma HeadRoundTrip(n: Notification, rest: Octets)
    requires ValidNotification(n)
    ensures DecodeHead(EncodeHead(n) + rest) == Ok(Content(n).head, |EncodeHead(n)|)
  {
    hide DecodeTag;
    hide AtPrimitive;
    hide ReadUnsigned;
    hide ReadObjectId;
    hide WriteUnsigned;
    hide WriteObjectId;
    hide AllWellFormed;
    var device := ObjectId(DEVICE, n.device);
    var p, d := WriteUnsigned(0, n.process), WriteObjectId(1, device);
    var o, t := WriteObjectId(2, n.object_), WriteUnsigned(3, n.remaining);
    var b := EncodeHead(n) + rest;
    assert b == p + (d + (o + (t + rest)));
    WrittenUnsigned(0, n.process, d + (o + (t + rest)));
    assert b[|p|..] == d + (o + (t + rest));
    WrittenObjectId(1, device, o + (t + rest));
    assert b[|p| + |d|..] == o + (t + rest);
    WrittenObjectId(2, n.object_, t + rest);
    assert b[|p| + |d| + |o|..] == t + rest;
    WrittenUnsigned(3, n.remaining, rest);
  }

  /** Server to client: a notification decodes to the same content, every octet consumed,
      exactly when it reports something and every property id is below 2^24. */
  lemma NotificationRoundTrip(n: Notification)
    requires ValidNotification(n)
    ensures DecodeNotification(EncodeNotification(n)) == Some(Content(n))
       <==> n.reports != [] && forall r <- n.reports :: Short(r)
    ensures DecodeNotification(EncodeNotification(n)) in {None, Some(Content(n))}
  {
    hide DecodeTag;
    hide AtPrimitive;
    hide DecodeHead;
    hide EncodeHead;
    hide DecodeReports;
    hide EncodeReports;
    hide EncodeOpening;
    hide EncodeClosing;
    hide AllWellFormed;
    hide Short;
    var head, open := EncodeHead(n), EncodeOpening(4);
    var list := EncodeReports(n.reports) + EncodeClosing(4);
    var b := EncodeNotification(n);
    HeadRoundTrip(n, open + list);
    assert b[|head|..] == open + list && b[|head| + |open|..] == list;
    WrittenConstructed(4, list);
    ReportsRoundTrip(n.reports, n.object_);
    assert Seen(n.object_, n.reports) == [] <==> n.reports == [];
  }

  /** The decoder's loop over the list of values. */
  method LibReadReports(b: Octets, start: nat, known: ObjectId) returns (r: Parsed<seq<Received>>)
    requires start <= |b|
    ensures r == DecodeReports(b[start..], known)
  {
    hide DecodeProperty;
    hide ReportPriority;
    hide DecodeTag;
    var list, offset := [], start;
    AfterStep(list, 0, Received(Property(None, Reference(0, None), NoContent), 0), 0, DecodeReports(b[start..], known));
    while true
      invariant start <= offset <= |b|
      invariant DecodeReports(b[start..], known) == After(list, offset - start, DecodeReports(b[offset..], known))
      decreases |b| - offset
    {
      var rest := b[offset..];
      var header := DecodeTag(rest);
      if header.None? {
        return Malformed;
      }
      if header.value.tag.IsClosing(4) {
        assert list + [] == list;
        return Ok(list, offset + header.value.size - start);
      }
      var property := UnmarshalProperty(rest, Some(known));
      if !property.Ok? {
        return Malformed;
      }
      var priority := ReportPriority(rest[property.size..]);
      if !priority.Ok? {
        return Malformed;
      }
      var n := property.size + priority.size;
      assert rest[n..] == b[offset + n..];
      var received := Received(property.value, priority.value);
      AfterStep(list, offset - start, received, n, DecodeReports(b[offset + n..], known));
      list, offset := list + [received], offset + n;
    }
  }
}
