/** The wire format on the octets that the repository's own tests expect: what the encoders write
    for known requests, values and headers. */
module WireFormat {
  import opened Octets
  import opened Tags
  import opened ApplicationValues
  import opened ContextFields
  import opened ReadRequests
  import opened WriteRequests
  import opened PropertyCodec
  import opened SubscribeRequests
  import opened Datagram
  import opened ReadResults
  import Network
  import CovMessages
  import Model
  import Replies
  import Responder

  lemma SignedNumbers()
    ensures EncodeVarInt(127) == [0x7F] && EncodeVarInt(128) == [0x00, 0x80] && EncodeVarInt(-1) == [0xFF]
    ensures EncodeVarInt(-129) == [0xFF, 0x7F] && EncodeVarInt(32768) == [0x00, 0x80, 0x00]
    ensures EncodeVarInt(-8388608) == [0x80, 0x00, 0x00]
    ensures EncodeVarInt(-0x8000_0000) == [0x80, 0x00, 0x00, 0x00]
  {
  }

  lemma TagHeaders()
    ensures EncodePrimitive(false, 2, 300) == [0x25, 0xFE, 0x01, 0x2C]
    ensures EncodePrimitive(false, 15, 3) == [0xF3, 0x0F]
    ensures EncodePrimitive(true, 15, 300) == [0xFD, 0x0F, 0xFE, 0x01, 0x2C]
    ensures EncodeOpening(15) == [0xFE, 0x0F] && EncodeClosing(15) == [0xFF, 0x0F]
  {
  }

  lemma Identifiers()
    ensures EncodeObjectId(ObjectId(8, 0x3F_FFFF)) == [0x02, 0x3F, 0xFF, 0xFF]
    ensures EncodeObjectId(ObjectId(0, 70000)) == [0x00, 0x01, 0x11, 0x70]
  {
    Word(ObjectId(8, 0x3F_FFFF), 0x023F_FFFF);
    Word(ObjectId(0, 70000), 0x0001_1170);
  }

  lemma Word(o: ObjectId, w: Uint32)
    requires ObjectIdInRange(o) && w == o.kind * 0x40_0000 + o.instance
    ensures EncodeObjectId(o) == EncodeUint32(w)
  {
    FieldsFit(o);
  }

  lemma IdentifierField(number: Byte, o: ObjectId, w: Uint32)
    requires number <= 14 && ObjectIdInRange(o) && w == o.kind * 0x40_0000 + o.instance
    ensures WriteObjectId(number, o) == [number * 16 + 12] + EncodeUint32(w)
  {
    hide EncodeUint32;
    hide EncodeObjectId;
    Word(o, w);
  }

  lemma BitStrings()
    ensures Payload(BitString([0x01, 0x80])) == [0x00, 0x80, 0x01]
  {
    assert ReverseEach([0x01, 0x80]) == [0x80, 0x01];
  }

  /** A time synchronization: Friday 17 July 2026, 14:30:15.25. */
  lemma DateAndTime()
    ensures EncodeValues([Date(2026, 7, 17, 5), Time(14, 30, 15, 25)])
         == [0xA4, 0x7E, 0x07, 0x11, 0x05, 0xB4, 0x0E, 0x1E, 0x0F, 0x19]
  {
    var date, time := Date(2026, 7, 17, 5), Time(14, 30, 15, 25);
    assert EncodeValue(date) == [0xA4, 0x7E, 0x07, 0x11, 0x05];
    assert EncodeValue(time) == [0xB4, 0x0E, 0x1E, 0x0F, 0x19];
    hide EncodeValue;
    assert [date, time][1..] == [time] && [time][1..] == [];
    assert EncodeValues([time]) == EncodeValue(time) + EncodeValues([]);
  }

  lemma ObjectField()
    ensures WriteObjectId(0, ObjectId(1, 1)) == [0x0C, 0x00, 0x40, 0x00, 0x01]
  {
    hide WriteObjectId;
    IdentifierField(0, ObjectId(1, 1), 0x0040_0001);
  }

  lemma PropertyFields()
    ensures WriteUnsigned(1, 85) == [0x19, 0x55] && WriteUnsigned(2, 1) == [0x29, 0x01]
    ensures EncodeOpening(3) == [0x3E] && EncodeClosing(3) == [0x3F]
  {
  }

  lemma TwoNumbers()
    ensures EncodeValues([Unsigned(1), Unsigned(2)]) == [0x21, 0x01, 0x21, 0x02]
  {
    var a, b := Unsigned(1), Unsigned(2);
    assert EncodeValue(a) == [0x21, 0x01] && EncodeValue(b) == [0x21, 0x02];
    hide EncodeValue;
    assert [a, b][1..] == [b] && [b][1..] == [];
    assert EncodeValues([b]) == EncodeValue(b) + EncodeValues([]);
  }

  /** Present_Value of analog output 1, bare, with an index, and with two values. */
  lemma Properties()
    ensures var o, r := ObjectId(1, 1), Reference(85, None);
            && EncodeProperty(o, r, []) == [0x0C, 0x00, 0x40, 0x00, 0x01, 0x19, 0x55]
            && EncodeProperty(o, r.(index := Some(1)), [])
                 == [0x0C, 0x00, 0x40, 0x00, 0x01, 0x19, 0x55, 0x29, 0x01]
            && EncodeProperty(o, r, [Unsigned(1), Unsigned(2)])
                 == [0x0C, 0x00, 0x40, 0x00, 0x01, 0x19, 0x55, 0x3E, 0x21, 0x01, 0x21, 0x02, 0x3F]
  {
    hide EncodeValues;
    hide WriteObjectId;
    hide WriteUnsigned;
    hide EncodeOpening;
    hide EncodeClosing;
    ObjectField();
    PropertyFields();
    TwoNumbers();
  }

  lemma ObjectFields()
    ensures WriteObjectId(0, ObjectId(2, 1)) == [0x0C, 0x00, 0x80, 0x00, 0x01]
    ensures WriteObjectId(0, ObjectId(5, 2)) == [0x0C, 0x01, 0x40, 0x00, 0x02]
    ensures EncodeOpening(1) == [0x1E] && EncodeClosing(1) == [0x1F]
  {
    hide WriteObjectId;
    IdentifierField(0, ObjectId(2, 1), 0x0080_0001);
    IdentifierField(0, ObjectId(5, 2), 0x0140_0002);
  }

  /** Two objects, one of them with a priority. */
  lemma WriteMultiple()
    ensures EncodeWriteRequest([WriteSpec(ObjectId(2, 1), [PropertyWrite(Reference(85, None), [Real(0x41A8_0000)], 8)]),
                                WriteSpec(ObjectId(5, 2), [PropertyWrite(Reference(85, None), [Enumerated(1)], 0)])])
         == [0x0C, 0x00, 0x80, 0x00, 0x01, 0x1E, 0x09, 0x55, 0x2E, 0x44, 0x41, 0xA8, 0x00, 0x00, 0x2F, 0x39, 0x08, 0x1F,
             0x0C, 0x01, 0x40, 0x00, 0x02, 0x1E, 0x09, 0x55, 0x2E, 0x91, 0x01, 0x2F, 0x1F]
  {
    hide WriteObjectId;
    hide EncodeWrite;
    hide EncodeWriteSpec;
    hide EncodeOpening;
    hide EncodeClosing;
    var v, w := PropertyWrite(Reference(85, None), [Real(0x41A8_0000)], 8),
                PropertyWrite(Reference(85, None), [Enumerated(1)], 0);
    var s, t := WriteSpec(ObjectId(2, 1), [v]), WriteSpec(ObjectId(5, 2), [w]);
    FirstWrite();
    SecondWrite();
    OneWrite(ObjectId(2, 1), v);
    OneWrite(ObjectId(5, 2), w);
    ObjectFields();
    assert [s, t][1..] == [t] && [t][1..] == [];
    assert EncodeWriteRequest([t]) == EncodeWriteSpec(t) + EncodeWriteRequest([]);
  }

  lemma OneWrite(o: ObjectId, w: PropertyWrite)
    ensures EncodeWriteSpec(WriteSpec(o, [w]))
         == WriteObjectId(0, o) + (EncodeOpening(1) + (EncodeWrite(w) + EncodeClosing(1)))
  {
    hide EncodeWrite;
    hide WriteObjectId;
    assert [w][1..] == [];
    assert EncodeWrites([w]) == EncodeWrite(w) + EncodeWrites([]);
  }

  lemma FirstWrite()
    ensures EncodeWrite(PropertyWrite(Reference(85, None), [Real(0x41A8_0000)], 8))
         == [0x09, 0x55, 0x2E, 0x44, 0x41, 0xA8, 0x00, 0x00, 0x2F, 0x39, 0x08]
  {
    var v := Real(0x41A8_0000);
    assert EncodeValue(v) == [0x44, 0x41, 0xA8, 0x00, 0x00];
    assert [v][1..] == [] && EncodeValues([v]) == EncodeValue(v) + EncodeValues([]);
    assert WriteUnsigned(0, 85) == [0x09, 0x55] && WritePriority(8) == [0x39, 0x08];
  }

  lemma SecondWrite()
    ensures EncodeWrite(PropertyWrite(Reference(85, None), [Enumerated(1)], 0))
         == [0x09, 0x55, 0x2E, 0x91, 0x01, 0x2F]
  {
    var v := Enumerated(1);
    assert EncodeValue(v) == [0x91, 0x01];
    assert [v][1..] == [] && EncodeValues([v]) == EncodeValue(v) + EncodeValues([]);
    assert WriteUnsigned(0, 85) == [0x09, 0x55] && WritePriority(0) == [];
  }

  lemma Subscriptions()
    ensures EncodeSubscribe(Subscribe(18, ObjectId(2, 7), false, true, Some(0)))
         == [0x09, 0x12, 0x1C, 0x00, 0x80, 0x00, 0x07, 0x29, 0x01, 0x39, 0x00]
    ensures EncodeSubscribe(Subscribe(18, ObjectId(2, 7), false, false, Some(300)))
         == [0x09, 0x12, 0x1C, 0x00, 0x80, 0x00, 0x07, 0x29, 0x00, 0x3A, 0x01, 0x2C]
    ensures EncodeSubscribe(Subscribe(18, ObjectId(2, 7), true, false, None))
         == [0x09, 0x12, 0x1C, 0x00, 0x80, 0x00, 0x07]
  {
    hide WriteObjectId;
    hide WriteUnsigned;
    hide WriteContext;
    IdentifierField(1, ObjectId(2, 7), 0x0080_0007);
    SubscribeFields();
  }

  lemma SubscribeFields()
    ensures WriteUnsigned(0, 18) == [0x09, 0x12]
    ensures WriteUnsigned(3, 0) == [0x39, 0x00] && WriteUnsigned(3, 300) == [0x3A, 0x01, 0x2C]
    ensures WriteContext(2, [1]) == [0x29, 0x01] && WriteContext(2, [0]) == [0x29, 0x00]
  {
  }

  lemma TwoErrors()
    ensures EncodeValues([Enumerated(2), Enumerated(32)]) == [0x91, 0x02, 0x91, 0x20]
  {
    var class_, code := Enumerated(2), Enumerated(32);
    assert EncodeValue(class_) == [0x91, 0x02] && EncodeValue(code) == [0x91, 0x20];
    hide EncodeValue;
    assert [class_, code][1..] == [code] && [code][1..] == [];
    assert EncodeValues([code]) == EncodeValue(code) + EncodeValues([]);
  }

  lemma Apdus()
    ensures EncodeApdu(Unconfirmed(8, [])) == Some([0x10, 0x08])
    ensures EncodeApdu(Confirmed(false, 0, 1476, 0, 12, [])) == Some([0x00, 0x05, 0x00, 0x0C])
    ensures EncodeApdu(SimpleAck(0x7E, 15)) == Some([0x20, 0x7E, 0x0F])
    ensures EncodeApdu(ErrorPdu(0x7E, 12, 2, 32, [])) == Some([0x50, 0x7E, 0x0C, 0x91, 0x02, 0x91, 0x20])
    ensures EncodeApdu(Abort(false, 0x7E, 0)) == Some([0x70, 0x7E, 0x00])
  {
    hide EncodeValues;
    TwoErrors();
    assert EncodeApdu(Unconfirmed(8, [])).value == [0x10, 0x08];
    assert EncodeApdu(Confirmed(false, 0, 1476, 0, 12, [])).value == [0x00, 0x05, 0x00, 0x0C];
    assert EncodeApdu(ErrorPdu(0x7E, 12, 2, 32, [])).value == [0x50, 0x7E, 0x0C, 0x91, 0x02, 0x91, 0x20];
  }

  lemma ErrorOctets(class_: Byte, code: Byte)
    ensures EncodeValues(ErrorValues(class_, code)) == [0x91, class_, 0x91, code]
  {
    var a, b := Enumerated(class_), Enumerated(code);
    assert EncodeValue(a) == [0x91, class_] && EncodeValue(b) == [0x91, code];
    hide EncodeValue;
    assert [a, b][1..] == [b] && [b][1..] == [];
    assert EncodeValues([b]) == EncodeValue(b) + EncodeValues([]);
  }

  /** The Error a client gets when a read or a write is refused. */
  function Refusal(e: Model.Error): (b: Option<Octets>)
  {
    var c := Replies.ClassCodeOf(e);
    EncodeApdu(ErrorPdu(0x2A, 15, c.class_, c.code, []))
  }

  /** Its octets for each refusal: class object with unknown-object; class property with
      unknown-property, property-is-not-an-array, invalid-array-index, write-access-denied,
      value-out-of-range, invalid-data-type; class services with service-request-denied. */
  lemma Refusals()
    ensures Refusal(Model.UnknownObject) == Some([0x50, 0x2A, 15, 0x91, 1, 0x91, 31])
    ensures Refusal(Model.UnknownProperty) == Some([0x50, 0x2A, 15, 0x91, 2, 0x91, 32])
    ensures Refusal(Model.NotArray) == Some([0x50, 0x2A, 15, 0x91, 2, 0x91, 50])
    ensures Refusal(Model.InvalidArrayIndex) == Some([0x50, 0x2A, 15, 0x91, 2, 0x91, 42])
    ensures Refusal(Model.WriteDenied) == Some([0x50, 0x2A, 15, 0x91, 2, 0x91, 40])
    ensures Refusal(Model.ReservedPriority) == Refusal(Model.WriteDenied)
    ensures Refusal(Model.ValueOutOfRange) == Some([0x50, 0x2A, 15, 0x91, 2, 0x91, 37])
    ensures Refusal(Model.InvalidPriority) == Refusal(Model.ValueOutOfRange)
    ensures Refusal(Model.InvalidDataType) == Some([0x50, 0x2A, 15, 0x91, 2, 0x91, 9])
    ensures Refusal(Model.ValueRequired) == Some([0x50, 0x2A, 15, 0x91, 5, 0x91, 29])
  {
    hide EncodeValues;
    forall e: Model.Error
      ensures var c := Replies.ClassCodeOf(e); Refusal(e) == Some([0x50, 0x2A, 15, 0x91, c.class_, 0x91, c.code])
    {
      var c := Replies.ClassCodeOf(e);
      ErrorOctets(c.class_, c.code);
      assert [0x50, 0x2A, 15] + [0x91, c.class_, 0x91, c.code] == [0x50, 0x2A, 15, 0x91, c.class_, 0x91, c.code];
    }
    hide Refusal;
  }

  /** A segmented request is aborted, and an unknown service rejected. */
  lemma AbortsAndRejects()
    ensures EncodeApdu(Abort(true, 37, Responder.SEGMENTATION_NOT_SUPPORTED)) == Some([0x71, 37, 4])
    ensures EncodeApdu(Reject(37, Responder.UNRECOGNIZED_SERVICE)) == Some([0x60, 37, 9])
  {
  }

  /** Values whose octets the other examples do not show. */
  lemma Values()
    ensures EncodeValue(Null) == [0x00] && EncodeValue(Boolean(true)) == [0x11] && EncodeValue(Boolean(false)) == [0x10]
    ensures EncodeValue(Double(0x3FF0_0000, 0)) == [0x55, 0x08, 0x3F, 0xF0, 0, 0, 0, 0, 0, 0]
    ensures EncodeValue(CharacterString(0, [0x70, 0x75, 0x6D, 0x70])) == [0x75, 0x05, 0x00, 0x70, 0x75, 0x6D, 0x70]
    ensures EncodeValue(OctetString([1, 2])) == [0x62, 1, 2] && EncodeValue(Signed(-1)) == [0x31, 0xFF]
  {
  }

  /** Present_Value and one element of Priority_Array of analog input 1. */
  lemma ReadMultiple()
    ensures EncodeRequest([ReadSpec(ObjectId(0, 1), [Reference(85, None), Reference(87, Some(3))])])
         == [0x0C, 0x00, 0x00, 0x00, 0x01, 0x1E, 0x09, 0x55, 0x09, 0x57, 0x19, 0x03, 0x1F]
  {
    ReadFields();
    hide WriteObjectId;
    hide WriteUnsigned;
    hide EncodeOpening;
    hide EncodeClosing;
    IdentifierField(0, ObjectId(0, 1), 0x0000_0001);
    var a, b := Reference(85, None), Reference(87, Some(3));
    var s := ReadSpec(ObjectId(0, 1), [a, b]);
    assert [a, b][1..] == [b] && [b][1..] == [] && [s][1..] == [];
    assert EncodeReferences([b]) == EncodeReference(b) + EncodeReferences([]);
    assert EncodeRequest([s]) == EncodeSpec(s) + EncodeRequest([]);
  }

  lemma ReadFields()
    ensures WriteUnsigned(0, 85) == [0x09, 0x55] && WriteUnsigned(0, 87) == [0x09, 0x57]
    ensures WriteUnsigned(1, 3) == [0x19, 0x03] && EncodeOpening(1) == [0x1E] && EncodeClosing(1) == [0x1F]
  {
  }

  /** Its acknowledgement: a value and an error. */
  lemma ReadAck()
    ensures EncodeAck([AccessResult(ObjectId(0, 1), [PropertyResult(Reference(85, None), Answered([Real(0x41B4_0000)])),
                                                     PropertyResult(Reference(87, None), Failed(2, 32))])])
         == [0x0C, 0x00, 0x00, 0x00, 0x01, 0x1E, 0x29, 0x55, 0x4E, 0x44, 0x41, 0xB4, 0x00, 0x00, 0x4F,
             0x29, 0x57, 0x5E, 0x91, 0x02, 0x91, 0x20, 0x5F, 0x1F]
  {
    hide EncodeAck;
    hide WriteObjectId;
    hide EncodeResult;
    hide EncodeOpening;
    hide EncodeClosing;
    FirstResult();
    SecondResult();
    ReadFields();
    IdentifierField(0, ObjectId(0, 1), 0x0000_0001);
    OneAccess(ObjectId(0, 1), PropertyResult(Reference(85, None), Answered([Real(0x41B4_0000)])),
              PropertyResult(Reference(87, None), Failed(2, 32)));
  }

  lemma OneAccess(o: ObjectId, a: PropertyResult, b: PropertyResult)
    ensures EncodeAck([AccessResult(o, [a, b])])
         == WriteObjectId(0, o) + (EncodeOpening(1) + (EncodeResult(a) + EncodeResult(b) + EncodeClosing(1)))
  {
    hide WriteObjectId;
    hide EncodeResult;
    hide EncodeOpening;
    hide EncodeClosing;
    var x := AccessResult(o, [a, b]);
    assert [a, b][1..] == [b] && [b][1..] == [] && [x][1..] == [];
    assert EncodeResults([b]) == EncodeResult(b) + EncodeResults([]);
    assert EncodeAck([x]) == EncodeAccess(x) + EncodeAck([]);
  }

  lemma FirstResult()
    ensures EncodeResult(PropertyResult(Reference(85, None), Answered([Real(0x41B4_0000)])))
         == [0x29, 0x55, 0x4E, 0x44, 0x41, 0xB4, 0x00, 0x00, 0x4F]
  {
    var v := Real(0x41B4_0000);
    assert EncodeValue(v) == [0x44, 0x41, 0xB4, 0x00, 0x00];
    hide EncodeValue;
    assert [v][1..] == [] && EncodeValues([v]) == EncodeValue(v) + EncodeValues([]);
    assert WriteUnsigned(2, 85) == [0x29, 0x55];
    hide WriteUnsigned;
    assert EncodeOpening(4) == [0x4E] && EncodeClosing(4) == [0x4F];
  }

  lemma SecondResult()
    ensures EncodeResult(PropertyResult(Reference(87, None), Failed(2, 32)))
         == [0x29, 0x57, 0x5E, 0x91, 0x02, 0x91, 0x20, 0x5F]
  {
    ErrorOctets(2, 32);
    hide EncodeValues;
    assert WriteUnsigned(2, 87) == [0x29, 0x57];
    hide WriteUnsigned;
    assert EncodeOpening(5) == [0x5E] && EncodeClosing(5) == [0x5F];
  }

  /** A notification of analog input 1 on device 1. */
  lemma Notifications()
    ensures CovMessages.EncodeNotification(
              CovMessages.Notification(0xFFFF_FFFF, 1, ObjectId(0, 1), 0,
                                       [CovMessages.Report(Reference(85, None), [Unsigned(1)])]))
         == [0x0C, 0xFF, 0xFF, 0xFF, 0xFF, 0x1C, 0x02, 0x00, 0x00, 0x01, 0x2C, 0x00, 0x00, 0x00, 0x01, 0x39, 0x00,
             0x4E, 0x09, 0x55, 0x2E, 0x21, 0x01, 0x2F, 0x4F]
  {
    NoticeFields();
    OneReport();
    hide WriteObjectId;
    hide WriteUnsigned;
    hide EncodeOpening;
    hide EncodeClosing;
    hide EncodeBody;
    IdentifierField(1, ObjectId(8, 1), 0x0200_0001);
    IdentifierField(2, ObjectId(0, 1), 0x0000_0001);
    var r := CovMessages.Report(Reference(85, None), [Unsigned(1)]);
    assert [r][1..] == [];
    assert CovMessages.EncodeReports([r]) == EncodeBody(0, r.reference, r.values) + CovMessages.EncodeReports([]);
  }

  lemma NoticeFields()
    ensures WriteUnsigned(0, 0xFFFF_FFFF) == [0x0C, 0xFF, 0xFF, 0xFF, 0xFF] && WriteUnsigned(3, 0) == [0x39, 0x00]
    ensures EncodeOpening(4) == [0x4E] && EncodeClosing(4) == [0x4F]
  {
  }

  lemma OneReport()
    ensures EncodeBody(0, Reference(85, None), [Unsigned(1)]) == [0x09, 0x55, 0x2E, 0x21, 0x01, 0x2F]
  {
    var v := Unsigned(1);
    assert EncodeValue(v) == [0x21, 0x01];
    hide EncodeValue;
    assert [v][1..] == [] && EncodeValues([v]) == EncodeValue(v) + EncodeValues([]);
    assert WriteUnsigned(0, 85) == [0x09, 0x55];
    hide WriteUnsigned;
    assert EncodeOpening(2) == [0x2E] && EncodeClosing(2) == [0x2F];
  }

  lemma NetworkHeaders()
    ensures Network.Sendable(Network.Npci(true, 0, 0xFF, 0x1234, [0xAA, 0xBB], 0x5678, [0xCC]))
    ensures Network.EncodeNpci(Network.Npci(true, 0, 0xFF, 0x1234, [0xAA, 0xBB], 0x5678, [0xCC]))
         == [1, 0x2C, 0x12, 0x34, 2, 0xAA, 0xBB, 0x56, 0x78, 1, 0xCC, 0xFF]
    ensures Network.EncodeNpci(Network.Npci(true, 0, 0, 0, [], 0, [])) == [1, 0x04]
  {
  }
}
