/** Whole BACnet/IP datagrams: the BVLC header (bacnet/types/header.go, Annex J.2 of ASHRAE
    135), the network header and the APDU (bacnet/pdu/apdu.go), as Request.MarshalBinary and
    Request.UnmarshalBinary (bacnet/request.go) put them together. */
module Datagram {
  import opened Octets
  import opened Tags
  import opened ApplicationValues
  import opened ReadResults
  import opened WriteErrors
  import PropertyCodec
  import CovMessages
  import Network

  const MAX_APDU := 1476

  // ---- APDUs -------------------------------------------------------------

  datatype Apdu =
    | Confirmed(segmentedAccepted: bool, maxSegments: Byte, maxApdu: Uint16, id: Byte, service: Byte, payload: Octets)
    | Segmented(more: bool, segmentedAccepted: bool, maxSegments: Byte, maxApdu: Uint16, id: Byte,
                sequence: Byte, window: Byte, service: Byte, payload: Octets)
    | Unconfirmed(service: Byte, payload: Octets)
    | SimpleAck(id: Byte, service: Byte)
    | ComplexAck(id: Byte, service: Byte, payload: Octets)
    | ErrorPdu(id: Byte, service: Byte, class_: Uint32, code: Uint32, payload: Octets)
    | Reject(id: Byte, reason: Byte)
    | Abort(server: bool, id: Byte, reason: Byte)

  const SEGMENTS: seq<Byte> := [0, 2, 4, 8, 16, 32, 64, 65]
  const SIZES: seq<Uint16> := [50, 128, 206, 480, 1024, 1476]

  /** maxSegmentsCode */
  function SegmentsCode(n: Byte): (c: Option<Byte>)
    ensures c.Some? <==> n in SEGMENTS
    ensures c.Some? ==> c.value < 8 && SEGMENTS[c.value] == n
  {
    match n
    case 0 => Some(0)
    case 2 => Some(1)
    case 4 => Some(2)
    case 8 => Some(3)
    case 16 => Some(4)
    case 32 => Some(5)
    case 64 => Some(6)
    case 65 => Some(7)
    case _ => None
  }

  /** maxApduCode */
  function SizeCode(n: Uint16): (c: Option<Byte>)
    ensures c.Some? <==> n in SIZES
    ensures c.Some? ==> c.value < 6 && SIZES[c.value] == n
  {
    match n
    case 50 => Some(0)
    case 128 => Some(1)
    case 206 => Some(2)
    case 480 => Some(3)
    case 1024 => Some(4)
    case 1476 => Some(5)
    case _ => None
  }

  /** The decoders take an unknown code for zero. */
  function SegmentsValue(octet: Byte): (n: Byte)
  {
    if octet as int / 16 < 8 then SEGMENTS[octet as int / 16] else 0
  }

  function SizeValue(octet: Byte): (n: Uint16)
    ensures n <= MAX_APDU
  {
    if octet as int % 16 < 6 then SIZES[octet as int % 16] else 0
  }

  function MaximaOctet(segments: Byte, size: Uint16): (o: Option<Byte>)
    ensures o.Some? <==> segments in SEGMENTS && size in SIZES
    ensures o.Some? ==> SegmentsValue(o.value) == segments && SizeValue(o.value) == size
  {
    if SegmentsCode(segments).None? || SizeCode(size).None? then None
    else Some(SegmentsCode(segments).value * 16 + SizeCode(size).value)
  }

  /** Apdu.MarshalBinary, None where it refuses. */
  function EncodeApdu(a: Apdu): (b: Option<Octets>)
  {
    match a
    case Confirmed(accepted, segments, size, id, service, payload) =>
      (match MaximaOctet(segments, size)
       case None => None
       case Some(maxima) => Some([if accepted then 2 else 0, maxima, id, service] + payload))
    case Segmented(_, _, _, _, _, _, _, _, _) => None
    case Unconfirmed(service, payload) => Some([0x10, service] + payload)
    case SimpleAck(id, service) => Some([0x20, id, service])
    case ComplexAck(id, service, payload) => Some([0x30, id, service] + payload)
    case ErrorPdu(id, service, class_, code, payload) =>
      Some([0x50, id, service] + if payload == [] then EncodeValues(ErrorValues(class_, code)) else payload)
    case Reject(id, reason) => Some([0x60, id, reason])
    case Abort(server, id, reason) => Some([if server then 0x71 else 0x70, id, reason])
  }

  /** Whether the discovery decoders (I-Am, I-Have), which this model leaves out, accept a payload. */
  type Discovery = (Byte, Octets) -> bool

  /** decodeConfirmedApdu and decodeUnconfirmedApdu: the payloads that are decoded on arrival. */
  predicate Accepted(a: Apdu, discovery: Discovery) {
    match a
    case Confirmed(_, _, _, _, service, payload) =>
      if service == 12 then PropertyCodec.DecodeProperty(payload, None).Ok?
      else service == 1 ==> CovMessages.DecodeNotification(payload).Some?
    case ComplexAck(_, service, payload) =>
      if service == 12 then PropertyCodec.LibDecodeReadResult(payload).Some?
      else if service == 1 then CovMessages.DecodeNotification(payload).Some?
      else service == 14 ==> DecodeAck(payload).Some?
    case Unconfirmed(service, payload) =>
      if service == 2 then CovMessages.DecodeNotification(payload).Some?
      else service == 0 || service == 1 ==> discovery(service, payload)
    case _ => true
  }

  lemma AckIsAcceptedIff(id: Byte, payload: Octets, discovery: Discovery)
    ensures Accepted(ComplexAck(id, 14, payload), discovery) <==> DecodeAck(payload).Some?
  {
    hide DecodeAck;
    hide PropertyCodec.LibDecodeReadResult;
    hide CovMessages.DecodeNotification;
  }

  lemma ReadIsAcceptedIff(id: Byte, payload: Octets, discovery: Discovery)
    ensures Accepted(ComplexAck(id, 12, payload), discovery) <==> PropertyCodec.LibDecodeReadResult(payload).Some?
  {
    hide DecodeAck;
    hide PropertyCodec.LibDecodeReadResult;
    hide CovMessages.DecodeNotification;
  }

  lemma PlainRepliesAreAccepted(a: Apdu, discovery: Discovery)
    requires a.SimpleAck? || a.ErrorPdu? || a.Reject? || a.Abort?
    ensures Accepted(a, discovery)
  {
  }

  predicate LooksLikeWriteError(service: Byte, b: Octets) {
    service == 16 && DecodeTag(b).Some? && DecodeTag(b).value.tag.IsOpening(0)
  }

  function DecodeError(id: Byte, service: Byte, b: Octets): (a: Option<Apdu>)
    ensures a.Some? ==> a.value.ErrorPdu?
  {
    if LooksLikeWriteError(service, b) then
      match DecodeWriteError(b)
      case Some(e) => Some(ErrorPdu(id, service, e.class_, e.code, b))
      case None => None
    else match NextEnumerated(b)
      case Ok(class_, m) =>
        (match NextEnumerated(b[m..])
         case Ok(code, n) => Some(ErrorPdu(id, service, class_, code, b[m + n..]))
         case _ => None)
      case _ => None
  }

  function DecodeConfirmed(b: Octets): (a: Option<Apdu>)
    requires b != []
  {
    var accepted, segmented := Network.Bit(b[0], 2), Network.Bit(b[0], 8);
    if segmented then
      if |b| < 6 then None
      else Some(Segmented(Network.Bit(b[0], 4), accepted, SegmentsValue(b[1]), SizeValue(b[1]),
                          b[2], b[3], b[4], b[5], b[6..]))
    else if |b| < 4 then None
    else Some(Confirmed(accepted, SegmentsValue(b[1]), SizeValue(b[1]), b[2], b[3], b[4..]))
  }

  function DecodeComplexAck(b: Octets): (a: Option<Apdu>)
    requires b != []
  {
    if Network.Bit(b[0], 8) || |b| < 3 then None else Some(ComplexAck(b[1], b[2], b[3..]))
  }

  /** The header and what follows it. */
  function ParseApdu(b: Octets): (a: Option<Apdu>)
    ensures a.Some? && (a.value.Confirmed? || a.value.Segmented?) ==> a.value.maxApdu <= MAX_APDU
  {
    if b == [] then None
    else match b[0] as int / 16
      case 0 => DecodeConfirmed(b)
      case 1 => if |b| < 2 then None else Some(Unconfirmed(b[1], b[2..]))
      case 2 => if |b| < 3 then None else Some(SimpleAck(b[1], b[2]))
      case 3 => DecodeComplexAck(b)
      case 5 => if |b| < 3 then None else DecodeError(b[1], b[2], b[3..])
      case 6 => if |b| < 3 then None else Some(Reject(b[1], b[2]))
      case 7 => if |b| < 3 then None else Some(Abort(Network.Bit(b[0], 1), b[1], b[2]))
      case _ => None
  }

  /** Apdu.UnmarshalBinary */
  function DecodeApdu(b: Octets, discovery: Discovery): (a: Option<Apdu>)
  {
    match ParseApdu(b)
    case Some(a) => if Accepted(a, discovery) then Some(a) else None
    case None => None
  }

  /** An error whose payload, if any, is a WritePropertyMultiple error of the same class and code. */
  predicate ErrorFits(a: Apdu) {
    a.ErrorPdu? && a.payload != [] ==>
      && a.service == 16 && DecodeWriteError(a.payload).Some?
      && DecodeWriteError(a.payload).value.class_ == a.class_ && DecodeWriteError(a.payload).value.code == a.code
  }

  lemma ErrorRoundTrip(id: Byte, service: Byte, class_: Uint32, code: Uint32, payload: Octets)
    ensures DecodeError(id, service, if payload == [] then EncodeValues(ErrorValues(class_, code)) else payload)
         == Some(ErrorPdu(id, service, class_, code, payload))
       <==> ErrorFits(ErrorPdu(id, service, class_, code, payload))
  {
    hide DecodeTag;
    hide NextEnumerated;
    hide EncodeValue;
    hide DecodeFailed;
    if payload == [] {
      var first, second := EncodeValue(Enumerated(class_)), EncodeValue(Enumerated(code));
      ErrorLayout(class_, code);
      EnumeratedRoundTrip(class_, second);
      assert (first + second)[|first|..] == second + [];
      EnumeratedRoundTrip(code, []);
      assert (first + second)[|first| + |second|..] == [];
      EnumeratedIsNotOpening(class_, second);
    } else if DecodeWriteError(payload).Some? {
      WriteErrorOpens(payload);
    }
  }

  lemma EnumeratedIsNotOpening(n: Uint32, rest: Octets)
    ensures var b := EncodeValue(Enumerated(n)) + rest; DecodeTag(b).Some? && !DecodeTag(b).value.tag.opening
  {
    hide DecodeTag;
    hide EncodeValue;
    VarUintRoundTrip(n);
    EncodedValueHeader(Enumerated(n), rest);
  }

  lemma WriteErrorOpens(b: Octets)
    requires DecodeWriteError(b).Some?
    ensures DecodeTag(b).Some? && DecodeTag(b).value.tag.IsOpening(0)
  {
    hide DecodeTag;
  }

  /** An APDU that encodes parses back to itself, whatever its type, exactly when an error's
      own payload says what the error says. */
  lemma ApduRoundTrip(a: Apdu)
    requires EncodeApdu(a).Some?
    ensures ParseApdu(EncodeApdu(a).value) == Some(a) <==> ErrorFits(a)
  {
    hide DecodeError;
    hide EncodeValues;
    hide MaximaOctet;
    hide SegmentsValue;
    hide SizeValue;
    hide DecodeWriteError;
    var b := EncodeApdu(a).value;
    if a.ErrorPdu? {
      var tail := if a.payload == [] then EncodeValues(ErrorValues(a.class_, a.code)) else a.payload;
      ErrorRoundTrip(a.id, a.service, a.class_, a.code, a.payload);
      assert b == [0x50, a.id, a.service] + tail && b[3..] == tail;
    } else if a.Confirmed? {
      assert b[4..] == a.payload;
    } else if a.ComplexAck? {
      assert b[3..] == a.payload;
    } else if a.Unconfirmed? {
      assert b[2..] == a.payload;
    }
  }

  // ---- Datagrams ---------------------------------------------------------

  datatype Packet = Packet(broadcast: bool, npci: Network.Npci, apdu: Apdu)

  predicate Sendable(p: Packet) {
    && Network.Sendable(p.npci)
    && EncodeApdu(p.apdu).Some? && |EncodeApdu(p.apdu).value| <= MAX_APDU
  }

  /** Request.MarshalBinary */
  function EncodePacket(p: Packet): (b: Octets)
    requires Sendable(p)
    ensures 4 <= |b| < 0x1_0000
  {
    var npci, apdu := Network.EncodeNpci(p.npci), EncodeApdu(p.apdu).value;
    [0x81, if p.broadcast then 11 else 10] + EncodeUint16(4 + |npci| + |apdu|) + (npci + apdu)
  }

  /** Request.UnmarshalBinary */
  function DecodePacket(b: Octets, discovery: Discovery): (p: Option<Packet>)
  {
    if |b| < 6 || b[0] != 0x81 || (b[1] != 10 && b[1] != 11) then None
    else if b[2] as int * 0x100 + b[3] as int != |b| then None
    else match Network.DecodeNpci(b[4..])
      case None => None
      case Some(n) =>
        match DecodeApdu(b[4 + n.size..], discovery)
        case None => None
        case Some(a) => Some(Packet(b[1] == 11, n.npci, a))
  }

  predicate Arrives(p: Packet, discovery: Discovery) {
    Network.Complete(p.npci) && ErrorFits(p.apdu) && Accepted(p.apdu, discovery)
  }

  /** The length field of every datagram is the length of the datagram. */
  lemma LengthField(p: Packet)
    requires Sendable(p)
    ensures var b := EncodePacket(p); b[2] as int * 0x100 + b[3] as int == |b|
  {
    hide Network.EncodeNpci;
    hide EncodeApdu;
  }

  /** A packet that can be sent arrives as it was (BVLC function, addressing, hop count,
      priority, APDU header and payload) exactly when it is well formed. */
  lemma PacketRoundTrip(p: Packet, discovery: Discovery)
    requires Sendable(p)
    ensures DecodePacket(EncodePacket(p), discovery) == Some(p) <==> Arrives(p, discovery)
  {
    hide Network.EncodeNpci;
    hide Network.DecodeNpci;
    hide EncodeApdu;
    hide ParseApdu;
    hide Accepted;
    hide ErrorFits;
    var npci, apdu := Network.EncodeNpci(p.npci), EncodeApdu(p.apdu).value;
    var b := EncodePacket(p);
    LengthField(p);
    assert b[4..] == npci + apdu;
    Network.NpciRoundTrip(p.npci, apdu);
    assert b[4 + |npci|..] == apdu;
    ApduRoundTrip(p.apdu);
    HeaderIsLong(p.npci);
  }

  lemma HeaderIsLong(n: Network.Npci)
    requires Network.Sendable(n)
    ensures |Network.EncodeNpci(n)| >= 2
  {
  }
}
