/** The responder (bacnet/responder/server.go): one request datagram in, its responses out.
    A send that fails ends the datagram, and the transport itself is not modelled. */
module Responder {
  import opened Octets
  import opened Datagram
  import opened ApplicationValues
  import opened ReadResults
  import Tags
  import Network
  import ContextFields
  import PropertyCodec
  import ReadRequests
  import WriteErrors
  import CovMessages
  import Cov

  type Endpoint = Cov.Endpoint

  const SEGMENTATION_NOT_SUPPORTED: Byte := 4
  const UNRECOGNIZED_SERVICE: Byte := 9

  datatype Response =
    | Ack
    | Result(payload: Octets)
    | Failure(class_: Uint32, code: Uint32, payload: Octets)
    | Rejection(reason: Byte)
    | Abortion(reason: Byte)
    | Unsolicited(service: Byte, payload: Octets, to: Option<Endpoint>, broadcast: bool)
    | Request(service: Byte, id: Byte, payload: Octets, to: Option<Endpoint>)

  /** A reply that ends the requester's transaction. */
  predicate Terminal(r: Response) {
    r.Ack? || r.Result? || r.Failure? || r.Rejection? || r.Abortion?
  }

  datatype Sent = Sent(to: Endpoint, packet: Packet)

  predicate IsConfirmed(a: Apdu) {
    a.Confirmed? || a.Segmented?
  }

  /** The response goes back along the route the request came by. */
  function ReplyNpci(n: Network.Npci, r: Response): (m: Network.Npci)
  {
    var net, mac := if n.sourceNet != 0 && n.sourceMac != [] then n.sourceNet else 0,
                    if n.sourceNet != 0 then n.sourceMac else [];
    if r.Unsolicited? && r.broadcast then Network.Npci(false, n.priority, 255, 0xFFFF, [], 0, [])
    else Network.Npci(r.Request?, n.priority, 255, net, mac, 0, [])
  }

  /** The APDU of a response before its size is checked. */
  function ReplyApdu(incoming: Apdu, r: Response): (a: Option<Apdu>)
  {
    match r
    case Unsolicited(service, payload, _, _) => Some(Unconfirmed(service, payload))
    case Request(service, id, payload, _) =>
      if id == 0 then None else Some(Confirmed(false, 0, MAX_APDU, id, service, payload))
    case Ack => if IsConfirmed(incoming) then Some(SimpleAck(incoming.id, incoming.service)) else None
    case Result(payload) =>
      if IsConfirmed(incoming) then Some(ComplexAck(incoming.id, incoming.service, payload)) else None
    case Failure(class_, code, payload) =>
      if IsConfirmed(incoming) then Some(ErrorPdu(incoming.id, incoming.service, class_, code, payload)) else None
    case Rejection(reason) => if IsConfirmed(incoming) then Some(Reject(incoming.id, reason)) else None
    case Abortion(reason) => if IsConfirmed(incoming) then Some(Abort(true, incoming.id, reason)) else None
  }

  /** A ComplexACK the requester cannot take becomes an Abort. */
  function Fitted(incoming: Apdu, a: Apdu): (b: Apdu)
    requires a.ComplexAck? ==> IsConfirmed(incoming)
  {
    if a.ComplexAck? && EncodeApdu(a).Some? && |EncodeApdu(a).value| > incoming.maxApdu
    then Abort(true, incoming.id, SEGMENTATION_NOT_SUPPORTED) else a
  }

  /** writeResponse: None where it fails. */
  function WriteResponse(incoming: Packet, source: Endpoint, r: Response): (s: Option<Sent>)
    ensures s.Some? ==> Sendable(s.value.packet)
  {
    match ReplyApdu(incoming.apdu, r)
    case None => None
    case Some(a) =>
      var broadcast := r.Unsolicited? && r.broadcast;
      var packet := Packet(broadcast, ReplyNpci(incoming.npci, r), Fitted(incoming.apdu, a));
      var to := if (r.Unsolicited? || r.Request?) && r.to.Some? then r.to.value else source;
      if Sendable(packet) then Some(Sent(to, packet)) else None
  }

  /** The loop over the responses stops at the first that cannot be written. */
  function WriteAll(incoming: Packet, source: Endpoint, rs: seq<Response>): (sent: seq<Sent>)
  {
    if rs == [] then []
    else match WriteResponse(incoming, source, rs[0])
      case None => []
      case Some(s) => [s] + WriteAll(incoming, source, rs[1..])
  }

  /** validateRoutingSource */
  predicate RoutingFits(n: Network.Npci) {
    if n.sourceNet == 0 then n.sourceMac == [] else 1 <= |n.sourceMac| <= Network.MAX_MAC
  }

  /** The handler registered for the APDU, if any; a handler that fails answers nothing. */
  type Handlers = Packet -> Option<seq<Response>>

  /** ServeDatagram */
  function Serve(b: Octets, source: Endpoint, discovery: Discovery, handlers: Handlers): (sent: seq<Sent>)
  {
    match DecodePacket(b, discovery)
    case None => []
    case Some(p) =>
      if !RoutingFits(p.npci) then []
      else if p.apdu.Segmented? then WriteAll(p, source, [Abortion(SEGMENTATION_NOT_SUPPORTED)])
      else match handlers(p)
        case None => if p.apdu.Confirmed? then WriteAll(p, source, [Rejection(UNRECOGNIZED_SERVICE)]) else []
        case Some(rs) => WriteAll(p, source, rs)
  }

  method ServeLoop(p: Packet, source: Endpoint, rs: seq<Response>) returns (sent: seq<Sent>)
    ensures sent == WriteAll(p, source, rs)
  {
    hide WriteResponse;
    sent := [];
    for i := 0 to |rs|
      invariant WriteAll(p, source, rs) == sent + WriteAll(p, source, rs[i..])
    {
      var s := WriteResponse(p, source, rs[i]);
      assert rs[i..][1..] == rs[i + 1..];
      if s.None? {
        return;
      }
      ghost var rest := WriteAll(p, source, rs[i + 1..]);
      assert sent + ([s.value] + rest) == sent + [s.value] + rest;
      sent := sent + [s.value];
    }
    assert rs[|rs|..] == [];
  }

  // ---- One terminal reply first ------------------------------------------

  /** A response that fits a datagram. */
  predicate Small(r: Response) {
    match r
    case Failure(_, _, payload) => |payload| <= MAX_APDU - 3
    case Unsolicited(_, payload, _, _) => |payload| <= MAX_APDU - 2
    case Request(_, _, payload, _) => |payload| <= MAX_APDU - 4
    case _ => true
  }

  /** What a handler answers a confirmed request with: one terminal reply, then requests of
      its own, each to an endpoint of its own. */
  predicate WellAnswered(rs: seq<Response>) {
    && rs != [] && Terminal(rs[0])
    && (forall i :: 0 <= i < |rs| ==> Small(rs[i]))
    && (forall i :: 1 <= i < |rs| ==>
          && (rs[i].Request? || (rs[i].Unsolicited? && !rs[i].broadcast))
          && (rs[i].Request? ==> rs[i].id != 0))
  }

  predicate TerminalApdu(a: Apdu) {
    a.SimpleAck? || a.ComplexAck? || a.ErrorPdu? || a.Reject? || a.Abort?
  }

  /** The reply that goes out answers this request. */
  predicate Settles(incoming: Packet, source: Endpoint, r: Response, s: Sent)
    requires IsConfirmed(incoming.apdu)
  {
    && s.to == source && TerminalApdu(s.packet.apdu) && s.packet.apdu.id == incoming.apdu.id
    && (s.packet.apdu.SimpleAck? || s.packet.apdu.ComplexAck? || s.packet.apdu.ErrorPdu? ==>
          s.packet.apdu.service == incoming.apdu.service)
    && (r.Result? ==> s.packet.apdu == if 3 + |r.payload| <= incoming.apdu.maxApdu
                        then ComplexAck(incoming.apdu.id, incoming.apdu.service, r.payload)
                        else Abort(true, incoming.apdu.id, SEGMENTATION_NOT_SUPPORTED))
    && Network.Complete(s.packet.npci)
    && s.packet.npci.destNet == incoming.npci.sourceNet && s.packet.npci.destMac == incoming.npci.sourceMac
  }

  /** A confirmed request that came along a sound route; its sizes are ones this system knows. */
  predicate Answerable(p: Packet) {
    IsConfirmed(p.apdu) && p.apdu.maxApdu <= MAX_APDU && RoutingFits(p.npci) && p.npci.priority < 4
  }

  lemma ReplyNpciFits(n: Network.Npci, r: Response)
    requires RoutingFits(n) && n.priority < 4
    ensures Network.Sendable(ReplyNpci(n, r)) && Network.Complete(ReplyNpci(n, r))
    ensures !(r.Unsolicited? && r.broadcast) ==>
              ReplyNpci(n, r).destNet == n.sourceNet && ReplyNpci(n, r).destMac == n.sourceMac
  {
  }

  lemma ErrorSize(class_: Uint32, code: Uint32)
    ensures |EncodeValues(ErrorValues(class_, code))| <= 10
  {
    hide Tags.EncodePrimitive;
    ErrorLayout(class_, code);
    EnumeratedSize(class_);
    EnumeratedSize(code);
  }

  lemma EnumeratedSize(n: Uint32)
    ensures |EncodeValue(Enumerated(n))| <= 5
  {
  }

  /** A terminal reply is always written, and answers the request. */
  lemma TerminalIsWritten(p: Packet, source: Endpoint, r: Response)
    requires Answerable(p) && Terminal(r) && Small(r)
    ensures WriteResponse(p, source, r).Some? && Settles(p, source, r, WriteResponse(p, source, r).value)
  {
    hide EncodeValues;
    hide Network.EncodeNpci;
    ReplyNpciFits(p.npci, r);
    if r.Failure? {
      ErrorSize(r.class_, r.code);
    }
  }

  /** A request of the responder's own is always written, to its own endpoint. */
  lemma RequestIsWritten(p: Packet, source: Endpoint, r: Response)
    requires Answerable(p) && Small(r) && !Terminal(r) && (r.Request? ==> r.id != 0)
    ensures var s := WriteResponse(p, source, r);
            && s.Some? && s.value.to == (if r.to.Some? then r.to.value else source)
            && s.value.packet.apdu == if r.Request? then Confirmed(false, 0, MAX_APDU, r.id, r.service, r.payload)
                                      else Unconfirmed(r.service, r.payload)
  {
    hide Network.EncodeNpci;
    ReplyNpciFits(p.npci, r);
    if r.Request? {
      assert MAX_APDU in SIZES && 0 in SEGMENTS;
    }
  }

  lemma {:induction false} AllAreWritten(p: Packet, source: Endpoint, rs: seq<Response>)
    requires Answerable(p) && forall i :: 0 <= i < |rs| ==> Small(rs[i]) && (rs[i].Request? ==> rs[i].id != 0)
    ensures |WriteAll(p, source, rs)| == |rs|
    ensures forall i :: 0 <= i < |rs| ==> WriteResponse(p, source, rs[i]) == Some(WriteAll(p, source, rs)[i])
    decreases |rs|
  {
    hide WriteResponse;
    hide Small;
    if rs != [] {
      if Terminal(rs[0]) {
        TerminalIsWritten(p, source, rs[0]);
      } else {
        RequestIsWritten(p, source, rs[0]);
      }
      AllAreWritten(p, source, rs[1..]);
      assert forall i :: 0 < i < |rs| ==> rs[i] == rs[1..][i - 1];
    }
  }

  /** What the responder answers a confirmed request with. */
  function Chosen(p: Packet, handlers: Handlers): (rs: seq<Response>)
  {
    if p.apdu.Segmented? then [Abortion(SEGMENTATION_NOT_SUPPORTED)]
    else match handlers(p)
      case None => [Rejection(UNRECOGNIZED_SERVICE)]
      case Some(rs) => rs
  }

  /** Every confirmed request that parses gets exactly one terminal reply, first, to its
      source and with its invoke ID; a result too large for the requester goes out as an
      Abort; all that follows are the handler's own requests, to their own endpoints. */
  lemma OneTerminalReplyFirst(b: Octets, source: Endpoint, discovery: Discovery, handlers: Handlers)
    requires DecodePacket(b, discovery).Some? && IsConfirmed(DecodePacket(b, discovery).value.apdu)
    requires RoutingFits(DecodePacket(b, discovery).value.npci)
    requires WellAnswered(Chosen(DecodePacket(b, discovery).value, handlers))
    ensures var p := DecodePacket(b, discovery).value;
            var rs, sent := Chosen(p, handlers), Serve(b, source, discovery, handlers);
            && |sent| == |rs|
            && Settles(p, source, rs[0], sent[0])
            && forall i :: 1 <= i < |sent| ==>
                 && !TerminalApdu(sent[i].packet.apdu)
                 && sent[i].to == (if rs[i].to.Some? then rs[i].to.value else source)
                 && (rs[i].Request? ==> sent[i].packet.apdu.Confirmed? && sent[i].packet.apdu.id == rs[i].id)
  {
    hide WriteResponse;
    hide DecodePacket;
    hide Settles;
    hide WriteAll;
    hide Small;
    hide RoutingFits;
    var p := DecodePacket(b, discovery).value;
    var rs := Chosen(p, handlers);
    DecodedIsParsed(b, discovery);
    AllAreWritten(p, source, rs);
    TerminalIsWritten(p, source, rs[0]);
    forall i | 1 <= i < |rs|
      ensures WriteResponse(p, source, rs[i]).Some?
      ensures !TerminalApdu(WriteResponse(p, source, rs[i]).value.packet.apdu)
      ensures WriteResponse(p, source, rs[i]).value.to == if rs[i].to.Some? then rs[i].to.value else source
      ensures var a := WriteResponse(p, source, rs[i]).value.packet.apdu;
              rs[i].Request? ==> a.Confirmed? && a.id == rs[i].id
    {
      RequestIsWritten(p, source, rs[i]);
    }
  }

  lemma DecodedIsParsed(b: Octets, discovery: Discovery)
    requires DecodePacket(b, discovery).Some? && IsConfirmed(DecodePacket(b, discovery).value.apdu)
    requires RoutingFits(DecodePacket(b, discovery).value.npci)
    ensures Answerable(DecodePacket(b, discovery).value)
  {
    hide Accepted;
    hide DecodeError;
    hide Network.DecodeRoute;
  }

  /** The terminal reply reaches the requester as it was sent, provided its payload is one
      the client's decoder takes. */
  lemma ReplyArrives(p: Packet, source: Endpoint, r: Response, discovery: Discovery)
    requires Answerable(p) && Terminal(r) && Small(r)
    ensures WriteResponse(p, source, r).Some?
    ensures var q := WriteResponse(p, source, r).value.packet;
            (DecodePacket(EncodePacket(q), discovery) == Some(q) <==> ErrorFits(q.apdu) && Accepted(q.apdu, discovery))
  {
    hide WriteResponse;
    hide Accepted;
    hide ErrorFits;
    hide DecodePacket;
    hide EncodePacket;
    TerminalIsWritten(p, source, r);
    PacketRoundTrip(WriteResponse(p, source, r).value.packet, discovery);
  }

  // ---- The routes of notifications ---------------------------------------

  /** Where `m` is sent is where `n` came from. */
  predicate GoesBack(n: Network.Npci, m: Network.Npci) {
    m.destNet == n.sourceNet && m.destMac == n.sourceMac
  }

  predicate SameSource(n: Network.Npci, m: Network.Npci) {
    n.sourceNet == m.sourceNet && n.sourceMac == m.sourceMac
  }

  /** A notification goes to its subscriber's endpoint along the route of the request that caused
      it, which is the route of the subscriber's own request `own` exactly when both came the same
      way. */
  lemma RouteIsOwnIff(p: Packet, source: Endpoint, rs: seq<Response>, own: Network.Npci, i: nat)
    requires Answerable(p) && WellAnswered(rs) && i < |WriteAll(p, source, rs)|
    ensures var sent := WriteAll(p, source, rs);
            && |sent| == |rs| && GoesBack(p.npci, sent[i].packet.npci)
            && (GoesBack(own, sent[i].packet.npci) <==> SameSource(p.npci, own))
  {
    hide ReplyApdu;
    hide Fitted;
    hide Sendable;
    hide WriteAll;
    hide Small;
    AllAreWritten(p, source, rs);
    ReplyNpciFits(p.npci, rs[i]);
  }

  // ---- The payloads are short --------------------------------------------

  lemma FieldSizes(number: Byte, n: Uint32, o: ObjectId)
    requires number <= 14
    ensures |ContextFields.WriteUnsigned(number, n)| <= 5 && |ContextFields.WriteObjectId(number, o)| == 5
    ensures |Tags.EncodeOpening(number)| == 1 && |Tags.EncodeClosing(number)| == 1
  {
  }

  /** A COV notification of one number. */
  lemma NotificationIsShort(process: Uint32, device: Uint32, o: ObjectId, remaining: Uint32, v: AppValue)
    requires v.Unsigned? || v.Enumerated? || v.Real?
    ensures var report := CovMessages.Report(ReadRequests.Reference(85, None), [v]);
            |CovMessages.EncodeNotification(CovMessages.Notification(process, device, o, remaining, [report]))| <= 64
  {
    hide ContextFields.WriteUnsigned;
    hide ContextFields.WriteObjectId;
    hide Tags.EncodeOpening;
    hide Tags.EncodeClosing;
    hide EncodeValue;
    var report := CovMessages.Report(ReadRequests.Reference(85, None), [v]);
    FieldSizes(0, process, o);
    FieldSizes(1, 0, ObjectId(8, device));
    FieldSizes(2, 0, o);
    FieldSizes(3, remaining, o);
    FieldSizes(4, 0, o);
    FieldSizes(0, 85, o);
    NumberSize(v);
    assert [v][1..] == [] && EncodeValues([v]) == EncodeValue(v) + EncodeValues([]);
    assert [report][1..] == [] && CovMessages.EncodeReports([]) == [];
    assert CovMessages.EncodeReports([report]) == PropertyCodec.EncodeBody(0, report.reference, [v]) + [];
  }

  lemma NumberSize(v: AppValue)
    requires v.Unsigned? || v.Enumerated? || v.Real?
    ensures |EncodeValue(v)| <= 5
  {
  }

  lemma WriteErrorIsShort(e: WriteErrors.WriteError)
    ensures |WriteErrors.EncodeWriteError(e)| <= 64
  {
    hide ContextFields.WriteUnsigned;
    hide ContextFields.WriteObjectId;
    hide Tags.EncodeOpening;
    hide Tags.EncodeClosing;
    hide EncodeValues;
    FieldSizes(0, 0, e.object_);
    FieldSizes(1, e.reference.id, e.object_);
    if e.reference.index.Some? {
      FieldSizes(2, e.reference.index.value, e.object_);
    }
    ErrorSize(e.class_, e.code);
  }
}
