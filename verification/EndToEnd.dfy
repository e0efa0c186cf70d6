/** From the client's call to the client's result: the request is encoded, sent, decoded, handled on
    the device, answered, sent back and decoded (ReadProperty and WriteProperty). */
module EndToEnd {
  import opened Octets
  import opened Datagram
  import opened Responder
  import opened DeviceValues
  import opened Simulator
  import opened SimulatorRuns
  import opened PropertyCodec
  import opened ValueLists
  import Codec = ApplicationValues
  import SimulatorAnswers
  import Network
  import Model
  import WriteBatch
  import Cov
  import Replies
  import Turns

  /** Who calls: its header, the largest APDU it takes, the invoke ID, its endpoint, and when. */
  datatype Caller = Caller(npci: Network.Npci, maxApdu: Uint16, id: Byte, source: Endpoint, now: Cov.Instant)

  /** A confirmed request as the client sends it. */
  function Call(caller: Caller, service: Byte, payload: Octets): (p: Packet)
  {
    Packet(false, caller.npci, Confirmed(false, 0, caller.maxApdu, caller.id, service, payload))
  }

  /** Its datagram at the simulator. */
  function Sending(caller: Caller, service: Byte, payload: Octets): (a: Arrival)
    requires Sendable(Call(caller, service, payload))
  {
    Arrival(EncodePacket(Call(caller, service, payload)), caller.source, caller.now)
  }

  /** The first packet that comes back is this reply, and the client decodes it as it is. */
  predicate Answered(caller: Caller, p: Packet, a: Apdu, sent: seq<Sent>, discovery: Discovery) {
    && sent != [] && sent[0] == Sent(caller.source, ReplyPacket(p, a)) && Sendable(sent[0].packet)
    && DecodePacket(EncodePacket(sent[0].packet), discovery) == Some(ReplyPacket(p, a))
  }

  /** The call fits a datagram and its own addressing is sound. */
  predicate Goes(p: Packet) {
    && p.apdu.Confirmed? && Sendable(p) && Network.Complete(p.npci) && RoutingFits(p.npci)
  }

  /** The reply with this APDU, as it comes back. */
  function ReplyPacket(p: Packet, a: Apdu): (q: Packet)
  {
    Packet(false, ReplyNpci(p.npci, Ack), a)
  }

  /** A call of a registered service that arrives: it is handled, and its first response goes out. */
  lemma CallArrives(w: World, p: Packet, source: Endpoint, now: Cov.Instant, c: Context)
    requires Good(w) && Model.ValidDevice(w.app.device)
    requires Goes(p) && Registered(p.apdu) && Accepted(p.apdu, c.discovery)
    ensures DecodePacket(EncodePacket(p), c.discovery) == Some(p)
    ensures var a := Arrival(EncodePacket(p), source, now);
            && Next(w, a, c) == Handle(w, p, source, now, c).world
            && Sends(w, a, c) == WriteAll(p, source, Handle(w, p, source, now, c).responses)
  {
    hide DecodePacket;
    hide EncodePacket;
    hide Handle;
    hide WriteAll;
    hide Good;
    hide Accepted;
    PacketRoundTrip(p, c.discovery);
  }

  // ---- WriteProperty -----------------------------------------------------

  function DeviceWrite(f: Floats, r: WriteRequest): (w: Model.Write)
  {
    Model.Write(ObjectKeyOf(r.target.object_), r.target.reference.id, FromAll(f, PlainAll(r.values)), r.priority)
  }

  /** What the client is told: an acknowledgement, or the class and code of the device's error. */
  function WriteResult(d: Model.DeviceState, f: Floats, r: WriteRequest, id: Byte): (a: Apdu)
    requires Model.ValidDevice(d)
  {
    var e := if r.target.reference.index.Some? then Some(Model.InvalidArrayIndex)
             else Model.WriteProperty(d, DeviceWrite(f, r)).error;
    match e
    case None => SimpleAck(id, 15)
    case Some(error) => ErrorPdu(id, 15, Replies.ClassCodeOf(error).class_, Replies.ClassCodeOf(error).code, [])
  }

  lemma WriteIsHandled(w: World, r: WriteRequest, payload: Octets, now: Cov.Instant, f: Floats)
    requires Good(w) && Model.ValidDevice(w.app.device)
    requires Codec.ObjectIdInRange(r.target.object_) && Codec.AllWellFormed(r.values) && r.values != []
    requires LibEncodeWrite(r) == Some(payload)
    ensures var o := HandleWrite(w, payload, now, f);
            var t := Turns.WriteTurn(w, WriteBatch.BatchWrite(DeviceWrite(f, r), r.target.reference.index), now);
            o.world == t.world && o.responses == EncodedAll(f, w.app.device.id, t.replies)
  {
    hide SimDecodeWrite;
    hide Turns.WriteTurn;
    hide EncodedAll;
    hide Codec.WellFormed;
    hide Good;
    WritePropertyRoundTrip(r);
  }

  /** The terminal reply of a handler, and when the client decodes it. */
  lemma FirstReplyArrives(p: Packet, caller: Caller, rs: seq<Response>, a: Apdu, discovery: Discovery)
    requires Goes(p) && p.apdu.maxApdu <= MAX_APDU && WellAnswered(rs)
    requires ReplyApdu(p.apdu, rs[0]).Some? && Fitted(p.apdu, ReplyApdu(p.apdu, rs[0]).value) == a && ErrorFits(a)
    ensures var sent := WriteAll(p, caller.source, rs);
            && sent != [] && sent[0] == Sent(caller.source, ReplyPacket(p, a))
            && (Accepted(a, discovery) <==> Answered(caller, p, a, sent, discovery))
  {
    hide DecodePacket;
    hide EncodePacket;
    hide WriteAll;
    hide Accepted;
    hide ErrorFits;
    hide Small;
    hide RoutingFits;
    RouteIsAnswerable(p);
    AllAreWritten(p, caller.source, rs);
    TerminalIsWritten(p, caller.source, rs[0]);
    FirstPacket(p, caller.source, rs[0], a);
    ReplyArrives(p, caller.source, rs[0], discovery);
  }

  lemma RouteIsAnswerable(p: Packet)
    requires Goes(p) && p.apdu.maxApdu <= MAX_APDU
    ensures Answerable(p)
  {
    hide Sendable;
  }

  lemma FirstPacket(p: Packet, source: Endpoint, r: Response, a: Apdu)
    requires Terminal(r) && ReplyApdu(p.apdu, r).Some? && Fitted(p.apdu, ReplyApdu(p.apdu, r).value) == a
    requires WriteResponse(p, source, r).Some?
    ensures WriteResponse(p, source, r).value == Sent(source, ReplyPacket(p, a))
  {
    hide Sendable;
    hide Fitted;
  }

  /** The first response to a write. */
  lemma WriteRespondsFirst(w: World, bw: WriteBatch.BatchWrite, now: Cov.Instant, f: Floats)
    requires Good(w) && Model.ValidDevice(w.app.device)
    ensures var t := Turns.WriteTurn(w, bw, now);
            var rs := EncodedAll(f, w.app.device.id, t.replies);
            var error := if bw.index.Some? then Some(Model.InvalidArrayIndex)
                         else Model.WriteProperty(w.app.device, bw.write).error;
            && (rs != [] ==>
                  rs[0] == match error
                           case None => Ack
                           case Some(e) => Failure(Replies.ClassCodeOf(e).class_, Replies.ClassCodeOf(e).code, []))
            && t.world.app.device == if bw.index.Some? then w.app.device
                                     else Model.WriteProperty(w.app.device, bw.write).device
  {
    hide Good;
    hide Model.WriteProperty;
    hide Turns.NoticesOf;
    hide Cov.Notified;
    hide NoticePayload;
    if bw.index.None? {
      Model.DryRun(w.app.device, bw.write);
    }
  }

  /** The client's WriteProperty: the device takes exactly that write, and the client is told its
      outcome. */
  lemma WriteEndToEnd(w: World, r: WriteRequest, caller: Caller, c: Context)
    requires Good(w) && Model.ValidDevice(w.app.device)
    requires Codec.ObjectIdInRange(r.target.object_) && Codec.AllWellFormed(r.values)
    requires r.values != [] && r.priority <= 16
    requires Goes(Call(caller, 15, LibEncodeWrite(r).value))
    ensures var p, a := Call(caller, 15, LibEncodeWrite(r).value), Sending(caller, 15, LibEncodeWrite(r).value);
            && Answered(caller, p, WriteResult(w.app.device, c.floats, r, caller.id), Sends(w, a, c), c.discovery)
            && Next(w, a, c).app.device == if r.target.reference.index.Some? then w.app.device
                                           else Model.WriteProperty(w.app.device, DeviceWrite(c.floats, r)).device
  {
    hide Good;
    hide LibEncodeWrite;
    hide DecodePacket;
    hide EncodePacket;
    hide Sends;
    hide Next;
    hide HandleWrite;
    hide EncodedAll;
    hide Turns.WriteTurn;
    hide Model.WriteProperty;
    hide Codec.AllWellFormed;
    hide WriteAll;
    hide Goes;
    hide SimulatorAnswers.Answered;
    hide Answered;
    hide DeviceWrite;
    hide Handle;
    hide Accepted;
    WriteCanBeEncoded(r);
    var payload := LibEncodeWrite(r).value;
    var p := Call(caller, 15, payload);
    CallFacts(p);
    WriteIsRouted(w, p, caller.source, caller.now, c);
    CallArrives(w, p, caller.source, caller.now, c);
    WriteIsHandled(w, r, payload, caller.now, c.floats);
    SimulatorAnswers.WriteIsAnswered(w, payload, caller.now, c.floats);
    var rs := HandleWrite(w, payload, caller.now, c.floats).responses;
    AnsweredIsWell(rs);
    var bw := WriteBatch.BatchWrite(DeviceWrite(c.floats, r), r.target.reference.index);
    WriteRespondsFirst(w, bw, caller.now, c.floats);
    WriteResultIsAccepted(w.app.device, c.floats, r, caller.id, c.discovery);
    FirstReplyArrives(p, caller, rs, WriteResult(w.app.device, c.floats, r, caller.id), c.discovery);
  }

  lemma WriteCanBeEncoded(r: WriteRequest)
    requires r.priority <= 16
    ensures LibEncodeWrite(r).Some?
  {
  }

  lemma WriteIsRouted(w: World, p: Packet, source: Endpoint, now: Cov.Instant, c: Context)
    requires Model.ValidDevice(w.app.device) && p.apdu.Confirmed? && p.apdu.service == 15
    ensures Registered(p.apdu) && Accepted(p.apdu, c.discovery)
    ensures Handle(w, p, source, now, c) == HandleWrite(w, p.apdu.payload, now, c.floats)
  {
    hide HandleWrite;
  }

  lemma WriteResultIsAccepted(d: Model.DeviceState, f: Floats, r: WriteRequest, id: Byte, discovery: Discovery)
    requires Model.ValidDevice(d)
    ensures var a := WriteResult(d, f, r, id); ErrorFits(a) && Accepted(a, discovery)
  {
    hide Model.WriteProperty;
    hide Accepted;
    PlainRepliesAreAccepted(WriteResult(d, f, r, id), discovery);
  }

  lemma AnsweredIsWell(rs: seq<Response>)
    requires SimulatorAnswers.Answered(rs)
    ensures WellAnswered(rs) && rs != []
  {
  }

  /** A call that can be encoded names a size this system knows. */
  lemma CallFacts(p: Packet)
    requires Goes(p)
    ensures p.apdu.Confirmed? && p.apdu.maxApdu <= MAX_APDU && Sendable(p)
  {
  }

  // ---- ReadProperty ------------------------------------------------------

  /** What the values of a reading are on the wire. */
  function Reported(d: Model.DeviceState, f: Floats, t: Target): (vs: Option<seq<Codec.AppValue>>)
  {
    match Model.ReadProperty(d, ObjectKeyOf(t.object_), t.reference.id, t.reference.index)
    case Unread(_) => None
    case Read(values) => ToAll(f, values)
  }

  /** What a client makes of a result: the values, or nothing where there is none. */
  function Obtained(t: Target, vs: seq<Codec.AppValue>): (p: Option<Property>)
  {
    if vs == [] then None else Some(Property(Some(t.object_), t.reference, Values(vs)))
  }

  /** What the client is sent: the values, an Abort when they exceed what it takes, or the class and
      code of the device's error. */
  function ReadResult(d: Model.DeviceState, f: Floats, t: Target, caller: Caller): (a: Apdu)
  {
    match Model.ReadProperty(d, ObjectKeyOf(t.object_), t.reference.id, t.reference.index)
    case Unread(e) => ErrorPdu(caller.id, 12, Replies.ClassCodeOf(e).class_, Replies.ClassCodeOf(e).code, [])
    case Read(values) =>
      match ToAll(f, values)
      case None => ErrorPdu(caller.id, 12, PROPERTY_CLASS, DATATYPE_NOT_SUPPORTED, [])
      case Some(vs) =>
        var payload := EncodeProperty(t.object_, t.reference, vs);
        if 3 + |payload| <= caller.maxApdu then ComplexAck(caller.id, 12, payload)
        else Abort(true, caller.id, SEGMENTATION_NOT_SUPPORTED)
  }

  /** The client's ReadProperty: nothing changes, and the reply comes back. A client always decodes
      an Error and an Abort; it decodes values, as the device has them, exactly when there is one. */
  lemma ReadEndToEnd(w: World, t: Target, caller: Caller, c: Context)
    requires Good(w) && Model.ValidDevice(w.app.device) && Codec.ObjectIdInRange(t.object_)
    requires Goes(Call(caller, 12, EncodeProperty(t.object_, t.reference, [])))
    ensures var request := EncodeProperty(t.object_, t.reference, []);
            var a, sent := ReadResult(w.app.device, c.floats, t, caller), Sends(w, Sending(caller, 12, request), c);
            var vs := Reported(w.app.device, c.floats, t);
            && Next(w, Sending(caller, 12, request), c) == w
            && sent != [] && sent[0] == Sent(caller.source, ReplyPacket(Call(caller, 12, request), a))
            && (!a.ComplexAck? ==> Answered(caller, Call(caller, 12, request), a, sent, c.discovery))
            && (a.ComplexAck? ==> vs.Some?)
            && (a.ComplexAck? && Codec.AllWellFormed(vs.value) ==>
                  && (Answered(caller, Call(caller, 12, request), a, sent, c.discovery) <==> vs.value != [])
                  && LibDecodeReadResult(a.payload) == Obtained(t, vs.value))
  {
    hide Good;
    hide DecodePacket;
    hide EncodePacket;
    hide Sends;
    hide Next;
    hide WriteAll;
    hide Goes;
    hide EncodeProperty;
    hide LibDecodeReadResult;
    hide Model.ReadProperty;
    hide Codec.AllWellFormed;
    hide Handle;
    hide Accepted;
    hide Answered;
    hide ErrorFits;
    hide Fitted;
    var p := Call(caller, 12, EncodeProperty(t.object_, t.reference, []));
    CallFacts(p);
    ReadIsHandled(w, t, p, caller.source, caller.now, c);
    CallArrives(w, p, caller.source, caller.now, c);
    var r, a := ReadResponse(w, t, c.floats), ReadResult(w.app.device, c.floats, t, caller);
    ReadReply(w, t, caller, c.floats);
    ReadIsAccepted(w, t, caller, c);
    FirstReplyArrives(p, caller, [r], a, c.discovery);
  }

  /** What the handler answers. */
  function ReadResponse(w: World, t: Target, f: Floats): (r: Response)
  {
    match Model.ReadProperty(w.app.device, ObjectKeyOf(t.object_), t.reference.id, t.reference.index)
    case Unread(e) => Failure(Replies.ClassCodeOf(e).class_, Replies.ClassCodeOf(e).code, [])
    case Read(values) =>
      match ToAll(f, values)
      case None => Failure(PROPERTY_CLASS, DATATYPE_NOT_SUPPORTED, [])
      case Some(vs) => Result(EncodeProperty(t.object_, t.reference, vs))
  }

  lemma ReadIsHandled(w: World, t: Target, p: Packet, source: Endpoint, now: Cov.Instant, c: Context)
    requires Model.ValidDevice(w.app.device) && Codec.ObjectIdInRange(t.object_)
    requires p.apdu.Confirmed? && p.apdu.service == 12 && p.apdu.payload == EncodeProperty(t.object_, t.reference, [])
    ensures Registered(p.apdu) && Accepted(p.apdu, c.discovery)
    ensures Handle(w, p, source, now, c) == Outcome(w, [ReadResponse(w, t, c.floats)])
  {
    hide DecodeProperty;
    hide EncodeProperty;
    hide LibDecodeReadResult;
    hide SimDecodeReadProperty;
    hide Model.ReadProperty;
    ReadPropertyRoundTrip(t.object_, t.reference, []);
  }

  /** The handler's answer, cut to the requester's size. */
  lemma ReadReply(w: World, t: Target, caller: Caller, f: Floats)
    ensures var p, r := Call(caller, 12, EncodeProperty(t.object_, t.reference, [])), ReadResponse(w, t, f);
            && WellAnswered([r]) && ReplyApdu(p.apdu, r).Some?
            && Fitted(p.apdu, ReplyApdu(p.apdu, r).value) == ReadResult(w.app.device, f, t, caller)
            && ErrorFits(ReadResult(w.app.device, f, t, caller))
  {
    hide Model.ReadProperty;
    hide EncodeProperty;
  }

  lemma ReadIsAccepted(w: World, t: Target, caller: Caller, c: Context)
    requires Codec.ObjectIdInRange(t.object_)
    ensures var a, vs := ReadResult(w.app.device, c.floats, t, caller), Reported(w.app.device, c.floats, t);
            && (!a.ComplexAck? ==> Accepted(a, c.discovery))
            && (a.ComplexAck? ==> vs.Some?)
            && (a.ComplexAck? && Codec.AllWellFormed(vs.value) ==>
                  && (Accepted(a, c.discovery) <==> vs.value != [])
                  && LibDecodeReadResult(a.payload) == Obtained(t, vs.value))
  {
    hide EncodeProperty;
    hide LibDecodeReadResult;
    hide Codec.AllWellFormed;
    hide Model.ReadProperty;
    hide Accepted;
    hide ToAll;
    var a, vs := ReadResult(w.app.device, c.floats, t, caller), Reported(w.app.device, c.floats, t);
    if a.ComplexAck? {
      ReadIsAcceptedIff(caller.id, a.payload, c.discovery);
    } else {
      PlainRepliesAreAccepted(a, c.discovery);
    }
    if vs.Some? && Codec.AllWellFormed(vs.value) {
      ReadPropertyRoundTrip(t.object_, t.reference, vs.value);
    }
  }

  // ---- What is written is read back --------------------------------------

  /** An accepted write to a property that is not commandable is what the device then reads. */
  lemma WriteIsRead(d: Model.DeviceState, w: Model.Write)
    requires Model.ValidDevice(d) && Model.WriteProperty(d, w).error.None?
    requires w.key in d.objects && w.property in d.objects[w.key].properties
    requires d.objects[w.key].properties[w.property].shape.fallback.None?
    ensures Model.ReadProperty(Model.WriteProperty(d, w).device, w.key, w.property, None) == Model.Read(w.values)
  {
    hide Model.CheckValues;
  }

  /** The write is to a property of the device that is not commandable, and the device takes it. */
  predicate Storable(d: Model.DeviceState, f: Floats, r: WriteRequest)
    requires Model.ValidDevice(d)
  {
    var key := ObjectKeyOf(r.target.object_);
    && r.target.reference.index.None? && Model.WriteProperty(d, DeviceWrite(f, r)).error.None?
    && key in d.objects && r.target.reference.id in d.objects[key].properties
    && d.objects[key].properties[r.target.reference.id].shape.fallback.None?
    && Codec.AllWellFormed(r.values) && forall i :: 0 <= i < |r.values| ==> Exact(f, r.values[i])
  }

  lemma StoredIsReported(d: Model.DeviceState, f: Floats, r: WriteRequest)
    requires Model.ValidDevice(d) && Storable(d, f, r)
    ensures var e := Model.WriteProperty(d, DeviceWrite(f, r)).device;
            Reported(e, f, r.target) == Some(PlainAll(r.values)) && Codec.AllWellFormed(PlainAll(r.values))
  {
    hide Model.WriteProperty;
    hide Model.ReadProperty;
    hide Exact;
    WriteIsRead(d, DeviceWrite(f, r));
    PlainFacts(f, r.values);
    AllThroughTheDevice(f, PlainAll(r.values));
  }

  /** Two exchanges: one client writes and is acknowledged; the next, whoever it is, reads and
      decodes the values that were written, with plain characters, or an Abort if they exceed what
      it takes. */
  lemma WrittenIsReadBack(w: World, r: WriteRequest, writer: Caller, reader: Caller, c: Context)
    requires Good(w) && Model.ValidDevice(w.app.device) && Storable(w.app.device, c.floats, r)
    requires Codec.ObjectIdInRange(r.target.object_) && r.values != [] && r.priority <= 16
    requires Goes(Call(writer, 15, LibEncodeWrite(r).value))
    requires Goes(Call(reader, 12, EncodeProperty(r.target.object_, r.target.reference, [])))
    ensures var t := r.target;
            var request, result := EncodeProperty(t.object_, t.reference, []),
                                   EncodeProperty(t.object_, t.reference, PlainAll(r.values));
            var first, second := Sending(writer, 15, LibEncodeWrite(r).value), Sending(reader, 12, request);
            var v := Next(w, first, c);
            && Model.ValidDevice(v.app.device)
            && Answered(writer, Call(writer, 15, LibEncodeWrite(r).value), SimpleAck(writer.id, 15),
                        Sends(w, first, c), c.discovery)
            && Answered(reader, Call(reader, 12, request),
                        if 3 + |result| <= reader.maxApdu then ComplexAck(reader.id, 12, result)
                        else Abort(true, reader.id, SEGMENTATION_NOT_SUPPORTED),
                        Sends(v, second, c), c.discovery)
            && LibDecodeReadResult(result) == Obtained(t, PlainAll(r.values))
  {
    hide Good;
    hide LibEncodeWrite;
    hide EncodeProperty;
    hide EncodePacket;
    hide Sends;
    hide Next;
    hide Goes;
    hide Answered;
    hide LibDecodeReadResult;
    hide Model.WriteProperty;
    hide Model.ReadProperty;
    hide Codec.AllWellFormed;
    hide PlainAll;
    WriteCanBeEncoded(r);
    CallFacts(Call(writer, 15, LibEncodeWrite(r).value));
    var first := Sending(writer, 15, LibEncodeWrite(r).value);
    WriteEndToEnd(w, r, writer, c);
    NextIsGood(w, first, c);
    var v := Next(w, first, c);
    GoodIsValid(v);
    StoredIsReported(w.app.device, c.floats, r);
    ReadEndToEnd(v, r.target, reader, c);
    ReadPropertyRoundTrip(r.target.object_, r.target.reference, PlainAll(r.values));
  }

  lemma {:induction false} PlainFacts(f: Floats, vs: seq<Codec.AppValue>)
    requires Codec.AllWellFormed(vs) && forall i :: 0 <= i < |vs| ==> Exact(f, vs[i])
    ensures Codec.AllWellFormed(PlainAll(vs)) && PlainAll(PlainAll(vs)) == PlainAll(vs)
    ensures forall i :: 0 <= i < |vs| ==> Exact(f, PlainAll(vs)[i]) && Codec.InRange(PlainAll(vs)[i])
  {
    hide EncodeVarUint;
    hide EncodeVarInt;
    if vs != [] {
      PlainFacts(f, vs[1..]);
      assert PlainAll(vs)[1..] == PlainAll(vs[1..]);
    }
  }
}
