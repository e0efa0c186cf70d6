/** The whole simulator: a datagram is decoded, routed, handled by the application and answered
    (bacnet/responder/server.go with simulator/application.go and simulator/services.go). */
module Simulator {
  import opened Octets
  import opened Datagram
  import opened Responder
  import opened DeviceValues
  import Codec = ApplicationValues
  import Model
  import WriteBatch
  import Cov
  import Replies
  import Turns
  import ReadAll
  import ReadRequests
  import WriteRequests
  import PropertyCodec
  import ReadResults
  import WriteErrors
  import CovMessages
  import SubscribeRequests

  const INVALID_TAG: Byte := 4
  const PARAMETER_OUT_OF_RANGE: Byte := 6
  const PROPERTY_CLASS: Byte := 2
  const DATATYPE_NOT_SUPPORTED: Byte := 47

  /** What this model is given: the meaning of bit patterns, whether the discovery decoders accept a
      payload, and the replies to Who-Is and Who-Has. */
  datatype Context = Context(floats: Floats, discovery: Discovery, discover: Packet -> seq<Response>)

  type World = Turns.World

  // ---- Replies on the wire -----------------------------------------------

  /** The payload of a COV notification: encodeCOVNotification with the 32 bits of the time left. */
  function NoticePayload(f: Floats, device: Uint32, key: Cov.SubscriptionKey, remaining: nat, values: seq<Model.Value>):
      (b: Option<Octets>)
  {
    if device > MAX_INSTANCE || key.object_.instance > MAX_INSTANCE then None
    else match ToAll(f, values)
      case None => None
      case Some(vs) =>
        var report := CovMessages.Report(ReadRequests.Reference(Model.PRESENT_VALUE, None), vs);
        Some(CovMessages.EncodeNotification(
          CovMessages.Notification(key.process, device, IdOf(key.object_), remaining % 0x1_0000_0000, [report])))
  }

  /** A reply as a response, None where its encoding fails. */
  function Encoded(f: Floats, device: Uint32, r: Replies.Reply): (s: Option<Response>)
  {
    match r
    case SimpleAck => Some(Ack)
    case Values(_) => None
    case Failed(e) => Some(Failure(e.class_, e.code, []))
    case FailedWrite(e, key, property, index) =>
      if key.instance > MAX_INSTANCE then None
      else
        var error := WriteErrors.WriteError(e.class_, e.code, IdOf(key), ReadRequests.Reference(property, index));
        Some(Failure(e.class_, e.code, WriteErrors.EncodeWriteError(error)))
    case Notice(key, to, id, remaining, values) =>
      (match NoticePayload(f, device, key, remaining, values)
       case None => None
       case Some(payload) =>
         Some(if id.Some? then Request(1, id.value, payload, Some(to)) else Unsolicited(2, payload, Some(to), false)))
  }

  /** The responses to a request; a handler whose encoding fails answers nothing. */
  function EncodedAll(f: Floats, device: Uint32, rs: seq<Replies.Reply>): (ss: seq<Response>)
  {
    if forall i :: 0 <= i < |rs| ==> Encoded(f, device, rs[i]).Some?
    then seq(|rs|, i requires 0 <= i < |rs| && Encoded(f, device, rs[i]).Some? => Encoded(f, device, rs[i]).value)
    else []
  }

  datatype Outcome = Outcome(world: World, responses: seq<Response>)

  // ---- Handlers ----------------------------------------------------------

  /** handleReadProperty */
  function HandleRead(w: World, payload: Octets, f: Floats): (rs: seq<Response>)
  {
    match PropertyCodec.SimDecodeReadProperty(payload)
    case None => [Rejection(INVALID_TAG)]
    case Some(t) =>
      match Model.ReadProperty(w.app.device, ObjectKeyOf(t.object_), t.reference.id, t.reference.index)
      case Unread(e) => [Failure(Replies.ClassCodeOf(e).class_, Replies.ClassCodeOf(e).code, [])]
      case Read(values) =>
        match ToAll(f, values)
        case None => [Failure(PROPERTY_CLASS, DATATYPE_NOT_SUPPORTED, [])]
        case Some(vs) => [Result(PropertyCodec.EncodeProperty(t.object_, t.reference, vs))]
  }

  /** One result of handleReadPropertyMultiple. */
  function ResultOf(d: Model.DeviceState, o: Codec.ObjectId, r: ReadRequests.Reference, f: Floats):
      (a: Option<ReadResults.PropertyResult>)
  {
    match Model.ReadProperty(d, ObjectKeyOf(o), r.id, r.index)
    case Unread(e) =>
      var c := Replies.ClassCodeOf(e);
      Some(ReadResults.PropertyResult(r, ReadResults.Failed(c.class_, c.code)))
    case Read(values) =>
      match ToAll(f, values)
      case None => None
      case Some(vs) => Some(ReadResults.PropertyResult(r, ReadResults.Answered(vs)))
  }

  function ResultsOf(d: Model.DeviceState, o: Codec.ObjectId, rs: seq<ReadRequests.Reference>, f: Floats):
      (as_: Option<seq<ReadResults.PropertyResult>>)
  {
    if rs == [] then Some([])
    else match ResultOf(d, o, rs[0], f)
      case None => None
      case Some(a) =>
        match ResultsOf(d, o, rs[1..], f)
        case None => None
        case Some(rest) => Some([a] + rest)
  }

  ghost function AccessesOf(d: Model.DeviceState, specs: seq<ReadRequests.ReadSpec>, f: Floats):
      (as_: Option<seq<ReadResults.AccessResult>>)
  {
    if specs == [] then Some([])
    else
      var o := specs[0].object_;
      match ResultsOf(d, o, ReadAll.Expanded(d, ObjectKeyOf(o), specs[0].references), f)
      case None => None
      case Some(rs) =>
        match AccessesOf(d, specs[1..], f)
        case None => None
        case Some(rest) => Some([ReadResults.AccessResult(o, rs)] + rest)
  }

  /** handleReadPropertyMultiple: an encoding that fails leaves the request unanswered. */
  ghost function HandleReadMultiple(w: World, payload: Octets, f: Floats): (rs: seq<Response>)
  {
    match ReadRequests.DecodeRequest(ReadRequests.Simulator, payload)
    case None => [Rejection(INVALID_TAG)]
    case Some(specs) =>
      match AccessesOf(w.app.device, specs, f)
      case None => []
      case Some(as_) => [Result(ReadResults.EncodeAck(as_))]
  }

  function BatchWriteOf(f: Floats, o: Codec.ObjectId, r: ReadRequests.Reference, vs: seq<Codec.AppValue>,
                        priority: Byte):
      (w: WriteBatch.BatchWrite)
  {
    WriteBatch.BatchWrite(Model.Write(ObjectKeyOf(o), r.id, FromAll(f, vs), priority), r.index)
  }

  /** handleWriteProperty */
  ghost function HandleWrite(w: World, payload: Octets, now: Cov.Instant, f: Floats): (o: Outcome)
    requires Model.ValidDevice(w.app.device)
  {
    match PropertyCodec.SimDecodeWrite(payload)
    case Malformed => Outcome(w, [Rejection(INVALID_TAG)])
    case PriorityOutOfRange => Outcome(w, [Rejection(PARAMETER_OUT_OF_RANGE)])
    case Ok(request, _) =>
      var t := request.target;
      var turn := Turns.WriteTurn(w, BatchWriteOf(f, t.object_, t.reference, request.values, request.priority), now);
      Outcome(turn.world, EncodedAll(f, w.app.device.id, turn.replies))
  }

  function BatchWritesOf(f: Floats, o: Codec.ObjectId, ws: seq<WriteRequests.PropertyWrite>):
      (bs: seq<WriteBatch.BatchWrite>)
    ensures |bs| == |ws|
    ensures forall i :: 0 <= i < |ws| ==> bs[i] == BatchWriteOf(f, o, ws[i].reference, ws[i].values, ws[i].priority)
  {
    seq(|ws|, i requires 0 <= i < |ws| => BatchWriteOf(f, o, ws[i].reference, ws[i].values, ws[i].priority))
  }

  function SpecsOf(f: Floats, specs: seq<WriteRequests.WriteSpec>): (os: seq<Cov.ObjectWrites>)
    ensures |os| == |specs|
    ensures forall i :: 0 <= i < |specs| ==>
              && os[i].key == ObjectKeyOf(specs[i].object_)
              && os[i].writes == BatchWritesOf(f, specs[i].object_, specs[i].writes)
  {
    seq(|specs|, i requires 0 <= i < |specs| =>
      Cov.ObjectWrites(ObjectKeyOf(specs[i].object_), BatchWritesOf(f, specs[i].object_, specs[i].writes)))
  }

  /** handleWritePropertyMultiple */
  ghost function HandleWriteMultiple(w: World, payload: Octets, now: Cov.Instant, f: Floats): (o: Outcome)
    requires Model.ValidDevice(w.app.device)
  {
    match WriteRequests.DecodeWriteRequest(ReadRequests.Simulator, payload)
    case Malformed => Outcome(w, [Rejection(INVALID_TAG)])
    case PriorityOutOfRange => Outcome(w, [Rejection(PARAMETER_OUT_OF_RANGE)])
    case Ok(specs, _) =>
      var turn := Turns.BatchTurn(w, SpecsOf(f, specs), now);
      Outcome(turn.world, EncodedAll(f, w.app.device.id, turn.replies))
  }

  /** handleSubscribeCOV */
  function HandleSubscribe(w: World, payload: Octets, source: Endpoint, now: Cov.Instant, f: Floats): (o: Outcome)
    requires Model.ValidDevice(w.app.device)
  {
    match SubscribeRequests.SimDecodeSubscribe(payload)
    case None => Outcome(w, [Rejection(INVALID_TAG)])
    case Some(s) =>
      var key := Cov.SubscriptionKey(source, s.process, ObjectKeyOf(s.object_));
      var turn := Turns.SubscribeTurn(w, key, s.cancel, s.confirmed, s.lifetime, now);
      Outcome(turn.world, EncodedAll(f, w.app.device.id, turn.replies))
  }

  /** handleTimeSync: a Date and a Time, or nothing happens. */
  function HandleTimeSync(w: World, payload: Octets): (v: World)
    requires Model.ValidDevice(w.app.device)
  {
    match Codec.DecodeValues(payload)
    case None => w
    case Some(vs) =>
      if |vs| == 2 && vs[0].Date? && vs[1].Time? then
        var day := Model.Day(vs[0].year, vs[0].month, vs[0].day, vs[0].weekday);
        var clock := Model.Clock(vs[1].hour, vs[1].minute, vs[1].second, vs[1].hundredths);
        w.(app := w.app.(device := Model.SetLocalTime(w.app.device, day, clock)))
      else w
  }

  /** The services Application.Register registers. */
  predicate Registered(a: Apdu) {
    || (a.Confirmed? && a.service in [12, 15, 16, 14, 5])
    || (a.Unconfirmed? && a.service in [8, 7, 6, 9])
  }

  /** The handler of a registered service. */
  ghost function Handle(w: World, p: Packet, source: Endpoint, now: Cov.Instant, c: Context): (o: Outcome)
    requires Model.ValidDevice(w.app.device) && Registered(p.apdu)
  {
    if p.apdu.Unconfirmed? then
      if p.apdu.service in [6, 9] then Outcome(HandleTimeSync(w, p.apdu.payload), []) else Outcome(w, c.discover(p))
    else match p.apdu.service
      case 12 => Outcome(w, HandleRead(w, p.apdu.payload, c.floats))
      case 14 => Outcome(w, HandleReadMultiple(w, p.apdu.payload, c.floats))
      case 15 => HandleWrite(w, p.apdu.payload, now, c.floats)
      case 16 => HandleWriteMultiple(w, p.apdu.payload, now, c.floats)
      case _ => HandleSubscribe(w, p.apdu.payload, source, now, c.floats)
  }

  /** What the responder finds registered, in this world. */
  ghost function HandlersOf(w: World, source: Endpoint, now: Cov.Instant, c: Context): (h: Handlers)
    requires Model.ValidDevice(w.app.device)
  {
    (p: Packet) => if Registered(p.apdu) then Some(Handle(w, p, source, now, c).responses) else None
  }

  /** A datagram as it arrives. */
  datatype Arrival = Arrival(octets: Octets, source: Endpoint, now: Cov.Instant)

  /** What the simulator sends for a datagram. */
  ghost function Sends(w: World, a: Arrival, c: Context): (sent: seq<Sent>)
    requires Model.ValidDevice(w.app.device)
  {
    Serve(a.octets, a.source, c.discovery, HandlersOf(w, a.source, a.now, c))
  }

  /** The world a datagram leaves: unchanged unless it parses, its route is sound, it is not
      segmented and a handler is registered. */
  ghost function Next(w: World, a: Arrival, c: Context): (v: World)
    requires Model.ValidDevice(w.app.device)
  {
    match DecodePacket(a.octets, c.discovery)
    case None => w
    case Some(p) =>
      if RoutingFits(p.npci) && !p.apdu.Segmented? && Registered(p.apdu)
      then Handle(w, p, a.source, a.now, c).world else w
  }
}
