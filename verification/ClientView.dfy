/** What the datagrams of a client are to the simulator, and who hears of them: the requests the
    library encodes, SubscribeCOV from call to result, and notifications over runs of datagrams. */
module ClientView {
  import opened Octets
  import opened Datagram
  import opened Responder
  import opened DeviceValues
  import opened Simulator
  import opened SimulatorRuns
  import opened EndToEnd
  import opened EndToEndMultiple
  import opened CovNotices
  import opened CovLog
  import opened CovEndToEnd
  import Codec = ApplicationValues
  import SimulatorAnswers
  import ScenarioRuns
  import Encodable
  import PropertyCodec
  import ReadRequests
  import WriteRequests
  import CovMessages
  import SubscribeRequests
  import Network
  import Model
  import WriteBatch
  import Subscriptions
  import Cov
  import CovRuns
  import Replies
  import Turns

  // ---- The requests the library encodes ----------------------------------

  /** A call that arrives asks for what its payload says. */
  lemma CallAsks(caller: Caller, service: Byte, payload: Octets, c: Context)
    requires Goes(Call(caller, service, payload)) && Accepted(Call(caller, service, payload).apdu, c.discovery)
    ensures EventOf(Sending(caller, service, payload), c)
         == AskedBy(Call(caller, service, payload).apdu, caller.source, c.floats)
  {
    hide DecodePacket;
    hide EncodePacket;
    hide Accepted;
    hide AskedBy;
    PacketRoundTrip(Call(caller, service, payload), c.discovery);
  }

  lemma PlainServices(a: Apdu, discovery: Discovery)
    requires a.Confirmed? && a.service in [5, 15, 16]
    ensures Accepted(a, discovery)
  {
  }

  /** The client's WriteProperty is that write; one with an index changes nothing. */
  lemma EncodedWriteAsks(r: PropertyCodec.WriteRequest, caller: Caller, c: Context)
    requires Codec.ObjectIdInRange(r.target.object_) && Codec.AllWellFormed(r.values)
    requires r.values != [] && r.priority <= 16
    requires Goes(Call(caller, 15, PropertyCodec.LibEncodeWrite(r).value))
    ensures EventOf(Sending(caller, 15, PropertyCodec.LibEncodeWrite(r).value), c)
         == if r.target.reference.index.Some? then Cov.ReadOnly else Cov.WriteOne(DeviceWrite(c.floats, r))
  {
    hide PropertyCodec.LibEncodeWrite;
    hide PropertyCodec.SimDecodeWrite;
    hide Goes;
    hide EventOf;
    hide Accepted;
    hide Codec.AllWellFormed;
    WriteCanBeEncoded(r);
    var payload := PropertyCodec.LibEncodeWrite(r).value;
    PlainServices(Call(caller, 15, payload).apdu, c.discovery);
    CallAsks(caller, 15, payload, c);
    PropertyCodec.WritePropertyRoundTrip(r);
  }

  /** The client's WritePropertyMultiple is the batch of its own writes, under its own objects. */
  lemma EncodedBatchAsks(specs: seq<WriteRequests.WriteSpec>, caller: Caller, c: Context)
    requires specs != [] && forall s <- specs :: WriteRequests.ValidWriteSpec(s)
    requires Goes(Call(caller, 16, WriteRequests.EncodeWriteRequest(specs)))
    ensures var r := EventOf(Sending(caller, 16, WriteRequests.EncodeWriteRequest(specs)), c);
            && r.WriteMany? && |r.specs| == |specs| && Cov.Flattened(r.specs) == RequestWrites(c.floats, specs)
            && forall i :: 0 <= i < |specs| ==> r.specs[i].key == ObjectKeyOf(specs[i].object_)
  {
    hide WriteRequests.EncodeWriteRequest;
    hide WriteRequests.DecodeWriteRequest;
    hide WriteRequests.ValidWriteSpec;
    hide Goes;
    hide EventOf;
    hide Accepted;
    hide SpecsOf;
    hide Cov.Flattened;
    hide RequestWrites;
    var payload := WriteRequests.EncodeWriteRequest(specs);
    PlainServices(Call(caller, 16, payload).apdu, c.discovery);
    CallAsks(caller, 16, payload, c);
    WriteRequests.WriteRequestRoundTrip(specs);
    DecodedAreRequestWrites(c.floats, specs);
    PlainSpecsAre(specs);
  }

  /** The subscription a client names, by its own endpoint. */
  function NamedKey(s: SubscribeRequests.Subscribe, source: Endpoint): (key: Cov.SubscriptionKey)
  {
    Cov.SubscriptionKey(source, s.process, ObjectKeyOf(s.object_))
  }

  /** What a SubscribeCOV asks for; without a lifetime it is for good. */
  function Subscribing(s: SubscribeRequests.Subscribe, source: Endpoint): (r: Cov.Request)
  {
    if s.cancel then Cov.Cancel(NamedKey(s, source))
    else Cov.Subscribe(NamedKey(s, source), s.confirmed, match s.lifetime case None => 0 case Some(n) => n)
  }

  lemma EncodedSubscribeAsks(s: SubscribeRequests.Subscribe, caller: Caller, c: Context)
    requires Goes(Call(caller, 5, SubscribeRequests.EncodeSubscribe(s)))
    ensures EventOf(Sending(caller, 5, SubscribeRequests.EncodeSubscribe(s)), c)
         == Subscribing(SubscribeRequests.Carried(s), caller.source)
  {
    hide SubscribeRequests.EncodeSubscribe;
    hide SubscribeRequests.SimDecodeSubscribe;
    hide SubscribeRequests.LibDecodeSubscribe;
    hide Goes;
    hide EventOf;
    hide Accepted;
    var payload := SubscribeRequests.EncodeSubscribe(s);
    PlainServices(Call(caller, 5, payload).apdu, c.discovery);
    CallAsks(caller, 5, payload, c);
    SubscribeRequests.SubscribeRoundTrip(s);
  }

  /** A time synchronization, local or UTC, is the date and the time it carries. */
  lemma EncodedTimeAsks(date: Codec.AppValue, time: Codec.AppValue, service: Byte, source: Endpoint, f: Floats)
    requires date.Date? && time.Time? && Codec.AllWellFormed([date, time]) && service in [6, 9]
    ensures AskedBy(Unconfirmed(service, Codec.EncodeValues([date, time])), source, f)
         == Cov.TimeSync(Model.Day(date.year, date.month, date.day, date.weekday),
                         Model.Clock(time.hour, time.minute, time.second, time.hundredths))
  {
    hide Codec.EncodeValues;
    hide Codec.DecodeValues;
    hide Codec.WellFormed;
    Codec.ValuesRoundTrip([date, time]);
  }

  // ---- What cannot be decoded --------------------------------------------

  /** The decoder of the service refuses the payload, a priority out of range apart. */
  predicate Malformed(service: Byte, payload: Octets) {
    match service
    case 5 => SubscribeRequests.SimDecodeSubscribe(payload).None?
    case 12 => PropertyCodec.SimDecodeReadProperty(payload).None?
    case 14 => ReadRequests.DecodeRequest(ReadRequests.Simulator, payload).None?
    case 15 => PropertyCodec.SimDecodeWrite(payload).Malformed?
    case 16 => WriteRequests.DecodeWriteRequest(ReadRequests.Simulator, payload).Malformed?
    case _ => false
  }

  predicate PriorityRefused(service: Byte, payload: Octets) {
    || (service == 15 && PropertyCodec.SimDecodeWrite(payload).PriorityOutOfRange?)
    || (service == 16 && WriteRequests.DecodeWriteRequest(ReadRequests.Simulator, payload).PriorityOutOfRange?)
  }

  /** A request that cannot be decoded changes nothing and is rejected: for an invalid tag, or for a
      parameter out of range where only a priority is wrong. */
  lemma MalformedIsRejected(w: World, p: Packet, source: Endpoint, now: Cov.Instant, c: Context)
    requires Model.ValidDevice(w.app.device) && p.apdu.Confirmed? && Registered(p.apdu)
    ensures Malformed(p.apdu.service, p.apdu.payload) ==>
              Handle(w, p, source, now, c) == Outcome(w, [Rejection(4)])
    ensures PriorityRefused(p.apdu.service, p.apdu.payload) ==>
              Handle(w, p, source, now, c) == Outcome(w, [Rejection(6)])
  {
    hide SubscribeRequests.SimDecodeSubscribe;
    hide PropertyCodec.SimDecodeReadProperty;
    hide PropertyCodec.SimDecodeWrite;
    hide ReadRequests.DecodeRequest;
    hide WriteRequests.DecodeWriteRequest;
    hide Turns.WriteTurn;
    hide Turns.BatchTurn;
    hide Turns.SubscribeTurn;
    hide EncodedAll;
    hide AccessesOf;
    hide Model.ReadProperty;
  }

  // ---- SubscribeCOV ------------------------------------------------------

  /** What the client is told: an acknowledgement, that the object is unknown, or that it has no
      Present_Value to report. */
  function SubscribeResult(d: Model.DeviceState, key: Model.ObjectKey, id: Byte): (a: Apdu)
  {
    if Cov.HasPresentValue(d, key) then SimpleAck(id, 5)
    else if key in d.objects then ErrorPdu(id, 5, 2, 44, [])
    else ErrorPdu(id, 5, 1, 31, [])
  }

  lemma SubscribeIsRouted(w: World, p: Packet, source: Endpoint, now: Cov.Instant, c: Context)
    requires Model.ValidDevice(w.app.device) && p.apdu.Confirmed? && p.apdu.service == 5
    ensures Registered(p.apdu) && Accepted(p.apdu, c.discovery)
    ensures Handle(w, p, source, now, c) == HandleSubscribe(w, p.apdu.payload, source, now, c.floats)
  {
    hide HandleSubscribe;
  }

  lemma SubscribeRespondsFirst(w: World, e: CovRuns.Event, f: Floats, key: Cov.SubscriptionKey, incoming: Apdu)
    requires Model.ValidDevice(w.app.device) && incoming.Confirmed? && incoming.service == 5
    requires Concerns(e.request, key)
    ensures var d, rs := w.app.device, Turning(w, e).replies;
            && rs != [] && |rs| == (if e.request.Subscribe? && Cov.HasPresentValue(d, key.object_) then 2 else 1)
            && Encoded(f, d.id, rs[0]).Some?
            && var r, a := Encoded(f, d.id, rs[0]).value, SubscribeResult(d, key.object_, incoming.id);
               && ReplyApdu(incoming, r).Some? && Fitted(incoming, ReplyApdu(incoming, r).value) == a
               && ErrorFits(a) && forall discovery :: Accepted(a, discovery)
  {
    hide Cov.Handled;
    hide Cov.PresentValue;
    hide Cov.HasPresentValue;
  }

  lemma AnnouncedAtOnce(w: World, e: CovRuns.Event)
    requires Model.ValidDevice(w.app.device) && e.request.Subscribe?
    requires Cov.HasPresentValue(w.app.device, e.request.key.object_)
    ensures var rs := Turning(w, e).replies;
            && |rs| == 2 && rs[1].Notice? && rs[1].subscription == e.request.key
            && rs[1].to == e.request.key.subscriber
            && rs[1].values == Cov.PresentValue(w.app.device, e.request.key.object_)
            && rs[1].remaining == e.request.lifetime && (rs[1].invoke.Some? <==> e.request.confirmed)
  {
    hide Cov.Handled;
  }

  /** The client's SubscribeCOV: the application takes exactly what the request carries, the client
      is told the outcome, and a subscription is announced to it at once: Present_Value as it is and
      the whole lifetime, confirmed or not as it asked. */
  lemma SubscribeEndToEnd(w: World, s: SubscribeRequests.Subscribe, caller: Caller, c: Context)
    requires Good(w) && Model.ValidDevice(w.app.device)
    requires Goes(Call(caller, 5, SubscribeRequests.EncodeSubscribe(s)))
    ensures var payload, r := SubscribeRequests.EncodeSubscribe(s),
                              Subscribing(SubscribeRequests.Carried(s), caller.source);
            var a, d := Sending(caller, 5, payload), w.app.device;
            var sent := Sends(w, a, c);
            && Next(w, a, c).app == Cov.Handled(w.app, r, caller.now)
            && Answered(caller, Call(caller, 5, payload), SubscribeResult(d, r.key.object_, caller.id), sent,
                        c.discovery)
            && (r.Cancel? || !Cov.HasPresentValue(d, r.key.object_) ==> |sent| == 1)
            && (r.Subscribe? && Cov.HasPresentValue(d, r.key.object_) ==>
                  && |sent| == 2 && sent[1].to == caller.source
                  && exists n: Replies.Reply ::
                       && n.Notice? && n.subscription == r.key && n.remaining == r.lifetime
                       && (n.invoke.Some? <==> r.confirmed)
                       && n.values == Cov.PresentValue(d, r.key.object_)
                       && Carries(sent[1], n, d.id, c.floats, c.discovery))
  {
    hide Good;
    hide SubscribeRequests.EncodeSubscribe;
    hide DecodePacket;
    hide EncodePacket;
    hide Sends;
    hide Next;
    hide EventOf;
    hide Handle;
    hide HandleSubscribe;
    hide EncodedAll;
    hide Encoded;
    hide Turning;
    hide WriteAll;
    hide Goes;
    hide SimulatorAnswers.Answered;
    hide Answered;
    hide Carries;
    hide Accepted;
    hide ErrorFits;
    hide ReplyApdu;
    hide Fitted;
    hide Cov.Handled;
    hide Cov.PresentValue;
    hide Cov.HasPresentValue;
    hide SubscribeResult;
    hide RoutingFits;
    var payload, q := SubscribeRequests.EncodeSubscribe(s), SubscribeRequests.Carried(s);
    hide SubscribeRequests.Carried;
    var p, r := Call(caller, 5, payload), Subscribing(q, caller.source);
    var e, d := CovRuns.Event(r, caller.now), w.app.device;
    CallFacts(p);
    SubscribeIsRouted(w, p, caller.source, caller.now, c);
    CallArrives(w, p, caller.source, caller.now, c);
    EncodedSubscribeAsks(s, caller, c);
    var a := Sending(caller, 5, payload);
    ArrivalIsEvent(w, a, c);
    GoesIsRouted(p);
    NoticesAreSent(w, a, c);
    SubscribeRespondsFirst(w, e, c.floats, r.key, p.apdu);
    SubscribeTakesTurn(w, payload, caller.source, caller.now, c.floats);
    SubscribePayloadAsks(s, caller.source);
    SimulatorAnswers.SubscribeIsAnswered(w, payload, caller.source, caller.now, c.floats);
    var rs, ss := Turning(w, e).replies, HandleSubscribe(w, payload, caller.source, caller.now, c.floats).responses;
    AnsweredIsWell(ss);
    EncodedOneByOne(c.floats, d.id, rs, ss);
    FirstReplyArrives(p, caller, ss, SubscribeResult(d, r.key.object_, caller.id), c.discovery);
    if r.Subscribe? && Cov.HasPresentValue(d, r.key.object_) {
      AnnouncedAtOnce(w, e);
      CarriesEach(Sends(w, a, c), rs, d.id, c, 1);
      CarriedGoesTo(Sends(w, a, c)[1], rs[1], d.id, c.floats, c.discovery);
    }
  }

  lemma CarriedGoesTo(s: Sent, n: Replies.Reply, device: Uint32, f: Floats, discovery: Discovery)
    requires n.Notice? && Carries(s, n, device, f, discovery)
    ensures s.to == n.to
  {
  }

  lemma GoesIsRouted(p: Packet)
    requires Goes(p)
    ensures RoutingFits(p.npci)
  {
  }

  lemma SubscribePayloadAsks(s: SubscribeRequests.Subscribe, source: Endpoint)
    ensures SubscribeEvent(SubscribeRequests.EncodeSubscribe(s), source)
         == Subscribing(SubscribeRequests.Carried(s), source)
  {
    hide SubscribeRequests.EncodeSubscribe;
    hide SubscribeRequests.SimDecodeSubscribe;
    hide SubscribeRequests.LibDecodeSubscribe;
    SubscribeRequests.SubscribeRoundTrip(s);
  }

  // ---- Who hears of a datagram -------------------------------------------

  /** The packet goes to the subscriber and decodes there to a notification of the subscription. */
  predicate Notifies(s: Sent, key: Cov.SubscriptionKey) {
    && s.to == key.subscriber
    && ((s.packet.apdu.Confirmed? && s.packet.apdu.service == 1)
        || (s.packet.apdu.Unconfirmed? && s.packet.apdu.service == 2))
    && var d := CovMessages.DecodeNotification(s.packet.apdu.payload);
       d.Some? && d.value.head.process == key.process && d.value.head.object_ == IdOf(key.object_)
  }

  lemma CarriesIsNotifies(s: Sent, n: Replies.Reply, device: Uint32, f: Floats, discovery: Discovery,
                          key: Cov.SubscriptionKey)
    requires n.Notice? && n.to == n.subscription.subscriber && Carries(s, n, device, f, discovery)
    ensures Notifies(s, key) <==> n.subscription == key
  {
    hide CovMessages.DecodeNotification;
    hide DecodePacket;
    hide EncodePacket;
    hide Sendable;
  }

  predicate InOrder(arrivals: seq<Arrival>, a: Arrival) {
    && (forall i, j :: 0 <= i < j < |arrivals| ==> arrivals[i].now <= arrivals[j].now)
    && forall i :: 0 <= i < |arrivals| ==> arrivals[i].now <= a.now
  }

  lemma EventsGoOn(d: Model.DeviceState, arrivals: seq<Arrival>, a: Arrival, c: Context)
    requires ScenarioRuns.SoundDevice(d) && Encodable.DeviceEncodes(d) && Model.ValidDevice(d)
    requires InOrder(arrivals, a)
    ensures GoesOn(d, EventsOf(arrivals, c), CovRuns.Event(EventOf(a, c), a.now))
  {
    hide EventOf;
    hide ScenarioRuns.SoundDevice;
    hide Encodable.DeviceEncodes;
    hide WorldAfter;
    hide CovRuns.Reach;
    DatagramsAreEvents(d, arrivals, c);
    ArrivalIsEvent(Fresh(d), a, c);
  }

  /** Who hears of a confirmed request, over every run of datagrams with a clock that does not go
      back: a subscriber gets a notification packet if and only if the request is its own
      SubscribeCOV on an object with a Present_Value, or an acknowledged write that names the object
      while the subscription is alive and leaves Present_Value away from what the subscriber was last
      told by at least the increment. */
  lemma SubscriberHearsIff(d: Model.DeviceState, arrivals: seq<Arrival>, a: Arrival, c: Context,
                           key: Cov.SubscriptionKey)
    requires ScenarioRuns.SoundDevice(d) && Encodable.DeviceEncodes(d) && Model.ValidDevice(d)
    requires InOrder(arrivals, a) && DecodePacket(a.octets, c.discovery).Some?
    requires var p := DecodePacket(a.octets, c.discovery).value; p.apdu.Confirmed? && RoutingFits(p.npci)
    ensures Model.ValidDevice(WorldAfter(d, arrivals, c).app.device)
    ensures var w, r, events := WorldAfter(d, arrivals, c), EventOf(a, c), EventsOf(arrivals, c);
            var sent, told := Sends(w, a, c), LastNotice(Log(d, events), key);
            var current := Model.ReadProperty(Next(w, a, c).app.device, key.object_, Model.PRESENT_VALUE, None);
            (exists i :: 1 <= i < |sent| && Notifies(sent[i], key)) <==>
              if r.Subscribe? then r.key == key && Cov.HasPresentValue(d, key.object_)
              else && Acknowledged(Turning(w, CovRuns.Event(r, a.now)).replies) && Names(r, key.object_)
                   && Alive(d, events, key, a.now) && told.Some? && current.Read?
                   && Moved(Cov.Increment(d, key.object_), told.value.values, current.values)
  {
    hide EventOf;
    hide DecodePacket;
    hide Turning;
    hide Played;
    hide Log;
    hide Sends;
    hide Next;
    hide WorldAfter;
    hide LastNotice;
    hide Alive;
    hide Moved;
    hide Names;
    hide Acknowledged;
    hide Notifies;
    hide CarryAll;
    hide RoutingFits;
    hide ScenarioRuns.SoundDevice;
    hide Encodable.DeviceEncodes;
    hide Good;
    hide CovRuns.Reach;
    hide Model.ReadProperty;
    hide GoesOn;
    var w, events, e := WorldAfter(d, arrivals, c), EventsOf(arrivals, c), CovRuns.Event(EventOf(a, c), a.now);
    GoodIsValid(w);
    DatagramsArePlayed(d, arrivals, c);
    EventsGoOn(d, arrivals, a, c);
    NextIsTurn(w, a, c);
    NoticeIffMoved(d, events, e, key);
    NoticesAreSent(w, a, c);
    SentIffNotice(d, events, e, w, Sends(w, a, c), c, key);
  }

  lemma SentIffNotice(d: Model.DeviceState, events: seq<CovRuns.Event>, e: CovRuns.Event, w: World, sent: seq<Sent>,
                      c: Context, key: Cov.SubscriptionKey)
    requires GoesOn(d, events, e) && w == Played(d, events)
    requires CarryAll(sent, Turning(w, e).replies, w.app.device.id, c)
    ensures (exists i :: 1 <= i < |sent| && Notifies(sent[i], key)) <==> LastNotice(Turning(w, e).replies, key).Some?
  {
    hide Turning;
    hide Played;
    hide LastNotice;
    hide Notifies;
    hide Carries;
    hide GoesOn;
    var rs := Turning(w, e).replies;
    forall i | 1 <= i < |sent|
      ensures i < |rs| && rs[i].Notice? && (Notifies(sent[i], key) <==> rs[i].subscription == key)
    {
      CarriesEach(sent, rs, w.app.device.id, c, i);
      GoesToSubscriber(d, events, e, rs[i]);
      CarriesIsNotifies(sent[i], rs[i], w.app.device.id, c.floats, c.discovery, key);
    }
    if LastNotice(rs, key).Some? {
      var i :| 0 <= i < |rs| && rs[i] == LastNotice(rs, key).value;
      assert Notifies(sent[i], key);
    }
  }

  /** Every notice of a run goes to its own subscriber. */
  lemma GoesToSubscriber(d: Model.DeviceState, events: seq<CovRuns.Event>, e: CovRuns.Event, n: Replies.Reply)
    requires GoesOn(d, events, e) && n in Turning(Played(d, events), e).replies && n.Notice?
    ensures n.to == n.subscription.subscriber
  {
    hide Turning;
    hide CovRuns.Reach;
    hide GoesOn;
    RunValid(d, events, e);
    var w := Played(d, events);
    RunEndpoints(d, events);
    TurnTells(w, e, n);
  }

  lemma RunValid(d: Model.DeviceState, events: seq<CovRuns.Event>, e: CovRuns.Event)
    requires GoesOn(d, events, e)
    ensures Model.ValidDevice(d)
  {
  }

  lemma TurnTells(w: World, e: CovRuns.Event, n: Replies.Reply)
    requires Model.ValidDevice(w.app.device) && EndpointsTrue(w.app)
    requires n in Turning(w, e).replies && n.Notice?
    ensures n.to == n.subscription.subscriber
  {
    hide Model.WriteProperty;
    hide WriteBatch.Batch;
    hide Turns.NoticesOf;
    hide Turns.NoticesOfAll;
    hide Cov.Notified;
    hide Cov.NotifiedAll;
    hide Cov.Flattened;
    hide Cov.Objects;
    hide Cov.Handled;
    hide Cov.PresentValue;
    if e.request.WriteOne? {
      var s := w.app.(device := Model.WriteProperty(w.app.device, e.request.write).device);
      NoticesGoHome(s, e.request.write.key, e.now, w.invokeId);
    } else if e.request.WriteMany? {
      var s := w.app.(device := WriteBatch.Batch(w.app.device, Cov.Flattened(e.request.specs)).device);
      AllNoticesGoHome(s, Cov.Objects(e.request.specs), e.now, w.invokeId);
    }
  }

  predicate AtHome(rs: seq<Replies.Reply>) {
    forall n <- rs :: n.Notice? && n.to == n.subscription.subscriber
  }

  lemma {:induction false} NoticesForGoHome(s: Cov.AppState, keys: seq<Cov.SubscriptionKey>, now: Cov.Instant,
                                            from: Byte)
    requires EndpointsTrue(s) && forall i :: 0 <= i < |keys| ==> Turns.CanTell(s, keys[i])
    ensures AtHome(Turns.NoticesFor(s, keys, now, from))
    decreases |keys|
  {
    hide Cov.TimeRemaining;
    hide Cov.PresentValue;
    hide Replies.ConfirmedCount;
    if keys != [] {
      NoticesForGoHome(s, keys[..|keys| - 1], now, from);
      assert Turns.CanTell(s, keys[|keys| - 1]);
    }
  }

  lemma NoticesGoHome(s: Cov.AppState, object_: Model.ObjectKey, now: Cov.Instant, from: Byte)
    requires EndpointsTrue(s)
    ensures AtHome(Turns.NoticesOf(s, object_, now, from))
  {
    hide Turns.NoticesFor;
    hide Turns.CanTell;
    hide Cov.Reported;
    hide Subscriptions.Lists;
    var keys := Subscriptions.Listing(Cov.Reported(s, object_, now));
    Turns.ReportedCanBeTold(s, object_, now, keys);
    NoticesForGoHome(s, keys, now, from);
  }

  lemma {:induction false} AllNoticesGoHome(s: Cov.AppState, objects: seq<Model.ObjectKey>, now: Cov.Instant,
                                            from: Byte)
    requires EndpointsTrue(s)
    ensures AtHome(Turns.NoticesOfAll(s, objects, now, from))
    decreases |objects|
  {
    hide Turns.NoticesOf;
    hide Cov.Reported;
    hide Cov.Pruned;
    if objects != [] {
      var ns := Turns.NoticesOf(s, objects[0], now, from);
      NoticesGoHome(s, objects[0], now, from);
      var next := Replies.IdAfter(from, Replies.ConfirmedCount(ns));
      AllNoticesGoHome(Cov.Notified(s, objects[0], now), objects[1..], now, next);
    }
  }
}
