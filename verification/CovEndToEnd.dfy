/** Change-of-value notification over datagrams: which packets a subscriber gets, what its decoder
    makes of them, and the client's SubscribeCOV from call to result. */
module CovEndToEnd {
  import opened Octets
  import opened Datagram
  import opened Responder
  import opened DeviceValues
  import opened Simulator
  import opened SimulatorRuns
  import opened EndToEnd
  import opened CovNotices
  import opened CovLog
  import Codec = ApplicationValues
  import SimulatorAnswers
  import ScenarioRuns
  import Encodable
  import PropertyCodec
  import ReadRequests
  import ReadResults
  import WriteRequests
  import CovMessages
  import SubscribeRequests
  import ValueLists
  import Network
  import Model
  import WriteBatch
  import Cov
  import CovRuns
  import Replies
  import Turns

  // ---- One notice --------------------------------------------------------

  /** What a subscriber should decode: its process identifier, the device and the object, the time
      left, and Present_Value with these values. */
  function Expected(device: Uint32, key: Cov.SubscriptionKey, remaining: Uint32, vs: seq<Codec.AppValue>):
      (d: CovMessages.Decoded)
  {
    var o := IdOf(key.object_);
    var present := PropertyCodec.Property(Some(o), ReadRequests.Reference(Model.PRESENT_VALUE, None),
                                          ValueLists.Values(vs));
    CovMessages.Decoded(CovMessages.Head(key.process, Codec.ObjectId(Model.DEVICE_TYPE, device), o, remaining),
                        [CovMessages.Received(present, 0)])
  }

  /** The packet carries the notice: it goes to its endpoint, arrives as it is, confirmed with the
      invoke ID or unconfirmed, and decodes to what the notice says. */
  predicate Carries(s: Sent, n: Replies.Reply, device: Uint32, f: Floats, discovery: Discovery)
    requires n.Notice?
  {
    && s.to == n.to && Sendable(s.packet) && DecodePacket(EncodePacket(s.packet), discovery) == Some(s.packet)
    && ToAll(f, n.values).Some?
    && (if n.invoke.Some? then s.packet.apdu.Confirmed? && s.packet.apdu.service == 1
                               && s.packet.apdu.id == n.invoke.value
        else s.packet.apdu.Unconfirmed? && s.packet.apdu.service == 2)
    && CovMessages.DecodeNotification(s.packet.apdu.payload)
         == Some(Expected(device, n.subscription, n.remaining % 0x1_0000_0000, ToAll(f, n.values).value))
  }

  lemma NumbersAreWellFormed(v: Codec.AppValue)
    requires v.Unsigned? || v.Enumerated? || v.Real?
    ensures Codec.WellFormed(v)
  {
    hide EncodeVarUint;
  }

  lemma NoticeDecodes(f: Floats, d: Model.DeviceState, n: Replies.Reply)
    requires ScenarioRuns.SoundDevice(d) && Encodable.DeviceEncodes(d) && SimulatorAnswers.Shows(d, n)
    ensures ToAll(f, n.values).Some?
    ensures var payload := NoticePayload(f, d.id, n.subscription, n.remaining, n.values);
            && payload.Some?
            && CovMessages.DecodeNotification(payload.value)
                 == Some(Expected(d.id, n.subscription, n.remaining % 0x1_0000_0000, ToAll(f, n.values).value))
  {
    hide ScenarioRuns.SoundDevice;
    hide CovMessages.EncodeNotification;
    hide CovMessages.DecodeNotification;
    hide Encodable.ObjectEncodes;
    hide Codec.WellFormed;
    SimulatorAnswers.ShownIsOneNumber(d, n.subscription.object_, f);
    var vs := ToAll(f, n.values).value;
    assert vs == [vs[0]] && ToCodec(f, n.values[0]) == Some(vs[0]);
    NumbersAreWellFormed(vs[0]);
    var report := CovMessages.Report(ReadRequests.Reference(Model.PRESENT_VALUE, None), vs);
    var message := CovMessages.Notification(n.subscription.process, d.id, IdOf(n.subscription.object_),
                                            n.remaining % 0x1_0000_0000, [report]);
    assert CovMessages.ValidNotification(message) && CovMessages.Short(report);
    CovMessages.NotificationRoundTrip(message);
    assert [report][1..] == [] && [report][0] == report;
    assert CovMessages.Seen(message.object_, []) == [];
    var seen := CovMessages.Seen(message.object_, message.reports);
    assert seen == Expected(d.id, n.subscription, message.remaining, vs).list;
    assert CovMessages.Content(message).head == Expected(d.id, n.subscription, message.remaining, vs).head;
  }

  lemma NoticeArrives(p: Packet, source: Endpoint, f: Floats, d: Model.DeviceState, n: Replies.Reply,
                      discovery: Discovery)
    requires Answerable(p)
    requires ScenarioRuns.SoundDevice(d) && Encodable.DeviceEncodes(d) && SimulatorAnswers.Shows(d, n)
    ensures Encoded(f, d.id, n).Some?
    ensures var s := WriteResponse(p, source, Encoded(f, d.id, n).value);
            s.Some? && Carries(s.value, n, d.id, f, discovery)
  {
    hide ScenarioRuns.SoundDevice;
    hide Encodable.DeviceEncodes;
    hide WriteResponse;
    hide DecodePacket;
    hide EncodePacket;
    hide Accepted;
    hide NoticePayload;
    hide CovMessages.DecodeNotification;
    hide Expected;
    hide Answerable;
    NoticeDecodes(f, d, n);
    SimulatorAnswers.NoticeIsEncoded(f, d, n);
    var r := Encoded(f, d.id, n).value;
    RequestIsWritten(p, source, r);
    var q := WriteResponse(p, source, r).value.packet;
    RequestNpci(p, source, r);
    NotificationIsAccepted(q.apdu, discovery);
    PacketRoundTrip(q, discovery);
  }

  lemma RequestNpci(p: Packet, source: Endpoint, r: Response)
    requires Answerable(p) && WriteResponse(p, source, r).Some?
    ensures Network.Complete(WriteResponse(p, source, r).value.packet.npci)
  {
    hide ReplyApdu;
    hide Fitted;
    hide Sendable;
    ReplyNpciFits(p.npci, r);
  }

  lemma NotificationIsAccepted(a: Apdu, discovery: Discovery)
    requires (a.Confirmed? && a.service == 1) || (a.Unconfirmed? && a.service == 2)
    ensures Accepted(a, discovery) <==> CovMessages.DecodeNotification(a.payload).Some?
    ensures ErrorFits(a)
  {
    hide CovMessages.DecodeNotification;
    hide PropertyCodec.DecodeProperty;
  }

  // ---- Datagrams are turns -----------------------------------------------

  /** A turn of the value model from the request of a WriteProperty, WritePropertyMultiple or
      SubscribeCOV payload; a payload that asks for nothing gets at most one response. */
  ghost predicate TakesTurn(w: World, r: Cov.Request, now: Cov.Instant, o: Outcome, f: Floats)
    requires Model.ValidDevice(w.app.device)
  {
    var t := Turning(w, CovRuns.Event(r, now));
    && o.world == t.world
    && if t.replies == [] then |o.responses| <= 1 else o.responses == EncodedAll(f, w.app.device.id, t.replies)
  }

  lemma IdleTurn(w: World, now: Cov.Instant)
    requires Model.ValidDevice(w.app.device)
    ensures Turning(w, CovRuns.Event(Cov.ReadOnly, now)) == Turns.Turn(w, [])
  {
  }

  lemma IndexIsRefused(w: World, bw: WriteBatch.BatchWrite, now: Cov.Instant, f: Floats)
    requires Model.ValidDevice(w.app.device) && bw.index.Some?
    ensures Turns.WriteTurn(w, bw, now).world == w
    ensures |EncodedAll(f, w.app.device.id, Turns.WriteTurn(w, bw, now).replies)| <= 1
  {
  }

  lemma WriteTakesTurn(w: World, payload: Octets, now: Cov.Instant, f: Floats)
    requires Model.ValidDevice(w.app.device)
    ensures TakesTurn(w, WriteEvent(payload, f), now, HandleWrite(w, payload, now, f), f)
  {
    hide PropertyCodec.SimDecodeWrite;
    hide Turns.WriteTurn;
    hide EncodedAll;
    IdleTurn(w, now);
    if PropertyCodec.SimDecodeWrite(payload).Ok? {
      var q := PropertyCodec.SimDecodeWrite(payload).value;
      var bw := BatchWriteOf(f, q.target.object_, q.target.reference, q.values, q.priority);
      if bw.index.Some? {
        IndexIsRefused(w, bw, now, f);
      } else {
        assert bw == WriteBatch.BatchWrite(bw.write, None);
        WriteReplies(w, bw, now);
      }
    }
  }

  lemma BatchTakesTurn(w: World, payload: Octets, now: Cov.Instant, f: Floats)
    requires Model.ValidDevice(w.app.device)
    ensures TakesTurn(w, BatchEvent(payload, f), now, HandleWriteMultiple(w, payload, now, f), f)
  {
    hide WriteRequests.DecodeWriteRequest;
    hide Turns.BatchTurn;
    hide EncodedAll;
    hide SpecsOf;
    IdleTurn(w, now);
    var request := WriteRequests.DecodeWriteRequest(ReadRequests.Simulator, payload);
    if request.Ok? {
      BatchReplies(w, SpecsOf(f, request.value), now);
    }
  }

  lemma WriteReplies(w: World, bw: WriteBatch.BatchWrite, now: Cov.Instant)
    requires Model.ValidDevice(w.app.device)
    ensures Turns.WriteTurn(w, bw, now).replies != []
  {
    hide Model.WriteProperty;
    hide Turns.NoticesOf;
    hide Cov.Notified;
  }

  lemma BatchReplies(w: World, specs: seq<Cov.ObjectWrites>, now: Cov.Instant)
    requires Model.ValidDevice(w.app.device)
    ensures Turns.BatchTurn(w, specs, now).replies != []
  {
    hide WriteBatch.Batch;
    hide Turns.NoticesOfAll;
    hide Cov.NotifiedAll;
    hide Cov.Flattened;
  }

  lemma SubscribeTakesTurn(w: World, payload: Octets, source: Endpoint, now: Cov.Instant, f: Floats)
    requires Model.ValidDevice(w.app.device)
    ensures TakesTurn(w, SubscribeEvent(payload, source), now, HandleSubscribe(w, payload, source, now, f), f)
  {
    hide SubscribeRequests.SimDecodeSubscribe;
    hide EncodedAll;
    hide Cov.Handled;
    IdleTurn(w, now);
  }

  lemma TimeTakesTurn(w: World, payload: Octets, now: Cov.Instant, f: Floats)
    requires Model.ValidDevice(w.app.device)
    ensures TakesTurn(w, TimeEvent(payload), now, Outcome(HandleTimeSync(w, payload), []), f)
  {
    hide Codec.DecodeValues;
    hide Model.SetLocalTime;
    IdleTurn(w, now);
  }

  lemma ReadTakesTurn(w: World, rs: seq<Response>, now: Cov.Instant, f: Floats)
    requires Model.ValidDevice(w.app.device) && |rs| <= 1
    ensures TakesTurn(w, Cov.ReadOnly, now, Outcome(w, rs), f)
  {
    IdleTurn(w, now);
  }

  lemma HandleTakesTurn(w: World, p: Packet, source: Endpoint, now: Cov.Instant, c: Context)
    requires Model.ValidDevice(w.app.device) && Registered(p.apdu) && p.apdu.Confirmed?
    ensures TakesTurn(w, AskedBy(p.apdu, source, c.floats), now, Handle(w, p, source, now, c), c.floats)
  {
    hide TakesTurn;
    hide HandleWrite;
    hide HandleWriteMultiple;
    hide HandleSubscribe;
    hide HandleRead;
    hide HandleReadMultiple;
    hide WriteEvent;
    hide BatchEvent;
    hide SubscribeEvent;
    var payload, f := p.apdu.payload, c.floats;
    if p.apdu.service == 12 {
      ReadsAreShort(w, payload, f);
      ReadTakesTurn(w, HandleRead(w, payload, f), now, f);
    } else if p.apdu.service == 14 {
      ReadsAreShort(w, payload, f);
      ReadTakesTurn(w, HandleReadMultiple(w, payload, f), now, f);
    } else if p.apdu.service == 15 {
      WriteTakesTurn(w, payload, now, f);
    } else if p.apdu.service == 16 {
      BatchTakesTurn(w, payload, now, f);
    } else {
      SubscribeTakesTurn(w, payload, source, now, f);
    }
  }

  lemma ReadsAreShort(w: World, payload: Octets, f: Floats)
    ensures |HandleRead(w, payload, f)| <= 1 && |HandleReadMultiple(w, payload, f)| <= 1
  {
    hide PropertyCodec.SimDecodeReadProperty;
    hide ReadRequests.DecodeRequest;
    hide Model.ReadProperty;
    hide AccessesOf;
  }

  /** Every datagram takes the turn of the request it carries: tables, device and invoke ID. */
  lemma NextIsTurn(w: World, a: Arrival, c: Context)
    requires Model.ValidDevice(w.app.device)
    ensures Next(w, a, c) == Turning(w, CovRuns.Event(EventOf(a, c), a.now)).world
  {
    hide DecodePacket;
    hide RoutingFits;
    hide Turning;
    hide WriteEvent;
    hide BatchEvent;
    hide SubscribeEvent;
    hide TimeEvent;
    hide HandleTimeSync;
    hide EncodedAll;
    IdleTurn(w, a.now);
    var packet := DecodePacket(a.octets, c.discovery);
    if packet.Some? && RoutingFits(packet.value.npci) {
      var p := packet.value;
      if p.apdu.Unconfirmed? {
        TimeTakesTurn(w, p.apdu.payload, a.now, c.floats);
      } else if p.apdu.Confirmed? && Registered(p.apdu) {
        hide Handle;
        HandleTakesTurn(w, p, a.source, a.now, c);
      }
    }
  }

  /** Every run of datagrams is the run of their requests, replies and invoke IDs included. */
  lemma {:induction false} DatagramsArePlayed(d: Model.DeviceState, arrivals: seq<Arrival>, c: Context)
    requires ScenarioRuns.SoundDevice(d) && Encodable.DeviceEncodes(d) && Model.ValidDevice(d)
    ensures WorldAfter(d, arrivals, c) == Played(d, EventsOf(arrivals, c))
    decreases |arrivals|
  {
    hide Next;
    hide EventOf;
    hide Turning;
    hide ScenarioRuns.SoundDevice;
    hide Encodable.DeviceEncodes;
    hide Good;
    if arrivals != [] {
      var n := |arrivals| - 1;
      DatagramsArePlayed(d, arrivals[..n], c);
      var w, events := WorldAfter(d, arrivals[..n], c), EventsOf(arrivals, c);
      WorldSteps(d, arrivals, c);
      hide WorldAfter;
      NextIsTurn(w, arrivals[n], c);
      assert events[..n] == EventsOf(arrivals[..n], c);
      assert events != [] && |events| - 1 == n;
    }
  }

  // ---- Notices are sent --------------------------------------------------

  lemma RequestKeepsId(s: Cov.AppState, r: Cov.Request, now: Cov.Instant)
    requires Model.ValidDevice(s.device)
    ensures Cov.Handled(s, r, now).device.id == s.device.id
  {
    hide Model.WriteProperty;
    hide WriteBatch.ApplyAll;
    hide WriteBatch.FirstRefused;
    hide Cov.Notified;
    hide Cov.NotifiedAll;
    if r.WriteOne? {
      SimulatorAnswers.IdIsKept(s.device, r.write);
    } else if r.WriteMany? {
      SimulatorAnswers.BatchIdIsKept(s.device, Cov.Flattened(r.specs));
    }
  }

  /** After the first, every reply of a turn is a notice that shows the device as the turn leaves it. */
  lemma TurnShows(w: World, e: CovRuns.Event)
    requires Model.ValidDevice(w.app.device)
    ensures var t := Turning(w, e);
            && (t.replies != [] ==> !t.replies[0].Notice?)
            && forall i :: 1 <= i < |t.replies| ==> SimulatorAnswers.Shows(t.world.app.device, t.replies[i])
  {
    hide Model.WriteProperty;
    hide WriteBatch.Batch;
    hide Turns.NoticesOf;
    hide Turns.NoticesOfAll;
    hide Cov.Notified;
    hide Cov.NotifiedAll;
    hide Cov.Flattened;
    hide Cov.Objects;
    hide Cov.Pruned;
    if e.request.WriteOne? {
      var d := Model.WriteProperty(w.app.device, e.request.write).device;
      SimulatorAnswers.NoticesShow(w.app.(device := d), e.request.write.key, e.now, w.invokeId);
    } else if e.request.WriteMany? {
      var specs := e.request.specs;
      var d := WriteBatch.Batch(w.app.device, Cov.Flattened(specs)).device;
      SimulatorAnswers.AllNoticesShow(w.app.(device := d), Cov.Objects(specs), e.now, w.invokeId);
    }
  }

  /** After the first packet, exactly the notices among the replies, in order, each as a packet that
      carries it. */
  predicate CarryAll(sent: seq<Sent>, rs: seq<Replies.Reply>, device: Uint32, c: Context) {
    && (rs != [] ==> |sent| == |rs| && !rs[0].Notice?)
    && forall i :: 1 <= i < |sent| ==>
         i < |rs| && rs[i].Notice? && Carries(sent[i], rs[i], device, c.floats, c.discovery)
  }

  lemma CarriesEach(sent: seq<Sent>, rs: seq<Replies.Reply>, device: Uint32, c: Context, i: nat)
    requires CarryAll(sent, rs, device, c) && 1 <= i < |sent|
    ensures i < |rs| && rs[i].Notice? && Carries(sent[i], rs[i], device, c.floats, c.discovery)
  {
    hide Carries;
  }

  /** What goes out for a confirmed request with a sound route: after the reply, the notices of its
      turn. */
  lemma NoticesAreSent(w: World, a: Arrival, c: Context)
    requires Good(w) && Model.ValidDevice(w.app.device) && DecodePacket(a.octets, c.discovery).Some?
    requires var p := DecodePacket(a.octets, c.discovery).value; p.apdu.Confirmed? && RoutingFits(p.npci)
    ensures var rs := Turning(w, CovRuns.Event(EventOf(a, c), a.now)).replies;
            CarryAll(Sends(w, a, c), rs, w.app.device.id, c)
  {
    hide Good;
    hide DecodePacket;
    hide RoutingFits;
    hide Turning;
    hide Carries;
    hide WriteAll;
    hide Handle;
    hide AskedBy;
    hide Answerable;
    hide EncodedAll;
    hide WellAnswered;
    hide SimulatorAnswers.Shows;
    hide SimulatorAnswers.IsNotification;
    hide Small;
    var p := DecodePacket(a.octets, c.discovery).value;
    var e := CovRuns.Event(EventOf(a, c), a.now);
    DecodedIsParsed(a.octets, c.discovery);
    SimulatorAnswers.HandlerAnswers(w, p, a.source, a.now, c);
    var ss := Chosen(p, HandlersOf(w, a.source, a.now, c));
    WellAnsweredFacts(ss);
    AllAreWritten(p, a.source, ss);
    if Registered(p.apdu) {
      HandleTakesTurn(w, p, a.source, a.now, c);
      TurnShows(w, e);
      var rs := Turning(w, e).replies;
      if rs != [] {
        EncodedOneByOne(c.floats, w.app.device.id, rs, ss);
        TurnIsGood(w, a, c);
        forall i | 1 <= i < |ss|
          ensures rs[i].Notice?
          ensures Carries(WriteAll(p, a.source, ss)[i], rs[i], w.app.device.id, c.floats, c.discovery)
        {
          ShownIsNotice(Turning(w, e).world.app.device, rs[i]);
          NoticeArrives(p, a.source, c.floats, Turning(w, e).world.app.device, rs[i], c.discovery);
        }
      }
    } else {
      IdleTurn(w, a.now);
      UnregisteredAsksNothing(p.apdu, a.source, c.floats);
    }
  }

  lemma ShownIsNotice(d: Model.DeviceState, n: Replies.Reply)
    requires SimulatorAnswers.Shows(d, n)
    ensures n.Notice?
  {
  }

  lemma UnregisteredAsksNothing(a: Apdu, source: Endpoint, f: Floats)
    requires a.Confirmed? && !Registered(a)
    ensures AskedBy(a, source, f) == Cov.ReadOnly
  {
  }

  lemma WellAnsweredFacts(ss: seq<Response>)
    requires WellAnswered(ss)
    ensures ss != [] && forall i :: 0 <= i < |ss| ==> Small(ss[i]) && (ss[i].Request? ==> ss[i].id != 0)
  {
  }

  lemma EncodedOneByOne(f: Floats, device: Uint32, rs: seq<Replies.Reply>, ss: seq<Response>)
    requires ss == EncodedAll(f, device, rs) && ss != []
    ensures |ss| == |rs| && forall i :: 0 <= i < |rs| ==> Encoded(f, device, rs[i]) == Some(ss[i])
  {
    hide Encoded;
  }

  lemma TurnIsGood(w: World, a: Arrival, c: Context)
    requires Good(w) && Model.ValidDevice(w.app.device)
    ensures var d := Turning(w, CovRuns.Event(EventOf(a, c), a.now)).world.app.device;
            ScenarioRuns.SoundDevice(d) && Encodable.DeviceEncodes(d) && d.id == w.app.device.id
  {
    hide Next;
    hide EventOf;
    hide Turning;
    hide ScenarioRuns.SoundDevice;
    hide Encodable.DeviceEncodes;
    hide Cov.Handled;
    NextIsTurn(w, a, c);
    NextIsGood(w, a, c);
    ArrivalIsEvent(w, a, c);
    RequestKeepsId(w.app, EventOf(a, c), a.now);
  }
}
