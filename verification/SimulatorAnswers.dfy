/** Every confirmed request is answered: one terminal reply first, in every state a simulator
    reaches, and exactly when the datagram's routing source is sound. */
module SimulatorAnswers {
  import opened Octets
  import opened Datagram
  import opened Responder
  import opened DeviceValues
  import opened Encodable
  import opened Simulator
  import opened SimulatorRuns
  import Codec = ApplicationValues
  import Model
  import WriteBatch
  import Cov
  import Replies
  import Turns
  import Subscriptions
  import ReadAll
  import ReadRequests
  import WriteRequests
  import PropertyCodec
  import ReadResults
  import WriteErrors
  import CovMessages
  import SubscribeRequests
  import Scenario
  import ScenarioRuns
  import ScenarioCheck

  // ---- Reads -------------------------------------------------------------

  lemma ReadIsAnswered(w: World, payload: Octets, f: Floats)
    ensures Answered(HandleRead(w, payload, f))
  {
    hide PropertyCodec.SimDecodeReadProperty;
    hide PropertyCodec.EncodeProperty;
    hide Model.ReadProperty;
  }

  lemma {:induction false} ResultsEncode(d: Model.DeviceState, o: Codec.ObjectId, rs: seq<ReadRequests.Reference>,
        f: Floats)
    requires DeviceEncodes(d)
    ensures ResultsOf(d, o, rs, f).Some?
  {
    hide DeviceEncodes;
    hide Model.ReadProperty;
    if rs != [] {
      if Model.ReadProperty(d, ObjectKeyOf(o), rs[0].id, rs[0].index).Read? {
        ReadEncodes(d, ObjectKeyOf(o), rs[0].id, rs[0].index);
      }
      ResultsEncode(d, o, rs[1..], f);
    }
  }

  lemma {:induction false} AccessesEncode(d: Model.DeviceState, specs: seq<ReadRequests.ReadSpec>, f: Floats)
    requires DeviceEncodes(d)
    ensures AccessesOf(d, specs, f).Some?
  {
    hide DeviceEncodes;
    hide ResultsOf;
    hide ReadAll.Expanded;
    if specs != [] {
      ResultsEncode(d, specs[0].object_, ReadAll.Expanded(d, ObjectKeyOf(specs[0].object_), specs[0].references), f);
      AccessesEncode(d, specs[1..], f);
    }
  }

  lemma ReadMultipleIsAnswered(w: World, payload: Octets, f: Floats)
    requires DeviceEncodes(w.app.device)
    ensures Answered(HandleReadMultiple(w, payload, f))
  {
    hide ReadRequests.DecodeRequest;
    hide ReadResults.EncodeAck;
    hide AccessesOf;
    hide DeviceEncodes;
    if ReadRequests.DecodeRequest(ReadRequests.Simulator, payload).Some? {
      AccessesEncode(w.app.device, ReadRequests.DecodeRequest(ReadRequests.Simulator, payload).value, f);
    }
  }

  // ---- Notifications -----------------------------------------------------

  /** The notice shows the Present_Value of an object of the device. */
  predicate Shows(d: Model.DeviceState, n: Replies.Reply) {
    && n.Notice? && n.invoke != Some(0)
    && Cov.HasPresentValue(d, n.subscription.object_)
    && n.values == Cov.PresentValue(d, n.subscription.object_)
  }

  lemma {:induction false} NoticesForShow(s: Cov.AppState, keys: seq<Cov.SubscriptionKey>, now: Cov.Instant, from: Byte)
    requires forall i :: 0 <= i < |keys| ==> Turns.CanTell(s, keys[i])
    ensures forall n <- Turns.NoticesFor(s, keys, now, from) :: Shows(s.device, n)
    decreases |keys|
  {
    hide Shows;
    hide Turns.NoticeOf;
    hide Turns.CanTell;
    hide Replies.ConfirmedCount;
    if keys != [] {
      var n := |keys| - 1;
      var before := Turns.NoticesFor(s, keys[..n], now, from);
      NoticesForShow(s, keys[..n], now, from);
      assert Turns.CanTell(s, keys[n]);
      NoticeShows(s, keys[n], now, from, Replies.ConfirmedCount(before));
    }
  }

  lemma NoticeShows(s: Cov.AppState, key: Cov.SubscriptionKey, now: Cov.Instant, from: Byte, count: nat)
    requires Turns.CanTell(s, key)
    ensures Shows(s.device, Turns.NoticeOf(s, key, now, from, count))
  {
    hide Cov.TimeRemaining;
    hide Cov.PresentValue;
  }

  lemma NoticesShow(s: Cov.AppState, object_: Model.ObjectKey, now: Cov.Instant, from: Byte)
    ensures forall n <- Turns.NoticesOf(s, object_, now, from) :: Shows(s.device, n)
  {
    hide Shows;
    hide Turns.NoticesFor;
    hide Turns.CanTell;
    hide Cov.Reported;
    hide Subscriptions.Lists;
    var keys := Subscriptions.Listing(Cov.Reported(s, object_, now));
    Turns.ReportedCanBeTold(s, object_, now, keys);
    NoticesForShow(s, keys, now, from);
  }

  lemma {:induction false} AllNoticesShow(s: Cov.AppState, objects: seq<Model.ObjectKey>, now: Cov.Instant, from: Byte)
    ensures forall n <- Turns.NoticesOfAll(s, objects, now, from) :: Shows(s.device, n)
    decreases |objects|
  {
    hide Shows;
    hide Turns.NoticesOf;
    hide Cov.Notified;
    hide Replies.IdAfter;
    if objects != [] {
      var ns := Turns.NoticesOf(s, objects[0], now, from);
      NoticesShow(s, objects[0], now, from);
      var next := Replies.IdAfter(from, Replies.ConfirmedCount(ns));
      AllNoticesShow(Cov.Notified(s, objects[0], now), objects[1..], now, next);
    }
  }

  // ---- On the wire -------------------------------------------------------

  /** A response of the simulator's own: a COV notification. */
  predicate IsNotification(r: Response) {
    && Small(r)
    && ((r.Request? && r.id != 0 && r.service == 1 && r.to.Some?)
        || (r.Unsolicited? && !r.broadcast && r.service == 2 && r.to.Some?))
  }

  lemma ShownIsOneNumber(d: Model.DeviceState, key: Model.ObjectKey, f: Floats)
    requires ScenarioRuns.SoundDevice(d) && Cov.HasPresentValue(d, key)
    ensures var vs := Cov.PresentValue(d, key);
            |vs| == 1 && (vs[0].Unsigned? || vs[0].Enumerated? || vs[0].Real?)
  {
    hide ScenarioRuns.SoundObject;
    ScenarioRuns.SoundReads(d, key);
    var v := Cov.PresentValue(d, key)[0];
    assert Model.TagOf(v) == Scenario.ExpectedTag(key.kind);
  }

  lemma NoticeIsEncoded(f: Floats, d: Model.DeviceState, n: Replies.Reply)
    requires ScenarioRuns.SoundDevice(d) && DeviceEncodes(d) && Shows(d, n)
    ensures Encoded(f, d.id, n).Some? && IsNotification(Encoded(f, d.id, n).value)
  {
    hide ScenarioRuns.SoundDevice;
    hide CovMessages.EncodeNotification;
    hide ObjectEncodes;
    var key := n.subscription;
    ShownIsOneNumber(d, key.object_, f);
    var vs := ToAll(f, n.values).value;
    assert vs == [vs[0]] && ToCodec(f, n.values[0]) == Some(vs[0]);
    NotificationIsShort(key.process, d.id, IdOf(key.object_), n.remaining % 0x1_0000_0000, vs[0]);
  }

  /** A terminal reply that can be put on the wire. */
  predicate Ends(r: Replies.Reply) {
    r.SimpleAck? || r.Failed? || (r.FailedWrite? && r.key.instance <= MAX_INSTANCE)
  }

  lemma EndIsEncoded(f: Floats, device: Uint32, r: Replies.Reply)
    requires Ends(r)
    ensures Encoded(f, device, r).Some? && Terminal(Encoded(f, device, r).value) && Small(Encoded(f, device, r).value)
  {
    hide WriteErrors.EncodeWriteError;
    if r.FailedWrite? {
      WriteErrorIsShort(WriteErrors.WriteError(r.error.class_, r.error.code, IdOf(r.key),
                                               ReadRequests.Reference(r.property, r.index)));
    }
  }

  /** A terminal reply and notices that show the device are well answered. */
  lemma RepliesAreAnswered(f: Floats, d: Model.DeviceState, rs: seq<Replies.Reply>)
    requires ScenarioRuns.SoundDevice(d) && DeviceEncodes(d)
    requires rs != [] && Ends(rs[0]) && forall i :: 1 <= i < |rs| ==> Shows(d, rs[i])
    ensures var ss := EncodedAll(f, d.id, rs);
            WellAnswered(ss) && forall i :: 1 <= i < |ss| ==> IsNotification(ss[i])
  {
    hide Encoded;
    hide Shows;
    hide Ends;
    hide ScenarioRuns.SoundDevice;
    hide DeviceEncodes;
    hide Small;
    hide Terminal;
    forall i | 0 <= i < |rs|
      ensures Encoded(f, d.id, rs[i]).Some?
      ensures if i == 0 then Terminal(Encoded(f, d.id, rs[i]).value) && Small(Encoded(f, d.id, rs[i]).value)
              else IsNotification(Encoded(f, d.id, rs[i]).value)
    {
      if i == 0 {
        EndIsEncoded(f, d.id, rs[0]);
      } else {
        NoticeIsEncoded(f, d, rs[i]);
      }
    }
  }

  // ---- The handlers that change something --------------------------------

  /** The responses are well answered, and after the first they are COV notifications. */
  predicate Answered(rs: seq<Response>) {
    WellAnswered(rs) && forall i :: 1 <= i < |rs| ==> IsNotification(rs[i])
  }

  lemma IdIsKept(d: Model.DeviceState, w: Model.Write)
    requires Model.ValidDevice(d)
    ensures Model.WriteProperty(d, w).device.id == d.id
  {
    hide Model.WriteObject;
  }

  lemma {:induction false} BatchIdIsKept(d: Model.DeviceState, ws: seq<WriteBatch.BatchWrite>)
    requires Model.ValidDevice(d)
    ensures WriteBatch.ApplyAll(d, ws).device.id == d.id
    decreases |ws|
  {
    hide Model.WriteProperty;
    if ws != [] {
      IdIsKept(d, ws[0].write);
      if Model.WriteProperty(d, ws[0].write).error.None? {
        BatchIdIsKept(Model.WriteProperty(d, ws[0].write).device, ws[1..]);
      }
    }
  }

  lemma WriteTurnIsAnswered(w: World, bw: WriteBatch.BatchWrite, now: Cov.Instant, f: Floats)
    requires Good(w) && AllEncode(bw.write.values)
    ensures Answered(EncodedAll(f, w.app.device.id, Turns.WriteTurn(w, bw, now).replies))
  {
    hide ScenarioRuns.SoundDevice;
    hide DeviceEncodes;
    hide AllEncode;
    hide EncodedAll;
    hide WellAnswered;
    hide IsNotification;
    hide Model.WriteProperty;
    hide Turns.NoticesOf;
    hide Cov.Notified;
    hide Shows;
    var d := w.app.device;
    ScenarioRuns.SoundIsValid(d);
    if bw.index.None? && Model.WriteProperty(d, bw.write).error.None? {
      var e := Model.WriteProperty(d, bw.write).device;
      ScenarioRuns.WriteIsSound(d, bw.write);
      WriteEncodes(d, bw.write);
      IdIsKept(d, bw.write);
      NoticesShow(w.app.(device := e), bw.write.key, now, w.invokeId);
      RepliesAreAnswered(f, e, Turns.WriteTurn(w, bw, now).replies);
    } else {
      RepliesAreAnswered(f, d, Turns.WriteTurn(w, bw, now).replies);
    }
  }

  lemma BatchTurnIsAnswered(w: World, specs: seq<Cov.ObjectWrites>, now: Cov.Instant, f: Floats)
    requires Good(w) && WritesEncode(Cov.Flattened(specs))
    requires forall b <- Cov.Flattened(specs) :: b.write.key.instance <= MAX_INSTANCE
    ensures Answered(EncodedAll(f, w.app.device.id, Turns.BatchTurn(w, specs, now).replies))
  {
    hide ScenarioRuns.SoundDevice;
    hide DeviceEncodes;
    hide WritesEncode;
    hide EncodedAll;
    hide WellAnswered;
    hide IsNotification;
    hide WriteBatch.FirstRefused;
    hide WriteBatch.ApplyAll;
    hide Turns.NoticesOfAll;
    hide Cov.NotifiedAll;
    hide Cov.Flattened;
    hide Cov.Objects;
    hide Shows;
    var d, ws := w.app.device, Cov.Flattened(specs);
    ScenarioRuns.SoundIsValid(d);
    var e := WriteBatch.Batch(d, ws).device;
    ScenarioRuns.ApplyAllIsSound(d, ws);
    ApplyAllEncodes(d, ws);
    BatchIdIsKept(d, ws);
    AllNoticesShow(w.app.(device := e), Cov.Objects(specs), now, w.invokeId);
    RepliesAreAnswered(f, e, Turns.BatchTurn(w, specs, now).replies);
  }

  lemma SubscribeTurnIsAnswered(w: World, key: Cov.SubscriptionKey, cancel: bool, confirmed: bool, lifetime: Uint32,
                                now: Cov.Instant, f: Floats)
    requires Good(w)
    ensures Model.ValidDevice(w.app.device)
    ensures var t := Turns.SubscribeTurn(w, key, cancel, confirmed, lifetime, now);
            Answered(EncodedAll(f, w.app.device.id, t.replies))
  {
    hide ScenarioRuns.SoundDevice;
    hide DeviceEncodes;
    hide EncodedAll;
    hide WellAnswered;
    hide IsNotification;
    hide Cov.Handled;
    hide Cov.PresentValue;
    ScenarioRuns.SoundIsValid(w.app.device);
    RepliesAreAnswered(f, w.app.device, Turns.SubscribeTurn(w, key, cancel, confirmed, lifetime, now).replies);
  }

  lemma GoodEncodes(w: World)
    requires Good(w)
    ensures DeviceEncodes(w.app.device)
  {
  }

  lemma AbortIsAnswered(reason: Byte)
    ensures Answered([Abortion(reason)])
  {
  }

  lemma RejectionIsAnswered(reason: Byte)
    ensures Answered([Rejection(reason)])
  {
  }

  lemma {:induction false} FlattenedKeysInRange(f: Floats, specs: seq<WriteRequests.WriteSpec>)
    requires forall s <- specs :: Codec.ObjectIdInRange(s.object_)
    ensures forall b <- Cov.Flattened(SpecsOf(f, specs)) :: b.write.key.instance <= MAX_INSTANCE
    decreases |specs|
  {
    if specs != [] {
      assert SpecsOf(f, specs)[1..] == SpecsOf(f, specs[1..]);
      FlattenedKeysInRange(f, specs[1..]);
      assert forall b <- SpecsOf(f, specs)[0].writes :: b.write.key == ObjectKeyOf(specs[0].object_);
    }
  }

  lemma WriteIsAnswered(w: World, payload: Octets, now: Cov.Instant, f: Floats)
    requires Good(w)
    ensures Model.ValidDevice(w.app.device)
    ensures Answered(HandleWrite(w, payload, now, f).responses)
  {
    hide Good;
    hide Answered;
    hide EncodedAll;
    hide PropertyCodec.SimDecodeWrite;
    hide Turns.WriteTurn;
    hide AllEncode;
    GoodIsValid(w);
    RejectionIsAnswered(INVALID_TAG);
    RejectionIsAnswered(PARAMETER_OUT_OF_RANGE);
    if PropertyCodec.SimDecodeWrite(payload).Ok? {
      var q := PropertyCodec.SimDecodeWrite(payload).value;
      DecodedWriteEncodes(payload, f);
      WriteTurnIsAnswered(w, BatchWriteOf(f, q.target.object_, q.target.reference, q.values, q.priority), now, f);
    }
  }

  lemma WriteMultipleIsAnswered(w: World, payload: Octets, now: Cov.Instant, f: Floats)
    requires Good(w)
    ensures Model.ValidDevice(w.app.device)
    ensures Answered(HandleWriteMultiple(w, payload, now, f).responses)
  {
    hide Good;
    hide Answered;
    hide EncodedAll;
    hide WriteRequests.DecodeWriteSpecs;
    hide Turns.BatchTurn;
    hide AllInRange;
    hide WritesEncode;
    hide SpecsOf;
    hide Cov.Flattened;
    hide Cov.Consistent;
    GoodIsValid(w);
    RejectionIsAnswered(INVALID_TAG);
    RejectionIsAnswered(PARAMETER_OUT_OF_RANGE);
    if WriteRequests.DecodeWriteRequest(ReadRequests.Simulator, payload).Ok? {
      var specs := WriteRequests.DecodeWriteRequest(ReadRequests.Simulator, payload).value;
      SpecsInRange(payload);
      FlattenedEncode(f, specs);
      FlattenedKeysInRange(f, specs);
      BatchTurnIsAnswered(w, SpecsOf(f, specs), now, f);
    }
  }

  lemma SubscribeIsAnswered(w: World, payload: Octets, source: Endpoint, now: Cov.Instant, f: Floats)
    requires Good(w)
    ensures Model.ValidDevice(w.app.device)
    ensures Answered(HandleSubscribe(w, payload, source, now, f).responses)
  {
    hide Good;
    hide Answered;
    hide EncodedAll;
    hide SubscribeRequests.SimDecodeSubscribe;
    hide Turns.SubscribeTurn;
    GoodIsValid(w);
    RejectionIsAnswered(INVALID_TAG);
    if SubscribeRequests.SimDecodeSubscribe(payload).Some? {
      var s := SubscribeRequests.SimDecodeSubscribe(payload).value;
      var key := Cov.SubscriptionKey(source, s.process, ObjectKeyOf(s.object_));
      SubscribeTurnIsAnswered(w, key, s.cancel, s.confirmed, s.lifetime, now, f);
    }
  }

  // ---- Every confirmed request -------------------------------------------

  /** Whatever the confirmed request, the responses are well answered. */
  lemma HandlerAnswers(w: World, p: Packet, source: Endpoint, now: Cov.Instant, c: Context)
    requires Good(w) && IsConfirmed(p.apdu)
    ensures Model.ValidDevice(w.app.device)
    ensures Answered(Chosen(p, HandlersOf(w, source, now, c)))
  {
    hide Good;
    hide HandleRead;
    hide HandleReadMultiple;
    hide HandleWrite;
    hide HandleWriteMultiple;
    hide HandleSubscribe;
    hide HandleTimeSync;
    hide WellAnswered;
    hide IsNotification;
    GoodIsValid(w);
    if p.apdu.Segmented? {
      AbortIsAnswered(SEGMENTATION_NOT_SUPPORTED);
    } else if !Registered(p.apdu) {
      RejectionIsAnswered(UNRECOGNIZED_SERVICE);
    } else if p.apdu.service == 12 {
      ReadIsAnswered(w, p.apdu.payload, c.floats);
    } else if p.apdu.service == 14 {
      GoodEncodes(w);
      ReadMultipleIsAnswered(w, p.apdu.payload, c.floats);
    } else if p.apdu.service == 15 {
      WriteIsAnswered(w, p.apdu.payload, now, c.floats);
    } else if p.apdu.service == 16 {
      WriteMultipleIsAnswered(w, p.apdu.payload, now, c.floats);
    } else {
      SubscribeIsAnswered(w, p.apdu.payload, source, now, c.floats);
    }
  }

  /** What goes out for a confirmed request: one terminal reply to its source, with its invoke ID and
      within its size, then COV notifications and nothing else. */
  predicate OneReplyFirst(p: Packet, source: Endpoint, sent: seq<Sent>)
    requires IsConfirmed(p.apdu)
  {
    && sent != []
    && sent[0].to == source && TerminalApdu(sent[0].packet.apdu) && sent[0].packet.apdu.id == p.apdu.id
    && (sent[0].packet.apdu.ComplexAck? ==> 3 + |sent[0].packet.apdu.payload| <= p.apdu.maxApdu)
    && forall i :: 1 <= i < |sent| ==> CarriesNotification(sent[i].packet.apdu)
  }

  predicate CarriesNotification(a: Apdu) {
    (a.Confirmed? && a.service == 1 && a.id != 0) || (a.Unconfirmed? && a.service == 2)
  }

  lemma WrittenNotification(p: Packet, source: Endpoint, r: Response)
    requires Answerable(p) && IsNotification(r)
    ensures WriteResponse(p, source, r).Some? && CarriesNotification(WriteResponse(p, source, r).value.packet.apdu)
  {
    hide WriteResponse;
    RequestIsWritten(p, source, r);
  }

  /** Well-answered responses go out as one reply first. */
  lemma AnswersGoOut(p: Packet, source: Endpoint, rs: seq<Response>)
    requires Answerable(p) && Answered(rs)
    ensures OneReplyFirst(p, source, WriteAll(p, source, rs))
  {
    hide WriteResponse;
    hide WriteAll;
    hide Small;
    hide IsNotification;
    hide CarriesNotification;
    hide Answerable;
    AnswerableIsConfirmed(p);
    AllAreWritten(p, source, rs);
    TerminalIsWritten(p, source, rs[0]);
    ReplyFits(p, source, rs[0]);
    forall i | 1 <= i < |rs|
      ensures WriteResponse(p, source, rs[i]).Some?
      ensures CarriesNotification(WriteResponse(p, source, rs[i]).value.packet.apdu)
    {
      WrittenNotification(p, source, rs[i]);
    }
  }

  lemma AnswerableIsConfirmed(p: Packet)
    requires Answerable(p)
    ensures IsConfirmed(p.apdu)
  {
  }

  lemma ReplyFits(p: Packet, source: Endpoint, r: Response)
    requires Answerable(p) && Terminal(r) && WriteResponse(p, source, r).Some?
    ensures var a := WriteResponse(p, source, r).value.packet.apdu;
            && TerminalApdu(a) && a.id == p.apdu.id
            && (a.ComplexAck? ==> 3 + |a.payload| <= p.apdu.maxApdu)
  {
    hide Sendable;
    hide ReplyNpci;
  }

  /** In any good world: one reply first, exactly when the routing source is sound. */
  lemma AnsweredIffRouted(w: World, a: Arrival, c: Context)
    requires Good(w) && Model.ValidDevice(w.app.device)
    requires DecodePacket(a.octets, c.discovery).Some? && IsConfirmed(DecodePacket(a.octets, c.discovery).value.apdu)
    ensures var p := DecodePacket(a.octets, c.discovery).value;
            && (RoutingFits(p.npci) <==> OneReplyFirst(p, a.source, Sends(w, a, c)))
            && (!RoutingFits(p.npci) ==> Sends(w, a, c) == [])
  {
    hide Good;
    hide DecodePacket;
    hide RoutingFits;
    hide Answered;
    hide OneReplyFirst;
    hide WriteAll;
    hide Handle;
    var p := DecodePacket(a.octets, c.discovery).value;
    if RoutingFits(p.npci) {
      DecodedIsParsed(a.octets, c.discovery);
      HandlerAnswers(w, p, a.source, a.now, c);
      AnswersGoOut(p, a.source, Chosen(p, HandlersOf(w, a.source, a.now, c)));
    } else {
      NothingIsNoReply(p, a.source);
    }
  }

  /** Every notification a confirmed request causes goes along that request's route, whoever
      subscribed; that is the way back to the subscriber exactly when the header `own` of its
      SubscribeCOV names the same source. */
  lemma NotificationRoutes(w: World, a: Arrival, c: Context, own: Network.Npci, i: nat)
    requires Good(w) && Model.ValidDevice(w.app.device)
    requires DecodePacket(a.octets, c.discovery).Some? && IsConfirmed(DecodePacket(a.octets, c.discovery).value.apdu)
    requires i < |Sends(w, a, c)|
    ensures var p, sent := DecodePacket(a.octets, c.discovery).value, Sends(w, a, c);
            && GoesBack(p.npci, sent[i].packet.npci)
            && (GoesBack(own, sent[i].packet.npci) <==> SameSource(p.npci, own))
  {
    hide Good;
    hide DecodePacket;
    hide RoutingFits;
    hide WellAnswered;
    hide WriteAll;
    hide Handle;
    hide OneReplyFirst;
    hide GoesBack;
    hide SameSource;
    var p := DecodePacket(a.octets, c.discovery).value;
    AnsweredIffRouted(w, a, c);
    DecodedIsParsed(a.octets, c.discovery);
    HandlerAnswers(w, p, a.source, a.now, c);
    var rs := Chosen(p, HandlersOf(w, a.source, a.now, c));
    RouteIsOwnIff(p, a.source, rs, own, i);
  }

  lemma NothingIsNoReply(p: Packet, source: Endpoint)
    requires IsConfirmed(p.apdu)
    ensures !OneReplyFirst(p, source, [])
  {
  }

  /** For every device built from a validated scenario, after every run of datagrams: a confirmed
      request that parses gets exactly one terminal reply, first, to its source and with its invoke
      ID, if and only if its routing source is sound; otherwise it gets nothing. Everything after
      the reply is a COV notification. */
  lemma EveryConfirmedRequestIsAnswered(s: ScenarioCheck.ScenarioSpec, spec: Scenario.DeviceSpec,
                                        arrivals: seq<Arrival>, a: Arrival, c: Context)
    requires ScenarioCheck.ScenarioFits(s) && spec in s.devices && Scenario.ObjectsFit(spec.objects)
    requires ScenarioRuns.BuiltDevice(spec).Some?
    requires DecodePacket(a.octets, c.discovery).Some? && IsConfirmed(DecodePacket(a.octets, c.discovery).value.apdu)
    ensures ScenarioRuns.SoundDevice(ScenarioRuns.BuiltDevice(spec).value)
    ensures DeviceEncodes(ScenarioRuns.BuiltDevice(spec).value)
    ensures var p := DecodePacket(a.octets, c.discovery).value;
            var w := WorldAfter(ScenarioRuns.BuiltDevice(spec).value, arrivals, c);
            && Model.ValidDevice(w.app.device)
            && (RoutingFits(p.npci) <==> OneReplyFirst(p, a.source, Sends(w, a, c)))
            && (!RoutingFits(p.npci) ==> Sends(w, a, c) == [])
  {
    hide DecodePacket;
    hide OneReplyFirst;
    hide Sends;
    hide Good;
    hide WorldAfter;
    hide ScenarioRuns.BuiltDevice;
    hide ScenarioRuns.SoundDevice;
    hide DeviceEncodes;
    hide Scenario.ObjectsFit;
    hide RoutingFits;
    FitsInRange(s, spec);
    BuiltDeviceEncodes(spec);
    var w := WorldAfter(ScenarioRuns.BuiltDevice(spec).value, arrivals, c);
    GoodIsValid(w);
    AnsweredIffRouted(w, a, c);
  }

  lemma FitsInRange(s: ScenarioCheck.ScenarioSpec, spec: Scenario.DeviceSpec)
    requires ScenarioCheck.ScenarioFits(s) && spec in s.devices
    ensures spec.id <= MAX_INSTANCE && Scenario.ObjectsFit(spec.objects)
  {
    hide Scenario.ObjectsFit;
    hide Scenario.Trimmed;
    var i :| 0 <= i < |s.devices| && s.devices[i] == spec;
    assert ScenarioCheck.DeviceFits(s.mode, s.devices[i]);
  }
}
