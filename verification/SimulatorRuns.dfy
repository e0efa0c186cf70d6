/** Every datagram a simulator gets, from the day it is built: what it is to the device, and that a
    confirmed request is always answered. */
module SimulatorRuns {
  import opened Octets
  import opened Datagram
  import opened Responder
  import opened DeviceValues
  import opened Encodable
  import opened Simulator
  import opened ContextFields
  import Codec = ApplicationValues
  import ValueLists
  import Model
  import Cov
  import CovRuns
  import Turns
  import ReadRequests
  import WriteRequests
  import PropertyCodec
  import SubscribeRequests
  import ScenarioRuns

  /** Present_Value fits, and everything the device holds can be put on the wire. */
  predicate Good(w: World) {
    ScenarioRuns.SoundDevice(w.app.device) && DeviceEncodes(w.app.device)
  }

  // ---- What a datagram is to the application -----------------------------

  lemma FromAllEncodes(f: Floats, vs: seq<Codec.AppValue>)
    requires AllInRange(vs)
    ensures AllEncode(FromAll(f, vs))
  {
  }

  lemma DecodedWriteEncodes(payload: Octets, f: Floats)
    requires PropertyCodec.SimDecodeWrite(payload).Ok?
    ensures AllEncode(FromAll(f, PropertyCodec.SimDecodeWrite(payload).value.values))
  {
    hide AllInRange;
    hide AllEncode;
    hide PropertyCodec.DecodeProperty;
    hide ReadUnsigned;
    PropertyInRange(payload, None);
    var p := PropertyCodec.DecodeProperty(payload, None).value;
    PlainInRange(p.content.values);
    FromAllEncodes(f, ValueLists.PlainAll(p.content.values));
  }

  /** What a WriteProperty payload asks for; nothing, where it is malformed or has an index. */
  function WriteEvent(payload: Octets, f: Floats): (r: Cov.Request)
  {
    match PropertyCodec.SimDecodeWrite(payload)
    case Ok(q, _) =>
      if q.target.reference.index.Some? then Cov.ReadOnly
      else Cov.WriteOne(BatchWriteOf(f, q.target.object_, q.target.reference, q.values, q.priority).write)
    case _ => Cov.ReadOnly
  }

  lemma WriteIsEvent(w: World, payload: Octets, now: Cov.Instant, f: Floats)
    requires Model.ValidDevice(w.app.device)
    ensures HandleWrite(w, payload, now, f).world.app == Cov.Handled(w.app, WriteEvent(payload, f), now)
    ensures Cov.ValidRequest(WriteEvent(payload, f)) && RequestEncodes(WriteEvent(payload, f))
  {
    hide PropertyCodec.SimDecodeWrite;
    hide Turns.WriteTurn;
    hide AllEncode;
    if PropertyCodec.SimDecodeWrite(payload).Ok? {
      var q := PropertyCodec.SimDecodeWrite(payload).value;
      var bw := BatchWriteOf(f, q.target.object_, q.target.reference, q.values, q.priority);
      Turns.WriteTurnHandles(w, bw, now);
      DecodedWriteEncodes(payload, f);
    }
  }

  lemma {:induction false} FlattenedEncode(f: Floats, specs: seq<WriteRequests.WriteSpec>)
    requires forall s <- specs :: forall w <- s.writes :: AllInRange(w.values)
    ensures Cov.Consistent(SpecsOf(f, specs))
    ensures WritesEncode(Cov.Flattened(SpecsOf(f, specs)))
    decreases |specs|
  {
    hide AllInRange;
    hide AllEncode;
    hide FromAll;
    hide SpecsOf;
    hide BatchWritesOf;
    if specs != [] {
      var os := SpecsOf(f, specs);
      assert os[1..] == SpecsOf(f, specs[1..]);
      FlattenedEncode(f, specs[1..]);
      var first := os[0].writes;
      assert specs[0] in specs;
      WritesOfOneEncode(f, specs[0]);
      var ws := Cov.Flattened(os);
      forall i | 0 <= i < |ws| ensures AllEncode(ws[i].write.values) {
        if i < |first| {
          assert ws[i] == first[i];
        } else {
          assert ws[i] == Cov.Flattened(os[1..])[i - |first|];
        }
      }
    }
  }

  lemma WritesOfOneEncode(f: Floats, s: WriteRequests.WriteSpec)
    requires forall w <- s.writes :: AllInRange(w.values)
    ensures forall b <- BatchWritesOf(f, s.object_, s.writes) ::
              b.write.key == ObjectKeyOf(s.object_) && AllEncode(b.write.values)
  {
    hide AllInRange;
    hide AllEncode;
    hide FromAll;
    forall i | 0 <= i < |s.writes|
      ensures AllEncode(BatchWritesOf(f, s.object_, s.writes)[i].write.values)
    {
      assert s.writes[i] in s.writes;
      FromAllEncodes(f, s.writes[i].values);
    }
  }

  /** What a WritePropertyMultiple payload asks for. */
  function BatchEvent(payload: Octets, f: Floats): (r: Cov.Request)
  {
    match WriteRequests.DecodeWriteRequest(ReadRequests.Simulator, payload)
    case Ok(specs, _) => Cov.WriteMany(SpecsOf(f, specs))
    case _ => Cov.ReadOnly
  }

  lemma WriteMultipleIsEvent(w: World, payload: Octets, now: Cov.Instant, f: Floats)
    requires Model.ValidDevice(w.app.device)
    ensures HandleWriteMultiple(w, payload, now, f).world.app == Cov.Handled(w.app, BatchEvent(payload, f), now)
    ensures Cov.ValidRequest(BatchEvent(payload, f)) && RequestEncodes(BatchEvent(payload, f))
  {
    hide WriteRequests.DecodeWriteSpecs;
    hide Turns.BatchTurn;
    hide AllEncode;
    hide AllInRange;
    hide WritesEncode;
    hide Cov.Flattened;
    hide SpecsOf;
    hide Cov.Consistent;
    if WriteRequests.DecodeWriteRequest(ReadRequests.Simulator, payload).Ok? {
      var specs := WriteRequests.DecodeWriteRequest(ReadRequests.Simulator, payload).value;
      SpecsInRange(payload);
      FlattenedEncode(f, specs);
      Turns.BatchTurnHandles(w, SpecsOf(f, specs), now);
    }
  }

  /** What a SubscribeCOV payload asks for. */
  function SubscribeEvent(payload: Octets, source: Endpoint): (r: Cov.Request)
  {
    match SubscribeRequests.SimDecodeSubscribe(payload)
    case None => Cov.ReadOnly
    case Some(s) =>
      var key := Cov.SubscriptionKey(source, s.process, ObjectKeyOf(s.object_));
      if s.cancel then Cov.Cancel(key) else Cov.Subscribe(key, s.confirmed, s.lifetime)
  }

  lemma SubscribeIsEvent(w: World, payload: Octets, source: Endpoint, now: Cov.Instant, f: Floats)
    requires Model.ValidDevice(w.app.device)
    ensures HandleSubscribe(w, payload, source, now, f).world.app
         == Cov.Handled(w.app, SubscribeEvent(payload, source), now)
  {
    hide SubscribeRequests.SimDecodeSubscribe;
  }

  /** What a time synchronization asks for. */
  function TimeEvent(payload: Octets): (r: Cov.Request)
  {
    match Codec.DecodeValues(payload)
    case None => Cov.ReadOnly
    case Some(vs) =>
      if |vs| == 2 && vs[0].Date? && vs[1].Time? then
        Cov.TimeSync(Model.Day(vs[0].year, vs[0].month, vs[0].day, vs[0].weekday),
                     Model.Clock(vs[1].hour, vs[1].minute, vs[1].second, vs[1].hundredths))
      else Cov.ReadOnly
  }

  lemma TimeSyncIsEvent(w: World, payload: Octets, now: Cov.Instant)
    requires Model.ValidDevice(w.app.device)
    ensures HandleTimeSync(w, payload).app == Cov.Handled(w.app, TimeEvent(payload), now)
  {
    hide Codec.DecodeValues;
    hide Model.SetLocalTime;
  }

  /** What an APDU asks of the application. */
  function AskedBy(apdu: Apdu, source: Endpoint, f: Floats): (r: Cov.Request)
  {
    if apdu.Unconfirmed? && apdu.service in [6, 9] then TimeEvent(apdu.payload)
    else if !apdu.Confirmed? then Cov.ReadOnly
    else if apdu.service == 15 then WriteEvent(apdu.payload, f)
    else if apdu.service == 16 then BatchEvent(apdu.payload, f)
    else if apdu.service == 5 then SubscribeEvent(apdu.payload, source)
    else Cov.ReadOnly
  }

  /** What a datagram asks of the application: nothing, unless it parses and its route is sound. */
  function EventOf(a: Arrival, c: Context): (r: Cov.Request)
  {
    match DecodePacket(a.octets, c.discovery)
    case None => Cov.ReadOnly
    case Some(p) => if RoutingFits(p.npci) then AskedBy(p.apdu, a.source, c.floats) else Cov.ReadOnly
  }

  /** Every datagram moves the application as the request it carries, whose values can be put on the
      wire. */
  lemma ArrivalIsEvent(w: World, a: Arrival, c: Context)
    requires Model.ValidDevice(w.app.device)
    ensures Next(w, a, c).app == Cov.Handled(w.app, EventOf(a, c), a.now)
    ensures Cov.ValidRequest(EventOf(a, c)) && RequestEncodes(EventOf(a, c))
  {
    hide DecodePacket;
    hide RoutingFits;
    hide HandleWrite;
    hide HandleWriteMultiple;
    hide HandleSubscribe;
    hide HandleTimeSync;
    hide HandleReadMultiple;
    hide HandleRead;
    hide WriteEvent;
    hide BatchEvent;
    hide SubscribeRequests.SimDecodeSubscribe;
    hide Codec.DecodeValues;
    var packet := DecodePacket(a.octets, c.discovery);
    if packet.Some? {
      var apdu := packet.value.apdu;
      if apdu.Unconfirmed? {
        TimeSyncIsEvent(w, apdu.payload, a.now);
      } else if apdu.Confirmed? {
        WriteIsEvent(w, apdu.payload, a.now, c.floats);
        WriteMultipleIsEvent(w, apdu.payload, a.now, c.floats);
        SubscribeIsEvent(w, apdu.payload, a.source, a.now, c.floats);
      }
    }
  }

  lemma NextIsGood(w: World, a: Arrival, c: Context)
    requires Good(w)
    ensures Good(Next(w, a, c))
  {
    hide Next;
    hide Cov.Handled;
    hide ScenarioRuns.SoundDevice;
    hide DeviceEncodes;
    hide EventOf;
    ScenarioRuns.SoundIsValid(w.app.device);
    ArrivalIsEvent(w, a, c);
    ScenarioRuns.HandledIsSound(w.app, EventOf(a, c), a.now);
    HandledEncodes(w.app, EventOf(a, c), a.now);
  }

  // ---- Runs of datagrams -------------------------------------------------

  /** The simulator of a device nobody has talked to. */
  function Fresh(d: Model.DeviceState): (w: World)
  {
    Turns.World(Cov.AppState(d, map[], map[]), 0)
  }

  ghost function WorldAfter(d: Model.DeviceState, arrivals: seq<Arrival>, c: Context): (w: World)
    requires ScenarioRuns.SoundDevice(d) && DeviceEncodes(d)
    ensures Good(w)
    decreases |arrivals|
  {
    if arrivals == [] then Fresh(d)
    else
      var before := WorldAfter(d, arrivals[..|arrivals| - 1], c);
      ScenarioRuns.SoundIsValid(before.app.device);
      NextIsGood(before, arrivals[|arrivals| - 1], c);
      Next(before, arrivals[|arrivals| - 1], c)
  }

  lemma WorldSteps(d: Model.DeviceState, arrivals: seq<Arrival>, c: Context)
    requires ScenarioRuns.SoundDevice(d) && DeviceEncodes(d) && arrivals != []
    ensures var n := |arrivals| - 1;
            var w := WorldAfter(d, arrivals[..n], c);
            && Good(w) && Model.ValidDevice(w.app.device)
            && WorldAfter(d, arrivals, c) == Next(w, arrivals[n], c)
  {
    hide Next;
    hide ScenarioRuns.SoundDevice;
    hide DeviceEncodes;
    hide Good;
    GoodIsValid(WorldAfter(d, arrivals[..|arrivals| - 1], c));
  }

  /** The requests of a run of datagrams. */
  function EventsOf(arrivals: seq<Arrival>, c: Context): (events: seq<CovRuns.Event>)
    ensures |events| == |arrivals|
    ensures forall i :: 0 <= i < |events| ==> events[i] == CovRuns.Event(EventOf(arrivals[i], c), arrivals[i].now)
  {
    seq(|arrivals|, i requires 0 <= i < |arrivals| => CovRuns.Event(EventOf(arrivals[i], c), arrivals[i].now))
  }

  /** Every run of datagrams is the run of the requests they carry, so what holds of those holds of
      these. */
  lemma {:induction false} DatagramsAreEvents(d: Model.DeviceState, arrivals: seq<Arrival>, c: Context)
    requires ScenarioRuns.SoundDevice(d) && DeviceEncodes(d) && Model.ValidDevice(d)
    ensures CovRuns.ValidRun(EventsOf(arrivals, c))
    ensures CovRuns.Reach(d, EventsOf(arrivals, c)).state == WorldAfter(d, arrivals, c).app
    decreases |arrivals|
  {
    hide Next;
    hide EventOf;
    hide Cov.Handled;
    hide ScenarioRuns.SoundDevice;
    hide DeviceEncodes;
    hide Good;
    hide Cov.Unreported;
    if arrivals != [] {
      var n := |arrivals| - 1;
      DatagramsAreEvents(d, arrivals[..n], c);
      var w := WorldAfter(d, arrivals[..n], c);
      WorldSteps(d, arrivals, c);
      hide WorldAfter;
      ArrivalIsEvent(w, arrivals[n], c);
      assert EventsOf(arrivals, c)[..n] == EventsOf(arrivals[..n], c);
    }
  }

  lemma GoodIsValid(w: World)
    requires Good(w)
    ensures Model.ValidDevice(w.app.device)
  {
  }
}
