/** Exactly when the deadband fails: what a batch that stops halfway does to subscribers. */
module Stranded {
  import opened Octets
  import opened Model
  import opened WriteBatch
  import opened Cov
  import opened CovRuns
  import opened Scenario
  import opened ScenarioRuns

  // ---- Every request -----------------------------------------------------

  /** The request is a batch that validation passes and that stops at its write `j`. */
  predicate Cut(d: DeviceState, r: Request, j: nat) {
    r.WriteMany? && FirstRefused(d, Flattened(r.specs)).None? && FirstHazard(d, Flattened(r.specs), j)
  }

  /** The device such a batch leaves. */
  function CutDevice(d: DeviceState, r: Request, j: nat): (e: DeviceState)
    requires ValidDevice(d) && Cut(d, r, j)
    ensures ValidDevice(e)
  {
    ApplyAll(d, Flattened(r.specs)[..j]).device
  }

  /** It leaves the writes before `j` applied, both tables as they were, and nobody notified. */
  lemma CutLeaves(s: AppState, r: Request, now: Instant, j: nat)
    requires ValidDevice(s.device) && Cut(s.device, r, j)
    ensures Handled(s, r, now) == s.(device := CutDevice(s.device, r, j))
    ensures SameShape(s.device, CutDevice(s.device, r, j))
  {
    hide FirstRefused;
    hide FirstHazard;
    hide ApplyAll;
    hide Flattened;
    hide NotifiedAll;
    hide SameShape;
    StopsAtFirstHazard(s.device, Flattened(r.specs), j);
    ReachedIsShaped(s.device, Flattened(r.specs)[..j], CutDevice(s.device, r, j));
  }

  lemma ReachedIsShaped(d: DeviceState, done: seq<BatchWrite>, e: DeviceState)
    requires Reached(d, done, e)
    ensures SameShape(d, e)
  {
  }

  /** Every subscription, on whatever object: it has an unreported change exactly when the writes
      before `j` took its object out of its deadband. */
  lemma CutDue(s: AppState, r: Request, now: Instant, j: nat, key: SubscriptionKey)
    requires ValidDevice(s.device) && Cut(s.device, r, j)
    requires key in s.subscriptions && HasPresentValue(s.device, key.object_)
    ensures HasPresentValue(CutDevice(s.device, r, j), key.object_)
    ensures var t, e := Handled(s, r, now), CutDevice(s.device, r, j);
            && t.subscriptions == s.subscriptions
            && (Due(t.device, key, t.subscriptions[key]) <==>
                  Changed(Increment(s.device, key.object_), s.subscriptions[key].last, PresentValue(e, key.object_)))
  {
    hide Handled;
    hide Changed;
    hide CutDevice;
    hide Cut;
    CutLeaves(s, r, now, j);
  }

  /** The request strands a subscriber: it is a batch cut short, and the writes that stay applied
      took some subscribed object out of its deadband. */
  ghost predicate Strands(s: AppState, r: Request)
    requires ValidDevice(s.device)
  {
    exists j :: Cut(s.device, r, j) && Stranded(s, CutDevice(s.device, r, j))
  }

  predicate Stranded(s: AppState, e: DeviceState) {
    exists key <- s.subscriptions :: Due(e, key, s.subscriptions[key])
  }

  /** A request that is not cut short leaves no object unreported. */
  lemma UncutReports(s: AppState, r: Request)
    requires ValidDevice(s.device) && forall j :: !Cut(s.device, r, j)
    ensures Unreported(s, r, {}) == {}
  {
    hide FirstRefused;
    hide ApplyAll;
    hide FirstHazard;
    hide Flattened;
    hide WriteProperty;
    if r.WriteMany? {
      var ws := Flattened(r.specs);
      if FirstRefused(s.device, ws).None? {
        assert forall j :: FirstHazard(s.device, ws, j) ==> Cut(s.device, r, j);
        NoFirstNoHazard(s.device, ws);
        ValidatedBatchApplies(s.device, ws);
      }
    }
  }

  lemma NoFirstNoHazard(d: DeviceState, ws: seq<BatchWrite>)
    requires forall j :: !FirstHazard(d, ws, j)
    ensures HazardFree(d, ws)
  {
    hide Hazard;
    hide FirstHazard;
    forall j | 0 <= j < |ws| ensures !Hazard(d, ws, j) {
      if Hazard(d, ws, j) {
        var first := HazardHasFirst(d, ws, j);
      }
    }
  }

  /** Exactly which request breaks the deadband: from a state where nobody has anything unreported,
      every request leaves one, except a batch that strands a subscriber. */
  lemma StepIsQuietIff(s: AppState, r: Request, now: Instant)
    requires Invariant(s, {}) && ValidRequest(r)
    ensures Invariant(Handled(s, r, now), {}) <==> !Strands(s, r)
  {
    hide Handled;
    hide Unreported;
    hide Cut;
    hide Due;
    hide CutDevice;
    if j :| Cut(s.device, r, j) {
      CutQuietIff(s, r, now, j);
      forall k | Cut(s.device, r, k) ensures k == j { CutIsUnique(s.device, r, j, k); }
    } else {
      UncutReports(s, r);
      HandledKeepsInvariant(s, {}, r, now);
    }
  }

  lemma CutIsUnique(d: DeviceState, r: Request, j: nat, k: nat)
    requires Cut(d, r, j) && Cut(d, r, k)
    ensures j == k
  {
    hide Hazard;
    hide FirstRefused;
    hide Flattened;
  }

  lemma CutQuietIff(s: AppState, r: Request, now: Instant, j: nat)
    requires Invariant(s, {}) && Cut(s.device, r, j)
    ensures Invariant(Handled(s, r, now), {}) <==> !Stranded(s, CutDevice(s.device, r, j))
  {
    hide Handled;
    hide Cut;
    hide Due;
    hide CutDevice;
    CutLeaves(s, r, now, j);
    forall key <- s.subscriptions ensures HasPresentValue(CutDevice(s.device, r, j), key.object_) {
      CutDue(s, r, now, j, key);
    }
  }

  /** Nobody has anything unreported after the first `i` requests. */
  ghost predicate QuietAt(d: DeviceState, events: seq<Event>, i: nat)
    requires ValidDevice(d) && i <= |events|
  {
    Invariant(Reach(d, events[..i]).state, {})
  }

  /** Request `i` of the run strands a subscriber. */
  ghost predicate StrandsAt(d: DeviceState, events: seq<Event>, i: nat)
    requires ValidDevice(d) && i < |events|
  {
    Strands(Reach(d, events[..i]).state, events[i].request)
  }

  lemma SamePrefix(d: DeviceState, events: seq<Event>, n: nat, i: nat)
    requires ValidDevice(d) && i <= n <= |events|
    ensures QuietAt(d, events[..n], i) == QuietAt(d, events, i)
    ensures i < n ==> StrandsAt(d, events[..n], i) == StrandsAt(d, events, i)
  {
    hide Reach;
    hide Strands;
    hide Invariant;
    assert events[..n][..i] == events[..i];
  }

  lemma QuietNext(d: DeviceState, events: seq<Event>, i: nat)
    requires ValidDevice(d) && ValidRun(events) && i < |events| && QuietAt(d, events, i)
    ensures QuietAt(d, events, i + 1) <==> !StrandsAt(d, events, i)
  {
    hide Handled;
    hide Unreported;
    hide Strands;
    hide Invariant;
    hide ValidRequest;
    assert events[..i + 1][..i] == events[..i];
    StepIsQuietIff(Reach(d, events[..i]).state, events[i].request, events[i].now);
  }

  /** Over every run: nobody has anything unreported at any point if and only if no request of the
      run strands a subscriber. */
  lemma {:induction false} RunIsQuietIff(d: DeviceState, events: seq<Event>)
    requires ValidDevice(d) && ValidRun(events)
    ensures (forall i :: 0 <= i <= |events| ==> QuietAt(d, events, i))
       <==> forall i :: 0 <= i < |events| ==> !StrandsAt(d, events, i)
    decreases |events|
  {
    hide QuietAt;
    hide StrandsAt;
    hide ValidRequest;
    if events == [] {
      QuietAtFirst(d);
    } else {
      var n := |events| - 1;
      var before := events[..n];
      forall i | 0 <= i <= n
        ensures QuietAt(d, before, i) == QuietAt(d, events, i)
        ensures i < n ==> StrandsAt(d, before, i) == StrandsAt(d, events, i)
      {
        SamePrefix(d, events, n, i);
      }
      RunIsQuietIff(d, before);
      if QuietAt(d, events, n) {
        QuietNext(d, events, n);
      }
    }
  }

  lemma QuietAtFirst(d: DeviceState)
    requires ValidDevice(d)
    ensures QuietAt(d, [], 0)
  {
    hide Invariant;
    FreshIsQuiet(d);
  }

  lemma FreshIsQuiet(d: DeviceState)
    requires ValidDevice(d)
    ensures Invariant(Reach(d, []).state, {})
  {
  }

  // ---- One such batch ----------------------------------------------------

  /** An input out of service: Present_Value is a Real that only Out_Of_Service lets through. */
  predicate Overridden(d: DeviceState, key: ObjectKey) {
    && ValidDevice(d) && HasPresentValue(d, key)
    && d.objects[key].outOfService && d.objects[key].key.kind != DEVICE_TYPE
    && OUT_OF_SERVICE !in d.objects[key].properties
    && var s := d.objects[key].properties[PRESENT_VALUE].shape;
       !s.writable && s.fallback.None? && s.scalar && s.tag == 4 && s.maximum == 0
  }

  /** A Real as a decoder makes it. */
  function Decoded(x: real): (v: Value)
  {
    Real(x, false)
  }

  /** Write it, put it back in service, write it again. */
  function Stranding(key: ObjectKey, x: real, y: real): (ws: seq<BatchWrite>)
  {
    [BatchWrite(Write(key, PRESENT_VALUE, [Decoded(x)], 0), None),
     BatchWrite(Write(key, OUT_OF_SERVICE, [Boolean(false)], 0), None),
     BatchWrite(Write(key, PRESENT_VALUE, [Decoded(y)], 0), None)]
  }

  /** The object with Present_Value `x`, in or out of service. */
  function Showing(d: DeviceState, key: ObjectKey, x: real, outOfService: bool): (e: DeviceState)
    requires HasPresentValue(d, key)
  {
    var o := d.objects[key];
    var shown := o.properties[PRESENT_VALUE].(values := [Decoded(x)]);
    WithObject(d, key, o.(properties := o.properties[PRESENT_VALUE := shown], outOfService := outOfService))
  }

  lemma FirstWrite(d: DeviceState, key: ObjectKey, x: real)
    requires Overridden(d, key)
    ensures WriteProperty(d, Write(key, PRESENT_VALUE, [Decoded(x)], 0)) == Outcome(Showing(d, key, x, true), None)
    ensures ValidateWrite(d, Write(key, PRESENT_VALUE, [Decoded(x)], 0)).None?
  {
  }

  lemma BackInService(d: DeviceState, key: ObjectKey, x: real)
    requires Overridden(d, key)
    ensures ValidDevice(Showing(d, key, x, true))
    ensures WriteProperty(Showing(d, key, x, true), Write(key, OUT_OF_SERVICE, [Boolean(false)], 0))
         == Outcome(Showing(d, key, x, false), None)
    ensures ValidateWrite(d, Write(key, OUT_OF_SERVICE, [Boolean(false)], 0)).None?
  {
  }

  lemma SecondWrite(d: DeviceState, key: ObjectKey, x: real, y: real)
    requires Overridden(d, key)
    ensures ValidDevice(Showing(d, key, x, false))
    ensures WriteProperty(Showing(d, key, x, false), Write(key, PRESENT_VALUE, [Decoded(y)], 0))
         == Outcome(Showing(d, key, x, false), Some(WriteDenied))
  {
  }

  /** Validation passes, the third write fails, and the first two stay applied. */
  lemma StrandingStopsHalfway(d: DeviceState, key: ObjectKey, x: real, y: real)
    requires Overridden(d, key)
    ensures Batch(d, Stranding(key, x, y)) == BatchResult(Showing(d, key, x, false), Some(Failure(2, WriteDenied)))
  {
    FirstWrite(d, key, x);
    FirstWrite(d, key, y);
    BackInService(d, key, x);
    SecondWrite(d, key, x, y);
    hide WriteProperty;
    hide ValidateWrite;
    hide Showing;
    hide Overridden;
    var ws := Stranding(key, x, y);
    assert forall k :: 0 <= k < 3 ==> CheckBatchWrite(d, ws[k]).None?;
    hide CheckBatchWrite;
    NothingRefused(d, ws);
    hide FirstRefused;
    hide ApplyAll;
    assert ws[0..] == ws;
    ResumedAtStart(d, ws);
    ApplyAllStep(d, ws, 0);
    ApplyAllStep(Showing(d, key, x, true), ws, 1);
    ApplyAllStep(Showing(d, key, x, false), ws, 2);
  }

  /** This batch is cut at its third write. */
  lemma StrandingIsCut(d: DeviceState, key: ObjectKey, x: real, y: real)
    requires Overridden(d, key)
    ensures var r := WriteMany([ObjectWrites(key, Stranding(key, x, y))]);
            Cut(d, r, 2) && CutDevice(d, r, 2) == Showing(d, key, x, false)
  {
    hide Showing;
    hide Hazard;
    hide FirstRefused;
    hide ApplyAll;
    var ws := Stranding(key, x, y);
    var r := WriteMany([ObjectWrites(key, ws)]);
    assert r.specs[1..] == [] && Flattened(r.specs) == ws + Flattened([]) == ws;
    StrandingStopsHalfway(d, key, x, y);
    StrandingPasses(d, key, x, y);
    if HazardFree(d, ws) {
      ValidatedBatchApplies(d, ws);
    } else {
      var j :| 0 <= j < |ws| && Hazard(d, ws, j);
      var first := HazardHasFirst(d, ws, j);
      StopsAtFirstHazard(d, ws, first);
    }
  }

  lemma StrandingPasses(d: DeviceState, key: ObjectKey, x: real, y: real)
    requires Overridden(d, key)
    ensures FirstRefused(d, Stranding(key, x, y)).None?
  {
    hide FirstRefused;
    hide ApplyAll;
    FirstWrite(d, key, x);
    FirstWrite(d, key, y);
    BackInService(d, key, x);
    hide WriteProperty;
    hide ValidateWrite;
    hide Overridden;
    var ws := Stranding(key, x, y);
    assert forall k :: 0 <= k < 3 ==> CheckBatchWrite(d, ws[k]).None?;
    hide CheckBatchWrite;
    NothingRefused(d, ws);
  }

  /** On any device and in any state: after this batch the subscribers are as they were, and one
      of them has an unreported change exactly when the first write left its deadband. */
  lemma StrandedSubscriber(s: AppState, key: SubscriptionKey, x: real, y: real, now: Instant)
    requires Overridden(s.device, key.object_) && key in s.subscriptions
    ensures var t := Handled(s, WriteMany([ObjectWrites(key.object_, Stranding(key.object_, x, y))]), now);
            && t == s.(device := Showing(s.device, key.object_, x, false))
            && (Due(t.device, key, t.subscriptions[key]) <==>
                  Changed(Increment(s.device, key.object_), s.subscriptions[key].last, [Decoded(x)]))
  {
    hide Changed;
    hide Cut;
    hide CutDevice;
    hide Handled;
    hide Stranding;
    var r := WriteMany([ObjectWrites(key.object_, Stranding(key.object_, x, y))]);
    StrandingIsCut(s.device, key.object_, x, y);
    CutLeaves(s, r, now, 2);
    CutDue(s, r, now, 2, key);
    assert PresentValue(Showing(s.device, key.object_, x, false), key.object_) == [Decoded(x)];
  }

  // ---- From a scenario ---------------------------------------------------

  function SensorSpec(): (spec: DeviceSpec)
  {
    DeviceSpec(1, "", 0xBAC0, "room", 0, "GoBAC", "GoBAC Simulator", 14,
               [ObjectSpec("analog-input", 1, "sensor", "", Float(20.0), 0, false, false, Absent, 0, 0, 1.0, true)])
  }

  const SENSOR := ObjectKey(0, 1)

  /** What an analog input that is out of service is built as. */
  lemma InputBuilds(spec: ObjectSpec, x: real)
    requires KindOf(spec.typeName) == Some(0) && spec.presentValue == Float(x) && -1000.0 <= x <= 1000.0
    requires !spec.writable && !spec.commandable && spec.initialPriority == 0 && spec.outOfService
    ensures ValuesFit(0, spec)
    ensures var o := BuiltObject(spec);
            && o.Some? && o.value.key == ObjectKey(0, spec.instance) && o.value.outOfService
            && PRESENT_VALUE in o.value.properties && OUT_OF_SERVICE !in o.value.properties
            && o.value.properties[PRESENT_VALUE].values == [Real(x, true)]
            && var s := o.value.properties[PRESENT_VALUE].shape;
               && !s.writable && s.fallback.None? && s.scalar && s.tag == 4 && s.maximum == 0
               && s.increment == spec.increment
  {
    hide KindOf;
    hide Lower;
    hide CommonProperties;
    assert Normalized(0, spec.presentValue) == Some(Real(x, true));
  }

  lemma SensorObjectBuilds()
    ensures ObjectsFit(SensorSpec().objects)
    ensures var o := BuiltObject(SensorSpec().objects[0]);
            && o.Some? && o.value.key == SENSOR && o.value.outOfService
            && PRESENT_VALUE in o.value.properties && OUT_OF_SERVICE !in o.value.properties
            && o.value.properties[PRESENT_VALUE].values == [Real(20.0, true)]
            && var s := o.value.properties[PRESENT_VALUE].shape;
               !s.writable && s.fallback.None? && s.scalar && s.tag == 4 && s.maximum == 0 && s.increment == 1.0
  {
    hide KindOf;
    hide Trimmed;
    hide Normalized;
    hide BuiltObject;
    hide ValuesFit;
    AnalogInputIsKnown();
    PlainIsTrimmed("sensor");
    InputBuilds(SensorSpec().objects[0], 20.0);
  }

  lemma AnalogInputIsKnown()
    ensures KindOf("analog-input") == Some(0)
  {
    hide Trimmed;
    hide Dashed;
    hide Lower;
    var n := "analog-input";
    PlainIsTrimmed(n);
    DashedPlain(n);
    LowerPlain(n);
  }

  lemma SensorBuilds()
    ensures ObjectsFit(SensorSpec().objects) && BuiltDevice(SensorSpec()).Some?
    ensures var d := BuiltDevice(SensorSpec()).value;
            && Overridden(d, SENSOR) && PresentValue(d, SENSOR) == [Real(20.0, true)] && Increment(d, SENSOR) == 1.0
  {
    SensorObjectBuilds();
    hide BuiltObject;
    hide DeviceObject;
    hide ObjectFits;
    var specs := SensorSpec().objects;
    assert specs[..0] == [] && BuiltObjects([]) == Some(map[]);
    BuiltObjectsAreSound(specs);
    DeviceObjectIsValid();
  }

  lemma DeviceObjectIsValid()
    ensures forall spec: DeviceSpec :: ObjectsFit(spec.objects) ==> ValidObject(DeviceObject(spec))
  {
  }

  /** A device built from a scenario, a subscriber, and one batch as it comes over the wire: the
      object has moved by ten units, the increment is one, and the subscriber was told nothing. */
  lemma StrandedChangeIsNotReported(subscriber: Endpoint, process: Uint32, now: Instant)
    ensures ObjectsFit(SensorSpec().objects) && BuiltDevice(SensorSpec()).Some?
    ensures ValidDevice(BuiltDevice(SensorSpec()).value)
    ensures var key := SubscriptionKey(subscriber, process, SENSOR);
            var events := [Event(Subscribe(key, false, 0), now),
                           Event(WriteMany([ObjectWrites(SENSOR, Stranding(SENSOR, 30.0, 31.0))]), now)];
            var s := Reach(BuiltDevice(SensorSpec()).value, events).state;
            && ValidRun(events) && key in s.subscriptions && !Expired(s.subscriptions[key], now)
            && s.subscriptions[key].last == [Real(20.0, true)]
            && HasPresentValue(s.device, SENSOR) && PresentValue(s.device, SENSOR) == [Real(30.0, false)]
            && Due(s.device, key, s.subscriptions[key])
  {
    SensorBuilds();
    hide BuiltDevice;
    hide SensorSpec;
    hide Handled;
    hide Reach;
    hide Changed;
    var d := BuiltDevice(SensorSpec()).value;
    var key := SubscriptionKey(subscriber, process, SENSOR);
    var first := Event(Subscribe(key, false, 0), now);
    var second := Event(WriteMany([ObjectWrites(SENSOR, Stranding(SENSOR, 30.0, 31.0))]), now);
    var s := Handled(AppState(d, map[], map[]), first.request, now);
    TwoEvents(d, first, second);
    SubscribedOnce(d, key, now);
    StrandedSubscriber(s, key, 30.0, 31.0, now);
    LeavesDeadband();
  }

  lemma TwoEvents(d: DeviceState, first: Event, second: Event)
    requires ValidDevice(d) && ValidRequest(first.request) && ValidRequest(second.request)
    ensures ValidRun([first, second])
    ensures var s := Handled(AppState(d, map[], map[]), first.request, first.now);
            Reach(d, [first, second]).state == Handled(s, second.request, second.now)
  {
    hide Handled;
    hide Unreported;
    hide ValidRequest;
    assert [first, second][..1] == [first] && [first][..0] == [];
    assert Reach(d, []) == Point(AppState(d, map[], map[]), {});
    assert Reach(d, [first]).state == Handled(AppState(d, map[], map[]), first.request, first.now);
  }

  lemma SubscribedOnce(d: DeviceState, key: SubscriptionKey, now: Instant)
    requires ValidDevice(d) && HasPresentValue(d, key.object_)
    ensures var s := Handled(AppState(d, map[], map[]), Subscribe(key, false, 0), now);
            s.device == d && key in s.subscriptions
            && s.subscriptions[key] == Subscription(false, 0, None, PresentValue(d, key.object_))
  {
  }

  lemma LeavesDeadband()
    ensures Changed(1.0, [Real(20.0, true)], [Real(30.0, false)])
  {
    assert ElementChanged(1.0, [Real(20.0, true)][0], [Real(30.0, false)][0]);
  }
}
