/** What holds of the subscription tables at every point of every run of requests. */
module CovRuns {
  import opened Octets
  import opened Model
  import opened WriteBatch
  import opened Cov

  /** A request and the clock reading it is handled at. */
  datatype Event = Event(request: Request, now: Instant)

  datatype Point = Point(state: AppState, dirty: set<ObjectKey>)

  /** The application after a run of requests, from a device nobody has subscribed to. */
  function Reach(d: DeviceState, events: seq<Event>): (p: Point)
    requires ValidDevice(d)
    ensures ValidDevice(p.state.device)
    decreases |events|
  {
    if events == [] then Point(AppState(d, map[], map[]), {})
    else
      var before := Reach(d, events[..|events| - 1]);
      var last := events[|events| - 1];
      Point(Handled(before.state, last.request, last.now), Unreported(before.state, last.request, before.dirty))
  }

  predicate ValidRun(events: seq<Event>) {
    forall i :: 0 <= i < |events| ==> ValidRequest(events[i].request)
  }

  /** In every reachable state the subscription and endpoint tables have the same keys, and
      every subscription on an object no failed batch has left unreported is quiet. */
  lemma {:induction false} EveryRunKeepsInvariant(d: DeviceState, events: seq<Event>)
    requires ValidDevice(d) && ValidRun(events)
    ensures Invariant(Reach(d, events).state, Reach(d, events).dirty)
    decreases |events|
  {
    hide Handled;
    hide Unreported;
    if events != [] {
      var before := events[..|events| - 1];
      EveryRunKeepsInvariant(d, before);
      var p, last := Reach(d, before), events[|events| - 1];
      HandledKeepsInvariant(p.state, p.dirty, last.request, last.now);
    }
  }

  /** The batches of a run are refused by validation or free of the hazard. */
  predicate CleanRun(d: DeviceState, events: seq<Event>)
    requires ValidDevice(d)
  {
    forall i :: 0 <= i < |events| && events[i].request.WriteMany? ==>
      var ws := Flattened(events[i].request.specs);
      var at := Reach(d, events[..i]).state.device;
      FirstRefused(at, ws).Some? || HazardFree(at, ws)
  }

  lemma {:induction false} CleanRunLeavesNothingUnreported(d: DeviceState, events: seq<Event>)
    requires ValidDevice(d) && CleanRun(d, events)
    ensures Reach(d, events).dirty == {}
    decreases |events|
  {
    hide Handled;
    hide Batch;
    hide HazardFree;
    hide FirstRefused;
    if events != [] {
      var before, last := events[..|events| - 1], events[|events| - 1].request;
      assert forall i :: 0 <= i < |before| ==> before[i] == events[i] && before[..i] == events[..i];
      CleanRunLeavesNothingUnreported(d, before);
      var s := Reach(d, before).state;
      if last.WriteMany? {
        AllOrNothing(s.device, Flattened(last.specs));
      }
    }
  }

  /** The deadband: at every point of a clean run the value last notified to a subscriber
      is the current one, or differs from it by less than the increment. */
  lemma DeadbandHolds(d: DeviceState, events: seq<Event>, key: SubscriptionKey)
    requires ValidDevice(d) && ValidRun(events) && CleanRun(d, events)
    requires key in Reach(d, events).state.subscriptions
    ensures var s := Reach(d, events).state;
            && key in s.endpoints
            && HasPresentValue(s.device, key.object_)
            && var last, current := s.subscriptions[key].last, PresentValue(s.device, key.object_);
               var increment := Increment(s.device, key.object_);
               && |last| == |current|
               && forall i :: 0 <= i < |current| ==>
                    if increment > 0.0 && IsNumeric(last[i]) && IsNumeric(current[i])
                    then Distance(NumberOf(last[i]), NumberOf(current[i])) < increment
                    else last[i] == current[i]
  {
    hide Reach;
    var s := Reach(d, events).state;
    EveryRunKeepsInvariant(d, events);
    CleanRunLeavesNothingUnreported(d, events);
    assert !Due(s.device, key, s.subscriptions[key]);
    var last, current := s.subscriptions[key].last, PresentValue(s.device, key.object_);
    assert !Changed(Increment(s.device, key.object_), last, current);
    assert forall i :: 0 <= i < |current| ==> !ElementChanged(Increment(s.device, key.object_), last[i], current[i]);
  }

  // ---- Lifetimes ---------------------------------------------------------

  predicate Dated(s: Subscription, now: Instant) {
    && (s.expires.Some? <==> s.lifetime > 0)
    && (s.expires.Some? ==> s.expires.value <= now + s.lifetime * SECOND)
  }

  predicate AllDated(s: AppState, now: Instant) {
    forall key <- s.subscriptions :: Dated(s.subscriptions[key], now)
  }

  predicate Chronological(events: seq<Event>) {
    forall i, j :: 0 <= i < j < |events| ==> events[i].now <= events[j].now
  }

  lemma {:induction false} NotifiedAllKeepsDates(s: AppState, objects: seq<ObjectKey>, now: Instant)
    requires AllDated(s, now)
    ensures AllDated(NotifiedAll(s, objects, now), now)
    decreases |objects|
  {
    hide Due;
    if objects != [] {
      NotifiedAllKeepsDates(Notified(s, objects[0], now), objects[1..], now);
    }
  }

  lemma HandledKeepsDates(s: AppState, r: Request, now: Instant)
    requires ValidDevice(s.device) && AllDated(s, now)
    ensures AllDated(Handled(s, r, now), now)
  {
    hide Due;
    hide WriteProperty;
    hide Batch;
    hide SetLocalTime;
    hide NotifiedAll;
    if r.WriteMany? {
      NotifiedAllKeepsDates(s.(device := Batch(s.device, Flattened(r.specs)).device), Objects(r.specs), now);
    }
  }

  lemma {:induction false} RunKeepsDates(d: DeviceState, events: seq<Event>, now: Instant)
    requires ValidDevice(d) && Chronological(events)
    requires events != [] ==> events[|events| - 1].now <= now
    ensures AllDated(Reach(d, events).state, now)
    decreases |events|
  {
    hide Handled;
    hide Unreported;
    if events != [] {
      var before, last := events[..|events| - 1], events[|events| - 1];
      RunKeepsDates(d, before, last.now);
      HandledKeepsDates(Reach(d, before).state, last.request, last.now);
    }
  }

  /** With a clock that never goes back, an active finite subscription always reports
      between one second and its lifetime, computed without overflowing 64 bits; exactly
      the indefinite ones report 0. */
  lemma TimeRemainingInRange(d: DeviceState, events: seq<Event>, now: Instant, key: SubscriptionKey)
    requires ValidDevice(d) && Chronological(events)
    requires events != [] ==> events[|events| - 1].now <= now
    requires key in Reach(d, events).state.subscriptions
    requires !Expired(Reach(d, events).state.subscriptions[key], now)
    ensures var s := Reach(d, events).state.subscriptions[key];
            && (s.lifetime == 0 <==> TimeRemaining(s, now) == 0)
            && TimeRemaining(s, now) <= s.lifetime
            && s.lifetime * SECOND + SECOND - 1 < 0x8000_0000_0000_0000
  {
    hide Reach;
    RunKeepsDates(d, events, now);
  }
}
