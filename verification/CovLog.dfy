/** The COV service as its clients know it: a subscription is alive by the last SubscribeCOV about it
    and its lifetime, and is notified exactly when Present_Value has moved by the increment since the
    last notice sent to it. Over every run of requests with a clock that does not go back. */
module CovLog {
  import opened Octets
  import opened Model
  import opened WriteBatch
  import opened Cov
  import opened CovRuns
  import opened Replies
  import opened Turns
  import opened CovNotices

  // ---- What no request changes -------------------------------------------

  /** Present_Value is there or not, and of one shape. */
  predicate SamePresence(d: DeviceState, e: DeviceState, key: ObjectKey) {
    && (HasPresentValue(d, key) <==> HasPresentValue(e, key))
    && (HasPresentValue(d, key) ==>
          d.objects[key].properties[PRESENT_VALUE].shape == e.objects[key].properties[PRESENT_VALUE].shape)
  }

  lemma ShapeKeepsPresence(d: DeviceState, e: DeviceState, key: ObjectKey)
    requires SameShape(d, e)
    ensures SamePresence(d, e, key)
  {
  }

  lemma HandledKeepsPresence(s: AppState, r: Request, now: Instant, key: ObjectKey)
    requires ValidDevice(s.device)
    ensures SamePresence(s.device, Handled(s, r, now).device, key)
  {
    hide WriteProperty;
    hide ApplyAll;
    hide FirstRefused;
    hide Notified;
    hide NotifiedAll;
    if r.WriteOne? {
      WriteKeepsShape(s.device, r.write);
      ShapeKeepsPresence(s.device, WriteProperty(s.device, r.write).device, key);
    } else if r.WriteMany? {
      ApplyAllKeepsShape(s.device, Flattened(r.specs));
      ShapeKeepsPresence(s.device, ApplyAll(s.device, Flattened(r.specs)).device, key);
    }
  }

  lemma {:induction false} RunKeepsPresence(d: DeviceState, events: seq<Event>, key: ObjectKey)
    requires ValidDevice(d)
    ensures SamePresence(d, Reach(d, events).state.device, key)
    decreases |events|
  {
    hide Handled;
    hide Unreported;
    if events != [] {
      var n := |events| - 1;
      RunKeepsPresence(d, events[..n], key);
      HandledKeepsPresence(Reach(d, events[..n]).state, events[n].request, events[n].now, key);
    }
  }

  // ---- Which subscriptions are alive -------------------------------------

  /** The request subscribes or cancels under this key. */
  predicate Concerns(r: Request, key: SubscriptionKey) {
    (r.Subscribe? || r.Cancel?) && r.key == key
  }

  /** The last SubscribeCOV about a subscription. */
  function LastWord(events: seq<Event>, key: SubscriptionKey): (e: Option<Event>)
    ensures e.Some? ==> Concerns(e.value.request, key)
  {
    if events == [] then None
    else
      var last := events[|events| - 1];
      if Concerns(last.request, key) then Some(last) else LastWord(events[..|events| - 1], key)
  }

  /** The subscription was made, not cancelled since, and its lifetime is not over. */
  predicate Alive(d: DeviceState, events: seq<Event>, key: SubscriptionKey, now: Instant) {
    && HasPresentValue(d, key.object_)
    && LastWord(events, key).Some? && LastWord(events, key).value.request.Subscribe?
    && var e := LastWord(events, key).value;
       e.request.lifetime == 0 || now < e.now + e.request.lifetime * SECOND
  }

  predicate Active(s: AppState, key: SubscriptionKey, now: Instant) {
    key in s.subscriptions && !Expired(s.subscriptions[key], now)
  }

  /** The entry holds the terms it was asked for. */
  predicate AsAsked(s: Subscription, e: Event) {
    && e.request.Subscribe? && s.confirmed == e.request.confirmed && s.lifetime == e.request.lifetime
    && s.expires == if e.request.lifetime > 0 then Some(e.now + e.request.lifetime * SECOND) else None
  }

  predicate SameTerms(s: Subscription, t: Subscription) {
    s.confirmed == t.confirmed && s.lifetime == t.lifetime && s.expires == t.expires
  }

  lemma ConcernedStep(s: AppState, r: Request, at: Instant, now: Instant, key: SubscriptionKey)
    requires ValidDevice(s.device) && HasPresentValue(s.device, key.object_) && at <= now && Concerns(r, key)
    ensures var t := Handled(s, r, at);
            && (Active(t, key, now) <==> r.Subscribe? && (r.lifetime == 0 || now < at + r.lifetime * SECOND))
            && (Active(t, key, now) ==> AsAsked(t.subscriptions[key], Event(r, at)))
  {
  }

  lemma UnconcernedStep(s: AppState, r: Request, at: Instant, now: Instant, key: SubscriptionKey)
    requires ValidDevice(s.device) && at <= now && !Concerns(r, key)
    ensures var t := Handled(s, r, at);
            && (Active(t, key, now) <==> Active(s, key, now))
            && (Active(t, key, now) ==> SameTerms(s.subscriptions[key], t.subscriptions[key]))
  {
    hide WriteProperty;
    hide Batch;
    hide Notified;
    hide NotifiedAll;
    hide Reported;
    if r.WriteOne? {
      NotifiedEntry(s.(device := WriteProperty(s.device, r.write).device), r.write.key, at, key);
    } else if r.WriteMany? {
      var u := s.(device := Batch(s.device, Flattened(r.specs)).device);
      NotifiedAllEntry(u, Objects(r.specs), at, key);
    }
  }

  /** In every run: a subscription is in force at `now` exactly when the last SubscribeCOV about it
      made it and its lifetime is not over; and with the terms asked for there. */
  lemma {:induction false} ActiveIffAlive(d: DeviceState, events: seq<Event>, key: SubscriptionKey, now: Instant)
    requires ValidDevice(d) && ValidRun(events) && Chronological(events)
    requires events != [] ==> events[|events| - 1].now <= now
    ensures var s := Reach(d, events).state;
            && (Active(s, key, now) <==> Alive(d, events, key, now))
            && (Active(s, key, now) ==> AsAsked(s.subscriptions[key], LastWord(events, key).value))
    decreases |events|
  {
    hide Handled;
    hide Unreported;
    hide HasPresentValue;
    hide ValidRequest;
    if !HasPresentValue(d, key.object_) {
      RunKeepsPresence(d, events, key.object_);
      EveryRunKeepsInvariant(d, events);
    } else if events != [] {
      var n := |events| - 1;
      var s, e := Reach(d, events[..n]).state, events[n];
      if Concerns(e.request, key) {
        RunKeepsPresence(d, events[..n], key.object_);
        ConcernedStep(s, e.request, e.now, now, key);
      } else {
        ActiveIffAlive(d, events[..n], key, now);
        UnconcernedStep(s, e.request, e.now, now, key);
      }
    }
  }

  // ---- Who is notified ---------------------------------------------------

  /** Some element differs by at least the increment, or at all where there is none or the element
      is not a number. */
  predicate Moved(increment: real, told: seq<Value>, current: seq<Value>) {
    || |told| != |current|
    || exists i :: 0 <= i < |current| &&
         if increment > 0.0 && IsNumeric(told[i]) && IsNumeric(current[i])
         then Distance(NumberOf(told[i]), NumberOf(current[i])) >= increment
         else told[i] != current[i]
  }

  lemma ChangedIsMoved(increment: real, told: seq<Value>, current: seq<Value>)
    ensures Changed(increment, told, current) <==> Moved(increment, told, current)
  {
    hide Distance;
    if i :| 0 <= i < |told| == |current| && ElementChanged(increment, told[i], current[i]) {
      assert told[i] == told[i];
    }
  }

  /** The run goes on with one more request, no earlier than the last. */
  predicate GoesOn(d: DeviceState, events: seq<Event>, e: Event) {
    && ValidDevice(d) && ValidRun(events) && ValidRequest(e.request) && Chronological(events)
    && (events != [] ==> events[|events| - 1].now <= e.now)
  }

  lemma EntersInStep(d: DeviceState, events: seq<Event>, key: SubscriptionKey)
    requires ValidDevice(d) && ValidRun(events)
    ensures key in Reach(d, events).state.subscriptions <==> key in Reach(d, events).state.endpoints
  {
    hide Reach;
    EveryRunKeepsInvariant(d, events);
  }

  lemma ReportedIff(s: AppState, key: SubscriptionKey, now: Instant)
    requires key in s.subscriptions <==> key in s.endpoints
    ensures key in Reported(s, key.object_, now) <==> Active(s, key, now) && Due(s.device, key, s.subscriptions[key])
  {
    hide Due;
  }

  /** Who is notified, in every run and by every request: a SubscribeCOV is answered with a notice to
      its own subscription; any other notice goes to a subscription that is alive, on an object that
      an acknowledged write names, exactly when Present_Value as it is then read has moved by the
      increment since the last notice of the run to that subscription. */
  lemma NoticeIffMoved(d: DeviceState, events: seq<Event>, e: Event, key: SubscriptionKey)
    requires GoesOn(d, events, e)
    ensures var t, told := Turning(Played(d, events), e), LastNotice(Log(d, events), key);
            var current := ReadProperty(t.world.app.device, key.object_, PRESENT_VALUE, None);
            LastNotice(t.replies, key).Some? <==>
              if e.request.Subscribe? then e.request.key == key && HasPresentValue(d, key.object_)
              else && Acknowledged(t.replies) && Names(e.request, key.object_)
                   && Alive(d, events, key, e.now) && told.Some? && current.Read?
                   && Moved(Increment(d, key.object_), told.value.values, current.values)
  {
    hide Turning;
    hide Played;
    hide Log;
    hide LastNotice;
    hide Alive;
    hide Reach;
    hide Reported;
    hide Moved;
    hide Changed;
    hide PresentValue;
    hide Announces;
    hide ReadProperty;
    var w := Played(d, events);
    var t := Turning(w, e);
    TurnSettles(w, e, key);
    TurningHandles(w, e);
    RunKeepsPresence(d, events, key.object_);
    HandledKeepsPresence(w.app, e.request, e.now, key.object_);
    EntersInStep(d, events, key);
    ActiveIffAlive(d, events, key, e.now);
    if Alive(d, events, key, e.now) {
      AliveIsPresent(d, events, key, e.now);
    }
    var s := w.app.(device := t.world.app.device);
    ReportedIff(s, key, e.now);
    if key in w.app.subscriptions {
      RememberedIsTold(d, events, key);
      if HasPresentValue(s.device, key.object_) {
        ChangedIsMoved(Increment(d, key.object_), w.app.subscriptions[key].last, PresentValue(s.device, key.object_));
      }
    }
  }

  lemma AliveIsPresent(d: DeviceState, events: seq<Event>, key: SubscriptionKey, now: Instant)
    requires Alive(d, events, key, now)
    ensures HasPresentValue(d, key.object_)
  {
  }

  // ---- What a notice says ------------------------------------------------

  predicate EndpointsTrue(s: AppState) {
    forall key <- s.endpoints :: s.endpoints[key] == key.subscriber
  }

  lemma {:induction false} NotifiedAllEndpoints(s: AppState, objects: seq<ObjectKey>, now: Instant)
    requires EndpointsTrue(s)
    ensures EndpointsTrue(NotifiedAll(s, objects, now))
    decreases |objects|
  {
    hide Reported;
    hide Pruned;
    if objects != [] {
      NotifiedAllEndpoints(Notified(s, objects[0], now), objects[1..], now);
    }
  }

  lemma HandledEndpoints(s: AppState, r: Request, now: Instant)
    requires ValidDevice(s.device) && EndpointsTrue(s)
    ensures EndpointsTrue(Handled(s, r, now))
  {
    hide WriteProperty;
    hide Batch;
    hide NotifiedAll;
    hide Reported;
    hide Pruned;
    hide SetLocalTime;
    if r.WriteMany? {
      NotifiedAllEndpoints(s.(device := Batch(s.device, Flattened(r.specs)).device), Objects(r.specs), now);
    }
  }

  lemma {:induction false} RunEndpoints(d: DeviceState, events: seq<Event>)
    requires ValidDevice(d)
    ensures EndpointsTrue(Reach(d, events).state)
    decreases |events|
  {
    hide Handled;
    hide Unreported;
    if events != [] {
      var n := |events| - 1;
      RunEndpoints(d, events[..n]);
      HandledEndpoints(Reach(d, events[..n]).state, events[n].request, events[n].now);
    }
  }

  /** What a notice says, in every run: it goes to the subscriber, with Present_Value as it is then
      read, as a request with an invoke ID exactly when confirmed notifications were last asked for,
      and with the whole seconds that are left of the lifetime, rounded up, or zero without one. */
  lemma NoticeSays(d: DeviceState, events: seq<Event>, e: Event, key: SubscriptionKey)
    requires GoesOn(d, events, e)
    requires LastNotice(Turning(Played(d, events), e).replies, key).Some?
    ensures LastWord(events + [e], key).Some? && LastWord(events + [e], key).value.request.Subscribe?
    ensures var t, asked := Turning(Played(d, events), e), LastWord(events + [e], key).value;
            var n := LastNotice(t.replies, key).value;
            && n.to == key.subscriber
            && ReadProperty(t.world.app.device, key.object_, PRESENT_VALUE, None) == Read(n.values)
            && (n.invoke.Some? <==> asked.request.confirmed)
            && (asked.request.lifetime == 0 <==> n.remaining == 0)
            && (asked.request.lifetime > 0 ==>
                  var left := asked.now + asked.request.lifetime * SECOND - e.now;
                  (n.remaining - 1) * SECOND < left <= n.remaining * SECOND)
  {
    hide Turning;
    hide Played;
    hide Log;
    hide LastNotice;
    hide Reach;
    hide Reported;
    hide Changed;
    hide PresentValue;
    hide ReadProperty;
    var w := Played(d, events);
    var t := Turning(w, e);
    assert (events + [e])[..|events|] == events;
    TurnSettles(w, e, key);
    if !e.request.Subscribe? {
      var s := w.app.(device := t.world.app.device);
      EntersInStep(d, events, key);
      ReportedIff(s, key, e.now);
      ActiveIffAlive(d, events, key, e.now);
      RunEndpoints(d, events);
      CancelNotifiesNobody(w, e);
      TimeLeft(w.app.subscriptions[key], LastWord(events, key).value, e.now);
    }
  }

  lemma TimeLeft(s: Subscription, asked: Event, now: Instant)
    requires AsAsked(s, asked) && !Expired(s, now)
    ensures asked.request.lifetime == 0 <==> TimeRemaining(s, now) == 0
    ensures asked.request.lifetime > 0 ==>
              var left := asked.now + asked.request.lifetime * SECOND - now;
              (TimeRemaining(s, now) - 1) * SECOND < left <= TimeRemaining(s, now) * SECOND
  {
    hide TimeRemaining;
    SecondsLeft(s, now);
  }

  lemma CancelNotifiesNobody(w: World, e: Event)
    requires ValidDevice(w.app.device)
    ensures e.request.Cancel? ==> forall r <- Turning(w, e).replies :: !r.Notice?
  {
    hide Handled;
  }
}
