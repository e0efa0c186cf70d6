/** Change-of-value notification of a built device, in the numbers of its scenario. */
module ScenarioCov {
  import opened Octets
  import opened Model
  import opened Cov
  import opened CovRuns
  import opened Scenario
  import opened ScenarioRuns
  import opened Configured
  import opened Replies
  import opened Turns
  import opened CovNotices
  import opened CovLog
  import DeviceRules

  /** One value of the type this kind of object has. */
  predicate Level(kind: Uint16, vs: seq<Value>) {
    |vs| == 1 && if IsAnalog(kind) then vs[0].Real? else if IsBinary(kind) then vs[0].Enumerated? else vs[0].Unsigned?
  }

  lemma SoundLevel(d: DeviceState, key: ObjectKey)
    requires SoundDevice(d) && HasPresentValue(d, key)
    ensures Level(key.kind, PresentValue(d, key))
  {
    hide SoundObject;
    SoundReads(d, key);
    DeviceRules.TagsTellTypes(PresentValue(d, key)[0]);
  }

  /** Every notice of a run shows such a value. */
  lemma {:induction false} NoticesShowLevels(d: DeviceState, events: seq<Event>, key: SubscriptionKey)
    requires SoundDevice(d) && ValidDevice(d)
    ensures var n := LastNotice(Log(d, events), key); n.Some? ==> Level(key.object_.kind, n.value.values)
    decreases |events|
  {
    hide SoundDevice;
    hide Turning;
    hide LastNotice;
    hide Level;
    hide Handled;
    hide Reported;
    if events == [] {
      NoNotice(key);
    } else {
      var n := |events| - 1;
      var w := Played(d, events[..n]);
      var t := Turning(w, events[n]);
      NoticesShowLevels(d, events[..n], key);
      LastNoticeConcat(Log(d, events[..n]), t.replies, key);
      assert Played(d, events) == t.world;
      RunIsSound(d, events);
      TurnSettles(w, events[n], key);
      if LastNotice(t.replies, key).Some? {
        SoundLevel(t.world.app.device, key.object_);
      }
    }
  }

  /** The deadband in numbers. An object of the scenario is written and the write acknowledged; a
      subscription to it that is alive is notified if and only if the value differs from the one it
      was last notified of by at least the increment configured, or at all where none is. */
  lemma BuiltDeviceNotifies(spec: DeviceSpec, i: nat, events: seq<Event>, e: Event, key: SubscriptionKey)
    requires ObjectsFit(spec.objects) && BuiltDevice(spec).Some? && i < |spec.objects|
    requires key.object_ == KeyOf(spec.objects[i]) && GoesOn(BuiltDevice(spec).value, events, e)
    requires Names(e.request, key.object_) && Alive(BuiltDevice(spec).value, events, key, e.now)
    requires Acknowledged(Turning(Played(BuiltDevice(spec).value, events), e).replies)
    ensures var d, o, kind := BuiltDevice(spec).value, spec.objects[i], key.object_.kind;
            var t, told := Turning(Played(d, events), e), LastNotice(Log(d, events), key);
            var current := ReadProperty(t.world.app.device, key.object_, PRESENT_VALUE, None);
            && told.Some? && Level(kind, told.value.values) && current.Read? && Level(kind, current.values)
            && var a, b := told.value.values[0], current.values[0];
               LastNotice(t.replies, key).Some? <==>
                 if o.increment == 0.0 then a != b
                 else if IsAnalog(kind) then a.x - b.x >= o.increment || b.x - a.x >= o.increment
                 else a.n as real - b.n as real >= o.increment || b.n as real - a.n as real >= o.increment
  {
    hide BuiltDevice;
    hide BuiltObject;
    hide KindOf;
    hide ValuesFit;
    hide Trimmed;
    hide PriorityFits;
    hide Turning;
    hide Played;
    hide Log;
    hide LastNotice;
    hide Alive;
    hide Reach;
    hide ReadProperty;
    hide SoundDevice;
    hide Moved;
    hide Specified;
    hide DeviceObject;
    var d, o := BuiltDevice(spec).value, spec.objects[i];
    var w := Played(d, events);
    BuiltIsSound(spec);
    BuiltDeviceHolds(spec);
    DeviceRules.PresentShape(o);
    NoticeIffMoved(d, events, e, key);
    ToldWhenAlive(d, events, e, key);
    NoticesShowLevels(d, events, key);
    RunIsSound(d, events);
    RunKeepsPresence(d, events, key.object_);
    HandledKeepsPresence(w.app, e.request, e.now, key.object_);
    TurningHandles(w, e);
    HandledIsSound(w.app, e.request, e.now);
    SoundLevel(Turning(w, e).world.app.device, key.object_);
    MovedInNumbers(key.object_.kind, o.increment, LastNotice(Log(d, events), key).value.values,
                   PresentValue(Turning(w, e).world.app.device, key.object_));
  }

  /** A subscription that is alive has been told something. */
  lemma ToldWhenAlive(d: DeviceState, events: seq<Event>, e: Event, key: SubscriptionKey)
    requires GoesOn(d, events, e) && Alive(d, events, key, e.now)
    ensures LastNotice(Log(d, events), key).Some? && HasPresentValue(d, key.object_)
  {
    hide Reach;
    ActiveIffAlive(d, events, key, e.now);
    RememberedIsTold(d, events, key);
  }

  lemma MovedInNumbers(kind: Uint16, increment: real, told: seq<Value>, current: seq<Value>)
    requires Level(kind, told) && Level(kind, current) && increment >= 0.0
    ensures var a, b := told[0], current[0];
            Moved(increment, told, current) <==>
              if increment == 0.0 then a != b
              else if IsAnalog(kind) then a.x - b.x >= increment || b.x - a.x >= increment
              else a.n as real - b.n as real >= increment || b.n as real - a.n as real >= increment
  {
  }
}
