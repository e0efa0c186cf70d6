/** What a scenario configures stays configured: the objects and properties of a built device over
    every run of requests. */
module Configured {
  import opened Octets
  import opened Model
  import opened WriteBatch
  import opened Cov
  import opened CovRuns
  import opened Scenario
  import opened ScenarioRuns

  // ---- What every run keeps ----------------------------------------------

  /** An object as it is built: only Present_Value can be written, only Object_List is an array. */
  predicate AsBuilt(o: ObjectState) {
    && ValidObject(o) && LOCAL_DATE !in o.properties && LOCAL_TIME !in o.properties
    && OUT_OF_SERVICE !in o.properties && PRIORITY_ARRAY !in o.properties
    && STATUS_FLAGS !in o.properties && EVENT_STATE !in o.properties && RELIABILITY !in o.properties
    && RELINQUISH_DEFAULT !in o.properties
    && forall id <- o.properties ::
         && (id != PRESENT_VALUE ==> !o.properties[id].shape.writable && o.properties[id].shape.fallback.None?)
         && (o.properties[id].shape.isArray <==> id == OBJECT_LIST)
  }

  /** `p` is what requests have made of `o`: they change Present_Value and Out_Of_Service, and give
      the device object its local time. */
  predicate Inherits(o: ObjectState, p: ObjectState) {
    && ValidObject(p) && p.key == o.key
    && (forall id <- o.properties ::
          && id in p.properties && p.properties[id].shape == o.properties[id].shape
          && (id != PRESENT_VALUE ==> p.properties[id] == o.properties[id]))
    && (forall id <- p.properties :: id !in o.properties ==>
          && o.key.kind == DEVICE_TYPE && (id == LOCAL_DATE || id == LOCAL_TIME)
          && !p.properties[id].shape.writable && !p.properties[id].shape.isArray
          && p.properties[id].shape.fallback.None?)
  }

  predicate DeviceAsBuilt(b: DeviceState) {
    forall key <- b.objects :: b.objects[key].key == key && AsBuilt(b.objects[key])
  }

  predicate DeviceInherits(b: DeviceState, d: DeviceState) {
    && d.id == b.id && d.objects.Keys == b.objects.Keys
    && forall key <- b.objects :: Inherits(b.objects[key], d.objects[key])
  }

  lemma WriteInherits(o: ObjectState, p: ObjectState, w: Write)
    requires AsBuilt(o) && Inherits(o, p)
    ensures Inherits(o, WriteObject(p, w).object_)
  {
    hide CheckValues;
    hide Synthesized;
  }

  lemma WritePropertyInherits(b: DeviceState, d: DeviceState, w: Write)
    requires DeviceAsBuilt(b) && DeviceInherits(b, d)
    ensures ValidDevice(d) && DeviceInherits(b, WriteProperty(d, w).device)
  {
    hide WriteObject;
    hide AsBuilt;
    InheritsIsValid(b, d);
    hide Inherits;
    if w.key in d.objects {
      WriteInherits(b.objects[w.key], d.objects[w.key], w);
    }
  }

  lemma InheritsIsValid(b: DeviceState, d: DeviceState)
    requires DeviceInherits(b, d)
    ensures ValidDevice(d)
  {
  }

  lemma {:induction false} ApplyAllInherits(b: DeviceState, d: DeviceState, ws: seq<BatchWrite>)
    requires DeviceAsBuilt(b) && DeviceInherits(b, d)
    ensures ValidDevice(d) && DeviceInherits(b, ApplyAll(d, ws).device)
    decreases |ws|
  {
    hide WriteProperty;
    hide DeviceInherits;
    hide DeviceAsBuilt;
    InheritsIsValid(b, d);
    if ws != [] {
      WritePropertyInherits(b, d, ws[0].write);
      if WriteProperty(d, ws[0].write).error.None? {
        ApplyAllInherits(b, WriteProperty(d, ws[0].write).device, ws[1..]);
      }
    }
  }

  lemma ClockInherits(b: DeviceState, d: DeviceState, date: Day, time: Clock)
    requires DeviceAsBuilt(b) && DeviceInherits(b, d)
    ensures ValidDevice(d) && DeviceInherits(b, SetLocalTime(d, date, time))
  {
    hide AsBuilt;
    hide ScalarProperty;
    hide Clocked;
    InheritsIsValid(b, d);
    hide Inherits;
    var key := ObjectKey(DEVICE_TYPE, d.id);
    if key in d.objects {
      ClockedInherits(b.objects[key], d.objects[key], Date(date), Time(time));
    }
  }

  lemma ClockedInherits(o: ObjectState, p: ObjectState, date: Value, time: Value)
    requires AsBuilt(o) && Inherits(o, p) && o.key.kind == DEVICE_TYPE
    ensures Inherits(o, Clocked(p, ScalarProperty(date, false), ScalarProperty(time, false)))
  {
  }

  lemma HandledInherits(b: DeviceState, s: AppState, r: Request, now: Instant)
    requires DeviceAsBuilt(b) && DeviceInherits(b, s.device)
    ensures ValidDevice(s.device) && DeviceInherits(b, Handled(s, r, now).device)
  {
    hide WriteProperty;
    hide ApplyAll;
    hide FirstRefused;
    hide Notified;
    hide NotifiedAll;
    hide SetLocalTime;
    hide DeviceInherits;
    hide DeviceAsBuilt;
    InheritsIsValid(b, s.device);
    if r.WriteOne? {
      WritePropertyInherits(b, s.device, r.write);
    } else if r.WriteMany? {
      ApplyAllInherits(b, s.device, Flattened(r.specs));
    } else if r.TimeSync? {
      ClockInherits(b, s.device, r.date, r.time);
    }
  }

  lemma {:induction false} RunInherits(b: DeviceState, events: seq<Event>)
    requires DeviceAsBuilt(b)
    ensures ValidDevice(b) && DeviceInherits(b, Reach(b, events).state.device)
    decreases |events|
  {
    hide Handled;
    hide Unreported;
    if events != [] {
      var n := |events| - 1;
      RunInherits(b, events[..n]);
      hide DeviceInherits;
      HandledInherits(b, Reach(b, events[..n]).state, events[n].request, events[n].now);
    }
  }

  // ---- Local time --------------------------------------------------------

  /** The last time synchronization of a run. */
  function LastSync(events: seq<Event>): (r: Option<Request>)
    ensures r.Some? ==> r.value.TimeSync?
  {
    if events == [] then None
    else if events[|events| - 1].request.TimeSync? then Some(events[|events| - 1].request)
    else LastSync(events[..|events| - 1])
  }

  /** Local_Date and Local_Time of an object are the same. */
  predicate SameClock(o: ObjectState, p: ObjectState) {
    && (LOCAL_DATE in o.properties <==> LOCAL_DATE in p.properties)
    && (LOCAL_TIME in o.properties <==> LOCAL_TIME in p.properties)
    && (LOCAL_DATE in o.properties ==> o.properties[LOCAL_DATE] == p.properties[LOCAL_DATE])
    && (LOCAL_TIME in o.properties ==> o.properties[LOCAL_TIME] == p.properties[LOCAL_TIME])
  }

  lemma WriteKeepsClock(o: ObjectState, p: ObjectState, w: Write)
    requires AsBuilt(o) && Inherits(o, p)
    ensures SameClock(p, WriteObject(p, w).object_)
  {
    hide CheckValues;
    hide Synthesized;
  }

  lemma DeviceKeepsClock(b: DeviceState, d: DeviceState, w: Write, key: ObjectKey)
    requires DeviceAsBuilt(b) && DeviceInherits(b, d) && ValidDevice(d) && key in d.objects
    ensures var e := WriteProperty(d, w).device; key in e.objects && SameClock(d.objects[key], e.objects[key])
  {
    hide WriteObject;
    hide AsBuilt;
    hide Inherits;
    if w.key == key {
      WriteKeepsClock(b.objects[key], d.objects[key], w);
    }
  }

  lemma {:induction false} ApplyAllKeepsClock(b: DeviceState, d: DeviceState, ws: seq<BatchWrite>, key: ObjectKey)
    requires DeviceAsBuilt(b) && DeviceInherits(b, d) && ValidDevice(d) && key in d.objects
    ensures var e := ApplyAll(d, ws).device; key in e.objects && SameClock(d.objects[key], e.objects[key])
    decreases |ws|
  {
    hide WriteProperty;
    hide DeviceInherits;
    hide DeviceAsBuilt;
    if ws != [] {
      DeviceKeepsClock(b, d, ws[0].write, key);
      WritePropertyInherits(b, d, ws[0].write);
      if WriteProperty(d, ws[0].write).error.None? {
        ApplyAllKeepsClock(b, WriteProperty(d, ws[0].write).device, ws[1..], key);
      }
    }
  }

  lemma HandledKeepsClock(b: DeviceState, s: AppState, r: Request, now: Instant, key: ObjectKey)
    requires DeviceAsBuilt(b) && DeviceInherits(b, s.device) && ValidDevice(s.device) && key in s.device.objects
    requires !r.TimeSync?
    ensures var e := Handled(s, r, now).device; key in e.objects && SameClock(s.device.objects[key], e.objects[key])
  {
    hide WriteProperty;
    hide ApplyAll;
    hide FirstRefused;
    hide Notified;
    hide NotifiedAll;
    hide DeviceInherits;
    hide DeviceAsBuilt;
    if r.WriteOne? {
      DeviceKeepsClock(b, s.device, r.write, key);
    } else if r.WriteMany? {
      ApplyAllKeepsClock(b, s.device, Flattened(r.specs), key);
    }
  }

  /** What the device object shows of the time, when it was last synchronized so. */
  predicate ShowsTime(o: ObjectState, sync: Option<Request>)
    requires sync.Some? ==> sync.value.TimeSync?
  {
    if sync.None? then LOCAL_DATE !in o.properties && LOCAL_TIME !in o.properties
    else && LOCAL_DATE in o.properties && o.properties[LOCAL_DATE] == ScalarProperty(Date(sync.value.date), false)
         && LOCAL_TIME in o.properties && o.properties[LOCAL_TIME] == ScalarProperty(Time(sync.value.time), false)
  }

  lemma {:induction false} RunShowsTime(b: DeviceState, events: seq<Event>)
    requires DeviceAsBuilt(b) && ValidDevice(b) && ObjectKey(DEVICE_TYPE, b.id) in b.objects
    ensures var d, key := Reach(b, events).state.device, ObjectKey(DEVICE_TYPE, b.id);
            key in d.objects && ShowsTime(d.objects[key], LastSync(events))
    decreases |events|
  {
    hide Handled;
    hide Unreported;
    hide AsBuilt;
    hide SameClock;
    hide ScalarProperty;
    var key := ObjectKey(DEVICE_TYPE, b.id);
    if events == [] {
      NoTimeAtFirst(b.objects[key]);
    } else {
      var n := |events| - 1;
      var s, e := Reach(b, events[..n]).state, events[n];
      RunShowsTime(b, events[..n]);
      RunInherits(b, events[..n]);
      if e.request.TimeSync? {
        SyncShows(s, e.request, e.now);
      } else {
        HandledKeepsClock(b, s, e.request, e.now, key);
        ClockShows(s.device.objects[key], Handled(s, e.request, e.now).device.objects[key], LastSync(events));
      }
    }
  }

  lemma NoTimeAtFirst(o: ObjectState)
    requires AsBuilt(o)
    ensures ShowsTime(o, None)
  {
  }

  lemma ClockShows(o: ObjectState, p: ObjectState, sync: Option<Request>)
    requires (sync.Some? ==> sync.value.TimeSync?) && SameClock(o, p) && ShowsTime(o, sync)
    ensures ShowsTime(p, sync)
  {
    hide ScalarProperty;
  }

  lemma SyncShows(s: AppState, r: Request, now: Instant)
    requires ValidDevice(s.device) && r.TimeSync? && ObjectKey(DEVICE_TYPE, s.device.id) in s.device.objects
    ensures var e, key := Handled(s, r, now).device, ObjectKey(DEVICE_TYPE, s.device.id);
            key in e.objects && ShowsTime(e.objects[key], Some(r))
  {
    hide ScalarProperty;
  }

  // ---- A built device ----------------------------------------------------

  lemma CommonIsAsBuilt(key: ObjectKey, name: string, description: string)
    ensures var m := CommonProperties(key, name, description);
            && LOCAL_DATE !in m && LOCAL_TIME !in m && OBJECT_LIST !in m && UNITS !in m
            && OBJECT_NAME in m && m[OBJECT_NAME] == ScalarProperty(CharacterString(name), false)
            && OBJECT_IDENTIFIER in m && m[OBJECT_IDENTIFIER] == ScalarProperty(ObjectIdentifier(key), false)
            && OBJECT_TYPE in m && m[OBJECT_TYPE] == ScalarProperty(Enumerated(key.kind), false)
            && (description != "" ==>
                  DESCRIPTION in m && m[DESCRIPTION] == ScalarProperty(CharacterString(description), false))
            && forall id <- m ::
                 !m[id].shape.writable && m[id].shape.fallback.None? && !m[id].shape.isArray
  {
  }

  /** Present_Value as configured: the command in force, and the relinquish default. */
  function Configured(spec: ObjectSpec): (v: Option<Value>)
    requires KindOf(spec.typeName).Some?
  {
    Normalized(KindOf(spec.typeName).value, spec.presentValue)
  }

  function Default(spec: ObjectSpec): (v: Option<Value>)
    requires KindOf(spec.typeName).Some?
  {
    if spec.relinquishDefault.Absent? then Configured(spec)
    else Normalized(KindOf(spec.typeName).value, spec.relinquishDefault)
  }

  lemma BuiltObjectHolds(spec: ObjectSpec)
    requires ObjectFits(spec) && BuiltObject(spec).Some?
    ensures var o := BuiltObject(spec).value;
            && AsBuilt(o) && o.key == KeyOf(spec) && o.outOfService == spec.outOfService
            && PRESENT_VALUE in o.properties
            && Configured(spec).Some? && (spec.commandable ==> Default(spec).Some?)
            && o.properties[PRESENT_VALUE] == PresentProperty(KeyOf(spec).kind, spec, Configured(spec).value,
                                                              if spec.commandable then Default(spec) else None)
    ensures var o := BuiltObject(spec).value;
            && OBJECT_NAME in o.properties
            && o.properties[OBJECT_NAME] == ScalarProperty(CharacterString(spec.name), false)
            && OBJECT_IDENTIFIER in o.properties
            && o.properties[OBJECT_IDENTIFIER] == ScalarProperty(ObjectIdentifier(KeyOf(spec)), false)
            && OBJECT_TYPE in o.properties
            && o.properties[OBJECT_TYPE] == ScalarProperty(Enumerated(KeyOf(spec).kind), false)
            && (spec.description != "" ==>
                  && DESCRIPTION in o.properties
                  && o.properties[DESCRIPTION] == ScalarProperty(CharacterString(spec.description), false))
            && (spec.units != 0 ==>
                  UNITS in o.properties && o.properties[UNITS] == ScalarProperty(Enumerated(spec.units), false))
            && (spec.numberOfStates != 0 ==>
                  && NUMBER_OF_STATES in o.properties
                  && o.properties[NUMBER_OF_STATES] == ScalarProperty(Unsigned(spec.numberOfStates), false))
  {
    hide KindOf;
    hide Normalized;
    hide CommonProperties;
    hide InitialSlots;
    hide Trimmed;
    hide ValuesFit;
    CommonIsAsBuilt(KeyOf(spec), spec.name, spec.description);
  }

  lemma DeviceObjectIsAsBuilt(spec: DeviceSpec)
    requires ObjectsFit(spec.objects)
    ensures AsBuilt(DeviceObject(spec)) && DeviceObject(spec).key == ObjectKey(DEVICE_TYPE, spec.id)
  {
    hide ObjectList;
    hide KeysOf;
    hide ObjectsFit;
    hide CommonProperties;
    hide OwnProperties;
    hide ScalarProperty;
    CommonIsAsBuilt(ObjectKey(DEVICE_TYPE, spec.id), spec.name, "");
    OwnIsAsBuilt(spec);
  }

  lemma DeviceObjectHolds(spec: DeviceSpec)
    requires ObjectsFit(spec.objects)
    ensures var o, key := DeviceObject(spec), ObjectKey(DEVICE_TYPE, spec.id);
            && AsBuilt(o) && o.key == key && PRESENT_VALUE !in o.properties
            && OBJECT_NAME in o.properties
            && o.properties[OBJECT_NAME] == ScalarProperty(CharacterString(spec.name), false)
            && OBJECT_IDENTIFIER in o.properties && o.properties[OBJECT_IDENTIFIER].values == [ObjectIdentifier(key)]
            && OBJECT_TYPE in o.properties && o.properties[OBJECT_TYPE].values == [Enumerated(8)]
            && (forall id <- OwnProperties(spec) ::
                  id in o.properties && o.properties[id] == OwnProperties(spec)[id])
            && OBJECT_LIST in o.properties
            && o.properties[OBJECT_LIST].values == ObjectList([key] + KeysOf(spec.objects))
            && o.properties[OBJECT_LIST].shape.fallback.None?
  {
    hide ObjectList;
    hide KeysOf;
    hide ObjectsFit;
    hide CommonProperties;
    hide OwnProperties;
    hide AsBuilt;
    DeviceObjectIsAsBuilt(spec);
    CommonIsAsBuilt(ObjectKey(DEVICE_TYPE, spec.id), spec.name, "");
  }

  lemma OwnIsAsBuilt(spec: DeviceSpec)
    ensures var m := OwnProperties(spec);
            forall id <- m :: !m[id].shape.writable && m[id].shape.fallback.None? && !m[id].shape.isArray
  {
    hide ScalarProperty;
    ScalarsAreReadOnly();
  }

  lemma ScalarsAreReadOnly()
    ensures forall v :: var p := ScalarProperty(v, false);
                        !p.shape.writable && !p.shape.isArray && p.shape.fallback.None? && ValidProperty(p)
  {
  }

  /** The key is that of one of the specifications. */
  predicate Specified(specs: seq<ObjectSpec>, key: ObjectKey)
    requires ObjectsFit(specs)
  {
    exists i :: 0 <= i < |specs| && KeyOf(specs[i]) == key
  }

  lemma {:induction false} BuiltObjectsHold(specs: seq<ObjectSpec>, i: nat)
    requires ObjectsFit(specs) && BuiltObjects(specs).Some? && i < |specs|
    ensures var m := BuiltObjects(specs).value;
            && BuiltObject(specs[i]).Some? && KeyOf(specs[i]) in m
            && m[KeyOf(specs[i])] == BuiltObject(specs[i]).value
    decreases |specs|
  {
    hide BuiltObject;
    hide KeyOf;
    hide KindOf;
    hide Trimmed;
    hide ValuesFit;
    hide PriorityFits;
    var n := |specs| - 1;
    var before := specs[..n];
    assert forall k :: 0 <= k < n ==> before[k] == specs[k];
    BuiltUnderItsKey(specs[n]);
    if i < n {
      BuiltObjectsHold(before, i);
      assert KeyOf(specs[i]) != KeyOf(specs[n]);
    }
  }

  lemma {:induction false} NothingElseIsBuilt(specs: seq<ObjectSpec>, key: ObjectKey)
    requires ObjectsFit(specs) && BuiltObjects(specs).Some? && key in BuiltObjects(specs).value
    ensures Specified(specs, key)
    decreases |specs|
  {
    hide BuiltObject;
    hide KeyOf;
    hide KindOf;
    hide Trimmed;
    hide ValuesFit;
    hide PriorityFits;
    var n := |specs| - 1;
    var before := specs[..n];
    assert forall k :: 0 <= k < n ==> before[k] == specs[k];
    BuiltUnderItsKey(specs[n]);
    if key != KeyOf(specs[n]) {
      NothingElseIsBuilt(before, key);
      var k :| 0 <= k < |before| && KeyOf(before[k]) == key;
      assert KeyOf(specs[k]) == key;
    }
  }

  lemma BuiltUnderItsKey(spec: ObjectSpec)
    requires ObjectFits(spec)
    ensures BuiltObject(spec).Some? ==> BuiltObject(spec).value.key == KeyOf(spec)
  {
    hide BuiltObject;
  }

  /** The objects of a built device: the device object and those of the scenario, and no other. */
  lemma BuiltDeviceHolds(spec: DeviceSpec)
    requires ObjectsFit(spec.objects) && BuiltDevice(spec).Some?
    ensures var d, key := BuiltDevice(spec).value, ObjectKey(DEVICE_TYPE, spec.id);
            && DeviceAsBuilt(d) && ValidDevice(d) && d.id == spec.id
            && key in d.objects && d.objects[key] == DeviceObject(spec)
            && (forall i :: 0 <= i < |spec.objects| ==>
                  && BuiltObject(spec.objects[i]).Some? && KeyOf(spec.objects[i]) in d.objects
                  && d.objects[KeyOf(spec.objects[i])] == BuiltObject(spec.objects[i]).value)
            && (forall k <- d.objects :: k == key || Specified(spec.objects, k))
  {
    hide BuiltObject;
    hide BuiltObjects;
    hide DeviceObject;
    hide AsBuilt;
    hide KindOf;
    hide Trimmed;
    hide ValuesFit;
    hide PriorityFits;
    hide KeyOf;
    hide Specified;
    DeviceObjectHolds(spec);
    var d, device := BuiltDevice(spec).value, ObjectKey(DEVICE_TYPE, spec.id);
    forall i | 0 <= i < |spec.objects|
      ensures BuiltObject(spec.objects[i]).Some? && KeyOf(spec.objects[i]) in d.objects
      ensures d.objects[KeyOf(spec.objects[i])] == BuiltObject(spec.objects[i]).value
      ensures AsBuilt(d.objects[KeyOf(spec.objects[i])])
      ensures d.objects[KeyOf(spec.objects[i])].key == KeyOf(spec.objects[i])
    {
      assert ObjectFits(spec.objects[i]);
      BuiltObjectsHold(spec.objects, i);
      NoDeviceAmongThem(spec.objects[i]);
      BuiltObjectHolds(spec.objects[i]);
    }
    forall k | k in d.objects && k != device
      ensures Specified(spec.objects, k) && AsBuilt(d.objects[k]) && d.objects[k].key == k
    {
      NothingElseIsBuilt(spec.objects, k);
      var i := SpecifiedBy(spec.objects, k);
    }
    AsBuiltIsValid(d);
  }

  lemma SpecifiedBy(specs: seq<ObjectSpec>, key: ObjectKey) returns (i: nat)
    requires ObjectsFit(specs) && Specified(specs, key)
    ensures i < |specs| && KeyOf(specs[i]) == key
  {
    hide KeyOf;
    i :| 0 <= i < |specs| && KeyOf(specs[i]) == key;
  }

  lemma NoDeviceAmongThem(spec: ObjectSpec)
    requires ObjectFits(spec)
    ensures KeyOf(spec).kind != DEVICE_TYPE
  {
  }

  lemma AsBuiltIsValid(d: DeviceState)
    requires DeviceAsBuilt(d)
    ensures ValidDevice(d)
  {
  }

  // ---- What is read after any run ----------------------------------------

  /** The object of a specification after a run. */
  lemma ObjectAfter(spec: DeviceSpec, i: nat, events: seq<Event>)
    requires ObjectsFit(spec.objects) && BuiltDevice(spec).Some? && i < |spec.objects|
    ensures ValidDevice(BuiltDevice(spec).value) && BuiltObject(spec.objects[i]).Some?
    ensures var d, key := Reach(BuiltDevice(spec).value, events).state.device, KeyOf(spec.objects[i]);
            && key in d.objects && key.kind != DEVICE_TYPE && ObjectFits(spec.objects[i])
            && AsBuilt(BuiltObject(spec.objects[i]).value)
            && Inherits(BuiltObject(spec.objects[i]).value, d.objects[key])
  {
    hide BuiltObject;
    hide AsBuilt;
    hide Inherits;
    hide BuiltDevice;
    hide Reach;
    hide KindOf;
    hide Trimmed;
    hide ValuesFit;
    hide PriorityFits;
    BuiltDeviceHolds(spec);
    RunInherits(BuiltDevice(spec).value, events);
    assert ObjectFits(spec.objects[i]);
    NoDeviceAmongThem(spec.objects[i]);
  }

  /** A property that is not written reads as it was built. */
  lemma StoredReads(o: ObjectState, d: DeviceState, key: ObjectKey, id: Uint32)
    requires key in d.objects && Inherits(o, d.objects[key]) && AsBuilt(o)
    requires id in o.properties && id != PRESENT_VALUE
    ensures ReadProperty(d, key, id, None) == Read(o.properties[id].values)
  {
  }

  /** After every run, everything of an object but its value reads as configured. */
  lemma ConfiguredStays(spec: DeviceSpec, i: nat, events: seq<Event>)
    requires ObjectsFit(spec.objects) && BuiltDevice(spec).Some? && i < |spec.objects|
    ensures ValidDevice(BuiltDevice(spec).value)
    ensures var d, o := Reach(BuiltDevice(spec).value, events).state.device, spec.objects[i];
            var key := KeyOf(o);
            && ReadProperty(d, key, OBJECT_NAME, None) == Read([CharacterString(o.name)])
            && ReadProperty(d, key, OBJECT_IDENTIFIER, None) == Read([ObjectIdentifier(key)])
            && ReadProperty(d, key, OBJECT_TYPE, None) == Read([Enumerated(key.kind)])
            && (o.description != "" ==>
                  ReadProperty(d, key, DESCRIPTION, None) == Read([CharacterString(o.description)]))
            && (o.units != 0 ==> ReadProperty(d, key, UNITS, None) == Read([Enumerated(o.units)]))
            && (o.numberOfStates != 0 ==>
                  ReadProperty(d, key, NUMBER_OF_STATES, None) == Read([Unsigned(o.numberOfStates)]))
            && ReadProperty(d, key, EVENT_STATE, None) == Read([Enumerated(0)])
            && ReadProperty(d, key, RELIABILITY, None) == Read([Enumerated(0)])
            && (o.commandable ==>
                  && Default(o).Some?
                  && ReadProperty(d, key, RELINQUISH_DEFAULT, None) == Read([Default(o).value]))
  {
    hide Reach;
    hide BuiltDevice;
    hide BuiltObject;
    hide KindOf;
    hide Default;
    hide InitialSlots;
    ObjectAfter(spec, i, events);
    BuiltObjectHolds(spec.objects[i]);
  }

  /** So does the device object: identity, vendor, model, protocol, and the list of all objects in the
      order configured. */
  lemma DeviceStays(spec: DeviceSpec, events: seq<Event>)
    requires ObjectsFit(spec.objects) && BuiltDevice(spec).Some?
    ensures ValidDevice(BuiltDevice(spec).value)
    ensures var d, key := Reach(BuiltDevice(spec).value, events).state.device, ObjectKey(DEVICE_TYPE, spec.id);
            var list := ReadProperty(d, key, OBJECT_LIST, None);
            && ReadProperty(d, key, OBJECT_NAME, None) == Read([CharacterString(spec.name)])
            && ReadProperty(d, key, OBJECT_IDENTIFIER, None) == Read([ObjectIdentifier(key)])
            && ReadProperty(d, key, OBJECT_TYPE, None) == Read([Enumerated(8)])
            && ReadProperty(d, key, 120, None) == Read([Unsigned(spec.vendor)])
            && ReadProperty(d, key, 121, None) == Read([CharacterString(spec.vendorName)])
            && ReadProperty(d, key, 70, None) == Read([CharacterString(spec.modelName)])
            && ReadProperty(d, key, 62, None) == Read([Unsigned(1476)])
            && ReadProperty(d, key, 107, None) == Read([Enumerated(3)])
            && ReadProperty(d, key, 98, None) == Read([Unsigned(1)])
            && ReadProperty(d, key, 139, None) == Read([Unsigned(spec.revision)])
            && list.Read? && |list.values| == |spec.objects| + 1 && list.values[0] == ObjectIdentifier(key)
            && forall i :: 0 <= i < |spec.objects| ==> list.values[i + 1] == ObjectIdentifier(KeyOf(spec.objects[i]))
  {
    hide Reach;
    hide BuiltDevice;
    hide DeviceObject;
    hide ReadProperty;
    hide AsBuilt;
    hide Inherits;
    hide ObjectsFit;
    hide ObjectList;
    DeviceAfter(spec, events);
    DeviceObjectHolds(spec);
    var d, key := Reach(BuiltDevice(spec).value, events).state.device, ObjectKey(DEVICE_TYPE, spec.id);
    StoredReads(DeviceObject(spec), d, key, OBJECT_LIST);
    StoredReads(DeviceObject(spec), d, key, OBJECT_NAME);
    StoredReads(DeviceObject(spec), d, key, OBJECT_IDENTIFIER);
    StoredReads(DeviceObject(spec), d, key, OBJECT_TYPE);
    ListInOrder(spec);
    OwnReads(spec, d, key);
  }

  lemma OwnReads(spec: DeviceSpec, d: DeviceState, key: ObjectKey)
    requires ObjectsFit(spec.objects) && key in d.objects
    requires AsBuilt(DeviceObject(spec)) && Inherits(DeviceObject(spec), d.objects[key])
    requires forall id <- OwnProperties(spec) ::
               id in DeviceObject(spec).properties && DeviceObject(spec).properties[id] == OwnProperties(spec)[id]
    ensures ReadProperty(d, key, 120, None) == Read([Unsigned(spec.vendor)])
    ensures ReadProperty(d, key, 121, None) == Read([CharacterString(spec.vendorName)])
    ensures ReadProperty(d, key, 70, None) == Read([CharacterString(spec.modelName)])
    ensures ReadProperty(d, key, 62, None) == Read([Unsigned(1476)])
    ensures ReadProperty(d, key, 107, None) == Read([Enumerated(3)])
    ensures ReadProperty(d, key, 98, None) == Read([Unsigned(1)])
    ensures ReadProperty(d, key, 139, None) == Read([Unsigned(spec.revision)])
  {
    hide ReadProperty;
    hide AsBuilt;
    hide Inherits;
    hide DeviceObject;
    hide ObjectsFit;
    OwnValues(spec);
    forall id | id in OwnProperties(spec)
      ensures ReadProperty(d, key, id, None) == Read(OwnProperties(spec)[id].values)
    {
      StoredReads(DeviceObject(spec), d, key, id);
    }
    hide OwnProperties;
    assert 120 in OwnProperties(spec) && 121 in OwnProperties(spec) && 70 in OwnProperties(spec);
    assert 62 in OwnProperties(spec) && 107 in OwnProperties(spec) && 98 in OwnProperties(spec);
    assert 139 in OwnProperties(spec);
  }

  lemma OwnValues(spec: DeviceSpec)
    ensures var m := OwnProperties(spec);
            && m[120].values == [Unsigned(spec.vendor)] && m[121].values == [CharacterString(spec.vendorName)]
            && m[70].values == [CharacterString(spec.modelName)] && m[62].values == [Unsigned(1476)]
            && m[107].values == [Enumerated(3)] && m[98].values == [Unsigned(1)]
            && m[139].values == [Unsigned(spec.revision)]
  {
  }

  lemma ListInOrder(spec: DeviceSpec)
    requires ObjectsFit(spec.objects)
    ensures var list := ObjectList([ObjectKey(DEVICE_TYPE, spec.id)] + KeysOf(spec.objects));
            forall i :: 0 <= i < |spec.objects| ==> list[i + 1] == ObjectIdentifier(KeyOf(spec.objects[i]))
  {
    hide KindOf;
    hide ValuesFit;
    hide Trimmed;
    var keys := [ObjectKey(DEVICE_TYPE, spec.id)] + KeysOf(spec.objects);
    assert forall i :: 0 <= i < |spec.objects| ==> keys[i + 1] == KeyOf(spec.objects[i]);
  }

  lemma DeviceAfter(spec: DeviceSpec, events: seq<Event>)
    requires ObjectsFit(spec.objects) && BuiltDevice(spec).Some?
    ensures ValidDevice(BuiltDevice(spec).value)
    ensures var d, key := Reach(BuiltDevice(spec).value, events).state.device, ObjectKey(DEVICE_TYPE, spec.id);
            key in d.objects && AsBuilt(DeviceObject(spec)) && Inherits(DeviceObject(spec), d.objects[key])
  {
    hide Reach;
    hide BuiltDevice;
    hide DeviceObject;
    hide AsBuilt;
    hide Inherits;
    hide BuiltObject;
    hide KindOf;
    hide ValuesFit;
    hide Trimmed;
    hide PriorityFits;
    hide Specified;
    BuiltDeviceHolds(spec);
    RunInherits(BuiltDevice(spec).value, events);
  }

  /** After every run, Local_Date and Local_Time read as the last time synchronization said, and are
      unknown before the first. */
  lemma LocalTimeReads(spec: DeviceSpec, events: seq<Event>)
    requires ObjectsFit(spec.objects) && BuiltDevice(spec).Some?
    ensures ValidDevice(BuiltDevice(spec).value)
    ensures var d, key := Reach(BuiltDevice(spec).value, events).state.device, ObjectKey(DEVICE_TYPE, spec.id);
            match LastSync(events)
            case None =>
              && ReadProperty(d, key, LOCAL_DATE, None) == Unread(UnknownProperty)
              && ReadProperty(d, key, LOCAL_TIME, None) == Unread(UnknownProperty)
            case Some(r) =>
              && ReadProperty(d, key, LOCAL_DATE, None) == Read([Date(r.date)])
              && ReadProperty(d, key, LOCAL_TIME, None) == Read([Time(r.time)])
  {
    hide Reach;
    hide BuiltDevice;
    hide DeviceObject;
    hide BuiltObject;
    hide AsBuilt;
    hide Inherits;
    hide KindOf;
    hide Trimmed;
    hide ValuesFit;
    hide PriorityFits;
    hide Specified;
    BuiltDeviceHolds(spec);
    RunShowsTime(BuiltDevice(spec).value, events);
    DeviceAfter(spec, events);
    TimeReads(Reach(BuiltDevice(spec).value, events).state.device, ObjectKey(DEVICE_TYPE, spec.id), LastSync(events),
              DeviceObject(spec));
  }

  lemma TimeReads(d: DeviceState, key: ObjectKey, sync: Option<Request>, o: ObjectState)
    requires key in d.objects && (sync.Some? ==> sync.value.TimeSync?) && ShowsTime(d.objects[key], sync)
    requires Inherits(o, d.objects[key]) && o.key.kind == DEVICE_TYPE
    ensures match sync
            case None =>
              && ReadProperty(d, key, LOCAL_DATE, None) == Unread(UnknownProperty)
              && ReadProperty(d, key, LOCAL_TIME, None) == Unread(UnknownProperty)
            case Some(r) =>
              && ReadProperty(d, key, LOCAL_DATE, None) == Read([Date(r.date)])
              && ReadProperty(d, key, LOCAL_TIME, None) == Read([Time(r.time)])
  {
  }

  /** What a built object starts with: the configured value commands the configured slot, 16 when
      none is, and no other; without a configured value the default shows. */
  lemma StartsAsConfigured(spec: DeviceSpec, i: nat)
    requires ObjectsFit(spec.objects) && BuiltDevice(spec).Some? && i < |spec.objects|
    ensures var d, o := BuiltDevice(spec).value, spec.objects[i];
            && Configured(o).Some?
            && ReadProperty(d, KeyOf(o), OUT_OF_SERVICE, None) == Read([Boolean(o.outOfService)])
            && (!o.commandable ==> ReadProperty(d, KeyOf(o), PRESENT_VALUE, None) == Read([Configured(o).value]))
            && (o.commandable ==>
                  var slot := if o.initialPriority == 0 then 16 else o.initialPriority;
                  && Default(o).Some?
                  && ReadProperty(d, KeyOf(o), PRESENT_VALUE, None)
                       == Read([if o.presentValue.Absent? then Default(o).value else Configured(o).value])
                  && forall k :: 1 <= k <= 16 ==>
                       ReadProperty(d, KeyOf(o), PRIORITY_ARRAY, Some(k))
                         == Read([if k == slot && !o.presentValue.Absent? then Configured(o).value else Null]))
  {
    hide BuiltDevice;
    hide BuiltObject;
    hide KindOf;
    hide Normalized;
    hide Trimmed;
    hide ValuesFit;
    hide PresentProperty;
    hide Specified;
    hide DeviceObject;
    hide Default;
    hide Configured;
    var o := spec.objects[i];
    BuiltDeviceHolds(spec);
    assert ObjectFits(o);
    BuiltObjectHolds(o);
    NoDeviceAmongThem(o);
    FreshReads(BuiltDevice(spec).value, KeyOf(o), o, Configured(o).value, if o.commandable then Default(o) else None);
  }

  lemma FreshReads(d: DeviceState, key: ObjectKey, o: ObjectSpec, present: Value, fallback: Option<Value>)
    requires PriorityFits(o) && key in d.objects && d.objects[key].key == key && key.kind != DEVICE_TYPE
    requires AsBuilt(d.objects[key]) && PRESENT_VALUE in d.objects[key].properties
    requires d.objects[key].properties[PRESENT_VALUE] == PresentProperty(key.kind, o, present, fallback)
    requires fallback.Some? <==> o.commandable
    ensures ReadProperty(d, key, OUT_OF_SERVICE, None) == Read([Boolean(d.objects[key].outOfService)])
    ensures !o.commandable ==> ReadProperty(d, key, PRESENT_VALUE, None) == Read([present])
    ensures o.commandable ==>
              var slot := if o.initialPriority == 0 then 16 else o.initialPriority;
              && ReadProperty(d, key, PRESENT_VALUE, None)
                   == Read([if o.presentValue.Absent? then fallback.value else present])
              && forall k :: 1 <= k <= 16 ==>
                   ReadProperty(d, key, PRIORITY_ARRAY, Some(k))
                     == Read([if k == slot && !o.presentValue.Absent? then present else Null])
  {
    hide InitialSlots;
    hide FirstCommand;
    hide Resolved;
    hide PriorityArray;
    if o.commandable {
      var slots, at := InitialSlots(o, present), (if o.initialPriority == 0 then 16 else o.initialPriority) - 1;
      SlotsAsConfigured(o, present, at);
      OneCommand(slots, present, at);
      ArrayReads(d, key);
    }
  }

  lemma SlotsAsConfigured(o: ObjectSpec, present: Value, at: nat)
    requires PriorityFits(o) && o.commandable && at == (if o.initialPriority == 0 then 16 else o.initialPriority) - 1
    ensures var slots := InitialSlots(o, present);
            && |slots| == 16 && (forall k :: 0 <= k < 16 && k != at ==> slots[k].None?)
            && slots[at] == if o.presentValue.Absent? then None else Some(present)
  {
  }

  /** The readable Priority_Array, slot by slot. */
  lemma ArrayReads(d: DeviceState, key: ObjectKey)
    requires key in d.objects && PRIORITY_ARRAY !in d.objects[key].properties && ValidObject(d.objects[key])
    requires PRESENT_VALUE in d.objects[key].properties
    requires d.objects[key].properties[PRESENT_VALUE].shape.fallback.Some?
    ensures var slots := d.objects[key].properties[PRESENT_VALUE].slots;
            forall k :: 1 <= k <= 16 ==>
              ReadProperty(d, key, PRIORITY_ARRAY, Some(k))
                == Read([if slots[k - 1].Some? then slots[k - 1].value else Null])
  {
    hide FirstCommand;
  }

  lemma {:induction false} OneCommand(slots: seq<Option<Value>>, v: Value, at: nat)
    requires at < |slots| && forall k :: 0 <= k < |slots| && k != at ==> slots[k].None?
    requires slots[at].Some? ==> slots[at].value == v
    ensures FirstCommand(slots) == slots[at]
    decreases |slots|
  {
    if at > 0 {
      assert slots[1..][at - 1] == slots[at];
      OneCommand(slots[1..], v, at - 1);
    } else if slots[0].None? {
      NoCommand(slots);
    }
  }

  lemma {:induction false} NoCommand(slots: seq<Option<Value>>)
    requires forall k :: 0 <= k < |slots| ==> slots[k].None?
    ensures FirstCommand(slots).None?
  {
    if slots != [] {
      NoCommand(slots[1..]);
    }
  }
}
