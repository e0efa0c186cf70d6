/** What holds of every device built from a validated scenario, whatever requests it serves. */
module ScenarioRuns {
  import opened Octets
  import opened Model
  import opened WriteBatch
  import opened Cov
  import opened CovRuns
  import opened PriorityLog
  import opened Scenario

  // ---- The built device --------------------------------------------------

  /** The loop of buildDevice over the objects. */
  function BuiltObjects(specs: seq<ObjectSpec>): (m: Option<map<ObjectKey, ObjectState>>)
    requires ObjectsFit(specs)
    decreases |specs|
  {
    if specs == [] then Some(map[])
    else match BuiltObjects(specs[..|specs| - 1])
      case None => None
      case Some(m) =>
        match BuiltObject(specs[|specs| - 1])
        case None => None
        case Some(o) => Some(m[o.key := o])
  }

  function ObjectList(keys: seq<ObjectKey>): (vs: seq<Value>)
    ensures |vs| == |keys| && forall i :: 0 <= i < |keys| ==> vs[i] == ObjectIdentifier(keys[i])
  {
    if keys == [] then [] else ObjectList(keys[..|keys| - 1]) + [ObjectIdentifier(keys[|keys| - 1])]
  }

  function KeysOf(specs: seq<ObjectSpec>): (keys: seq<ObjectKey>)
    requires ObjectsFit(specs)
    ensures |keys| == |specs|
  {
    seq(|specs|, i requires 0 <= i < |specs| => KeyOf(specs[i]))
  }

  /** The properties of a device object beside the common ones. */
  function OwnProperties(spec: DeviceSpec): (m: map<Uint32, PropertyState>)
    ensures m.Keys == {120, 121, 70, 62, 107, 98, 139}
    ensures forall id <- m :: ValidProperty(m[id])
  {
    map[120 := ScalarProperty(Unsigned(spec.vendor), false),
        121 := ScalarProperty(CharacterString(spec.vendorName), false),
        70 := ScalarProperty(CharacterString(spec.modelName), false),
        62 := ScalarProperty(Unsigned(1476), false),
        107 := ScalarProperty(Enumerated(3), false),
        98 := ScalarProperty(Unsigned(1), false),
        139 := ScalarProperty(Unsigned(spec.revision), false)]
  }

  /** A list that is read as an array and not written. */
  function ArrayProperty(vs: seq<Value>): (p: PropertyState)
    ensures ValidProperty(p)
  {
    PropertyState(PlainShape().(isArray := true), vs, EMPTY_SLOTS)
  }

  function DeviceObject(spec: DeviceSpec): (o: ObjectState)
    requires ObjectsFit(spec.objects)
    ensures ValidObject(o) && PRESENT_VALUE !in o.properties
  {
    var key := ObjectKey(DEVICE_TYPE, spec.id);
    var list := ArrayProperty(ObjectList([key] + KeysOf(spec.objects)));
    ObjectState(key, (CommonProperties(key, spec.name, "") + OwnProperties(spec))[OBJECT_LIST := list], false)
  }

  /** buildDevice */
  function BuiltDevice(spec: DeviceSpec): (d: Option<DeviceState>)
    requires ObjectsFit(spec.objects)
  {
    match BuiltObjects(spec.objects)
    case None => None
    case Some(m) => Some(DeviceState(spec.id, m[ObjectKey(DEVICE_TYPE, spec.id) := DeviceObject(spec)]))
  }

  // ---- What is invariant -------------------------------------------------

  /** A value the property may show. */
  predicate Fitting(s: Shape, v: Value) {
    && !v.Null? && TagOf(v) == s.tag
    && (s.maximum > 0 ==> (v.Unsigned? || v.Enumerated?) && s.minimum <= v.n <= s.maximum)
  }

  predicate Sound(p: PropertyState) {
    && ValidProperty(p) && p.shape.scalar
    && if p.shape.fallback.None? then |p.values| == 1 && Fitting(p.shape, p.values[0])
       else && Fitting(p.shape, p.shape.fallback.value)
            && forall i :: 0 <= i < 16 && p.slots[i].Some? ==> Fitting(p.shape, p.slots[i].value)
  }

  /** Present_Value of the object is sound, and agrees with the object's kind and states. */
  predicate SoundObject(kind: Uint16, o: ObjectState) {
    PRESENT_VALUE in o.properties ==>
      var p := o.properties[PRESENT_VALUE];
      && kind != DEVICE_TYPE && Sound(p) && p.shape.tag == ExpectedTag(kind)
      && (IsMultiState(kind) ==>
            && p.shape.minimum == 1 && p.shape.maximum >= 1
            && NUMBER_OF_STATES in o.properties
            && o.properties[NUMBER_OF_STATES] == ScalarProperty(Unsigned(p.shape.maximum), false))
  }

  predicate SoundDevice(d: DeviceState) {
    ValidDevice(d) && forall key <- d.objects :: SoundObject(key.kind, d.objects[key])
  }

  lemma AppliedIsSound(p: PropertyState, values: seq<Value>, priority: Byte, writable: bool)
    requires Sound(p) && CheckWrite(p.shape, values, priority, writable).None?
    ensures Sound(Applied(p, values, priority))
  {
  }

  lemma WriteObjectIsSound(kind: Uint16, o: ObjectState, w: Write)
    requires ValidObject(o) && SoundObject(kind, o)
    ensures SoundObject(kind, WriteObject(o, w).object_)
  {
    hide CheckValues;
    hide CheckWrite;
    hide Synthesized;
    hide Sound;
    hide Applied;
    if w.property in o.properties {
      var p := o.properties[w.property];
      var writable := Bypassed(o, w.property) || p.shape.writable;
      if CheckWrite(p.shape, w.values, w.priority, writable).None? {
        if w.property == PRESENT_VALUE {
          AppliedIsSound(p, w.values, w.priority, writable);
        } else if w.property == NUMBER_OF_STATES {
          ReadOnlyIsRefused(p.shape, w.values, w.priority, writable);
        }
      }
    }
  }

  lemma ReadOnlyIsRefused(s: Shape, values: seq<Value>, priority: Byte, writable: bool)
    requires CheckWrite(s, values, priority, writable).None?
    ensures writable && values != []
  {
  }

  lemma WriteIsSound(d: DeviceState, w: Write)
    requires SoundDevice(d)
    ensures SoundDevice(WriteProperty(d, w).device)
  {
    hide SoundObject;
    hide WriteObject;
    if w.key in d.objects {
      WriteObjectIsSound(w.key.kind, d.objects[w.key], w);
    }
  }

  lemma {:induction false} ApplyAllIsSound(d: DeviceState, ws: seq<BatchWrite>)
    requires SoundDevice(d)
    ensures SoundDevice(ApplyAll(d, ws).device)
    decreases |ws|
  {
    hide WriteProperty;
    hide SoundObject;
    if ws != [] {
      WriteIsSound(d, ws[0].write);
      if WriteProperty(d, ws[0].write).error.None? {
        ApplyAllIsSound(WriteProperty(d, ws[0].write).device, ws[1..]);
      }
    }
  }

  lemma ClockIsSound(d: DeviceState, date: Day, time: Clock)
    requires SoundDevice(d)
    ensures SoundDevice(SetLocalTime(d, date, time))
  {
    hide Sound;
  }

  lemma HandledIsSound(s: AppState, r: Request, now: Instant)
    requires SoundDevice(s.device)
    ensures SoundDevice(Handled(s, r, now).device)
  {
    hide SoundDevice;
    hide WriteProperty;
    hide ApplyAll;
    hide FirstRefused;
    hide Notified;
    hide NotifiedAll;
    hide SetLocalTime;
    assert ValidDevice(s.device) by { SoundIsValid(s.device); }
    if r.WriteOne? {
      WriteIsSound(s.device, r.write);
    } else if r.WriteMany? {
      ApplyAllIsSound(s.device, Flattened(r.specs));
    } else if r.TimeSync? {
      ClockIsSound(s.device, r.date, r.time);
    }
  }

  lemma SoundIsValid(d: DeviceState)
    requires SoundDevice(d)
    ensures ValidDevice(d)
  {
  }

  lemma {:induction false} RunIsSound(d: DeviceState, events: seq<Event>)
    requires SoundDevice(d)
    ensures SoundDevice(Reach(d, events).state.device)
    decreases |events|
  {
    hide Handled;
    hide Unreported;
    hide SoundObject;
    if events != [] {
      var n := |events| - 1;
      RunIsSound(d, events[..n]);
      HandledIsSound(Reach(d, events[..n]).state, events[n].request, events[n].now);
    }
  }

  // ---- From the scenario -------------------------------------------------

  lemma BuiltObjectIsSound(spec: ObjectSpec)
    requires ObjectFits(spec) && BuiltObject(spec).Some?
    ensures SoundObject(KeyOf(spec).kind, BuiltObject(spec).value)
  {
  }

  lemma {:induction false} BuiltObjectsAreSound(specs: seq<ObjectSpec>)
    requires ObjectsFit(specs) && BuiltObjects(specs).Some?
    ensures var m := BuiltObjects(specs).value;
            forall key <- m :: SoundObject(key.kind, m[key]) && ValidObject(m[key])
    decreases |specs|
  {
    hide SoundObject;
    hide BuiltObject;
    if specs != [] {
      BuiltObjectsAreSound(specs[..|specs| - 1]);
      BuiltObjectIsSound(specs[|specs| - 1]);
    }
  }

  /** Present_Value of a device built from a validated scenario reads, after every run of
      requests, as exactly one non-NULL value of the tag its kind of object calls for, and
      lies in 1..Number_Of_States when the object is multi-state. */
  lemma PresentValueStaysFit(spec: DeviceSpec, events: seq<Event>, key: ObjectKey)
    requires ObjectsFit(spec.objects) && BuiltDevice(spec).Some?
    ensures ValidDevice(BuiltDevice(spec).value)
    ensures var d := Reach(BuiltDevice(spec).value, events).state.device;
            HasPresentValue(d, key) ==>
              var r := ReadProperty(d, key, PRESENT_VALUE, None);
              && r.Read? && |r.values| == 1 && !r.values[0].Null? && TagOf(r.values[0]) == ExpectedTag(key.kind)
              && (IsMultiState(key.kind) ==>
                    var states := ReadProperty(d, key, NUMBER_OF_STATES, None);
                    && states.Read? && |states.values| == 1 && states.values[0].Unsigned?
                    && r.values[0].Unsigned? && 1 <= r.values[0].n <= states.values[0].n)
  {
    hide Reach;
    hide SoundObject;
    hide SoundDevice;
    hide ReadProperty;
    BuiltIsSound(spec);
    hide BuiltDevice;
    var built := BuiltDevice(spec).value;
    SoundIsValid(built);
    RunIsSound(built, events);
    var d := Reach(built, events).state.device;
    if HasPresentValue(d, key) {
      SoundHere(d, key);
      SoundReads(d, key);
    }
  }

  lemma SoundHere(d: DeviceState, key: ObjectKey)
    requires SoundDevice(d) && key in d.objects
    ensures SoundObject(key.kind, d.objects[key])
  {
    hide SoundObject;
  }

  lemma BuiltIsSound(spec: DeviceSpec)
    requires ObjectsFit(spec.objects) && BuiltDevice(spec).Some?
    ensures SoundDevice(BuiltDevice(spec).value)
  {
    hide SoundObject;
    hide BuiltObjects;
    hide DeviceObject;
    BuiltObjectsAreSound(spec.objects);
    DeviceObjectIsSound(spec);
  }

  lemma DeviceObjectIsSound(spec: DeviceSpec)
    requires ObjectsFit(spec.objects)
    ensures SoundObject(DEVICE_TYPE, DeviceObject(spec))
  {
    hide ObjectList;
  }

  lemma SoundReads(d: DeviceState, key: ObjectKey)
    requires key in d.objects && PRESENT_VALUE in d.objects[key].properties && SoundObject(key.kind, d.objects[key])
    ensures var r := ReadProperty(d, key, PRESENT_VALUE, None);
            && r.Read? && |r.values| == 1 && !r.values[0].Null? && TagOf(r.values[0]) == ExpectedTag(key.kind)
            && (IsMultiState(key.kind) ==>
                  var states := ReadProperty(d, key, NUMBER_OF_STATES, None);
                  && states.Read? && |states.values| == 1 && states.values[0].Unsigned?
                  && r.values[0].Unsigned? && 1 <= r.values[0].n <= states.values[0].n)
  {
    var p := d.objects[key].properties[PRESENT_VALUE];
    if p.shape.fallback.Some? {
      FirstCommandIsFitting(p.shape, p.slots);
    }
  }

  lemma {:induction false} FirstCommandIsFitting(s: Shape, slots: seq<Option<Value>>)
    requires forall i :: 0 <= i < |slots| && slots[i].Some? ==> Fitting(s, slots[i].value)
    ensures FirstCommand(slots).Some? ==> Fitting(s, FirstCommand(slots).value)
  {
    if slots != [] {
      FirstCommandIsFitting(s, slots[1..]);
    }
  }

  // ---- Command prioritization of a built device --------------------------

  predicate StartsClean(o: ObjectState) {
    && PRIORITY_ARRAY !in o.properties && RELINQUISH_DEFAULT !in o.properties
    && (PRESENT_VALUE in o.properties && ValidProperty(o.properties[PRESENT_VALUE]) ==>
          && NoNullCommand(o.properties[PRESENT_VALUE].slots)
          && o.properties[PRESENT_VALUE].slots[5].None?)
  }

  lemma BuiltObjectStartsClean(spec: ObjectSpec)
    requires ObjectFits(spec) && BuiltObject(spec).Some?
    ensures StartsClean(BuiltObject(spec).value)
  {
    hide KindOf;
    hide Trimmed;
    hide IsSpace;
  }

  lemma {:induction false} BuiltObjectsStartClean(specs: seq<ObjectSpec>)
    requires ObjectsFit(specs) && BuiltObjects(specs).Some?
    ensures var m := BuiltObjects(specs).value; forall key <- m :: StartsClean(m[key])
    decreases |specs|
  {
    hide StartsClean;
    hide BuiltObject;
    if specs != [] {
      BuiltObjectsStartClean(specs[..|specs| - 1]);
      BuiltObjectStartsClean(specs[|specs| - 1]);
    }
  }

  /** The object is commandable and follows command prioritization. */
  predicate Obeys(d: DeviceState, key: ObjectKey) {
    && ValidDevice(d) && Commandable(d, key, PRESENT_VALUE)
    && StartsClean(d.objects[key])
  }

  lemma WriteObeys(d: DeviceState, w: Write, key: ObjectKey)
    requires Obeys(d, key)
    ensures Obeys(WriteProperty(d, w).device, key)
  {
    hide WriteProperty;
    hide ValidateWrite;
    WriteKeepsShape(d, w);
    CommandsStayNonNull(d, w, key, PRESENT_VALUE);
    if w.key == key && w.property == PRESENT_VALUE {
      CommandSetsSlot(d, w);
      if ValidateWrite(d, w).None? {
        AcceptedPriority(d, w);
      }
    } else {
      WriteTouchesOneProperty(d, w, key, PRESENT_VALUE);
    }
  }

  lemma {:induction false} ApplyAllObeys(d: DeviceState, ws: seq<BatchWrite>, key: ObjectKey)
    requires Obeys(d, key)
    ensures Obeys(ApplyAll(d, ws).device, key)
    decreases |ws|
  {
    hide WriteProperty;
    hide StartsClean;
    if ws != [] {
      WriteObeys(d, ws[0].write, key);
      if WriteProperty(d, ws[0].write).error.None? {
        ApplyAllObeys(WriteProperty(d, ws[0].write).device, ws[1..], key);
      }
    }
  }

  lemma HandledObeys(s: AppState, r: Request, now: Instant, key: ObjectKey)
    requires Obeys(s.device, key)
    ensures Obeys(Handled(s, r, now).device, key)
  {
    hide WriteProperty;
    hide ApplyAll;
    hide FirstRefused;
    hide Notified;
    hide NotifiedAll;
    if r.WriteOne? {
      WriteObeys(s.device, r.write, key);
    } else if r.WriteMany? {
      ApplyAllObeys(s.device, Flattened(r.specs), key);
    }
  }

  lemma {:induction false} RunObeys(d: DeviceState, events: seq<Event>, key: ObjectKey)
    requires Obeys(d, key)
    ensures Obeys(Reach(d, events).state.device, key)
    decreases |events|
  {
    hide Handled;
    hide Unreported;
    hide Obeys;
    assert ValidDevice(d) by { ObeysIsValid(d, key); }
    if events != [] {
      var n := |events| - 1;
      RunObeys(d, events[..n], key);
      HandledObeys(Reach(d, events[..n]).state, events[n].request, events[n].now, key);
    }
  }

  lemma ObeysIsValid(d: DeviceState, key: ObjectKey)
    requires Obeys(d, key)
    ensures ValidDevice(d)
  {
  }

  /** What a client reads of a commandable object. */
  lemma ObeysReads(d: DeviceState, key: ObjectKey)
    requires Obeys(d, key)
    ensures var array_ := ReadProperty(d, key, PRIORITY_ARRAY, None);
            var fallback := ReadProperty(d, key, RELINQUISH_DEFAULT, None);
            && array_.Read? && |array_.values| == 16 && array_.values[5].Null?
            && fallback.Read? && |fallback.values| == 1
            && ReadProperty(d, key, PRESENT_VALUE, None) == Read([FirstNonNull(array_.values, fallback.values[0])])
  {
    var p := d.objects[key].properties[PRESENT_VALUE];
    ArrayShowsFirstCommand(p.slots, p.shape.fallback.value);
  }

  /** On a built device, after every run of requests (single writes, batches whole or cut short,
      time synchronization): slot 6 is empty, and Present_Value of a commandable object is the
      first non-NULL element of its Priority_Array, or its Relinquish_Default. */
  lemma BuiltDeviceObeysPriorities(spec: DeviceSpec, events: seq<Event>, key: ObjectKey)
    requires ObjectsFit(spec.objects) && BuiltDevice(spec).Some?
    ensures ValidDevice(BuiltDevice(spec).value)
    ensures Commandable(BuiltDevice(spec).value, key, PRESENT_VALUE) ==>
              var d := Reach(BuiltDevice(spec).value, events).state.device;
              var array_ := ReadProperty(d, key, PRIORITY_ARRAY, None);
              var fallback := ReadProperty(d, key, RELINQUISH_DEFAULT, None);
              && array_.Read? && |array_.values| == 16 && array_.values[5].Null?
              && fallback.Read? && |fallback.values| == 1
              && ReadProperty(d, key, PRESENT_VALUE, None) == Read([FirstNonNull(array_.values, fallback.values[0])])
  {
    hide Reach;
    hide SoundObject;
    hide BuiltObjects;
    hide FirstNonNull;
    BuiltObjectsAreSound(spec.objects);
    BuiltObjectsStartClean(spec.objects);
    var d := BuiltDevice(spec).value;
    if Commandable(d, key, PRESENT_VALUE) {
      RunObeys(d, events, key);
      ObeysReads(Reach(d, events).state.device, key);
    }
  }
}
