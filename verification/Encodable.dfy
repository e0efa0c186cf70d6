/** Everything a device holds can be put on the wire, in every state it reaches. */
module Encodable {
  import opened Octets
  import opened Model
  import opened WriteBatch
  import opened Cov
  import opened Scenario
  import opened ScenarioRuns
  import DeviceValues

  predicate AllEncode(vs: seq<Value>) {
    forall i :: 0 <= i < |vs| ==> DeviceValues.Encodes(vs[i])
  }

  predicate PropertyEncodes(p: PropertyState) {
    && AllEncode(p.values)
    && (p.shape.fallback.Some? ==> DeviceValues.Encodes(p.shape.fallback.value))
    && (forall i :: 0 <= i < |p.slots| && p.slots[i].Some? ==> DeviceValues.Encodes(p.slots[i].value))
  }

  predicate ObjectEncodes(o: ObjectState) {
    forall id <- o.properties :: PropertyEncodes(o.properties[id])
  }

  predicate DeviceEncodes(d: DeviceState) {
    && ValidDevice(d) && d.id <= MAX_INSTANCE
    && forall key <- d.objects ::
         key.kind <= MAX_OBJECT_TYPE && key.instance <= MAX_INSTANCE && ObjectEncodes(d.objects[key])
  }

  predicate WritesEncode(ws: seq<BatchWrite>) {
    forall i :: 0 <= i < |ws| ==> AllEncode(ws[i].write.values)
  }

  // ---- Every request keeps it --------------------------------------------

  lemma AppliedEncodes(p: PropertyState, values: seq<Value>, priority: Byte)
    requires PropertyEncodes(p) && AllEncode(values) && ValidProperty(p) && values != []
    requires p.shape.fallback.Some? ==> 1 <= Resolved(p.shape, priority) <= 16
    ensures PropertyEncodes(Applied(p, values, priority))
  {
  }

  lemma WriteObjectEncodes(o: ObjectState, w: Write)
    requires ValidObject(o) && ObjectEncodes(o) && AllEncode(w.values)
    ensures ObjectEncodes(WriteObject(o, w).object_)
  {
    hide CheckValues;
    hide CheckWrite;
    hide Synthesized;
    hide PropertyEncodes;
    hide Applied;
    if w.property in o.properties {
      var p := o.properties[w.property];
      var writable := Bypassed(o, w.property) || p.shape.writable;
      if CheckWrite(p.shape, w.values, w.priority, writable).None? {
        ReadOnlyIsRefused(p.shape, w.values, w.priority, writable);
        AppliedEncodes(p, w.values, w.priority);
      }
    }
  }

  lemma WriteEncodes(d: DeviceState, w: Write)
    requires DeviceEncodes(d) && AllEncode(w.values)
    ensures DeviceEncodes(WriteProperty(d, w).device)
  {
    hide WriteObject;
    hide ObjectEncodes;
    if w.key in d.objects {
      WriteObjectEncodes(d.objects[w.key], w);
    }
  }

  lemma {:induction false} ApplyAllEncodes(d: DeviceState, ws: seq<BatchWrite>)
    requires DeviceEncodes(d) && WritesEncode(ws)
    ensures DeviceEncodes(ApplyAll(d, ws).device)
    decreases |ws|
  {
    hide WriteProperty;
    hide ObjectEncodes;
    hide AllEncode;
    if ws != [] {
      WriteEncodes(d, ws[0].write);
      if WriteProperty(d, ws[0].write).error.None? {
        ApplyAllEncodes(WriteProperty(d, ws[0].write).device, ws[1..]);
      }
    }
  }

  /** The values of a request can be put on the wire. */
  predicate RequestEncodes(r: Request) {
    match r
    case WriteOne(w) => AllEncode(w.values)
    case WriteMany(specs) => WritesEncode(Flattened(specs))
    case _ => true
  }

  lemma ClockEncodes(d: DeviceState, date: Day, time: Clock)
    requires DeviceEncodes(d)
    ensures DeviceEncodes(SetLocalTime(d, date, time))
  {
  }

  lemma HandledEncodes(s: AppState, r: Request, now: Instant)
    requires DeviceEncodes(s.device) && RequestEncodes(r)
    ensures DeviceEncodes(Handled(s, r, now).device)
  {
    hide WriteProperty;
    hide ApplyAll;
    hide FirstRefused;
    hide Notified;
    hide NotifiedAll;
    hide SetLocalTime;
    hide ObjectEncodes;
    hide AllEncode;
    if r.WriteOne? {
      WriteEncodes(s.device, r.write);
    } else if r.WriteMany? {
      ApplyAllEncodes(s.device, Flattened(r.specs));
    } else if r.TimeSync? {
      ClockEncodes(s.device, r.date, r.time);
    }
  }

  // ---- A built device starts with it -------------------------------------

  lemma ScalarEncodes()
    ensures forall v, writable :: DeviceValues.Encodes(v) ==> PropertyEncodes(ScalarProperty(v, writable))
  {
  }

  lemma CommonEncode(key: ObjectKey, name: string, description: string)
    requires key.instance <= MAX_INSTANCE
    ensures forall id <- CommonProperties(key, name, description) ::
              PropertyEncodes(CommonProperties(key, name, description)[id])
  {
    hide ScalarProperty;
    hide PropertyEncodes;
    ScalarEncodes();
  }

  lemma PresentEncodes(kind: Uint16, spec: ObjectSpec, present: Value, fallback: Option<Value>)
    requires PriorityFits(spec) && DeviceValues.Encodes(present)
    requires fallback.Some? ==> DeviceValues.Encodes(fallback.value)
    ensures PropertyEncodes(PresentProperty(kind, spec, present, fallback))
  {
  }

  lemma NormalizedEncodes(kind: Uint16, v: Given)
    ensures Normalized(kind, v).Some? ==> DeviceValues.Encodes(Normalized(kind, v).value)
  {
    hide Normalized;
  }

  lemma BuiltObjectEncodes(spec: ObjectSpec)
    requires ObjectFits(spec) && BuiltObject(spec).Some?
    ensures ObjectEncodes(BuiltObject(spec).value)
    ensures KeyOf(spec).instance <= MAX_INSTANCE && KeyOf(spec).kind <= MAX_OBJECT_TYPE
  {
    hide KindOf;
    hide Normalized;
    hide CommonProperties;
    hide PresentProperty;
    hide ScalarProperty;
    hide PropertyEncodes;
    hide ValuesFit;
    hide Trimmed;
    var kind := KindOf(spec.typeName).value;
    NormalizedEncodes(kind, spec.presentValue);
    NormalizedEncodes(kind, spec.relinquishDefault);
    var present := Normalized(kind, spec.presentValue).value;
    PresentEncodes(kind, spec, present, if spec.commandable then Fallback(kind, spec, present) else None);
    CommonEncode(KeyOf(spec), spec.name, spec.description);
    ScalarEncodes();
  }

  lemma {:induction false} BuiltObjectsEncode(specs: seq<ObjectSpec>)
    requires ObjectsFit(specs) && BuiltObjects(specs).Some?
    ensures var m := BuiltObjects(specs).value;
            forall key <- m :: key.kind <= MAX_OBJECT_TYPE && key.instance <= MAX_INSTANCE && ObjectEncodes(m[key])
    decreases |specs|
  {
    hide ObjectEncodes;
    hide BuiltObject;
    if specs != [] {
      BuiltObjectsEncode(specs[..|specs| - 1]);
      BuiltObjectEncodes(specs[|specs| - 1]);
    }
  }

  lemma DeviceObjectEncodes(spec: DeviceSpec)
    requires ObjectsFit(spec.objects) && spec.id <= MAX_INSTANCE
    ensures ObjectEncodes(DeviceObject(spec)) && ValidObject(DeviceObject(spec))
  {
    hide KindOf;
    hide ObjectList;
    hide ScalarProperty;
    hide CommonProperties;
    hide ObjectsFit;
    hide KeysOf;
    hide DeviceValues.Encodes;
    var key := ObjectKey(DEVICE_TYPE, spec.id);
    ListEncodes([key] + KeysOf(spec.objects), spec);
    CommonEncode(key, spec.name, "");
    ScalarEncodes();
    NumbersEncode();
  }

  lemma NumbersEncode()
    ensures forall v: Value :: !v.ObjectIdentifier? ==> DeviceValues.Encodes(v)
  {
  }

  lemma ListEncodes(keys: seq<ObjectKey>, spec: DeviceSpec)
    requires ObjectsFit(spec.objects) && spec.id <= MAX_INSTANCE
    requires keys == [ObjectKey(DEVICE_TYPE, spec.id)] + KeysOf(spec.objects)
    ensures AllEncode(ObjectList(keys))
  {
    hide KindOf;
    hide ValuesFit;
    assert forall i :: 0 <= i < |spec.objects| ==> KeysOf(spec.objects)[i].instance <= MAX_INSTANCE;
  }

  lemma BuiltDeviceEncodes(spec: DeviceSpec)
    requires ObjectsFit(spec.objects) && spec.id <= MAX_INSTANCE && BuiltDevice(spec).Some?
    ensures DeviceEncodes(BuiltDevice(spec).value) && SoundDevice(BuiltDevice(spec).value)
  {
    hide ObjectEncodes;
    hide SoundObject;
    hide BuiltObjects;
    hide DeviceObject;
    BuiltObjectsEncode(spec.objects);
    BuiltObjectsAreSound(spec.objects);
    DeviceObjectEncodes(spec);
    DeviceObjectIsSound(spec);
  }

  // ---- What is read encodes ----------------------------------------------

  lemma EffectiveEncodes(p: PropertyState)
    requires PropertyEncodes(p)
    ensures AllEncode(Effective(p))
  {
    FirstCommandEncodes(p.slots);
  }

  lemma {:induction false} FirstCommandEncodes(slots: seq<Option<Value>>)
    requires forall i :: 0 <= i < |slots| && slots[i].Some? ==> DeviceValues.Encodes(slots[i].value)
    ensures FirstCommand(slots).Some? ==> DeviceValues.Encodes(FirstCommand(slots).value)
  {
    if slots != [] {
      FirstCommandEncodes(slots[1..]);
    }
  }

  lemma ReadStateEncodes(p: PropertyState, index: Option<Uint32>)
    requires PropertyEncodes(p) && ReadState(p, index).Read?
    ensures AllEncode(ReadState(p, index).values)
  {
    hide Effective;
    EffectiveEncodes(p);
  }

  lemma SynthesizedEncodes(o: ObjectState, id: Uint32)
    requires ObjectEncodes(o) && Synthesized(o, id).Some?
    ensures PropertyEncodes(Synthesized(o, id).value)
  {
    if PRESENT_VALUE in o.properties {
      assert PropertyEncodes(o.properties[PRESENT_VALUE]);
    }
  }

  lemma ReadEncodes(d: DeviceState, key: ObjectKey, id: Uint32, index: Option<Uint32>)
    requires DeviceEncodes(d) && ReadProperty(d, key, id, index).Read?
    ensures AllEncode(ReadProperty(d, key, id, index).values)
  {
    hide PropertyEncodes;
    hide Synthesized;
    hide ReadState;
    var o := d.objects[key];
    if id in o.properties {
      ReadStateEncodes(o.properties[id], index);
    } else {
      SynthesizedEncodes(o, id);
      ReadStateEncodes(Synthesized(o, id).value, index);
    }
  }
}
