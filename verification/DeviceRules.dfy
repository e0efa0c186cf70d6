/** What a built device accepts and how it reads, after every run of requests: the rules a client
    can check for itself. */
module DeviceRules {
  import opened Octets
  import opened Model
  import opened WriteBatch
  import opened Cov
  import opened CovRuns
  import opened Scenario
  import opened ScenarioRuns
  import opened Configured

  // ---- Which writes are accepted -----------------------------------------

  /** The value is of the type that Present_Value of this kind of object has, or NULL where there
      are commands to relinquish. */
  predicate RightType(kind: Uint16, commandable: bool, v: Value) {
    if v.Null? then commandable
    else if IsAnalog(kind) then v.Real?
    else if IsBinary(kind) then v.Enumerated?
    else v.Unsigned?
  }

  /** And it is one of the states of a multi-state object. */
  predicate Suits(kind: Uint16, commandable: bool, states: Uint32, v: Value) {
    RightType(kind, commandable, v) && (IsMultiState(kind) && v.Unsigned? ==> 1 <= v.n <= states)
  }

  /** Commands go to slots 1 to 16 but not 6, and to 16 without a priority; nothing else has one. */
  predicate PriorityTaken(commandable: bool, priority: Byte) {
    if commandable then priority <= 16 && priority != 6 else priority == 0
  }

  /** When a write of Present_Value is accepted, and the error when it is not. */
  predicate Judged(kind: Uint16, commandable: bool, states: Uint32, open: bool, values: seq<Value>, priority: Byte,
                   e: Option<Error>)
  {
    var one := |values| == 1;
    && (e.None? <==>
          open && one && Suits(kind, commandable, states, values[0]) && PriorityTaken(commandable, priority))
    && (!open ==> e == Some(WriteDenied))
    && (open && values == [] ==> e == Some(ValueRequired))
    && (open && values != [] && !(one && RightType(kind, commandable, values[0])) ==> e == Some(InvalidDataType))
    && (open && one && RightType(kind, commandable, values[0]) && !Suits(kind, commandable, states, values[0]) ==>
          e == Some(ValueOutOfRange))
    && (open && one && Suits(kind, commandable, states, values[0]) && !PriorityTaken(commandable, priority) ==>
          e == Some(if commandable && priority == 6 then ReservedPriority else InvalidPriority))
  }

  lemma TagsTellTypes(v: Value)
    ensures (TagOf(v) == 4 <==> v.Real?) && (TagOf(v) == 9 <==> v.Enumerated?) && (TagOf(v) == 2 <==> v.Unsigned?)
    ensures TagOf(v) == 0 <==> v.Null?
  {
  }

  lemma ShapeJudges(kind: Uint16, s: Shape, values: seq<Value>, priority: Byte, open: bool)
    requires IsAnalog(kind) || IsBinary(kind) || IsMultiState(kind)
    requires s.scalar && s.tag == ExpectedTag(kind)
    requires if IsMultiState(kind) then s.minimum == 1 && s.maximum > 0 else s.maximum == 0
    ensures Judged(kind, s.fallback.Some?, s.maximum, open, values, priority, CheckWrite(s, values, priority, open))
  {
    hide TagOf;
    if values != [] {
      TagsTellTypes(values[0]);
    }
  }

  lemma PresentShape(spec: ObjectSpec)
    requires ObjectFits(spec) && BuiltObject(spec).Some?
    ensures PRESENT_VALUE in BuiltObject(spec).value.properties
    ensures var s, kind := BuiltObject(spec).value.properties[PRESENT_VALUE].shape, KeyOf(spec).kind;
            && s.scalar && s.tag == ExpectedTag(kind) && s.increment == spec.increment
            && (s.fallback.Some? <==> spec.commandable) && (s.writable <==> spec.writable || spec.commandable)
            && (IsMultiState(kind) ==> s.minimum == 1 && s.maximum == spec.numberOfStates && spec.numberOfStates > 0)
            && (!IsMultiState(kind) ==> s.maximum == 0)
            && (IsAnalog(kind) || IsBinary(kind) || IsMultiState(kind))
  {
    hide BuiltObject;
    hide Normalized;
    hide InitialSlots;
    hide Trimmed;
    BuiltObjectHolds(spec);
    hide KindOf;
  }

  /** Out_Of_Service of an object that is not the device. */
  lemma ServiceReads(o: ObjectState, d: DeviceState, key: ObjectKey)
    requires key in d.objects && AsBuilt(o) && Inherits(o, d.objects[key]) && o.key.kind != DEVICE_TYPE
    ensures OUT_OF_SERVICE !in d.objects[key].properties
    ensures ReadProperty(d, key, OUT_OF_SERVICE, None) == Read([Boolean(d.objects[key].outOfService)])
  {
  }

  lemma PresentErrors(o: ObjectState, d: DeviceState, w: Write)
    requires ValidDevice(d) && w.key in d.objects && Inherits(o, d.objects[w.key])
    requires w.property == PRESENT_VALUE && PRESENT_VALUE in o.properties
    ensures var s := o.properties[PRESENT_VALUE].shape;
            var open := s.writable || (s.fallback.None? && d.objects[w.key].outOfService);
            WriteProperty(d, w).error == CheckWrite(s, w.values, w.priority, open)
  {
    hide CheckWrite;
    hide Applied;
  }

  /** Exactly which writes of Present_Value a built device accepts after any run, and with which
      error it refuses the others. The object has to be configured writable or commandable, or read
      as out of service. */
  lemma PresentValueAccepts(spec: DeviceSpec, i: nat, events: seq<Event>, values: seq<Value>, priority: Byte)
    requires ObjectsFit(spec.objects) && BuiltDevice(spec).Some? && i < |spec.objects|
    ensures ValidDevice(BuiltDevice(spec).value)
    ensures var d, o := Reach(BuiltDevice(spec).value, events).state.device, spec.objects[i];
            var key := KeyOf(o);
            var open := o.writable || o.commandable
                        || ReadProperty(d, key, OUT_OF_SERVICE, None) == Read([Boolean(true)]);
            && Judged(key.kind, o.commandable, o.numberOfStates, open, values, priority,
                      WriteProperty(d, Write(key, PRESENT_VALUE, values, priority)).error)
            && (IsMultiState(key.kind) ==>
                  ReadProperty(d, key, NUMBER_OF_STATES, None) == Read([Unsigned(o.numberOfStates)]))
  {
    hide Reach;
    hide BuiltDevice;
    hide BuiltObject;
    hide KindOf;
    hide Judged;
    hide WriteProperty;
    hide ReadProperty;
    hide AsBuilt;
    hide Inherits;
    hide ValuesFit;
    hide Trimmed;
    hide CheckWrite;
    ObjectAfter(spec, i, events);
    var d, o := Reach(BuiltDevice(spec).value, events).state.device, spec.objects[i];
    PresentShape(o);
    var b := BuiltObject(o).value;
    var s := b.properties[PRESENT_VALUE].shape;
    ServiceReads(b, d, KeyOf(o));
    PresentErrors(b, d, Write(KeyOf(o), PRESENT_VALUE, values, priority));
    var open := s.writable || (s.fallback.None? && d.objects[KeyOf(o)].outOfService);
    ShapeJudges(KeyOf(o).kind, s, values, priority, open);
    StatesDoNotMatter(KeyOf(o).kind, o.commandable, s.maximum, o.numberOfStates, open, values, priority,
                      CheckWrite(s, values, priority, open));
    ConfiguredStays(spec, i, events);
  }

  lemma StatesDoNotMatter(kind: Uint16, commandable: bool, m: Uint32, n: Uint32, open: bool, values: seq<Value>,
                          priority: Byte, e: Option<Error>)
    requires IsMultiState(kind) ==> m == n
    requires Judged(kind, commandable, m, open, values, priority, e)
    ensures Judged(kind, commandable, n, open, values, priority, e)
  {
    hide RightType;
  }

  /** Out_Of_Service of such an object takes one Boolean without a priority, and then reads so. */
  lemma ServiceAccepts(spec: DeviceSpec, i: nat, events: seq<Event>, values: seq<Value>, priority: Byte)
    requires ObjectsFit(spec.objects) && BuiltDevice(spec).Some? && i < |spec.objects|
    ensures ValidDevice(BuiltDevice(spec).value)
    ensures var d, key := Reach(BuiltDevice(spec).value, events).state.device, KeyOf(spec.objects[i]);
            var r := WriteProperty(d, Write(key, OUT_OF_SERVICE, values, priority));
            && (r.error.None? <==> |values| == 1 && values[0].Boolean? && priority == 0)
            && (r.error.None? ==>
                  && ReadProperty(r.device, key, OUT_OF_SERVICE, None) == Read(values)
                  && ReadProperty(r.device, key, STATUS_FLAGS, None)
                       == Read([BitString([if values[0].flag then 8 else 0])]))
  {
    hide Reach;
    hide BuiltDevice;
    hide BuiltObject;
    hide KindOf;
    hide WriteProperty;
    hide ReadProperty;
    hide AsBuilt;
    hide Inherits;
    hide ValuesFit;
    hide Trimmed;
    ObjectAfter(spec, i, events);
    var d, o := Reach(BuiltDevice(spec).value, events).state.device, BuiltObject(spec.objects[i]).value;
    InheritsNone(o, d.objects[KeyOf(spec.objects[i])]);
    ServiceWrites(d, KeyOf(spec.objects[i]), values, priority);
  }

  /** Nothing that is computed is stored. */
  lemma InheritsNone(o: ObjectState, p: ObjectState)
    requires AsBuilt(o) && Inherits(o, p)
    ensures OUT_OF_SERVICE !in p.properties && STATUS_FLAGS !in p.properties && PRIORITY_ARRAY !in p.properties
    ensures RELINQUISH_DEFAULT !in p.properties && EVENT_STATE !in p.properties && RELIABILITY !in p.properties
    ensures p.key == o.key && ValidObject(p)
  {
  }

  lemma ServiceWrites(d: DeviceState, key: ObjectKey, values: seq<Value>, priority: Byte)
    requires ValidDevice(d) && key in d.objects && d.objects[key].key.kind != DEVICE_TYPE
    requires OUT_OF_SERVICE !in d.objects[key].properties && STATUS_FLAGS !in d.objects[key].properties
    ensures var r := WriteProperty(d, Write(key, OUT_OF_SERVICE, values, priority));
            && (r.error.None? <==> |values| == 1 && values[0].Boolean? && priority == 0)
            && (r.error.None? ==>
                  && ReadProperty(r.device, key, OUT_OF_SERVICE, None) == Read(values)
                  && ReadProperty(r.device, key, STATUS_FLAGS, None)
                       == Read([BitString([if values[0].flag then 8 else 0])]))
  {
    hide Applied;
  }

  /** Every other property that can be read is read-only, and one that cannot be read is unknown; so
      is every property of the device object. */
  lemma TheRestIsReadOnly(spec: DeviceSpec, events: seq<Event>, w: Write)
    requires ObjectsFit(spec.objects) && BuiltDevice(spec).Some?
    requires w.key.kind == DEVICE_TYPE || (w.property != PRESENT_VALUE && w.property != OUT_OF_SERVICE)
    ensures ValidDevice(BuiltDevice(spec).value)
    ensures var d := Reach(BuiltDevice(spec).value, events).state.device;
            var reading := ReadProperty(d, w.key, w.property, None);
            WriteProperty(d, w).error == Some(if reading.Read? then WriteDenied else reading.error)
  {
    hide Reach;
    hide BuiltDevice;
    hide BuiltObject;
    hide DeviceObject;
    hide KindOf;
    hide WriteProperty;
    hide ReadProperty;
    hide AsBuilt;
    hide Inherits;
    hide ValuesFit;
    hide Trimmed;
    hide PriorityFits;
    hide Specified;
    BuiltDeviceHolds(spec);
    RunInherits(BuiltDevice(spec).value, events);
    var b, d := BuiltDevice(spec).value, Reach(BuiltDevice(spec).value, events).state.device;
    if w.key in d.objects {
      DeviceObjectHolds(spec);
      if w.key != ObjectKey(DEVICE_TYPE, spec.id) {
        var i := SpecifiedBy(spec.objects, w.key);
        NoDeviceAmongThem(spec.objects[i]);
      }
      ReadOnlyRefuses(b.objects[w.key], d, w);
    } else {
      UnknownRefuses(d, w);
    }
  }

  lemma UnknownRefuses(d: DeviceState, w: Write)
    requires ValidDevice(d) && w.key !in d.objects
    ensures WriteProperty(d, w).error == Some(UnknownObject)
    ensures ReadProperty(d, w.key, w.property, None) == Unread(UnknownObject)
  {
  }

  lemma ReadOnlyRefuses(o: ObjectState, d: DeviceState, w: Write)
    requires ValidDevice(d) && w.key in d.objects && AsBuilt(o) && Inherits(o, d.objects[w.key])
    requires if o.key.kind == DEVICE_TYPE then PRESENT_VALUE !in o.properties
             else w.property != PRESENT_VALUE && w.property != OUT_OF_SERVICE
    ensures var reading := ReadProperty(d, w.key, w.property, None);
            WriteProperty(d, w).error == Some(if reading.Read? then WriteDenied else reading.error)
  {
    hide CheckValues;
    hide Applied;
    hide Effective;
    hide PriorityArray;
  }

  // ---- Commands read back ------------------------------------------------

  /** A command the device accepts, without a priority at slot 16, is what that element of
      Priority_Array then reads, NULL included; every other element reads as before. */
  lemma CommandReadsBack(spec: DeviceSpec, i: nat, events: seq<Event>, v: Value, priority: Byte)
    requires ObjectsFit(spec.objects) && BuiltDevice(spec).Some? && i < |spec.objects| && spec.objects[i].commandable
    ensures ValidDevice(BuiltDevice(spec).value)
    ensures var d, key := Reach(BuiltDevice(spec).value, events).state.device, KeyOf(spec.objects[i]);
            var r := WriteProperty(d, Write(key, PRESENT_VALUE, [v], priority));
            r.error.None? ==>
              forall k :: 1 <= k <= 16 ==>
                ReadProperty(r.device, key, PRIORITY_ARRAY, Some(k))
                  == if k == (if priority == 0 then 16 else priority) then Read([v])
                     else ReadProperty(d, key, PRIORITY_ARRAY, Some(k))
  {
    hide Reach;
    hide BuiltDevice;
    hide BuiltObject;
    hide KindOf;
    hide WriteProperty;
    hide ReadProperty;
    hide AsBuilt;
    hide ValuesFit;
    hide Trimmed;
    ObjectAfter(spec, i, events);
    PresentShape(spec.objects[i]);
    var d, o := Reach(BuiltDevice(spec).value, events).state.device, BuiltObject(spec.objects[i]).value;
    InheritsNone(o, d.objects[KeyOf(spec.objects[i])]);
    CommandSets(d, KeyOf(spec.objects[i]), v, priority);
  }

  lemma CommandSets(d: DeviceState, key: ObjectKey, v: Value, priority: Byte)
    requires ValidDevice(d) && key in d.objects && PRIORITY_ARRAY !in d.objects[key].properties
    requires PRESENT_VALUE in d.objects[key].properties
    requires d.objects[key].properties[PRESENT_VALUE].shape.fallback.Some?
    ensures var r := WriteProperty(d, Write(key, PRESENT_VALUE, [v], priority));
            r.error.None? ==>
              forall k :: 1 <= k <= 16 ==>
                ReadProperty(r.device, key, PRIORITY_ARRAY, Some(k))
                  == if k == (if priority == 0 then 16 else priority) then Read([v])
                     else ReadProperty(d, key, PRIORITY_ARRAY, Some(k))
  {
    hide ReadProperty;
    hide CheckValues;
    var e := WriteProperty(d, Write(key, PRESENT_VALUE, [v], priority)).device;
    ArrayReads(d, key);
    if WriteProperty(d, Write(key, PRESENT_VALUE, [v], priority)).error.None? {
      ArrayReads(e, key);
    }
  }

  // ---- Indexed reads -----------------------------------------------------

  /** How an array that reads as `vs` reads with an index. */
  predicate ReadsAsArray(d: DeviceState, key: ObjectKey, id: Uint32, vs: seq<Value>) {
    && |vs| < 0x1_0000_0000
    && ReadProperty(d, key, id, Some(0)) == Read([Unsigned(|vs|)])
    && ReadProperty(d, key, id, Some(0xFFFF_FFFF)) == Read(vs)
    && forall k :: 0 < k < 0xFFFF_FFFF ==>
         ReadProperty(d, key, id, Some(k)) == if k <= |vs| then Read([vs[k - 1]]) else Unread(InvalidArrayIndex)
  }

  lemma ArrayIsIndexed(d: DeviceState, key: ObjectKey, id: Uint32, vs: seq<Value>)
    requires ReadProperty(d, key, id, None) == Read(vs) && |vs| < 0x1_0000_0000
    requires if id in d.objects[key].properties then d.objects[key].properties[id].shape.isArray
             else Synthesized(d.objects[key], id).Some? && Synthesized(d.objects[key], id).value.shape.isArray
    ensures ReadsAsArray(d, key, id, vs)
  {
    hide Effective;
    hide Synthesized;
  }

  lemma OthersAreNotIndexed(o: ObjectState, d: DeviceState, key: ObjectKey, id: Uint32)
    requires key in d.objects && AsBuilt(o) && Inherits(o, d.objects[key]) && ReadProperty(d, key, id, None).Read?
    requires id != OBJECT_LIST && id != PRIORITY_ARRAY
    ensures forall k :: ReadProperty(d, key, id, Some(k)) == Unread(NotArray)
  {
    hide Effective;
  }

  /** Distinct numbers below `n` are no more than `n`. */
  lemma {:induction false} FewBelow(s: set<int>, n: nat)
    requires forall x <- s :: 0 <= x < n
    ensures |s| <= n
  {
    if n == 0 {
      assert forall x :: x !in s;
    } else {
      FewBelow(s - {n - 1}, n - 1);
      assert |s| <= |s - {n - 1}| + 1;
    }
  }

  lemma {:induction false} DistinctNumbers(xs: seq<int>)
    requires forall i, j :: 0 <= i < j < |xs| ==> xs[i] != xs[j]
    ensures |set x | x in xs| == |xs|
  {
    if xs != [] {
      DistinctNumbers(xs[1..]);
      assert (set x | x in xs) == (set x | x in xs[1..]) + {xs[0]};
      assert xs[0] !in xs[1..];
    }
  }

  /** A scenario that fits has few objects: their keys differ and have 22-bit instances. */
  lemma FewObjects(specs: seq<ObjectSpec>)
    requires ObjectsFit(specs)
    ensures |specs| <= 20 * 0x40_0000
  {
    hide KindOf;
    hide ValuesFit;
    hide Trimmed;
    hide PriorityFits;
    var numbers := seq(|specs|, i requires 0 <= i < |specs| =>
      KindOf(specs[i].typeName).value as int * 0x40_0000 + specs[i].instance as int);
    forall i | 0 <= i < |specs| ensures 0 <= numbers[i] < 20 * 0x40_0000 {
      assert ObjectFits(specs[i]);
      KindIsSmall(specs[i].typeName);
    }
    forall i, j | 0 <= i < j < |specs| ensures numbers[i] != numbers[j] {
      assert ObjectFits(specs[i]) && ObjectFits(specs[j]) && KeyOf(specs[i]) != KeyOf(specs[j]);
      Packed(KindOf(specs[i].typeName).value, specs[i].instance, KindOf(specs[j].typeName).value, specs[j].instance);
    }
    DistinctNumbers(numbers);
    FewBelow(set x | x in numbers, 20 * 0x40_0000);
  }

  lemma KindIsSmall(name: string)
    requires KindOf(name).Some?
    ensures KindOf(name).value < 20
  {
    hide KindOf;
  }

  lemma Packed(a: nat, b: nat, c: nat, d: nat)
    requires b < 0x40_0000 && d < 0x40_0000 && (a != c || b != d)
    ensures a * 0x40_0000 + b != c * 0x40_0000 + d
  {
  }

  /** Reading with an index, on a built device after any run: Object_List and Priority_Array are
      indexed from 1, with their length at 0 and the whole at 2^32 - 1, and nothing beyond; no other
      property is an array. */
  lemma IndexedReads(spec: DeviceSpec, events: seq<Event>, key: ObjectKey, id: Uint32)
    requires ObjectsFit(spec.objects) && BuiltDevice(spec).Some?
    ensures ValidDevice(BuiltDevice(spec).value)
    ensures var d := Reach(BuiltDevice(spec).value, events).state.device;
            var reading := ReadProperty(d, key, id, None);
            && (reading.Read? && (id == OBJECT_LIST || id == PRIORITY_ARRAY) ==>
                  ReadsAsArray(d, key, id, reading.values))
            && (reading.Read? && id != OBJECT_LIST && id != PRIORITY_ARRAY ==>
                  forall k :: ReadProperty(d, key, id, Some(k)) == Unread(NotArray))
            && (reading.Unread? ==> forall k :: ReadProperty(d, key, id, Some(k)) == reading)
  {
    hide Reach;
    hide BuiltDevice;
    hide BuiltObject;
    hide DeviceObject;
    hide KindOf;
    hide ReadProperty;
    hide AsBuilt;
    hide Inherits;
    hide ValuesFit;
    hide Trimmed;
    hide PriorityFits;
    hide Specified;
    hide ReadsAsArray;
    BuiltDeviceHolds(spec);
    RunInherits(BuiltDevice(spec).value, events);
    var b, d := BuiltDevice(spec).value, Reach(BuiltDevice(spec).value, events).state.device;
    var reading := ReadProperty(d, key, id, None);
    if reading.Unread? {
      UnreadAnyway(d, key, id);
    } else {
      ReadIsThere(d, key, id);
      if id == PRIORITY_ARRAY {
        PriorityArrayIsIndexed(b.objects[key], d, key);
      } else if id == OBJECT_LIST {
        ObjectListIsIndexed(spec, events, key);
      } else {
        OthersAreNotIndexed(b.objects[key], d, key, id);
      }
    }
  }

  lemma UnreadAnyway(d: DeviceState, key: ObjectKey, id: Uint32)
    requires ReadProperty(d, key, id, None).Unread?
    ensures forall k :: ReadProperty(d, key, id, Some(k)) == ReadProperty(d, key, id, None)
  {
    hide Effective;
  }

  lemma ReadIsThere(d: DeviceState, key: ObjectKey, id: Uint32)
    requires ReadProperty(d, key, id, None).Read?
    ensures key in d.objects
  {
  }

  lemma PriorityArrayIsIndexed(o: ObjectState, d: DeviceState, key: ObjectKey)
    requires key in d.objects && AsBuilt(o) && Inherits(o, d.objects[key])
    requires ReadProperty(d, key, PRIORITY_ARRAY, None).Read?
    ensures ReadsAsArray(d, key, PRIORITY_ARRAY, ReadProperty(d, key, PRIORITY_ARRAY, None).values)
  {
    hide ReadsAsArray;
    InheritsNone(o, d.objects[key]);
    ArrayIsIndexed(d, key, PRIORITY_ARRAY, ReadProperty(d, key, PRIORITY_ARRAY, None).values);
  }

  lemma ObjectListIsIndexed(spec: DeviceSpec, events: seq<Event>, key: ObjectKey)
    requires ObjectsFit(spec.objects) && BuiltDevice(spec).Some? && ValidDevice(BuiltDevice(spec).value)
    requires ReadProperty(Reach(BuiltDevice(spec).value, events).state.device, key, OBJECT_LIST, None).Read?
    ensures var d := Reach(BuiltDevice(spec).value, events).state.device;
            ReadsAsArray(d, key, OBJECT_LIST, ReadProperty(d, key, OBJECT_LIST, None).values)
  {
    hide Reach;
    hide BuiltDevice;
    hide BuiltObject;
    hide DeviceObject;
    hide KindOf;
    hide ReadProperty;
    hide ValuesFit;
    hide Trimmed;
    hide PriorityFits;
    hide Specified;
    hide ReadsAsArray;
    hide AsBuilt;
    hide Inherits;
    BuiltDeviceHolds(spec);
    RunInherits(BuiltDevice(spec).value, events);
    var b, d := BuiltDevice(spec).value, Reach(BuiltDevice(spec).value, events).state.device;
    ReadIsThere(d, key, OBJECT_LIST);
    if key != ObjectKey(DEVICE_TYPE, spec.id) {
      var i := SpecifiedBy(spec.objects, key);
      NoListElsewhere(spec.objects[i]);
      NotReadElsewhere(b.objects[key], d, key);
    } else {
      DeviceStays(spec, events);
      FewObjects(spec.objects);
      DeviceObjectHolds(spec);
      ListIsArray(b.objects[key], d, key);
      ArrayIsIndexed(d, key, OBJECT_LIST, ReadProperty(d, key, OBJECT_LIST, None).values);
    }
  }

  lemma ListIsArray(o: ObjectState, d: DeviceState, key: ObjectKey)
    requires key in d.objects && AsBuilt(o) && Inherits(o, d.objects[key]) && OBJECT_LIST in o.properties
    ensures OBJECT_LIST in d.objects[key].properties && d.objects[key].properties[OBJECT_LIST].shape.isArray
  {
  }

  lemma NoListElsewhere(spec: ObjectSpec)
    requires ObjectFits(spec) && BuiltObject(spec).Some?
    ensures OBJECT_LIST !in BuiltObject(spec).value.properties
  {
    hide KindOf;
    hide Normalized;
    hide PresentProperty;
    hide ScalarProperty;
    hide CommonProperties;
    hide Trimmed;
    hide ValuesFit;
    CommonIsAsBuilt(KeyOf(spec), spec.name, spec.description);
  }

  lemma NotReadElsewhere(o: ObjectState, d: DeviceState, key: ObjectKey)
    requires key in d.objects && AsBuilt(o) && Inherits(o, d.objects[key]) && OBJECT_LIST !in o.properties
    ensures ReadProperty(d, key, OBJECT_LIST, None).Unread?
  {
  }
}
