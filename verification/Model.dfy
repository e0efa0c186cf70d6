/** The simulated device as values (simulator/model.go): what reading and writing a
    property computes. The classes that hold this state are in Device.dfy. */
module Model {
  import opened Octets

  datatype ObjectKey = ObjectKey(kind: Uint16, instance: Uint32)

  datatype Day = Day(year: Uint16, month: Byte, day: Byte, weekday: Byte)
  datatype Clock = Clock(hour: Byte, minute: Byte, second: Byte, hundredths: Byte)

  /** A tagged value. Reals are exact, without NaN; `native` tells the float32 a scenario
      builds from the Real a decoder makes, which compare unequal. */
  datatype Value =
    | Null
    | Boolean(flag: bool)
    | Unsigned(n: Uint32)
    | Signed(i: Int32)
    | Real(x: real, native: bool)
    | Double(x: real)
    | OctetString(octets: Octets)
    | CharacterString(text: string)
    | BitString(bits: Octets)
    | Enumerated(n: Uint32)
    | Date(day: Day)
    | Time(clock: Clock)
    | ObjectIdentifier(id: ObjectKey)

  const PRIORITY_SLOTS := 16
  const OUT_OF_SERVICE: Uint32 := 81
  const PRESENT_VALUE: Uint32 := 85
  const PRIORITY_ARRAY: Uint32 := 87
  const RELINQUISH_DEFAULT: Uint32 := 104
  const STATUS_FLAGS: Uint32 := 111
  const EVENT_STATE: Uint32 := 36
  const RELIABILITY: Uint32 := 103
  const LOCAL_DATE: Uint32 := 56
  const LOCAL_TIME: Uint32 := 57
  const DEVICE_TYPE: Uint16 := 8
  const ARRAY_ALL: Uint32 := 0xFFFF_FFFF

  datatype Error =
    | UnknownObject
    | UnknownProperty
    | WriteDenied
    | InvalidPriority
    | ReservedPriority
    | ValueOutOfRange
    | InvalidDataType
    | NotArray
    | InvalidArrayIndex
    | ValueRequired

  function TagOf(v: Value): (t: Byte)
  {
    match v
    case Null => 0
    case Boolean(_) => 1
    case Unsigned(_) => 2
    case Signed(_) => 3
    case Real(_, _) => 4
    case Double(_) => 5
    case OctetString(_) => 6
    case CharacterString(_) => 7
    case BitString(_) => 8
    case Enumerated(_) => 9
    case Date(_) => 10
    case Time(_) => 11
    case ObjectIdentifier(_) => 12
  }

  // ---- Properties --------------------------------------------------------

  /** What no write changes. A property with a relinquish default is commandable. */
  datatype Shape = Shape(writable: bool, isArray: bool, increment: real, fallback: Option<Value>,
                         minimum: Uint32, maximum: Uint32, scalar: bool, tag: Byte)

  datatype PropertyState = PropertyState(shape: Shape, values: seq<Value>, slots: seq<Option<Value>>)

  predicate ValidProperty(p: PropertyState) {
    |p.slots| == PRIORITY_SLOTS
  }

  const EMPTY_SLOTS: seq<Option<Value>> := 
    [None, None, None, None, None, None, None, None, None, None, None, None, None, None, None, None]

  function PlainShape(): (s: Shape)
  {
    Shape(false, false, 0.0, None, 0, 0, false, 0)
  }

  /** validateValues */
  function CheckValues(s: Shape, values: seq<Value>): (e: Option<Error>)
  {
    if s.scalar && |values| != 1 then Some(InvalidDataType)
    else if s.scalar && values[0].Null? then (if s.fallback.Some? then None else Some(InvalidDataType))
    else if s.scalar && TagOf(values[0]) != s.tag then Some(InvalidDataType)
    else if s.maximum == 0 || values == [] || values[0].Null? then None
    else if !(values[0].Unsigned? || values[0].Enumerated?) then Some(ValueOutOfRange)
    else if values[0].n < s.minimum || values[0].n > s.maximum then Some(ValueOutOfRange)
    else None
  }

  /** Priority 0 means 16; a non-commandable property keeps 0. */
  function Resolved(s: Shape, priority: Byte): (p: Byte)
  {
    if s.fallback.Some? && priority == 0 then PRIORITY_SLOTS else priority
  }

  /** validateWriteAllowingReadOnly: the error, or None when apply may follow. */
  function CheckWrite(s: Shape, values: seq<Value>, priority: Byte, writable: bool): (e: Option<Error>)
    ensures e.None? && s.fallback.Some? ==> 1 <= Resolved(s, priority) <= 16 && Resolved(s, priority) != 6
  {
    if !writable then Some(WriteDenied)
    else if values == [] then Some(ValueRequired)
    else if CheckValues(s, values).Some? then CheckValues(s, values)
    else if s.fallback.Some? then
      var p := Resolved(s, priority);
      if p < 1 || p > PRIORITY_SLOTS then Some(InvalidPriority)
      else if p == 6 then Some(ReservedPriority)
      else None
    else if priority != 0 then Some(InvalidPriority)
    else None
  }

  function SlotValue(v: Value): (o: Option<Value>)
  {
    if v.Null? then None else Some(v)
  }

  /** apply, after CheckWrite passed. */
  function Applied(p: PropertyState, values: seq<Value>, priority: Byte): (q: PropertyState)
    requires ValidProperty(p) && values != []
    requires p.shape.fallback.Some? ==> 1 <= Resolved(p.shape, priority) <= 16
    ensures ValidProperty(q) && q.shape == p.shape
  {
    if p.shape.fallback.Some? then
      p.(slots := p.slots[Resolved(p.shape, priority) - 1 := SlotValue(values[0])])
    else p.(values := values)
  }

  /** The highest-priority command, if any. */
  function FirstCommand(slots: seq<Option<Value>>): (v: Option<Value>)
  {
    if slots == [] then None else if slots[0].Some? then slots[0] else FirstCommand(slots[1..])
  }

  /** effectiveValues */
  function Effective(p: PropertyState): (vs: seq<Value>)
  {
    if p.shape.fallback.None? then p.values
    else match FirstCommand(p.slots)
      case Some(v) => [v]
      case None => [p.shape.fallback.value]
  }

  datatype Reading = Read(values: seq<Value>) | Unread(error: Error)

  /** Property.Read */
  function ReadState(p: PropertyState, index: Option<Uint32>): (r: Reading)
  {
    var values := Effective(p);
    match index
    case None => Read(values)
    case Some(i) =>
      if !p.shape.isArray then Unread(NotArray)
      else if i == 0 then Read([Unsigned(|values| % 0x1_0000_0000)])
      else if i == ARRAY_ALL then Read(values)
      else if i > |values| then Unread(InvalidArrayIndex)
      else Read([values[i - 1]])
  }

  // ---- Objects -----------------------------------------------------------

  datatype ObjectState = ObjectState(key: ObjectKey, properties: map<Uint32, PropertyState>, outOfService: bool)

  predicate ValidObject(o: ObjectState) {
    forall id <- o.properties :: ValidProperty(o.properties[id])
  }

  /** The readable Priority_Array: sixteen values, NULL where a slot is empty. */
  function PriorityArray(slots: seq<Option<Value>>): (vs: seq<Value>)
    ensures |vs| == |slots|
    ensures forall i :: 0 <= i < |slots| ==> vs[i] == if slots[i].Some? then slots[i].value else Null
  {
    seq(|slots|, i requires 0 <= i < |slots| => if slots[i].Some? then slots[i].value else Null)
  }

  /** synthesizedProperty: properties computed from the state of the object. */
  function Synthesized(o: ObjectState, id: Uint32): (p: Option<PropertyState>)
    ensures p.Some? ==> ValidProperty(p.value) && p.value.shape.fallback.None?
    ensures id == OUT_OF_SERVICE && p.Some? ==> p.value.shape.writable && p.value.shape.scalar && p.value.shape.tag == 1
  {
    if PRESENT_VALUE in o.properties && (id == PRIORITY_ARRAY || id == RELINQUISH_DEFAULT) then
      var present := o.properties[PRESENT_VALUE];
      if present.shape.fallback.None? then None
      else if id == PRIORITY_ARRAY then
        Some(PropertyState(PlainShape().(isArray := true), PriorityArray(present.slots), EMPTY_SLOTS))
      else
        Some(PropertyState(PlainShape(), [present.shape.fallback.value], EMPTY_SLOTS))
    else if o.key.kind == DEVICE_TYPE then None
    else if id == STATUS_FLAGS then
      Some(PropertyState(PlainShape(), [BitString([if o.outOfService then 8 else 0])], EMPTY_SLOTS))
    else if id == EVENT_STATE || id == RELIABILITY then
      Some(PropertyState(PlainShape(), [Enumerated(0)], EMPTY_SLOTS))
    else if id == OUT_OF_SERVICE then
      var shape := PlainShape().(writable := true, scalar := true, tag := 1);
      Some(PropertyState(shape, [Boolean(o.outOfService)], EMPTY_SLOTS))
    else None
  }

  // ---- Devices -----------------------------------------------------------

  datatype DeviceState = DeviceState(id: Uint32, objects: map<ObjectKey, ObjectState>)

  predicate ValidDevice(d: DeviceState) {
    forall key <- d.objects :: ValidObject(d.objects[key])
  }

  datatype Write = Write(key: ObjectKey, property: Uint32, values: seq<Value>, priority: Byte)

  /** Device.ReadProperty */
  function ReadProperty(d: DeviceState, key: ObjectKey, id: Uint32, index: Option<Uint32>): (r: Reading)
  {
    if key !in d.objects then Unread(UnknownObject)
    else if id in d.objects[key].properties then ReadState(d.objects[key].properties[id], index)
    else match Synthesized(d.objects[key], id)
      case Some(p) => ReadState(p, index)
      case None => Unread(UnknownProperty)
  }

  /** Present_Value writes to an out-of-service object pass whatever its writability,
      unless it is commandable. */
  predicate Bypassed(o: ObjectState, id: Uint32)
    requires id in o.properties
  {
    id == PRESENT_VALUE && o.outOfService && o.properties[id].shape.fallback.None?
  }

  /** Device.ValidateWrite */
  function ValidateWrite(d: DeviceState, w: Write): (e: Option<Error>)
  {
    if w.key !in d.objects then Some(UnknownObject)
    else
      var o := d.objects[w.key];
      if w.property in o.properties then
        var s := o.properties[w.property].shape;
        CheckWrite(s, w.values, w.priority, Bypassed(o, w.property) || s.writable)
      else match Synthesized(o, w.property)
        case None => Some(UnknownProperty)
        case Some(p) =>
          if w.property != OUT_OF_SERVICE then Some(WriteDenied)
          else CheckWrite(p.shape, w.values, w.priority, p.shape.writable)
  }

  datatype ObjectOutcome = ObjectOutcome(object_: ObjectState, error: Option<Error>)

  /** Device.WriteProperty on the object it found: the object it leaves and its error. */
  function WriteObject(o: ObjectState, w: Write): (r: ObjectOutcome)
    requires ValidObject(o)
    ensures ValidObject(r.object_)
  {
    if w.property in o.properties then
      var p := o.properties[w.property];
      var e := CheckWrite(p.shape, w.values, w.priority, Bypassed(o, w.property) || p.shape.writable);
      if e.Some? then ObjectOutcome(o, e)
      else ObjectOutcome(o.(properties := o.properties[w.property := Applied(p, w.values, w.priority)]), None)
    else match Synthesized(o, w.property)
      case None => ObjectOutcome(o, Some(UnknownProperty))
      case Some(p) =>
        if w.property != OUT_OF_SERVICE then ObjectOutcome(o, Some(WriteDenied))
        else
          var e := CheckWrite(p.shape, w.values, w.priority, p.shape.writable);
          if e.Some? then ObjectOutcome(o, e)
          else ObjectOutcome(o.(outOfService := w.values[0].Boolean? && w.values[0].flag), None)
  }

  datatype Outcome = Outcome(device: DeviceState, error: Option<Error>)

  function WithObject(d: DeviceState, key: ObjectKey, o: ObjectState): (e: DeviceState)
  {
    d.(objects := d.objects[key := o])
  }

  /** Device.WriteProperty: the device it leaves and the error it returns. */
  function WriteProperty(d: DeviceState, w: Write): (r: Outcome)
    requires ValidDevice(d)
    ensures ValidDevice(r.device)
  {
    if w.key !in d.objects then Outcome(d, Some(UnknownObject))
    else
      var r := WriteObject(d.objects[w.key], w);
      Outcome(WithObject(d, w.key, r.object_), r.error)
  }

  /** ValidateWrite is an exact dry run: it answers as WriteProperty does, and a refused
      write leaves the device as it was. */
  lemma DryRun(d: DeviceState, w: Write)
    requires ValidDevice(d)
    ensures ValidateWrite(d, w) == WriteProperty(d, w).error
    ensures WriteProperty(d, w).error.Some? ==> WriteProperty(d, w).device == d
  {
    hide CheckValues;
    hide Synthesized;
  }

  /** scalarProperty */
  function ScalarProperty(v: Value, writable: bool): (p: PropertyState)
    ensures ValidProperty(p)
  {
    PropertyState(PlainShape().(writable := writable, scalar := true, tag := TagOf(v)), [v], EMPTY_SLOTS)
  }

  /** The object with Local_Date and Local_Time set. */
  function Clocked(o: ObjectState, dated: PropertyState, timed: PropertyState): (r: ObjectState)
    requires ValidObject(o) && ValidProperty(dated) && ValidProperty(timed)
    ensures ValidObject(r)
  {
    o.(properties := o.properties[LOCAL_DATE := dated][LOCAL_TIME := timed])
  }

  /** Device.SetLocalTime */
  function SetLocalTime(d: DeviceState, date: Day, time: Clock): (e: DeviceState)
    requires ValidDevice(d)
    ensures ValidDevice(e)
  {
    var key := ObjectKey(DEVICE_TYPE, d.id);
    if key !in d.objects then d
    else
      var dated, timed := ScalarProperty(Date(date), false), ScalarProperty(Time(time), false);
      WithObject(d, key, Clocked(d.objects[key], dated, timed))
  }

  // ---- What every write keeps --------------------------------------------

  /** The same objects, the same stored properties, the same shapes. */
  predicate SameShape(d: DeviceState, e: DeviceState) {
    && d.objects.Keys == e.objects.Keys
    && forall key <- d.objects ::
         && d.objects[key].key == e.objects[key].key
         && d.objects[key].properties.Keys == e.objects[key].properties.Keys
         && forall id <- d.objects[key].properties ::
              d.objects[key].properties[id].shape == e.objects[key].properties[id].shape
  }

  lemma WriteKeepsShape(d: DeviceState, w: Write)
    requires ValidDevice(d)
    ensures SameShape(d, WriteProperty(d, w).device)
  {
    hide CheckWrite;
    hide CheckValues;
    hide Synthesized;
  }

  lemma WriteTouchesOneObject(d: DeviceState, w: Write, key: ObjectKey)
    requires ValidDevice(d) && key in d.objects && key != w.key
    ensures key in WriteProperty(d, w).device.objects
    ensures WriteProperty(d, w).device.objects[key] == d.objects[key]
  {
    hide CheckValues;
    hide Synthesized;
  }

  lemma WriteTouchesOneProperty(d: DeviceState, w: Write, key: ObjectKey, id: Uint32)
    requires ValidDevice(d) && key in d.objects && id in d.objects[key].properties
    requires w.key != key || w.property != id
    ensures key in WriteProperty(d, w).device.objects && id in WriteProperty(d, w).device.objects[key].properties
    ensures WriteProperty(d, w).device.objects[key].properties[id] == d.objects[key].properties[id]
  {
    hide CheckValues;
    hide Synthesized;
  }

  lemma WritesKeepShape(d: DeviceState, e: DeviceState, w: Write)
    requires ValidDevice(e) && SameShape(d, e)
    ensures SameShape(d, WriteProperty(e, w).device)
  {
    hide WriteProperty;
    WriteKeepsShape(e, w);
  }
}
