/** Scenarios (simulator/scenario.go): normalizing configured values, validating an object's
    specification and building the device, on scenarios already read from YAML or JSON. */
module Scenario {
  import opened Octets
  import opened Model

  // ---- Configured values -------------------------------------------------

  /** What a YAML or JSON document can put where a value is expected. */
  datatype Given =
    | Absent
    | Flag(flag: bool)
    | Text(text: string)
    | Whole(n: int)
    | Word(w: Uint32)
    | Float(x: real)
    | Single(x: real)
    | Other

  const MAX_FLOAT32: real := 340282346638528859811704183484516925440.0

  function LowerChar(c: char): (d: char)
  {
    if 'A' <= c <= 'Z' then c - 'A' + 'a' else c
  }

  function Lower(s: string): (t: string)
  {
    if s == [] then [] else [LowerChar(s[0])] + Lower(s[1..])
  }

  function Trimmed(s: string): (t: string)
    decreases |s|
  {
    if s == [] then []
    else if IsSpace(s[0]) then Trimmed(s[1..])
    else if IsSpace(s[|s| - 1]) then Trimmed(s[..|s| - 1])
    else s
  }

  predicate IsSpace(c: char) {
    c in [' ', '\t', '\n', '\r', 0x0B as char, 0x0C as char]
  }

  /** numericFloat64 */
  function Number(v: Given): (x: Option<real>)
  {
    match v
    case Float(x) => Some(x)
    case Single(x) => Some(x)
    case Whole(n) => Some(n as real)
    case _ => None
  }

  /** numericUint32 */
  function Natural(v: Given): (n: Option<Uint32>)
  {
    match v
    case Word(w) => Some(w)
    case Whole(n) => if 0 <= n < 0x1_0000_0000 then Some(n) else None
    case Float(x) =>
      if x < 0.0 || x > 4294967295.0 || x != x.Floor as real then None else Some(x.Floor)
    case _ => None
  }

  predicate IsAnalog(kind: Uint16) { kind == 0 || kind == 1 || kind == 2 }
  predicate IsBinary(kind: Uint16) { kind == 3 || kind == 4 || kind == 5 }
  predicate IsMultiState(kind: Uint16) { kind == 13 || kind == 14 || kind == 19 }

  /** The application tag of Present_Value for a kind of object. */
  function ExpectedTag(kind: Uint16): (t: Byte)
  {
    if IsAnalog(kind) then 4 else if IsBinary(kind) then 9 else 2
  }

  /** normalizePresentValue */
  function Normalized(kind: Uint16, v: Given): (r: Option<Value>)
    ensures r.Some? ==> TagOf(r.value) == ExpectedTag(kind)
    ensures r.Some? && IsBinary(kind) ==> r.value.Enumerated? && r.value.n <= 1
    ensures r.Some? && !IsAnalog(kind) && !IsBinary(kind) ==> r.value.Unsigned? && r.value.n >= 1
  {
    if IsAnalog(kind) then
      match Number(if v.Absent? then Float(0.0) else v)
      case None => None
      case Some(x) => if -MAX_FLOAT32 <= x <= MAX_FLOAT32 then Some(Real(x, true)) else None
    else if IsBinary(kind) then
      if v.Absent? then Some(Enumerated(0))
      else if v.Flag? then Some(Enumerated(if v.flag then 1 else 0))
      else if v.Text? then
        if Lower(v.text) in ["active", "true", "1"] then Some(Enumerated(1))
        else if Lower(v.text) in ["inactive", "false", "0"] then Some(Enumerated(0))
        else None
      else match Natural(v)
        case None => None
        case Some(n) => if n > 1 then None else Some(Enumerated(n))
    else
      match Natural(if v.Absent? then Word(1) else v)
      case None => None
      case Some(n) => if n == 0 then None else Some(Unsigned(n))
  }

  /** A configured number is the value it stands for, where the kind of object can have it. */
  lemma NumbersNormalize(kind: Uint16, n: int, x: real)
    ensures IsAnalog(kind) && -MAX_FLOAT32 <= x <= MAX_FLOAT32 ==> Normalized(kind, Float(x)) == Some(Real(x, true))
    ensures IsAnalog(kind) && -MAX_FLOAT32 <= n as real <= MAX_FLOAT32 ==>
              Normalized(kind, Whole(n)) == Some(Real(n as real, true))
    ensures IsBinary(kind) ==> Normalized(kind, Whole(n)) == if 0 <= n <= 1 then Some(Enumerated(n)) else None
    ensures IsMultiState(kind) ==>
              Normalized(kind, Whole(n)) == if 1 <= n < 0x1_0000_0000 then Some(Unsigned(n)) else None
    ensures IsMultiState(kind) && 1 <= n < 0x1_0000_0000 ==>
              Normalized(kind, Float(n as real)) == Some(Unsigned(n)) == Normalized(kind, Word(n))
  {
  }

  /** Nothing configured is off, zero or the first state; a flag is on or off. */
  lemma FlagsNormalize(kind: Uint16, flag: bool)
    ensures IsBinary(kind) ==>
              && Normalized(kind, Flag(flag)) == Some(Enumerated(if flag then 1 else 0))
              && Normalized(kind, Absent) == Some(Enumerated(0))
    ensures IsAnalog(kind) ==> Normalized(kind, Absent) == Some(Real(0.0, true)) && Normalized(kind, Flag(flag)) == None
    ensures IsMultiState(kind) ==> Normalized(kind, Absent) == Some(Unsigned(1)) && Normalized(kind, Flag(flag)) == None
  {
  }

  /** Binary objects also take words, in any case. */
  lemma WordsNormalize(kind: Uint16, on: string, off: string)
    requires IsBinary(kind) && Lower(on) == "active" && Lower(off) == "inactive"
    ensures Normalized(kind, Text(on)) == Some(Enumerated(1)) && Normalized(kind, Text(off)) == Some(Enumerated(0))
  {
    hide Lower;
  }

  lemma CapitalsDoNotMatter()
    ensures Lower("Active") == "active" && Lower("INACTIVE") == "inactive"
  {
    LowerFew("Active", "active");
    LowerFew("INACTIVE", "inactive");
  }

  lemma {:induction false} LowerFew(s: string, t: string)
    requires |s| == |t| && forall i :: 0 <= i < |s| ==> t[i] == LowerChar(s[i])
    ensures Lower(s) == t
  {
    if s != [] {
      LowerFew(s[1..], t[1..]);
      assert t == [t[0]] + t[1..];
    }
  }

  // ---- Specifications ----------------------------------------------------

  datatype ObjectSpec = ObjectSpec(typeName: string, instance: Uint32, name: string, description: string,
                                   presentValue: Given, units: Uint32, writable: bool, commandable: bool,
                                   relinquishDefault: Given, initialPriority: Byte, numberOfStates: Uint32,
                                   increment: real, outOfService: bool)

  datatype DeviceSpec = DeviceSpec(id: Uint32, address: string, port: Uint16, name: string, vendor: Uint16,
                                   vendorName: string, modelName: string, revision: Byte, objects: seq<ObjectSpec>)

  function Dashed(s: string): (t: string)
  {
    if s == [] then [] else [if s[0] == '_' then '-' else s[0]] + Dashed(s[1..])
  }

  /** objectTypeNumber */
  function KindOf(name: string): (kind: Option<Uint16>)
    ensures kind.Some? ==> IsAnalog(kind.value) || IsBinary(kind.value) || IsMultiState(kind.value)
  {
    var n := Lower(Dashed(Trimmed(name)));
    if n == "analog-input" then Some(0)
    else if n == "analog-output" then Some(1)
    else if n == "analog-value" then Some(2)
    else if n == "binary-input" then Some(3)
    else if n == "binary-output" then Some(4)
    else if n == "binary-value" then Some(5)
    else if n == "multistate-input" || n == "multi-state-input" then Some(13)
    else if n == "multistate-output" || n == "multi-state-output" then Some(14)
    else if n == "multistate-value" || n == "multi-state-value" then Some(19)
    else None
  }

  /** validateObjectSpecValues */
  predicate ValuesFit(kind: Uint16, spec: ObjectSpec) {
    && Normalized(kind, spec.presentValue).Some?
    && (IsMultiState(kind) ==>
          && spec.numberOfStates > 0
          && Normalized(kind, spec.presentValue).value.n <= spec.numberOfStates
          && (spec.commandable && !spec.relinquishDefault.Absent? ==>
                && Normalized(kind, spec.relinquishDefault).Some?
                && Normalized(kind, spec.relinquishDefault).value.n <= spec.numberOfStates))
  }

  predicate PriorityFits(spec: ObjectSpec) {
    spec.initialPriority != 0 ==>
      && spec.commandable && !spec.presentValue.Absent?
      && spec.initialPriority <= 16 && spec.initialPriority != 6
  }

  /** What Validate asks of one object, by itself. */
  predicate ObjectFits(spec: ObjectSpec) {
    && KindOf(spec.typeName).Some?
    && spec.instance <= MAX_INSTANCE
    && Trimmed(spec.name) != ""
    && spec.increment >= 0.0
    && PriorityFits(spec)
    && ValuesFit(KindOf(spec.typeName).value, spec)
  }

  function KeyOf(spec: ObjectSpec): (key: ObjectKey)
    requires KindOf(spec.typeName).Some?
  {
    ObjectKey(KindOf(spec.typeName).value, spec.instance)
  }

  predicate ObjectsFit(specs: seq<ObjectSpec>) {
    && (forall i :: 0 <= i < |specs| ==> ObjectFits(specs[i]))
    && (forall i, j :: 0 <= i < j < |specs| ==> KeyOf(specs[i]) != KeyOf(specs[j]))
  }

  // ---- Building ----------------------------------------------------------

  const OBJECT_IDENTIFIER: Uint32 := 75
  const OBJECT_LIST: Uint32 := 76
  const OBJECT_NAME: Uint32 := 77
  const OBJECT_TYPE: Uint32 := 79
  const DESCRIPTION: Uint32 := 28
  const NUMBER_OF_STATES: Uint32 := 74
  const UNITS: Uint32 := 117

  /** A commandable object is writable, whatever its specification says. */
  predicate Writable(spec: ObjectSpec) {
    spec.writable || spec.commandable
  }

  function InitialSlots(spec: ObjectSpec, present: Value): (slots: seq<Option<Value>>)
    requires PriorityFits(spec)
    ensures |slots| == PRIORITY_SLOTS && slots[5].None?
    ensures forall i :: 0 <= i < 16 && slots[i].Some? ==> slots[i].value == present
  {
    if !spec.commandable || spec.presentValue.Absent? then EMPTY_SLOTS
    else EMPTY_SLOTS[(if spec.initialPriority == 0 then 16 else spec.initialPriority) - 1 := Some(present)]
  }

  /** Present_Value of the built object. */
  function PresentProperty(kind: Uint16, spec: ObjectSpec, present: Value, fallback: Option<Value>): (p: PropertyState)
    requires PriorityFits(spec)
    ensures ValidProperty(p)
  {
    var base := ScalarProperty(present, Writable(spec));
    var shape := base.shape.(increment := spec.increment, fallback := fallback);
    var ranged := if IsMultiState(kind) then shape.(minimum := 1, maximum := spec.numberOfStates) else shape;
    PropertyState(ranged, [present], InitialSlots(spec, present))
  }

  /** addCommonProperties */
  function CommonProperties(key: ObjectKey, name: string, description: string): (m: map<Uint32, PropertyState>)
    ensures forall id <- m :: ValidProperty(m[id])
    ensures PRESENT_VALUE !in m && NUMBER_OF_STATES !in m && OUT_OF_SERVICE !in m
    ensures PRIORITY_ARRAY !in m && RELINQUISH_DEFAULT !in m
    ensures STATUS_FLAGS !in m && EVENT_STATE !in m && RELIABILITY !in m
  {
    var common := map[OBJECT_IDENTIFIER := ScalarProperty(ObjectIdentifier(key), false),
                      OBJECT_NAME := ScalarProperty(CharacterString(name), false),
                      OBJECT_TYPE := ScalarProperty(Enumerated(key.kind), false)];
    if description == "" then common else common[DESCRIPTION := ScalarProperty(CharacterString(description), false)]
  }

  /** The relinquish default, None when it is refused. */
  function Fallback(kind: Uint16, spec: ObjectSpec, present: Value): (v: Option<Value>)
  {
    if spec.relinquishDefault.Absent? then Some(present) else Normalized(kind, spec.relinquishDefault)
  }

  function AddedProperties(m: map<Uint32, PropertyState>, spec: ObjectSpec, present: PropertyState):
      (r: map<Uint32, PropertyState>)
  {
    var a := m[PRESENT_VALUE := present];
    var b := if spec.units == 0 then a else a[UNITS := ScalarProperty(Enumerated(spec.units), false)];
    if spec.numberOfStates == 0 then b
    else b[NUMBER_OF_STATES := ScalarProperty(Unsigned(spec.numberOfStates), false)]
  }

  /** buildObject, None when a value is refused. */
  function BuiltObject(spec: ObjectSpec): (o: Option<ObjectState>)
    requires KindOf(spec.typeName).Some? && PriorityFits(spec)
    ensures o.Some? ==> ValidObject(o.value) && o.value.key == KeyOf(spec)
  {
    var kind := KindOf(spec.typeName).value;
    var common := CommonProperties(KeyOf(spec), spec.name, spec.description);
    match Normalized(kind, spec.presentValue)
    case None => None
    case Some(present) =>
      var fallback := if spec.commandable then Fallback(kind, spec, present) else None;
      if spec.commandable && fallback.None? then None
      else
        var property := PresentProperty(kind, spec, present, fallback);
        Some(ObjectState(KeyOf(spec), AddedProperties(common, spec, property), spec.outOfService))
  }

  /** Building fails, on a validated object, exactly when a commandable object that is not
      multi-state has a relinquish default that does not normalize: Validate does not look. */
  lemma ValidatedObjectBuildsIff(spec: ObjectSpec)
    requires ObjectFits(spec)
    ensures var kind := KindOf(spec.typeName).value;
            && (BuiltObject(spec).None? <==>
                  && spec.commandable && !IsMultiState(kind)
                  && !spec.relinquishDefault.Absent? && Normalized(kind, spec.relinquishDefault).None?)
  {
    hide KindOf;
    hide Normalized;
    hide AddedProperties;
    hide CommonProperties;
    hide PresentProperty;
  }

  /** A validated scenario that does not build. */
  lemma ValidatedObjectMayNotBuild() returns (spec: ObjectSpec)
    ensures ObjectFits(spec) && BuiltObject(spec).None?
  {
    hide KindOf;
    hide Trimmed;
    hide Normalized;
    hide BuiltObject;
    spec := ObjectSpec("analog-value", 1, "setpoint", "", Absent, 0, true, true, Flag(true), 0, 0, 0.0, false);
    AnalogValueIsKnown();
    PlainIsTrimmed("setpoint");
    FlagIsNoNumber();
    ValidatedObjectBuildsIff(spec);
  }

  lemma FlagIsNoNumber()
    ensures Normalized(2, Flag(true)).None? && Normalized(2, Absent).Some?
  {
  }

  /** The numbers of the object types, by name. */
  lemma BinaryKinds()
    ensures KindOf("binary-input") == Some(3) && KindOf("binary-output") == Some(4)
    ensures KindOf("binary-value") == Some(5) && KindOf("analog-output") == Some(1)
  {
    hide Trimmed;
    hide Dashed;
    hide Lower;
    PlainName("binary-input");
    PlainName("binary-output");
    PlainName("binary-value");
    PlainName("analog-output");
  }

  lemma MultiStateKinds()
    ensures KindOf("multi-state-input") == Some(13) && KindOf("multi-state-output") == Some(14)
    ensures KindOf("multi-state-value") == Some(19)
  {
    hide Trimmed;
    hide Dashed;
    hide Lower;
    PlainName("multi-state-input");
    PlainName("multi-state-output");
    PlainName("multi-state-value");
  }

  lemma PlainName(n: string)
    requires n != [] && forall i :: 0 <= i < |n| ==> 'a' <= n[i] <= 'z' || n[i] == '-'
    ensures Lower(Dashed(Trimmed(n))) == n
  {
    hide Trimmed;
    hide Dashed;
    hide Lower;
    PlainIsTrimmed(n);
    DashedPlain(n);
    LowerPlain(n);
  }

  lemma AnalogValueIsKnown()
    ensures KindOf("analog-value") == Some(2)
  {
    hide Trimmed;
    hide Dashed;
    hide Lower;
    var n := "analog-value";
    PlainIsTrimmed(n);
    DashedPlain(n);
    LowerPlain(n);
  }

  lemma PlainIsTrimmed(s: string)
    requires s != [] && !IsSpace(s[0]) && !IsSpace(s[|s| - 1])
    ensures Trimmed(s) == s
  {
  }

  lemma {:induction false} LowerPlain(s: string)
    requires forall i :: 0 <= i < |s| ==> !('A' <= s[i] <= 'Z')
    ensures Lower(s) == s
  {
    if s != [] {
      LowerPlain(s[1..]);
    }
  }

  lemma {:induction false} DashedPlain(s: string)
    requires '_' !in s
    ensures Dashed(s) == s
  {
    if s != [] {
      DashedPlain(s[1..]);
    }
  }
}
