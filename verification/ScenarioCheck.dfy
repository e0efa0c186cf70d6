/** The two validators of a scenario: Scenario.Validate (simulator/scenario.go), which stops at
    the first fault, and FieldErrors (gui/internal/scenariodoc/check.go), which collects them. */
module ScenarioCheck {
  import opened Octets
  import opened Model
  import opened Scenario
  import Transactions

  datatype ScenarioSpec = ScenarioSpec(version: int, mode: string, devices: seq<DeviceSpec>)

  predicate KnownMode(mode: string) {
    mode == "single-device" || mode == "multi-ip" || mode == "multi-port"
  }

  function EndpointText(d: DeviceSpec): (s: string)
  {
    d.address + [':'] + Transactions.Decimal(d.port)
  }

  predicate DeviceFits(mode: string, d: DeviceSpec) {
    && d.id <= MAX_INSTANCE && Trimmed(d.name) != ""
    && (mode == "multi-ip" ==> Trimmed(d.address) != "")
    && ObjectsFit(d.objects)
  }

  predicate Clash(mode: string, d: DeviceSpec, e: DeviceSpec) {
    d.id == e.id || (mode != "single-device" && EndpointText(d) == EndpointText(e))
  }

  /** What Scenario.Validate accepts. */
  predicate ScenarioFits(s: ScenarioSpec) {
    && s.version == 1 && KnownMode(s.mode) && s.devices != []
    && (s.mode == "single-device" ==> |s.devices| == 1)
    && (forall i :: 0 <= i < |s.devices| ==> DeviceFits(s.mode, s.devices[i]))
    && (forall i, j :: 0 <= i < j < |s.devices| ==> !Clash(s.mode, s.devices[i], s.devices[j]))
  }

  // ---- Field by field ----------------------------------------------------

  datatype DeviceSlot = Id | Name | Address | Port
  datatype ObjectSlot =
    | Type | Instance | ObjectName | CovIncrement | InitialPriority | NumberOfStates | PresentValue | RelinquishDefault

  datatype Field =
    | Version
    | NetworkMode
    | Devices
    | DeviceField(device: nat, slot: DeviceSlot)
    | ObjectField(device: nat, object_: nat, part: ObjectSlot)

  /** canonicalObjectType */
  function Canonical(name: string): (c: Option<string>)
  {
    var n := Lower(Dashed(Trimmed(name)));
    if n in ["analog-input", "analog-output", "analog-value", "binary-input", "binary-output", "binary-value",
             "multi-state-input", "multi-state-output", "multi-state-value"] then Some(n)
    else if n == "multistate-input" then Some("multi-state-input")
    else if n == "multistate-output" then Some("multi-state-output")
    else if n == "multistate-value" then Some("multi-state-value")
    else None
  }

  predicate IsMultiStateName(canon: string) {
    canon == "multi-state-input" || canon == "multi-state-output" || canon == "multi-state-value"
  }

  function ObjectText(o: ObjectSpec): (s: string)
    requires Canonical(o.typeName).Some?
  {
    Canonical(o.typeName).value + [':'] + Transactions.Decimal(o.instance)
  }

  predicate Duplicate(a: ObjectSpec, b: ObjectSpec) {
    Canonical(a.typeName).Some? && Canonical(b.typeName).Some? && ObjectText(a) == ObjectText(b)
  }

  predicate Exceeds(v: Given, limit: Uint32) {
    Natural(v).Some? && Natural(v).value > limit
  }

  predicate StatesFaulty(o: ObjectSpec, part: ObjectSlot)
  {
    match part
    case NumberOfStates => o.numberOfStates == 0
    case PresentValue => o.numberOfStates != 0 && Exceeds(o.presentValue, o.numberOfStates)
    case RelinquishDefault =>
      && o.numberOfStates != 0 && o.commandable && !o.relinquishDefault.Absent?
      && Exceeds(o.relinquishDefault, o.numberOfStates)
    case _ => false
  }

  /** The message FieldErrors puts at a field of object `j`. */
  predicate ObjectFaulty(objects: seq<ObjectSpec>, j: nat, part: ObjectSlot)
    requires j < |objects|
  {
    var o := objects[j];
    var canon := Canonical(o.typeName);
    if canon.None? then part.Type?
    else match part
      case Type => false
      case Instance => o.instance > MAX_INSTANCE || exists k :: 0 <= k < j && Duplicate(objects[k], o)
      case ObjectName => Trimmed(o.name) == ""
      case CovIncrement => o.increment < 0.0
      case InitialPriority =>
        && o.initialPriority != 0
        && (!o.commandable || o.presentValue.Absent? || o.initialPriority > 16 || o.initialPriority == 6)
      case _ => IsMultiStateName(canon.value) && StatesFaulty(o, part)
  }

  predicate DeviceFaulty(s: ScenarioSpec, i: nat, slot: DeviceSlot)
    requires i < |s.devices|
  {
    var d := s.devices[i];
    match slot
    case Id => d.id > MAX_INSTANCE || exists k :: 0 <= k < i && s.devices[k].id == d.id
    case Name => Trimmed(d.name) == ""
    case Address => s.mode == "multi-ip" && Trimmed(d.address) == ""
    case Port => s.mode != "single-device" && exists k :: 0 <= k < i && EndpointText(s.devices[k]) == EndpointText(d)
  }

  predicate Faulty(s: ScenarioSpec, f: Field) {
    match f
    case Version => s.version != 1
    case NetworkMode => !KnownMode(s.mode)
    case Devices => s.devices == [] || (s.mode == "single-device" && |s.devices| != 1)
    case DeviceField(i, slot) => i < |s.devices| && DeviceFaulty(s, i, slot)
    case ObjectField(i, j, part) =>
      i < |s.devices| && j < |s.devices[i].objects| && ObjectFaulty(s.devices[i].objects, j, part)
  }

  // ---- The validators agree ----------------------------------------------

  /** The canonical name of a kind of object. */
  function KindName(kind: Uint16): (n: string)
  {
    match kind
    case 0 => "analog-input"
    case 1 => "analog-output"
    case 2 => "analog-value"
    case 3 => "binary-input"
    case 4 => "binary-output"
    case 5 => "binary-value"
    case 13 => "multi-state-input"
    case 14 => "multi-state-output"
    case _ => "multi-state-value"
  }

  lemma CanonicalIsKindName(a: string)
    ensures KindOf(a).None? ==> Canonical(a).None?
    ensures KindOf(a).Some? ==> Canonical(a) == Some(KindName(KindOf(a).value))
  {
    hide Lower;
    hide Dashed;
    hide Trimmed;
  }

  lemma KindNamesDiffer(k: Uint16, l: Uint16)
    requires IsAnalog(k) || IsBinary(k) || IsMultiState(k)
    requires IsAnalog(l) || IsBinary(l) || IsMultiState(l)
    ensures KindName(k) == KindName(l) <==> k == l
    ensures IsMultiStateName(KindName(k)) <==> IsMultiState(k)
  {
    assert KindName(k)[0] == 'a' <==> IsAnalog(k);
    assert KindName(k)[0] == 'b' <==> IsBinary(k);
    assert KindName(l)[0] == 'a' <==> IsAnalog(l);
    assert KindName(l)[0] == 'b' <==> IsBinary(l);
  }

  /** The two spellings of an object's identity agree. */
  lemma DuplicateIffSameKey(a: ObjectSpec, b: ObjectSpec)
    requires KindOf(a.typeName).Some? && KindOf(b.typeName).Some?
    ensures Canonical(a.typeName).Some? && Canonical(b.typeName).Some?
    ensures Duplicate(a, b) <==> KeyOf(a) == KeyOf(b)
  {
    hide KindOf;
    hide Canonical;
    hide KindName;
    hide Transactions.Decimal;
    CanonicalIsKindName(a.typeName);
    CanonicalIsKindName(b.typeName);
    KindNamesDiffer(KindOf(a.typeName).value, KindOf(b.typeName).value);
    if ObjectText(a) == ObjectText(b) {
      Transactions.JoinInjective(Canonical(a.typeName).value, Transactions.Decimal(a.instance),
                                 Canonical(b.typeName).value, Transactions.Decimal(b.instance), ':');
      Transactions.DecimalInjective(a.instance, b.instance);
    }
  }

  /** Every value that Validate normalizes does normalize. */
  predicate ObjectNormalizes(o: ObjectSpec) {
    KindOf(o.typeName).Some? ==>
      var kind := KindOf(o.typeName).value;
      && Normalized(kind, o.presentValue).Some?
      && (IsMultiState(kind) && o.commandable && !o.relinquishDefault.Absent? ==>
            Normalized(kind, o.relinquishDefault).Some?)
  }

  predicate AllNormalize(s: ScenarioSpec) {
    forall i, j :: 0 <= i < |s.devices| && 0 <= j < |s.devices[i].objects| ==> ObjectNormalizes(s.devices[i].objects[j])
  }

  predicate ObjectClean(objects: seq<ObjectSpec>, j: nat)
    requires j < |objects|
  {
    forall part: ObjectSlot :: !ObjectFaulty(objects, j, part)
  }

  lemma StatesAgree(kind: Uint16, o: ObjectSpec)
    requires IsMultiState(kind) && Normalized(kind, o.presentValue).Some?
    requires o.commandable && !o.relinquishDefault.Absent? ==> Normalized(kind, o.relinquishDefault).Some?
    ensures ValuesFit(kind, o) <==> forall part: ObjectSlot :: !StatesFaulty(o, part)
  {
    assert ValuesFit(kind, o) <==>
      !StatesFaulty(o, NumberOfStates) && !StatesFaulty(o, PresentValue) && !StatesFaulty(o, RelinquishDefault);
  }

  /** One object by itself: no fault and everything normalizes, exactly when it fits and no
      earlier object has its identity. */
  lemma ObjectAgrees(objects: seq<ObjectSpec>, j: nat)
    requires j < |objects| && forall k :: 0 <= k < j ==> KindOf(objects[k].typeName).Some?
    ensures ObjectClean(objects, j) && ObjectNormalizes(objects[j])
       <==> ObjectFits(objects[j]) && forall k :: 0 <= k < j ==> KeyOf(objects[k]) != KeyOf(objects[j])
  {
    hide KindOf;
    hide Canonical;
    hide Normalized;
    hide StatesFaulty;
    hide Trimmed;
    hide Duplicate;
    var o := objects[j];
    CanonicalIsKindName(o.typeName);
    if KindOf(o.typeName).Some? {
      var kind := KindOf(o.typeName).value;
      KindNamesDiffer(kind, kind);
      forall k | 0 <= k < j ensures Duplicate(objects[k], o) <==> KeyOf(objects[k]) == KeyOf(o) {
        DuplicateIffSameKey(objects[k], o);
      }
      if IsMultiState(kind) && ObjectNormalizes(o) {
        StatesAgree(kind, o);
      }
      CleanParts(objects, j);
    } else {
      assert ObjectFaulty(objects, j, Type);
    }
  }

  lemma CleanParts(objects: seq<ObjectSpec>, j: nat)
    requires j < |objects| && Canonical(objects[j].typeName).Some?
    ensures ObjectClean(objects, j) <==>
              && objects[j].instance <= MAX_INSTANCE && (forall k :: 0 <= k < j ==> !Duplicate(objects[k], objects[j]))
              && Trimmed(objects[j].name) != "" && objects[j].increment >= 0.0 && PriorityFits(objects[j])
              && (IsMultiStateName(Canonical(objects[j].typeName).value) ==>
                    forall part: ObjectSlot :: !StatesFaulty(objects[j], part))
  {
    hide Canonical;
    hide Duplicate;
    hide Trimmed;
    hide IsMultiStateName;
    if ObjectClean(objects, j) {
      assert !ObjectFaulty(objects, j, Instance) && !ObjectFaulty(objects, j, ObjectName);
      assert !ObjectFaulty(objects, j, CovIncrement) && !ObjectFaulty(objects, j, InitialPriority);
      assert !ObjectFaulty(objects, j, NumberOfStates);
      assert !ObjectFaulty(objects, j, PresentValue) && !ObjectFaulty(objects, j, RelinquishDefault);
    }
  }

  lemma CleanIsKnown(objects: seq<ObjectSpec>, j: nat)
    requires j < |objects| && ObjectClean(objects, j)
    ensures KindOf(objects[j].typeName).Some?
  {
    hide KindOf;
    hide Canonical;
    CanonicalIsKindName(objects[j].typeName);
    assert !ObjectFaulty(objects, j, Type);
  }

  lemma ObjectsAgree(objects: seq<ObjectSpec>)
    ensures ObjectsFit(objects) <==>
              forall j :: 0 <= j < |objects| ==> ObjectClean(objects, j) && ObjectNormalizes(objects[j])
  {
    hide KindOf;
    hide ObjectClean;
    hide ObjectNormalizes;
    if forall j :: 0 <= j < |objects| ==> ObjectClean(objects, j) && ObjectNormalizes(objects[j]) {
      forall j | 0 <= j < |objects| ensures KindOf(objects[j].typeName).Some? { CleanIsKnown(objects, j); }
      forall j | 0 <= j < |objects|
        ensures ObjectFits(objects[j]) && forall k :: 0 <= k < j ==> KeyOf(objects[k]) != KeyOf(objects[j])
      {
        ObjectAgrees(objects, j);
      }
    } else if ObjectsFit(objects) {
      forall j | 0 <= j < |objects| ensures ObjectClean(objects, j) && ObjectNormalizes(objects[j]) {
        ObjectAgrees(objects, j);
      }
    }
  }

  ghost predicate DeviceClean(s: ScenarioSpec, i: nat)
    requires i < |s.devices|
  {
    && (forall slot: DeviceSlot :: !DeviceFaulty(s, i, slot))
    && (forall j :: 0 <= j < |s.devices[i].objects| ==> ObjectClean(s.devices[i].objects, j))
  }

  lemma DeviceSlots(s: ScenarioSpec, i: nat)
    requires i < |s.devices|
    ensures (forall slot: DeviceSlot :: !DeviceFaulty(s, i, slot))
       <==> (&& s.devices[i].id <= MAX_INSTANCE && Trimmed(s.devices[i].name) != ""
             && (s.mode == "multi-ip" ==> Trimmed(s.devices[i].address) != "")
             && forall k :: 0 <= k < i ==> !Clash(s.mode, s.devices[k], s.devices[i]))
  {
    hide Trimmed;
    hide EndpointText;
    if forall slot: DeviceSlot :: !DeviceFaulty(s, i, slot) {
      assert !DeviceFaulty(s, i, Id) && !DeviceFaulty(s, i, Name);
      assert !DeviceFaulty(s, i, Address) && !DeviceFaulty(s, i, Port);
    }
  }

  lemma NoFaultIffClean(s: ScenarioSpec)
    ensures (forall f: Field :: !Faulty(s, f))
       <==> (&& s.version == 1 && KnownMode(s.mode) && s.devices != []
             && (s.mode == "single-device" ==> |s.devices| == 1)
             && forall i :: 0 <= i < |s.devices| ==> DeviceClean(s, i))
  {
    hide DeviceFaulty;
    hide ObjectFaulty;
    hide KnownMode;
    if forall f: Field :: !Faulty(s, f) {
      assert !Faulty(s, Version) && !Faulty(s, NetworkMode) && !Faulty(s, Devices);
      forall i | 0 <= i < |s.devices| ensures DeviceClean(s, i) {
        forall slot: DeviceSlot ensures !DeviceFaulty(s, i, slot) { assert !Faulty(s, DeviceField(i, slot)); }
        forall j | 0 <= j < |s.devices[i].objects| ensures ObjectClean(s.devices[i].objects, j) {
          forall part: ObjectSlot ensures !ObjectFaulty(s.devices[i].objects, j, part) {
            assert !Faulty(s, ObjectField(i, j, part));
          }
        }
      }
    } else {
      var f: Field :| Faulty(s, f);
      if f.DeviceField? {
        assert DeviceFaulty(s, f.device, f.slot) && !DeviceClean(s, f.device);
      } else if f.ObjectField? {
        assert ObjectFaulty(s.devices[f.device].objects, f.object_, f.part);
        assert !ObjectClean(s.devices[f.device].objects, f.object_);
        assert !DeviceClean(s, f.device);
      }
    }
  }

  /** Validate accepts a scenario exactly when FieldErrors finds no fault and every configured
      value normalizes. */
  lemma ValidatorsAgree(s: ScenarioSpec)
    ensures ScenarioFits(s) <==> (forall f: Field :: !Faulty(s, f)) && AllNormalize(s)
  {
    hide Faulty;
    hide DeviceFaulty;
    hide ObjectsFit;
    hide ObjectClean;
    hide ObjectNormalizes;
    hide Clash;
    hide KnownMode;
    hide Trimmed;
    NoFaultIffClean(s);
    forall i | 0 <= i < |s.devices|
      ensures (&& DeviceClean(s, i)
               && forall j :: 0 <= j < |s.devices[i].objects| ==> ObjectNormalizes(s.devices[i].objects[j]))
         <==> DeviceFits(s.mode, s.devices[i]) && forall k :: 0 <= k < i ==> !Clash(s.mode, s.devices[k], s.devices[i])
    {
      DeviceSlots(s, i);
      ObjectsAgree(s.devices[i].objects);
    }
  }

  // ---- The loops ---------------------------------------------------------

  /** The object loop of Validate: it stops at the first object that does not fit or repeats one. */
  method ValidateObjects(objects: seq<ObjectSpec>, device: Uint32) returns (ok: bool)
    ensures ok <==> ObjectsFit(objects)
  {
    hide ObjectFits;
    hide KindOf;
    var seen := {ObjectKey(DEVICE_TYPE, device)};
    for j := 0 to |objects|
      invariant forall k :: 0 <= k < j ==> ObjectFits(objects[k]) && KindOf(objects[k].typeName).Some?
      invariant forall k, l :: 0 <= k < l < j ==> KeyOf(objects[k]) != KeyOf(objects[l])
      invariant seen == {ObjectKey(DEVICE_TYPE, device)} + set k | 0 <= k < j :: KeyOf(objects[k])
    {
      if !ObjectFits(objects[j]) {
        return false;
      }
      KindIsKnown(objects[j]);
      var key := KeyOf(objects[j]);
      if key in seen {
        var k :| 0 <= k < j && KeyOf(objects[k]) == key;
        return false;
      }
      seen := seen + {key};
    }
    return true;
  }

  /** An object of a scenario is never a device, so it never repeats the device object. */
  lemma KindIsKnown(o: ObjectSpec)
    requires ObjectFits(o)
    ensures KindOf(o.typeName).Some? && KeyOf(o).kind != DEVICE_TYPE
  {
    hide Trimmed;
  }

  method ValidateDevice(mode: string, d: DeviceSpec) returns (ok: bool)
    ensures ok <==> DeviceFits(mode, d)
  {
    hide ObjectsFit;
    hide Trimmed;
    if d.id > MAX_INSTANCE || Trimmed(d.name) == "" || (mode == "multi-ip" && Trimmed(d.address) == "") {
      return false;
    }
    ok := ValidateObjects(d.objects, d.id);
  }

  /** The identifiers and endpoints of the first `i` devices. */
  ghost predicate Collected(s: ScenarioSpec, i: nat, ids: set<Uint32>, endpoints: set<string>) {
    && i <= |s.devices|
    && ids == (set k | 0 <= k < i :: s.devices[k].id)
    && endpoints == (set k | 0 <= k < i :: EndpointText(s.devices[k]))
  }

  lemma CollectedClash(s: ScenarioSpec, i: nat, ids: set<Uint32>, endpoints: set<string>)
    requires Collected(s, i, ids, endpoints) && i < |s.devices|
    ensures s.devices[i].id in ids || (s.mode != "single-device" && EndpointText(s.devices[i]) in endpoints)
       <==> exists k :: 0 <= k < i && Clash(s.mode, s.devices[k], s.devices[i])
    ensures Collected(s, i + 1, ids + {s.devices[i].id}, endpoints + {EndpointText(s.devices[i])})
  {
    hide EndpointText;
    if s.devices[i].id in ids {
      var k :| 0 <= k < i && s.devices[k].id == s.devices[i].id;
      assert Clash(s.mode, s.devices[k], s.devices[i]);
    } else if s.mode != "single-device" && EndpointText(s.devices[i]) in endpoints {
      var k :| 0 <= k < i && EndpointText(s.devices[k]) == EndpointText(s.devices[i]);
      assert Clash(s.mode, s.devices[k], s.devices[i]);
    }
  }

  /** Scenario.Validate: the first fault ends it. */
  method Validate(s: ScenarioSpec) returns (ok: bool)
    ensures ok <==> ScenarioFits(s)
  {
    hide DeviceFits;
    hide EndpointText;
    hide KnownMode;
    hide Clash;
    hide Collected;
    var single := s.mode == "single-device";
    if s.version != 1 || !KnownMode(s.mode) || s.devices == [] || (single && |s.devices| != 1) {
      return false;
    }
    var ids, endpoints: set<string> := {}, {};
    assert Collected(s, 0, ids, endpoints) by { NothingCollected(s); }
    for i := 0 to |s.devices|
      invariant Collected(s, i, ids, endpoints)
      invariant forall k :: 0 <= k < i ==> DeviceFits(s.mode, s.devices[k])
      invariant forall k, l :: 0 <= k < l < i ==> !Clash(s.mode, s.devices[k], s.devices[l])
    {
      var d := s.devices[i];
      CollectedClash(s, i, ids, endpoints);
      if d.id in ids || (!single && EndpointText(d) in endpoints) {
        return false;
      }
      ids, endpoints := ids + {d.id}, endpoints + {EndpointText(d)};
      var fits := ValidateDevice(s.mode, d);
      if !fits {
        return false;
      }
    }
    return true;
  }

  lemma NothingCollected(s: ScenarioSpec)
    ensures Collected(s, 0, {}, {})
  {
    hide EndpointText;
  }

  /** The checks FieldErrors makes of one object, `seen` holding the objects before it. */
  method ObjectErrors(objects: seq<ObjectSpec>, j: nat, seen: set<string>) returns (parts: set<ObjectSlot>)
    requires j < |objects|
    requires seen == set k | 0 <= k < j && Canonical(objects[k].typeName).Some? :: ObjectText(objects[k])
    ensures forall part :: part in parts <==> ObjectFaulty(objects, j, part)
  {
    hide Canonical;
    hide Trimmed;
    hide Natural;
    hide IsMultiStateName;
    hide ObjectText;
    var o := objects[j];
    var canon := Canonical(o.typeName);
    if canon.None? {
      return {Type};
    }
    SeenIffDuplicate(objects, j, seen);
    parts := {};
    if o.instance > MAX_INSTANCE || ObjectText(o) in seen {
      parts := parts + {Instance};
    }
    if Trimmed(o.name) == "" {
      parts := parts + {ObjectName};
    }
    if o.increment < 0.0 {
      parts := parts + {CovIncrement};
    }
    if o.initialPriority != 0 {
      if !o.commandable || o.presentValue.Absent? || o.initialPriority > 16 || o.initialPriority == 6 {
        parts := parts + {InitialPriority};
      }
    }
    if IsMultiStateName(canon.value) {
      if o.numberOfStates == 0 {
        parts := parts + {NumberOfStates};
      } else {
        if Exceeds(o.presentValue, o.numberOfStates) {
          parts := parts + {PresentValue};
        }
        if o.commandable && !o.relinquishDefault.Absent? && Exceeds(o.relinquishDefault, o.numberOfStates) {
          parts := parts + {RelinquishDefault};
        }
      }
    }
  }

  lemma SeenIffDuplicate(objects: seq<ObjectSpec>, j: nat, seen: set<string>)
    requires j < |objects| && Canonical(objects[j].typeName).Some?
    requires seen == set k | 0 <= k < j && Canonical(objects[k].typeName).Some? :: ObjectText(objects[k])
    ensures ObjectText(objects[j]) in seen <==> exists k :: 0 <= k < j && Duplicate(objects[k], objects[j])
  {
    hide Canonical;
    hide ObjectText;
  }

  /** The object loop: it goes on past every fault. */
  method DeviceObjectErrors(s: ScenarioSpec, i: nat) returns (errs: set<Field>)
    requires i < |s.devices|
    ensures forall f :: f in errs <==> f.ObjectField? && f.device == i && Faulty(s, f)
  {
    hide ObjectFaulty;
    hide Canonical;
    hide ObjectText;
    var objects := s.devices[i].objects;
    var seen := {};
    errs := {};
    for j := 0 to |objects|
      invariant seen == set k | 0 <= k < j && Canonical(objects[k].typeName).Some? :: ObjectText(objects[k])
      invariant forall f :: f in errs <==> f.ObjectField? && f.device == i && f.object_ < j && Faulty(s, f)
    {
      var parts := ObjectErrors(objects, j, seen);
      errs := errs + set part | part in parts :: ObjectField(i, j, part);
      if Canonical(objects[j].typeName).Some? {
        seen := seen + {ObjectText(objects[j])};
      }
    }
  }

  method DeviceErrors(s: ScenarioSpec, i: nat, ids: set<Uint32>, endpoints: set<string>) returns (errs: set<Field>)
    requires i < |s.devices| && Collected(s, i, ids, endpoints)
    ensures forall f :: f in errs <==> (f.DeviceField? || f.ObjectField?) && f.device == i && Faulty(s, f)
  {
    hide ObjectFaulty;
    hide Trimmed;
    hide EndpointText;
    var d := s.devices[i];
    errs := DeviceObjectErrors(s, i);
    if d.id > MAX_INSTANCE || d.id in ids {
      errs := errs + {DeviceField(i, Id)};
    }
    if Trimmed(d.name) == "" {
      errs := errs + {DeviceField(i, Name)};
    }
    if s.mode == "multi-ip" && Trimmed(d.address) == "" {
      errs := errs + {DeviceField(i, Address)};
    }
    if s.mode != "single-device" && EndpointText(d) in endpoints {
      errs := errs + {DeviceField(i, Port)};
    }
  }

  /** FieldErrors: exactly the faulty fields, all of them. */
  method FieldErrors(s: ScenarioSpec) returns (errs: set<Field>)
    ensures forall f :: f in errs <==> Faulty(s, f)
  {
    hide DeviceFaulty;
    hide ObjectFaulty;
    hide Collected;
    hide KnownMode;
    hide EndpointText;
    errs := {};
    if s.version != 1 {
      errs := errs + {Version};
    }
    if !KnownMode(s.mode) {
      errs := errs + {NetworkMode};
    }
    if s.devices == [] || (s.mode == "single-device" && |s.devices| != 1) {
      errs := errs + {Devices};
    }
    var ids, endpoints: set<string> := {}, {};
    NothingCollected(s);
    for i := 0 to |s.devices|
      invariant Collected(s, i, ids, endpoints)
      invariant forall f :: f in errs <==> (f.DeviceField? || f.ObjectField? ==> f.device < i) && Faulty(s, f)
    {
      var more := DeviceErrors(s, i, ids, endpoints);
      CollectedClash(s, i, ids, endpoints);
      errs := errs + more;
      ids, endpoints := ids + {s.devices[i].id}, endpoints + {EndpointText(s.devices[i])};
    }
  }
}
