/** The objects of simulator/model.go: properties, objects and the device change in place,
    and every method is tied to the function of Model.dfy that computes its effect. */
module Device {
  import opened Octets
  import opened Model

  class Property {
    const shape: Shape
    var values: seq<Value>
    var slots: seq<Option<Value>>

    ghost predicate Valid()
      reads this
    {
      |slots| == PRIORITY_SLOTS
    }

    function State(): (p: PropertyState)
      reads this
    {
      PropertyState(shape, values, slots)
    }

    constructor (p: PropertyState)
      requires ValidProperty(p)
      ensures Valid() && State() == p
    {
      shape, values, slots := p.shape, p.values, p.slots;
    }

    /** effectiveValues: scan the priorities for the first command. */
    method EffectiveValues() returns (r: seq<Value>)
      requires Valid()
      ensures r == Effective(State())
    {
      if shape.fallback.None? {
        return values;
      }
      for i := 0 to |slots|
        invariant FirstCommand(slots) == FirstCommand(slots[i..])
      {
        if slots[i].Some? {
          return [slots[i].value];
        }
        assert slots[i..][1..] == slots[i + 1..];
      }
      return [shape.fallback.value];
    }

    method ReadValues(index: Option<Uint32>) returns (r: Reading)
      requires Valid()
      ensures r == ReadState(State(), index)
    {
      var effective := EffectiveValues();
      if index.None? {
        return Read(effective);
      }
      if !shape.isArray {
        return Unread(NotArray);
      }
      if index.value == 0 {
        return Read([Unsigned(|effective| % 0x1_0000_0000)]);
      }
      if index.value == ARRAY_ALL {
        return Read(effective);
      }
      if index.value > |effective| {
        return Unread(InvalidArrayIndex);
      }
      return Read([effective[index.value - 1]]);
    }

    /** apply: the mutation a passed validation approves. */
    method Apply(newValues: seq<Value>, priority: Byte)
      requires Valid() && newValues != []
      requires shape.fallback.Some? ==> 1 <= Resolved(shape, priority) <= 16
      modifies this
      ensures Valid() && State() == Applied(old(State()), newValues, priority)
    {
      if shape.fallback.Some? {
        var slot := Resolved(shape, priority) - 1;
        if newValues[0].Null? {
          slots := slots[slot := None];
        } else {
          slots := slots[slot := Some(newValues[0])];
        }
        return;
      }
      values := newValues;
    }

    /** Write and writeBypassingWritable, which passes `writable` as true. */
    method WriteAllowing(newValues: seq<Value>, priority: Byte, writable: bool) returns (e: Option<Error>)
      requires Valid()
      modifies this
      ensures Valid() && e == CheckWrite(shape, newValues, priority, writable)
      ensures State() == if e.Some? then old(State()) else Applied(old(State()), newValues, priority)
    {
      e := CheckWrite(shape, newValues, priority, writable);
      if e.None? {
        Apply(newValues, priority);
      }
    }
  }

  class SimObject {
    const key: ObjectKey
    var properties: map<Uint32, Property>
    var outOfService: bool

    /** No two property numbers share a property. */
    ghost predicate Valid()
      reads this, properties.Values
    {
      && (forall p <- properties :: properties[p].Valid())
      && (forall p <- properties, q <- properties :: properties[p] == properties[q] ==> p == q)
    }

    ghost function Repr(): (r: set<object>)
      reads this
    {
      {this} + properties.Values
    }

    function State(): (o: ObjectState)
      reads this, properties.Values
      ensures Valid() ==> ValidObject(o)
    {
      ObjectState(key, map p | p in properties :: properties[p].State(), outOfService)
    }

    constructor (key: ObjectKey, properties: map<Uint32, Property>, outOfService: bool)
      requires forall p <- properties :: properties[p].Valid()
      requires forall p <- properties, q <- properties :: properties[p] == properties[q] ==> p == q
      ensures Valid() && Repr() == {this} + properties.Values
      ensures State() == ObjectState(key, map p | p in properties :: properties[p].State(), outOfService)
    {
      this.key, this.properties, this.outOfService := key, properties, outOfService;
    }

    method ReadProperty(property: Uint32, index: Option<Uint32>) returns (r: Reading)
      requires Valid()
      ensures r == if property in State().properties then ReadState(State().properties[property], index)
                   else match Synthesized(State(), property)
                     case Some(p) => ReadState(p, index)
                     case None => Unread(UnknownProperty)
    {
      if property !in properties {
        var synthesized := Synthesized(State(), property);
        return if synthesized.Some? then ReadState(synthesized.value, index) else Unread(UnknownProperty);
      }
      r := properties[property].ReadValues(index);
    }

    method Write(w: Write) returns (e: Option<Error>)
      requires Valid()
      modifies Repr()
      ensures Valid() && properties == old(properties)
      ensures ObjectOutcome(State(), e) == WriteObject(old(State()), w)
    {
      if w.property !in properties {
        e := WriteSynthesized(w);
      } else {
        e := WriteStored(w);
      }
    }

    method WriteStored(w: Write) returns (e: Option<Error>)
      requires Valid() && w.property in properties
      modifies properties[w.property]
      ensures Valid() && properties == old(properties)
      ensures ObjectOutcome(State(), e) == WriteObject(old(State()), w)
    {
      var p := properties[w.property];
      var bypass := w.property == PRESENT_VALUE && outOfService && p.shape.fallback.None?;
      ghost var before := State();
      e := p.WriteAllowing(w.values, w.priority, bypass || p.shape.writable);
      assert State().properties == before.properties[w.property := p.State()];
    }

    /** writeSynthesizedProperty: of the synthesized properties only Out_Of_Service takes a write. */
    method WriteSynthesized(w: Write) returns (e: Option<Error>)
      requires Valid() && w.property !in properties
      modifies this`outOfService
      ensures Valid()
      ensures ObjectOutcome(State(), e) == WriteObject(old(State()), w)
    {
      var synthesized := Synthesized(State(), w.property);
      if synthesized.None? {
        return Some(UnknownProperty);
      }
      if w.property != OUT_OF_SERVICE {
        return Some(WriteDenied);
      }
      var s := synthesized.value.shape;
      e := CheckWrite(s, w.values, w.priority, s.writable);
      if e.None? {
        ghost var before := State();
        outOfService := w.values[0].Boolean? && w.values[0].flag;
        assert State().properties == before.properties;
      }
    }
  }

  class Device {
    const id: Uint32
    var objects: map<ObjectKey, SimObject>
    ghost var repr: set<object>

    /** No two objects share anything. */
    ghost predicate Valid()
      reads this, repr
    {
      && this in repr
      && (forall k <- objects :: objects[k] in repr && objects[k].Repr() <= repr - {this} && objects[k].Valid())
      && (forall k <- objects, l <- objects :: k != l ==> objects[k].Repr() !! objects[l].Repr())
    }

    function State(): (d: DeviceState)
      reads this, repr
      requires Valid()
      ensures ValidDevice(d)
    {
      DeviceState(id, map k | k in objects :: objects[k].State())
    }

    constructor (id: Uint32, objects: map<ObjectKey, SimObject>, ghost parts: set<object>)
      requires forall k <- objects :: objects[k] in parts && objects[k].Repr() <= parts && objects[k].Valid()
      requires forall k <- objects, l <- objects :: k != l ==> objects[k].Repr() !! objects[l].Repr()
      ensures Valid() && repr == {this} + parts && this.id == id && this.objects == objects
      ensures State() == DeviceState(id, map k | k in objects :: objects[k].State())
    {
      this.id, this.objects := id, objects;
      repr := {this} + parts;
    }

    method ReadProperty(key: ObjectKey, property: Uint32, index: Option<Uint32>) returns (r: Reading)
      requires Valid()
      ensures r == Model.ReadProperty(State(), key, property, index)
    {
      hide ReadState;
      if key !in objects {
        return Unread(UnknownObject);
      }
      r := objects[key].ReadProperty(property, index);
    }

    method WriteProperty(w: Write) returns (e: Option<Error>)
      requires Valid()
      modifies repr - {this}
      ensures Valid() && repr == old(repr) && objects == old(objects)
      ensures Outcome(State(), e) == Model.WriteProperty(old(State()), w)
    {
      hide WriteObject;
      hide ValidObject;
      hide SimObject.State;
      hide SimObject.Valid;
      if w.key !in objects {
        return Some(UnknownObject);
      }
      ghost var before := State();
      e := objects[w.key].Write(w);
      assert forall k <- objects :: k != w.key ==> objects[k].State() == before.objects[k];
      assert State().objects == before.objects[w.key := objects[w.key].State()];
    }

    /** The same checks, changing nothing. */
    method ValidateWrite(w: Write) returns (e: Option<Error>)
      requires Valid()
      ensures e == Model.ValidateWrite(State(), w)
    {
      if w.key !in objects {
        return Some(UnknownObject);
      }
      var o := objects[w.key];
      if w.property !in o.properties {
        var synthesized := Synthesized(o.State(), w.property);
        if synthesized.None? {
          return Some(UnknownProperty);
        }
        if w.property != OUT_OF_SERVICE {
          return Some(WriteDenied);
        }
        var s := synthesized.value.shape;
        return CheckWrite(s, w.values, w.priority, s.writable);
      }
      var s := o.properties[w.property].shape;
      var bypass := w.property == PRESENT_VALUE && o.outOfService && s.fallback.None?;
      return CheckWrite(s, w.values, w.priority, bypass || s.writable);
    }
  }
}
