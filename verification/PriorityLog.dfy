/** Command prioritization (section 19.2 of ASHRAE 135) as a refinement: the slots of a
    commandable property are a function of the log of writes made to the device. */
module PriorityLog {
  import opened Octets
  import opened Model

  /** A whole run of WriteProperty requests; refused ones change nothing. */
  function Run(d: DeviceState, ws: seq<Write>): (e: DeviceState)
    requires ValidDevice(d)
    ensures ValidDevice(e)
    decreases |ws|
  {
    if ws == [] then d else WriteProperty(Run(d, ws[..|ws| - 1]), ws[|ws| - 1]).device
  }

  predicate Commandable(d: DeviceState, key: ObjectKey, id: Uint32) {
    key in d.objects && id in d.objects[key].properties && d.objects[key].properties[id].shape.fallback.Some?
  }

  /** The write commands slot `priority` of the property, judged on the device at the start. */
  predicate Commands(d: DeviceState, w: Write, key: ObjectKey, id: Uint32, priority: Byte)
    requires Commandable(d, key, id)
  {
    && w.key == key && w.property == id
    && ValidateWrite(d, w).None?
    && Resolved(d.objects[key].properties[id].shape, w.priority) == priority
  }

  /** What the log says slot `priority` holds: the last command to it, empty if that was NULL. */
  function LoggedSlot(d: DeviceState, ws: seq<Write>, key: ObjectKey, id: Uint32, priority: Byte): (v: Option<Value>)
    requires ValidDevice(d) && Commandable(d, key, id) && 1 <= priority <= 16
  {
    if ws == [] then d.objects[key].properties[id].slots[priority - 1]
    else
      var last := ws[|ws| - 1];
      if Commands(d, last, key, id, priority) && last.values != [] then SlotValue(last.values[0])
      else LoggedSlot(d, ws[..|ws| - 1], key, id, priority)
  }

  lemma {:induction false} RunKeepsShape(d: DeviceState, ws: seq<Write>)
    requires ValidDevice(d)
    ensures SameShape(d, Run(d, ws))
    decreases |ws|
  {
    hide WriteProperty;
    if ws != [] {
      RunKeepsShape(d, ws[..|ws| - 1]);
      WritesKeepShape(d, Run(d, ws[..|ws| - 1]), ws[|ws| - 1]);
    }
  }

  /** Whether a commandable property takes a write never changes: no bypass applies to it. */
  lemma AcceptanceIsFixed(d: DeviceState, e: DeviceState, w: Write)
    requires SameShape(d, e) && Commandable(d, w.key, w.property)
    ensures ValidateWrite(e, w) == ValidateWrite(d, w)
  {
    hide CheckWrite;
  }

  lemma CommandSetsSlot(e: DeviceState, w: Write)
    requires ValidDevice(e) && Commandable(e, w.key, w.property)
    ensures var p := e.objects[w.key].properties[w.property];
            var q := WriteProperty(e, w).device.objects[w.key].properties[w.property];
            if ValidateWrite(e, w).None?
            then w.values != [] && q.slots == p.slots[Resolved(p.shape, w.priority) - 1 := SlotValue(w.values[0])]
            else q.slots == p.slots
  {
    hide CheckValues;
  }

  /** Slot by slot, a commandable property is its write log. */
  lemma {:induction false} SlotsAreTheLog(d: DeviceState, ws: seq<Write>, key: ObjectKey, id: Uint32, priority: Byte)
    requires ValidDevice(d) && Commandable(d, key, id) && 1 <= priority <= 16
    ensures Commandable(Run(d, ws), key, id)
    ensures Run(d, ws).objects[key].properties[id].slots[priority - 1] == LoggedSlot(d, ws, key, id, priority)
    decreases |ws|
  {
    hide WriteProperty;
    hide ValidateWrite;
    RunKeepsShape(d, ws);
    if ws != [] {
      var w, e := ws[|ws| - 1], Run(d, ws[..|ws| - 1]);
      SlotsAreTheLog(d, ws[..|ws| - 1], key, id, priority);
      RunKeepsShape(d, ws[..|ws| - 1]);
      if w.key == key && w.property == id {
        AcceptanceIsFixed(d, e, w);
        CommandSetsSlot(e, w);
        if ValidateWrite(d, w).None? {
          AcceptedPriority(d, w);
        }
      } else {
        WriteTouchesOneProperty(e, w, key, id);
      }
    }
  }

  lemma AcceptedPriority(d: DeviceState, w: Write)
    requires Commandable(d, w.key, w.property) && ValidateWrite(d, w).None?
    ensures var p := Resolved(d.objects[w.key].properties[w.property].shape, w.priority); 1 <= p <= 16 && p != 6
  {
    hide CheckValues;
  }

  /** Slot 6 (minimum on/off) is never commanded: in every run it keeps what it had. */
  lemma {:induction false} SlotSixIsNeverCommanded(d: DeviceState, ws: seq<Write>, key: ObjectKey, id: Uint32)
    requires ValidDevice(d) && Commandable(d, key, id)
    ensures Commandable(Run(d, ws), key, id)
    ensures Run(d, ws).objects[key].properties[id].slots[5] == d.objects[key].properties[id].slots[5]
    decreases |ws|
  {
    SlotsAreTheLog(d, ws, key, id, 6);
    SixIsNotLogged(d, ws, key, id);
  }

  lemma {:induction false} SixIsNotLogged(d: DeviceState, ws: seq<Write>, key: ObjectKey, id: Uint32)
    requires ValidDevice(d) && Commandable(d, key, id)
    ensures LoggedSlot(d, ws, key, id, 6) == d.objects[key].properties[id].slots[5]
    decreases |ws|
  {
    hide ValidateWrite;
    if ws != [] {
      var w := ws[|ws| - 1];
      if w.key == key && w.property == id && ValidateWrite(d, w).None? {
        AcceptedPriority(d, w);
      }
      SixIsNotLogged(d, ws[..|ws| - 1], key, id);
    }
  }

  // ---- Present_Value, Priority_Array and Relinquish_Default ---------------

  predicate NoNullCommand(slots: seq<Option<Value>>) {
    forall i :: 0 <= i < |slots| && slots[i].Some? ==> !slots[i].value.Null?
  }

  /** No slot ever holds NULL: a NULL write empties it. */
  lemma CommandsStayNonNull(e: DeviceState, w: Write, key: ObjectKey, id: Uint32)
    requires ValidDevice(e) && Commandable(e, key, id) && NoNullCommand(e.objects[key].properties[id].slots)
    ensures NoNullCommand(WriteProperty(e, w).device.objects[key].properties[id].slots)
  {
    hide WriteProperty;
    hide ValidateWrite;
    if w.key == key && w.property == id {
      CommandSetsSlot(e, w);
      if ValidateWrite(e, w).None? {
        AcceptedPriority(e, w);
      }
    } else {
      WriteTouchesOneProperty(e, w, key, id);
    }
  }

  lemma {:induction false} RunKeepsNonNull(d: DeviceState, ws: seq<Write>, key: ObjectKey, id: Uint32)
    requires ValidDevice(d) && Commandable(d, key, id) && NoNullCommand(d.objects[key].properties[id].slots)
    ensures Commandable(Run(d, ws), key, id) && NoNullCommand(Run(d, ws).objects[key].properties[id].slots)
    decreases |ws|
  {
    hide WriteProperty;
    RunKeepsShape(d, ws);
    if ws != [] {
      RunKeepsNonNull(d, ws[..|ws| - 1], key, id);
      CommandsStayNonNull(Run(d, ws[..|ws| - 1]), ws[|ws| - 1], key, id);
    }
  }

  /** The first element that is not NULL, or the fallback. */
  function FirstNonNull(vs: seq<Value>, fallback: Value): (v: Value)
  {
    if vs == [] then fallback else if !vs[0].Null? then vs[0] else FirstNonNull(vs[1..], fallback)
  }

  lemma {:induction false} ArrayShowsFirstCommand(slots: seq<Option<Value>>, fallback: Value)
    requires NoNullCommand(slots)
    ensures FirstNonNull(PriorityArray(slots), fallback)
         == match FirstCommand(slots) case Some(v) => v case None => fallback
  {
    if slots != [] {
      assert PriorityArray(slots)[1..] == PriorityArray(slots[1..]);
      ArrayShowsFirstCommand(slots[1..], fallback);
    }
  }

  /** After every run, what a client reads is consistent: Present_Value is the first
      non-NULL element of Priority_Array, or Relinquish_Default when there is none. */
  lemma PresentValueIsFirstCommand(d: DeviceState, ws: seq<Write>, key: ObjectKey)
    requires ValidDevice(d) && Commandable(d, key, PRESENT_VALUE)
    requires NoNullCommand(d.objects[key].properties[PRESENT_VALUE].slots)
    requires PRIORITY_ARRAY !in d.objects[key].properties && RELINQUISH_DEFAULT !in d.objects[key].properties
    ensures var e := Run(d, ws);
            var array_ := ReadProperty(e, key, PRIORITY_ARRAY, None);
            var fallback := ReadProperty(e, key, RELINQUISH_DEFAULT, None);
            && array_.Read? && |array_.values| == 16
            && fallback.Read? && |fallback.values| == 1
            && ReadProperty(e, key, PRESENT_VALUE, None) == Read([FirstNonNull(array_.values, fallback.values[0])])
  {
    hide WriteProperty;
    hide Run;
    var e := Run(d, ws);
    RunKeepsShape(d, ws);
    RunKeepsNonNull(d, ws, key, PRESENT_VALUE);
    var p := e.objects[key].properties[PRESENT_VALUE];
    ArrayShowsFirstCommand(p.slots, p.shape.fallback.value);
  }
}
