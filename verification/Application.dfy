/** The service handlers of simulator/application.go on decoded requests: what each one
    replies, and how it moves the device and the two subscription tables. */
module Application {
  import opened Octets
  import opened Model
  import opened WriteBatch
  import opened Cov
  import opened Subscriptions
  import opened Replies
  import opened Turns
  import Device

  class Application {
    const device: Device.Device
    const registry: SubscriptionRegistry
    var subscribers: map<SubscriptionKey, Endpoint>
    var invokeId: Byte

    ghost predicate Valid()
      reads this, registry, device, device.repr
    {
      device.Valid() && this !in device.repr && registry !in device.repr
    }

    ghost function State(): (s: AppState)
      reads this, registry, device, device.repr
      requires Valid()
      ensures ValidDevice(s.device)
    {
      AppState(device.State(), registry.items, subscribers)
    }

    constructor (device: Device.Device)
      requires device.Valid()
      ensures Valid() && this.device == device && fresh(registry) && invokeId == 0
      ensures State() == AppState(device.State(), map[], map[])
    {
      this.device := device;
      registry := new SubscriptionRegistry();
      subscribers := map[];
      invokeId := 0;
    }

    method NextInvokeId() returns (id: Byte)
      modifies this`invokeId
      ensures id == invokeId == IdAfter(old(invokeId), 1)
    {
      var next := (invokeId + 1) % 256;
      invokeId := if next == 0 then 1 else next;
      id := invokeId;
    }

    /** Prune both tables and list what is left. */
    method ActiveSubscriptions(now: Instant) returns (keys: seq<SubscriptionKey>)
      modifies registry, this`subscribers
      ensures registry.items == Pruned(old(registry.items), now)
      ensures subscribers == map k | k in old(subscribers) && k in registry.items :: old(subscribers)[k]
      ensures Lists(keys, registry.items.Keys)
    {
      keys := registry.Active(now);
      var todo := subscribers.Keys;
      while todo != {}
        invariant registry.items == Pruned(old(registry.items), now)
        invariant todo <= subscribers.Keys <= old(subscribers).Keys
        invariant forall k <- subscribers :: subscribers[k] == old(subscribers)[k]
        invariant forall k <- old(subscribers) :: k in subscribers <==> k in todo || k in registry.items
      {
        var key :| key in todo;
        if key !in keys {
          subscribers := subscribers - {key};
        }
        todo := todo - {key};
      }
    }

    /** The notification of one subscription, as it stood when it was listed. */
    method Notification(key: SubscriptionKey, item: Subscription, to: Endpoint, values: seq<Value>,
          now: Instant) returns (n: Reply)
      modifies this`invokeId
      ensures n == Notice(key, to, if item.confirmed then Some(invokeId) else None, TimeRemaining(item, now), values)
      ensures invokeId == if item.confirmed then IdAfter(old(invokeId), 1) else old(invokeId)
    {
      var remaining := 0;
      if item.expires.Some? && item.expires.value > now {
        remaining := (item.expires.value - now + SECOND - 1) / SECOND;
      }
      if item.confirmed {
        var id := NextInvokeId();
        return Notice(key, to, Some(id), remaining, values);
      }
      return Notice(key, to, None, remaining, values);
    }

    /** covChanged and the endpoint lookup of one listed subscription: what it is due. */
    method DueValues(key: SubscriptionKey, item: Subscription, object_: ObjectKey) returns (due: Option<seq<Value>>)
      requires Valid()
      ensures due.Some? <==> key in subscribers && key.object_ == object_ && Due(device.State(), key, item)
      ensures due.Some? ==> due.value == PresentValue(device.State(), object_)
    {
      if key.object_ != object_ || key !in subscribers {
        return None;
      }
      var reading := device.ReadProperty(object_, PRESENT_VALUE, None);
      if reading.Unread? {
        return None;
      }
      var state := device.State();
      return if Changed(Increment(state, object_), item.last, reading.values) then Some(reading.values) else None;
    }

    /** The loop body of `notifications`: notify one subscription if it is due. */
    method Report(key: SubscriptionKey, item: Subscription, object_: ObjectKey, now: Instant) returns (n: Option<Reply>)
      requires Valid()
      modifies registry, this`invokeId
      ensures Valid() && device.State() == old(device.State())
      ensures n.Some? <==> key in subscribers && key.object_ == object_ && Due(device.State(), key, item)
      ensures n.Some? ==> n.value == Notice(key, subscribers[key], if item.confirmed then Some(invokeId) else None,
                                            TimeRemaining(item, now), PresentValue(device.State(), object_))
      ensures invokeId == if n.Some? && item.confirmed then IdAfter(old(invokeId), 1) else old(invokeId)
      ensures n.None? ==> registry.items == old(registry.items)
      ensures n.Some? && key in Pruned(old(registry.items), now) ==>
                var told := old(registry.items)[key].(last := n.value.values);
                registry.items == Pruned(old(registry.items), now)[key := told]
    {
      hide Pruned;
      hide TimeRemaining;
      hide IdAfter;
      hide Device.Device.Valid;
      hide Device.Device.State;
      var due := DueValues(key, item, object_);
      if due.None? {
        return None;
      }
      var notice := Notification(key, item, subscribers[key], due.value, now);
      var _ := registry.UpdateLastValue(key, due.value, now);
      n := Some(notice);
    }

    method Notifications(object_: ObjectKey, now: Instant) returns (rs: seq<Reply>)
      requires Valid()
      modifies this, registry
      ensures Valid() && State() == Notified(old(State()), object_, now)
      ensures Reports(old(State()), object_, now, rs)
      ensures Numbered(rs, old(invokeId)) && invokeId == IdAfter(old(invokeId), ConfirmedCount(rs))
      ensures rs == NoticesOf(old(State()), object_, now, old(invokeId))
    {
      hide Announces;
      hide Reported;
      hide Sorted;
      hide Told;
      hide Due;
      hide Progress;
      hide Reports;
      hide Numbered;
      hide IdAfter;
      hide TimeRemaining;
      hide Device.Device.Valid;
      hide Device.Device.State;
      ghost var before := State();
      ghost var start := invokeId;
      var active := ActiveSubscriptions(now);
      var items := registry.items;
      rs := [];
      ProgressStarts(before, object_, now);
      NumberedStarts(start);
      for i := 0 to |active|
        invariant Valid() && device.State() == before.device && subscribers == Activated(before, now).endpoints
        invariant Progress(before, object_, now, active[..i], rs, registry.items)
        invariant Numbered(rs, start) && invokeId == IdAfter(start, ConfirmedCount(rs))
      {
        var key := active[i];
        ghost var was := registry.items;
        var n := Report(key, items[key], object_, now);
        ProgressSteps(before, object_, now, active, i, rs, was, n);
        if n.Some? {
          IdSteps(start, ConfirmedCount(rs));
          NumberedNext(rs, n.value, start);
          rs := rs + [n.value];
        }
      }
      assert active[..|active|] == active;
      ProgressEnds(before, object_, now, active, rs, registry.items);
      ReportsAreNotices(before, object_, now, rs, start);
    }

    // -- Handlers --

    method HandleReadProperty(key: ObjectKey, property: Uint32, index: Option<Uint32>) returns (rs: seq<Reply>)
      requires Valid()
      ensures rs == [ReadReply(State().device, key, property, index)]
    {
      hide Model.ReadProperty;
      var reading := device.ReadProperty(key, property, index);
      return if reading.Read? then [Values(reading.values)] else [Failed(ClassCodeOf(reading.error))];
    }

    method HandleWriteProperty(w: BatchWrite, now: Instant) returns (rs: seq<Reply>)
      requires Valid()
      modifies this, registry, device.repr - {device}
      ensures Valid() && TerminalFirst(rs)
      ensures State() == if w.index.Some? then old(State()) else Handled(old(State()), WriteOne(w.write), now)
      ensures rs[0] == if w.index.Some? then Failed(ClassCodeOf(InvalidArrayIndex))
                       else match WriteProperty(old(State()).device, w.write).error
                         case Some(e) => Failed(ClassCodeOf(e))
                         case None => SimpleAck
      ensures rs[0].SimpleAck? ==> Reports(old(State()).(device := State().device), w.write.key, now, rs[1..])
      ensures Numbered(rs[1..], old(invokeId))
      ensures Turn(World(State(), invokeId), rs) == WriteTurn(World(old(State()), old(invokeId)), w, now)
    {
      hide NoticesOf;
      hide Device.Device.Valid;
      hide Device.Device.State;
      hide Model.WriteProperty;
      hide Announces;
      hide Lists;
      hide Notified;
      if w.index.Some? {
        return [Failed(ClassCodeOf(InvalidArrayIndex))];
      }
      var e := device.WriteProperty(w.write);
      if e.Some? {
        DryRun(old(State()).device, w.write);
        return [Failed(ClassCodeOf(e.value))];
      }
      var notices := Notifications(w.write.key, now);
      rs := [SimpleAck] + notices;
      assert rs[1..] == notices;
    }

    /** The first loop of handleWritePropertyMultiple: the writes of one object, validated. */
    method ValidateWrites(writes: seq<BatchWrite>) returns (f: Option<Failure>)
      requires Valid()
      ensures f == FirstRefused(State().device, writes)
    {
      hide FirstRefused;
      hide ValidateWrite;
      hide Device.Device.Valid;
      hide Device.Device.State;
      ghost var d := device.State();
      for j := 0 to |writes|
        invariant forall k :: 0 <= k < j ==> CheckBatchWrite(d, writes[k]).None?
      {
        var w := writes[j];
        var e := Some(InvalidArrayIndex);
        if w.index.None? {
          e := device.ValidateWrite(w.write);
        }
        if e.Some? {
          FirstRefusedAt(d, writes, j);
          return Some(Failure(j, e.value));
        }
      }
      NothingRefused(d, writes);
      return None;
    }

    /** And the loop around it, over the objects. */
    method ValidateAll(specs: seq<ObjectWrites>) returns (f: Option<Failure>)
      requires Valid()
      ensures f == FirstRefused(State().device, Flattened(specs))
    {
      hide FirstRefused;
      hide Device.Device.Valid;
      hide Device.Device.State;
      ghost var d := device.State();
      var at: nat := 0;
      assert specs[0..] == specs;
      for i := 0 to |specs|
        invariant FirstRefused(d, Flattened(specs)) == Later(FirstRefused(d, Flattened(specs[i..])), at)
      {
        var g := ValidateWrites(specs[i].writes);
        assert specs[i..][1..] == specs[i + 1..];
        FirstRefusedConcat(d, specs[i].writes, Flattened(specs[i + 1..]));
        if g.Some? {
          return Some(Failure(at + g.value.at, g.value.error));
        }
        at := at + |specs[i].writes|;
      }
      assert specs[|specs|..] == [];
      NothingRefused(d, []);
      return None;
    }

    /** The second loop: the writes of one object, applied in order. */
    method ApplyWrites(writes: seq<BatchWrite>) returns (f: Option<Failure>)
      requires Valid()
      modifies device.repr - {device}
      ensures Valid() && subscribers == old(subscribers)
      ensures registry.items == old(registry.items) && invokeId == old(invokeId)
      ensures device.repr == old(device.repr)
      ensures BatchResult(State().device, f) == ApplyAll(old(State()).device, writes)
    {
      hide ApplyAll;
      hide Model.WriteProperty;
      hide Device.Device.Valid;
      hide Device.Device.State;
      ghost var d := device.State();
      assert writes[0..] == writes;
      ResumedAtStart(d, writes);
      for j := 0 to |writes|
        invariant Valid() && unchanged(this) && unchanged(registry) && device.repr == old(device.repr)
        invariant ApplyAll(d, writes) == Resumed(ApplyAll(device.State(), writes[j..]), j)
      {
        ApplyAllStep(device.State(), writes, j);
        var e := device.WriteProperty(writes[j].write);
        if e.Some? {
          return Some(Failure(j, e.value));
        }
      }
      assert writes[|writes|..] == [];
      NothingToApply(device.State());
      return None;
    }

    /** And the loop around it, listing the objects written. */
    method ApplyAllWrites(specs: seq<ObjectWrites>) returns (f: Option<Failure>, changed: seq<ObjectKey>)
      requires Valid()
      modifies device.repr - {device}
      ensures Valid() && subscribers == old(subscribers)
      ensures registry.items == old(registry.items) && invokeId == old(invokeId)
      ensures BatchResult(State().device, f) == ApplyAll(old(State()).device, Flattened(specs))
      ensures f.None? ==> changed == Objects(specs)
    {
      hide ApplyAll;
      hide Objects;
      hide Device.Device.Valid;
      hide Device.Device.State;
      ghost var d := device.State();
      var at: nat := 0;
      changed := [];
      NoObjects();
      assert specs[0..] == specs && specs[..0] == [];
      ResumedAtStart(d, Flattened(specs));
      for i := 0 to |specs|
        invariant Valid() && unchanged(this) && unchanged(registry) && device.repr == old(device.repr)
        invariant ApplyAll(d, Flattened(specs)) == Resumed(ApplyAll(device.State(), Flattened(specs[i..])), at)
        invariant changed == Objects(specs[..i])
      {
        assert specs[i..][1..] == specs[i + 1..];
        ObjectsNext(specs, i);
        ApplyAllConcat(device.State(), specs[i].writes, Flattened(specs[i + 1..]));
        var g := ApplyWrites(specs[i].writes);
        if g.Some? {
          return Some(Failure(g.value.at + at, g.value.error)), changed;
        }
        at := at + |specs[i].writes|;
        if specs[i].key !in changed {
          changed := changed + [specs[i].key];
        }
      }
      assert specs[|specs|..] == [] && specs[..|specs|] == specs;
      NothingToApply(device.State());
      return None, changed;
    }

    /** The last loop: notify for every object written. */
    method NotifyAll(objects: seq<ObjectKey>, now: Instant) returns (rs: seq<Reply>)
      requires Valid() && forall i, j :: 0 <= i < j < |objects| ==> objects[i] != objects[j]
      modifies this, registry
      ensures Valid() && State() == NotifiedAll(old(State()), objects, now)
      ensures ReportsEach(old(State()), objects, now, rs)
      ensures Numbered(rs, old(invokeId)) && invokeId == IdAfter(old(invokeId), ConfirmedCount(rs))
      ensures rs == NoticesOfAll(old(State()), objects, now, old(invokeId))
    {
      hide NoticesOf;
      hide Device.Device.Valid;
      hide Device.Device.State;
      hide Notified;
      hide Similar;
      hide ReportsEach;
      hide Reports;
      hide IdAfter;
      hide Numbered;
      ghost var s, start := State(), invokeId;
      rs := [];
      EachStarts(s, now);
      NumberedStarts(start);
      assert objects[0..] == objects;
      for i := 0 to |objects|
        invariant Valid() && NotifiedAll(s, objects, now) == NotifiedAll(State(), objects[i..], now)
        invariant Similar(s, State(), objects[..i], now) && ReportsEach(s, objects[..i], now, rs)
        invariant NoticesOfAll(s, objects, now, start) == rs + NoticesOfAll(State(), objects[i..], now, invokeId)
        invariant Numbered(rs, start) && invokeId == IdAfter(start, ConfirmedCount(rs))
      {
        ghost var t := State();
        assert objects[i..][0] == objects[i] && objects[i..][1..] == objects[i + 1..];
        assert objects[..i + 1] == objects[..i] + [objects[i]];
        var more := Notifications(objects[i], now);
        EachNext(s, t, objects[..i], objects[i], now, rs, more);
        SimilarNext(s, t, objects[..i], objects[i], now);
        NumberedConcat(rs, more, start);
        CountConcat(rs, more);
        IdsAdd(start, ConfirmedCount(rs), ConfirmedCount(more));
        rs := rs + more;
      }
      assert objects[..|objects|] == objects;
    }

    method HandleWritePropertyMultiple(specs: seq<ObjectWrites>, now: Instant) returns (rs: seq<Reply>)
      requires Valid() && Consistent(specs)
      modifies this, registry, device.repr - {device}
      ensures Valid() && TerminalFirst(rs)
      ensures State() == Handled(old(State()), WriteMany(specs), now)
      ensures rs[0] == FailureReply(Flattened(specs), Batch(old(State()).device, Flattened(specs)).failure)
      ensures rs[0].SimpleAck? ==> ReportsEach(old(State()).(device := State().device), Objects(specs), now, rs[1..])
      ensures !rs[0].SimpleAck? ==> |rs| == 1
      ensures Numbered(rs[1..], old(invokeId))
      ensures Turn(World(State(), invokeId), rs) == BatchTurn(World(old(State()), old(invokeId)), specs, now)
    {
      hide NoticesOfAll;
      hide Device.Device.Valid;
      hide Device.Device.State;
      hide FirstRefused;
      hide ApplyAll;
      hide NotifiedAll;
      hide Announces;
      hide Reported;
      ghost var before := State();
      var refused := ValidateAll(specs);
      if refused.Some? {
        return [FailureReply(Flattened(specs), refused)];
      }
      var failed, changed := ApplyAllWrites(specs);
      if failed.Some? {
        return [FailureReply(Flattened(specs), failed)];
      }
      var notices := NotifyAll(changed, now);
      rs := [SimpleAck] + notices;
      assert rs[1..] == notices;
    }

    /** Subscribe, or cancel when `cancel` is set; a subscription is announced at once. */
    method HandleSubscribeCov(source: Endpoint, process: Uint32, object_: ObjectKey, cancel: bool, confirmed: bool,
                              lifetime: Uint32, now: Instant) returns (rs: seq<Reply>)
      requires Valid()
      modifies this, registry
      ensures Valid() && TerminalFirst(rs)
      ensures var key := SubscriptionKey(source, process, object_);
              var request := if cancel then Request.Cancel(key) else Request.Subscribe(key, confirmed, lifetime);
              State() == Handled(old(State()), request, now)
      ensures !HasPresentValue(old(State()).device, object_) ==>
                rs == [Failed(if object_ in old(State()).device.objects then NOT_COV_PROPERTY
                              else ClassCodeOf(UnknownObject))]
      ensures HasPresentValue(old(State()).device, object_) ==>
                && rs[0].SimpleAck?
                && (if cancel then |rs| == 1
                    else |rs| == 2 && Announces(State(), rs[1], now)
                         && rs[1].subscription == SubscriptionKey(source, process, object_) && rs[1].to == source
                         && rs[1].remaining == lifetime)
      ensures Numbered(rs[1..], old(invokeId))
      ensures Turn(World(State(), invokeId), rs)
           == SubscribeTurn(World(old(State()), old(invokeId)), SubscriptionKey(source, process, object_),
                            cancel, confirmed, lifetime, now)
    {
      hide Device.Device.Valid;
      hide Device.Device.State;
      hide Lists;
      hide Effective;
      hide Model.ReadProperty;
      hide Synthesized;
      hide IdAfter;
      hide Announces;
      hide Handled;
      hide TerminalFirst;
      hide Numbered;
      PresentReading(State().device, object_);
      NothingToSubscribe(State(), SubscriptionKey(source, process, object_), confirmed, lifetime, now);
      SubscribeTurnSays(World(State(), invokeId), SubscriptionKey(source, process, object_), cancel, confirmed, lifetime,
                        now);
      var reading := device.ReadProperty(object_, PRESENT_VALUE, None);
      if reading == Unread(UnknownObject) {
        return [Failed(ClassCodeOf(UnknownObject))];
      }
      if reading == Unread(UnknownProperty) {
        return [Failed(NOT_COV_PROPERTY)];
      }
      var key := SubscriptionKey(source, process, object_);
      if cancel {
        Cancel(key, now);
        return [SimpleAck];
      }
      var n := Subscribe(key, confirmed, lifetime, reading.values, now);
      rs := [SimpleAck, n];
    }

    method Cancel(key: SubscriptionKey, ghost now: Instant)
      requires Valid() && HasPresentValue(State().device, key.object_)
      modifies this`subscribers, registry
      ensures Valid() && invokeId == old(invokeId)
      ensures State() == Handled(old(State()), Request.Cancel(key), now)
    {
      hide Device.Device.Valid;
      hide Device.Device.State;
      var _ := registry.Cancel(key);
      subscribers := subscribers - {key};
    }

    /** Enter the subscription in both tables, prune them, and announce it. */
    method Subscribe(key: SubscriptionKey, confirmed: bool, lifetime: Uint32, values: seq<Value>,
          now: Instant) returns (n: Reply)
      requires Valid() && HasPresentValue(State().device, key.object_)
      requires values == PresentValue(State().device, key.object_)
      modifies this, registry
      ensures Valid() && State() == Handled(old(State()), Request.Subscribe(key, confirmed, lifetime), now)
      ensures n.Notice? && Announces(State(), n, now)
      ensures n.subscription == key && n.to == key.subscriber && n.remaining == lifetime
      ensures n == Notice(key, key.subscriber, if confirmed then Some(IdAfter(old(invokeId), 1)) else None,
                          lifetime, values)
      ensures invokeId == if confirmed then IdAfter(old(invokeId), 1) else old(invokeId)
    {
      hide Device.Device.Valid;
      hide Device.Device.State;
      hide Lists;
      hide IdAfter;
      registry.Subscribe(key, confirmed, lifetime, values, now);
      subscribers := subscribers[key := key.subscriber];
      var _ := ActiveSubscriptions(now);
      n := Notification(key, registry.items[key], key.subscriber, values, now);
    }
  }
}
