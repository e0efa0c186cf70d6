/** Change-of-value subscriptions over whole runs (simulator/application.go and
    simulator/subscriptions.go; sections 13.1 and 13.14 of ASHRAE 135), as values.
    Every handled request sees one reading of the clock, in nanoseconds. */
module Cov {
  import opened Octets
  import opened Model
  import opened WriteBatch

  type Instant = int
  type Endpoint = string

  const SECOND := 1_000_000_000

  datatype SubscriptionKey = SubscriptionKey(subscriber: Endpoint, process: Uint32, object_: ObjectKey)

  /** A lifetime of zero seconds never expires. */
  datatype Subscription = Subscription(confirmed: bool, lifetime: Uint32, expires: Option<Instant>, last: seq<Value>)

  datatype AppState = AppState(device: DeviceState,
                               subscriptions: map<SubscriptionKey, Subscription>,
                               endpoints: map<SubscriptionKey, Endpoint>)

  // ---- The deadband ------------------------------------------------------

  predicate IsNumeric(v: Value) {
    v.Unsigned? || v.Enumerated? || v.Signed? || v.Real? || v.Double?
  }

  function NumberOf(v: Value): (x: real)
    requires IsNumeric(v)
  {
    match v
    case Unsigned(n) => n as real
    case Enumerated(n) => n as real
    case Signed(i) => i as real
    case Real(x, _) => x
    case Double(x) => x
  }

  function Distance(a: real, b: real): (r: real)
    ensures r >= 0.0 && (r == a - b || r == b - a)
  {
    if a < b then b - a else a - b
  }

  predicate ElementChanged(increment: real, previous: Value, current: Value) {
    if increment > 0.0 && IsNumeric(previous) && IsNumeric(current)
    then Distance(NumberOf(previous), NumberOf(current)) >= increment
    else previous != current
  }

  /** covChanged */
  predicate Changed(increment: real, previous: seq<Value>, current: seq<Value>) {
    |previous| != |current| || exists i :: 0 <= i < |current| && ElementChanged(increment, previous[i], current[i])
  }

  lemma UnchangedFromItself(increment: real, values: seq<Value>)
    ensures !Changed(increment, values, values)
  {
  }

  predicate HasPresentValue(d: DeviceState, key: ObjectKey) {
    key in d.objects && PRESENT_VALUE in d.objects[key].properties
  }

  function PresentValue(d: DeviceState, key: ObjectKey): (vs: seq<Value>)
    requires HasPresentValue(d, key)
    ensures ReadProperty(d, key, PRESENT_VALUE, None) == Read(vs)
  {
    Effective(d.objects[key].properties[PRESENT_VALUE])
  }

  function Increment(d: DeviceState, key: ObjectKey): (x: real)
    requires HasPresentValue(d, key)
  {
    d.objects[key].properties[PRESENT_VALUE].shape.increment
  }

  /** The subscription has something to report. */
  predicate Due(d: DeviceState, key: SubscriptionKey, s: Subscription) {
    HasPresentValue(d, key.object_) && Changed(Increment(d, key.object_), s.last, PresentValue(d, key.object_))
  }

  // ---- The tables --------------------------------------------------------

  predicate Expired(s: Subscription, now: Instant) {
    s.expires.Some? && now >= s.expires.value
  }

  /** removeExpiredLocked */
  function Pruned(items: map<SubscriptionKey, Subscription>, now: Instant): (m: map<SubscriptionKey, Subscription>)
    ensures m.Keys <= items.Keys
  {
    map key | key in items && !Expired(items[key], now) :: items[key]
  }

  /** activeSubscriptions: drop expired subscriptions, then endpoints without one. */
  function Activated(s: AppState, now: Instant): (t: AppState)
  {
    var items := Pruned(s.subscriptions, now);
    s.(subscriptions := items, endpoints := map key | key in s.endpoints && key in items :: s.endpoints[key])
  }

  /** The keys `notifications` reports for one object. */
  function Reported(s: AppState, object_: ObjectKey, now: Instant): (keys: set<SubscriptionKey>)
  {
    var t := Activated(s, now);
    set key | key in t.subscriptions && key in t.endpoints && key.object_ == object_
              && Due(s.device, key, t.subscriptions[key])
  }

  /** `notifications`: the state after reporting, each reported value becoming the last one. */
  function Notified(s: AppState, object_: ObjectKey, now: Instant): (t: AppState)
    ensures t.device == s.device
  {
    var a := Activated(s, now);
    var reported := Reported(s, object_, now);
    a.(subscriptions := map key | key in a.subscriptions ::
         if key in reported
         then a.subscriptions[key].(last := PresentValue(s.device, object_))
         else a.subscriptions[key])
  }

  function NotifiedAll(s: AppState, objects: seq<ObjectKey>, now: Instant): (t: AppState)
    ensures t.device == s.device
    decreases |objects|
  {
    if objects == [] then s else NotifiedAll(Notified(s, objects[0], now), objects[1..], now)
  }

  /** The seconds a notification reports: rounded up, 0 for an indefinite subscription. */
  function TimeRemaining(s: Subscription, now: Instant): (seconds: nat)
  {
    match s.expires
    case None => 0
    case Some(at) => if at > now then (at - now + SECOND - 1) / SECOND else 0
  }

  lemma SecondsLeft(s: Subscription, now: Instant)
    requires !Expired(s, now)
    ensures var seconds := TimeRemaining(s, now);
            && (s.expires.None? ==> seconds == 0)
            && (s.expires.Some? ==> (seconds - 1) * SECOND < s.expires.value - now <= seconds * SECOND)
  {
  }

  // ---- Requests ----------------------------------------------------------

  /** One write access specification: an object and its writes. */
  datatype ObjectWrites = ObjectWrites(key: ObjectKey, writes: seq<BatchWrite>)

  function Flattened(specs: seq<ObjectWrites>): (ws: seq<BatchWrite>)
  {
    if specs == [] then [] else specs[0].writes + Flattened(specs[1..])
  }

  /** The objects of a request, each once, in request order. */
  function Objects(specs: seq<ObjectWrites>): (keys: seq<ObjectKey>)
    ensures forall k :: k in keys <==> exists i :: 0 <= i < |specs| && specs[i].key == k
    ensures forall i, j :: 0 <= i < j < |keys| ==> keys[i] != keys[j]
  {
    if specs == [] then []
    else
      var before := Objects(specs[..|specs| - 1]);
      var last := specs[|specs| - 1].key;
      assert forall i :: 0 <= i < |specs| - 1 ==> specs[..|specs| - 1][i] == specs[i];
      if last in before then before else before + [last]
  }

  /** The first specification of an object. */
  function FirstOf(specs: seq<ObjectWrites>, key: ObjectKey): (i: nat)
    ensures i <= |specs| && (i < |specs| ==> specs[i].key == key)
    ensures forall j :: 0 <= j < i ==> specs[j].key != key
  {
    if specs == [] then 0
    else if specs[0].key == key then 0
    else 1 + FirstOf(specs[1..], key)
  }

  /** Objects are listed as the request first names them. */
  lemma {:induction false} ObjectsInOrder(specs: seq<ObjectWrites>, i: nat, j: nat)
    requires i < j < |Objects(specs)|
    ensures FirstOf(specs, Objects(specs)[i]) < FirstOf(specs, Objects(specs)[j]) < |specs|
    decreases |specs|
  {
    var before := specs[..|specs| - 1];
    var keys := Objects(before);
    assert forall k :: 0 <= k < |before| ==> before[k] == specs[k];
    FirstStays(specs, Objects(specs)[i]);
    FirstStays(specs, Objects(specs)[j]);
    if j < |keys| {
      ObjectsInOrder(before, i, j);
    } else {
      assert keys[i] in keys;
    }
  }

  lemma FirstStays(specs: seq<ObjectWrites>, key: ObjectKey)
    requires specs != []
    ensures var before := specs[..|specs| - 1];
            FirstOf(specs, key) == if key in Objects(before) then FirstOf(before, key)
                                   else if specs[|specs| - 1].key == key then |specs| - 1 else |specs|
  {
    hide Objects;
    var before := specs[..|specs| - 1];
    assert forall k :: 0 <= k < |before| ==> before[k] == specs[k];
    var i, j := FirstOf(specs, key), FirstOf(before, key);
    if key in Objects(before) {
      var k :| 0 <= k < |before| && before[k].key == key;
      assert j < |before| && before[j].key == key && specs[j].key == key;
    }
  }

  predicate Consistent(specs: seq<ObjectWrites>) {
    forall i, j :: 0 <= i < |specs| && 0 <= j < |specs[i].writes| ==> specs[i].writes[j].write.key == specs[i].key
  }

  datatype Request =
    | WriteOne(write: Write)
    | WriteMany(specs: seq<ObjectWrites>)
    | Subscribe(key: SubscriptionKey, confirmed: bool, lifetime: Uint32)
    | Cancel(key: SubscriptionKey)
    | TimeSync(date: Day, time: Clock)
    | ReadOnly

  predicate ValidRequest(r: Request) {
    r.WriteMany? ==> Consistent(r.specs)
  }

  function NewSubscription(confirmed: bool, lifetime: Uint32, now: Instant, values: seq<Value>): (s: Subscription)
  {
    Subscription(confirmed, lifetime, if lifetime > 0 then Some(now + lifetime * SECOND) else None, values)
  }

  /** The application after one request, whatever its reply. */
  function Handled(s: AppState, r: Request, now: Instant): (t: AppState)
    requires ValidDevice(s.device)
    ensures ValidDevice(t.device)
  {
    match r
    case WriteOne(w) =>
      var o := WriteProperty(s.device, w);
      if o.error.Some? then s else Notified(s.(device := o.device), w.key, now)
    case WriteMany(specs) =>
      var b := Batch(s.device, Flattened(specs));
      var t := s.(device := b.device);
      if b.failure.Some? then t else NotifiedAll(t, Objects(specs), now)
    case Subscribe(key, confirmed, lifetime) =>
      if !HasPresentValue(s.device, key.object_) then s
      else
        var item := NewSubscription(confirmed, lifetime, now, PresentValue(s.device, key.object_));
        var entered := s.(subscriptions := s.subscriptions[key := item],
                          endpoints := s.endpoints[key := key.subscriber]);
        Activated(entered, now)
    case Cancel(key) =>
      if !HasPresentValue(s.device, key.object_) then s
      else s.(subscriptions := s.subscriptions - {key}, endpoints := s.endpoints - {key})
    case TimeSync(date, time) => s.(device := SetLocalTime(s.device, date, time))
    case ReadOnly => s
  }

  // ---- The invariant -----------------------------------------------------

  /** Objects a batch wrote before one of its writes failed; they are reported on by the
      next write to them that succeeds. */
  function Unreported(s: AppState, r: Request, dirty: set<ObjectKey>): (keys: set<ObjectKey>)
    requires ValidDevice(s.device)
  {
    match r
    case WriteOne(w) => if WriteProperty(s.device, w).error.Some? then dirty else dirty - {w.key}
    case WriteMany(specs) =>
      var touched := set k | k in Objects(specs);
      var b := Batch(s.device, Flattened(specs));
      if b.failure.None? then dirty - touched
      else if b.device == s.device then dirty
      else dirty + touched
    case _ => dirty
  }

  /** The two tables have the same keys. */
  predicate InStep(s: AppState) {
    s.subscriptions.Keys == s.endpoints.Keys
  }

  /** Every subscription on a reported object is within its deadband. */
  predicate Quiet(s: AppState, dirty: set<ObjectKey>) {
    forall key <- s.subscriptions ::
      && HasPresentValue(s.device, key.object_)
      && (key.object_ !in dirty ==> !Due(s.device, key, s.subscriptions[key]))
  }

  predicate Invariant(s: AppState, dirty: set<ObjectKey>) {
    ValidDevice(s.device) && InStep(s) && Quiet(s, dirty)
  }

  /** Nothing about one object's Present_Value differs between two devices. */
  predicate SamePresentValue(d: DeviceState, e: DeviceState, key: ObjectKey) {
    && HasPresentValue(d, key) && HasPresentValue(e, key)
    && d.objects[key].properties[PRESENT_VALUE] == e.objects[key].properties[PRESENT_VALUE]
  }

  lemma ActivatedKeepsInvariant(s: AppState, dirty: set<ObjectKey>, now: Instant)
    requires Invariant(s, dirty)
    ensures Invariant(Activated(s, now), dirty)
    ensures forall key <- Activated(s, now).subscriptions :: !Expired(Activated(s, now).subscriptions[key], now)
  {
    hide Due;
  }

  /** Reporting on an object quiets its subscriptions and touches no other. */
  lemma NotifiedQuiets(s: AppState, dirty: set<ObjectKey>, object_: ObjectKey, now: Instant)
    requires Invariant(s, dirty)
    ensures Invariant(Notified(s, object_, now), dirty - {object_})
  {
    var t := Notified(s, object_, now);
    ActivatedKeepsInvariant(s, dirty, now);
    forall key <- t.subscriptions | key.object_ !in dirty - {object_}
      ensures !Due(t.device, key, t.subscriptions[key])
    {
      if key in Reported(s, object_, now) {
        UnchangedFromItself(Increment(s.device, object_), PresentValue(s.device, object_));
      }
    }
  }

  lemma {:induction false} NotifiedAllQuiets(s: AppState, dirty: set<ObjectKey>, objects: seq<ObjectKey>, now: Instant)
    requires Invariant(s, dirty)
    ensures Invariant(NotifiedAll(s, objects, now), dirty - set k | k in objects)
    decreases |objects|
  {
    hide Notified;
    hide Invariant;
    if objects == [] {
      assert dirty - (set k | k in objects) == dirty;
    } else {
      NotifiedQuiets(s, dirty, objects[0], now);
      NotifiedAllQuiets(Notified(s, objects[0], now), dirty - {objects[0]}, objects[1..], now);
      assert dirty - {objects[0]} - (set k | k in objects[1..]) == dirty - set k | k in objects;
    }
  }

  /** The invariant moves to a device that differs only at the objects `touched`. */
  lemma DeviceMoves(s: AppState, dirty: set<ObjectKey>, e: DeviceState, touched: set<ObjectKey>)
    requires Invariant(s, dirty) && ValidDevice(e)
    requires forall key :: HasPresentValue(s.device, key) ==> HasPresentValue(e, key)
    requires forall key :: HasPresentValue(s.device, key) && key !in touched ==> SamePresentValue(s.device, e, key)
    ensures Invariant(s.(device := e), dirty + touched)
  {
  }

  lemma WriteMovesDevice(s: AppState, dirty: set<ObjectKey>, w: Write)
    requires Invariant(s, dirty)
    ensures Invariant(s.(device := WriteProperty(s.device, w).device), dirty + {w.key})
  {
    hide WriteProperty;
    var e := WriteProperty(s.device, w).device;
    WriteKeepsShape(s.device, w);
    forall key | HasPresentValue(s.device, key) && key != w.key
      ensures SamePresentValue(s.device, e, key)
    {
      WriteTouchesOneProperty(s.device, w, key, PRESENT_VALUE);
    }
    DeviceMoves(s, dirty, e, {w.key});
  }

  /** A batch, whole or cut short, changes the objects it names and no other. */
  lemma {:induction false} BatchMovesDevice(d: DeviceState, ws: seq<BatchWrite>, key: ObjectKey)
    requires ValidDevice(d) && HasPresentValue(d, key)
    ensures HasPresentValue(ApplyAll(d, ws).device, key)
    ensures (forall k :: 0 <= k < |ws| ==> ws[k].write.key != key) ==> SamePresentValue(d, ApplyAll(d, ws).device, key)
    decreases |ws|
  {
    hide WriteProperty;
    if ws != [] {
      var w := ws[0].write;
      WriteKeepsShape(d, w);
      if w.key != key {
        WriteTouchesOneProperty(d, w, key, PRESENT_VALUE);
      }
      var e := WriteProperty(d, w).device;
      if WriteProperty(d, w).error.None? {
        BatchMovesDevice(e, ws[1..], key);
      }
    }
  }

  lemma {:induction false} FlattenedKeys(specs: seq<ObjectWrites>, k: nat)
    requires Consistent(specs) && k < |Flattened(specs)|
    ensures Flattened(specs)[k].write.key in Objects(specs)
    decreases |specs|
  {
    if k < |specs[0].writes| {
      assert Flattened(specs)[k] == specs[0].writes[k];
      assert specs[0].key in Objects(specs);
    } else {
      FlattenedKeys(specs[1..], k - |specs[0].writes|);
      var key := Flattened(specs)[k].write.key;
      assert Flattened(specs)[k] == Flattened(specs[1..])[k - |specs[0].writes|];
      var i :| 0 <= i < |specs[1..]| && specs[1..][i].key == key;
      assert specs[i + 1].key == key;
    }
  }

  lemma BatchKeepsInvariant(s: AppState, dirty: set<ObjectKey>, specs: seq<ObjectWrites>)
    requires Invariant(s, dirty) && Consistent(specs)
    ensures Invariant(s.(device := Batch(s.device, Flattened(specs)).device), dirty + set k | k in Objects(specs))
  {
    hide ApplyAll;
    hide FirstRefused;
    var ws := Flattened(specs);
    var e := Batch(s.device, ws).device;
    var touched := set k | k in Objects(specs);
    forall key | HasPresentValue(s.device, key)
      ensures HasPresentValue(e, key) && (key !in touched ==> SamePresentValue(s.device, e, key))
    {
      BatchMovesDevice(s.device, ws, key);
      if key !in touched {
        forall k | 0 <= k < |ws| ensures ws[k].write.key != key { FlattenedKeys(specs, k); }
      }
    }
    DeviceMoves(s, dirty, e, touched);
  }

  lemma WriteKeepsInvariant(s: AppState, dirty: set<ObjectKey>, w: Write, now: Instant)
    requires Invariant(s, dirty)
    ensures Invariant(Handled(s, WriteOne(w), now), Unreported(s, WriteOne(w), dirty))
  {
    hide WriteProperty;
    hide Notified;
    hide Invariant;
    assert ValidDevice(s.device) by { RevealInvariant(s, dirty); }
    if WriteProperty(s.device, w).error.None? {
      WriteMovesDevice(s, dirty, w);
      NotifiedQuiets(s.(device := WriteProperty(s.device, w).device), dirty + {w.key}, w.key, now);
      assert dirty + {w.key} - {w.key} == dirty - {w.key};
    }
  }

  lemma RevealInvariant(s: AppState, dirty: set<ObjectKey>)
    requires Invariant(s, dirty)
    ensures ValidDevice(s.device)
  {
  }

  lemma ManyKeepsInvariant(s: AppState, dirty: set<ObjectKey>, specs: seq<ObjectWrites>, now: Instant)
    requires Invariant(s, dirty) && Consistent(specs)
    ensures Invariant(Handled(s, WriteMany(specs), now), Unreported(s, WriteMany(specs), dirty))
  {
    hide Batch;
    hide NotifiedAll;
    hide Invariant;
    RevealInvariant(s, dirty);
    var b := Batch(s.device, Flattened(specs));
    var touched := set k | k in Objects(specs);
    BatchKeepsInvariant(s, dirty, specs);
    if b.failure.None? {
      NotifiedAllQuiets(s.(device := b.device), dirty + touched, Objects(specs), now);
      assert dirty + touched - touched == dirty - touched;
    }
  }

  lemma SubscribeKeepsInvariant(s: AppState, dirty: set<ObjectKey>, r: Request, now: Instant)
    requires Invariant(s, dirty) && (r.Subscribe? || r.Cancel?)
    ensures Invariant(Handled(s, r, now), dirty)
  {
    if r.Subscribe? && HasPresentValue(s.device, r.key.object_) {
      var values := PresentValue(s.device, r.key.object_);
      UnchangedFromItself(Increment(s.device, r.key.object_), values);
      var item := NewSubscription(r.confirmed, r.lifetime, now, values);
      var t := s.(subscriptions := s.subscriptions[r.key := item], endpoints := s.endpoints[r.key := r.key.subscriber]);
      assert Invariant(t, dirty);
      ActivatedKeepsInvariant(t, dirty, now);
    }
  }

  lemma TimeSyncKeepsInvariant(s: AppState, dirty: set<ObjectKey>, date: Day, time: Clock)
    requires Invariant(s, dirty)
    ensures Invariant(s.(device := SetLocalTime(s.device, date, time)), dirty)
  {
    var e := SetLocalTime(s.device, date, time);
    assert forall key :: HasPresentValue(s.device, key) ==> SamePresentValue(s.device, e, key);
    DeviceMoves(s, dirty, e, {});
    assert dirty + {} == dirty;
  }

  /** Every request keeps the tables in step and every reported subscription quiet. */
  lemma HandledKeepsInvariant(s: AppState, dirty: set<ObjectKey>, r: Request, now: Instant)
    requires Invariant(s, dirty) && ValidRequest(r)
    ensures Invariant(Handled(s, r, now), Unreported(s, r, dirty))
  {
    hide Invariant;
    RevealInvariant(s, dirty);
    match r
    case WriteOne(w) => WriteKeepsInvariant(s, dirty, w, now);
    case WriteMany(specs) => ManyKeepsInvariant(s, dirty, specs, now);
    case Subscribe(_, _, _) => SubscribeKeepsInvariant(s, dirty, r, now);
    case Cancel(_) => SubscribeKeepsInvariant(s, dirty, r, now);
    case TimeSync(date, time) => TimeSyncKeepsInvariant(s, dirty, date, time);
    case ReadOnly =>
  }
}
