/** What the handlers of simulator/application.go reply with: one reply to the requester, then the
    COV notifications that are due, in order and numbered. */
module Replies {
  import opened Octets
  import opened Model
  import opened WriteBatch
  import opened Cov
  import opened Subscriptions

  // ---- Replies -----------------------------------------------------------

  /** An error class and code of ASHRAE 135. */
  datatype ClassCode = ClassCode(class_: Byte, code: Byte)

  const NOT_COV_PROPERTY := ClassCode(2, 44)

  /** modelErrorClassCode */
  function ClassCodeOf(e: Error): (c: ClassCode)
  {
    match e
    case UnknownObject => ClassCode(1, 31)
    case UnknownProperty => ClassCode(2, 32)
    case NotArray => ClassCode(2, 50)
    case InvalidArrayIndex => ClassCode(2, 42)
    case WriteDenied | ReservedPriority => ClassCode(2, 40)
    case InvalidPriority | ValueOutOfRange => ClassCode(2, 37)
    case InvalidDataType => ClassCode(2, 9)
    case ValueRequired => ClassCode(5, 29)
  }

  datatype Reply =
    | SimpleAck
    | Values(values: seq<Value>)
    | Failed(error: ClassCode)
    | FailedWrite(error: ClassCode, key: ObjectKey, property: Uint32, index: Option<Uint32>)
    | Notice(subscription: SubscriptionKey, to: Endpoint, invoke: Option<Byte>, remaining: nat, values: seq<Value>)

  /** One reply to the requester, then notifications only. */
  predicate TerminalFirst(rs: seq<Reply>) {
    rs != [] && !rs[0].Notice? && forall i :: 1 <= i < |rs| ==> rs[i].Notice?
  }

  // ---- Notifications -----------------------------------------------------

  /** The notice says where its subscription stands. */
  predicate Announces(s: AppState, n: Reply, now: Instant) {
    && n.Notice?
    && n.subscription in s.subscriptions && n.subscription in s.endpoints
    && HasPresentValue(s.device, n.subscription.object_)
    && n.to == s.endpoints[n.subscription]
    && n.values == PresentValue(s.device, n.subscription.object_)
    && n.remaining == TimeRemaining(s.subscriptions[n.subscription], now)
    && (n.invoke.Some? <==> s.subscriptions[n.subscription].confirmed)
  }

  function Subscribers(rs: seq<Reply>): (keys: seq<SubscriptionKey>)
    requires forall n <- rs :: n.Notice?
    ensures |keys| == |rs|
    ensures forall i :: 0 <= i < |rs| ==> keys[i] == rs[i].subscription
  {
    if rs == [] then [] else Subscribers(rs[..|rs| - 1]) + [rs[|rs| - 1].subscription]
  }

  /** Exactly the due subscriptions of the object, each once and in listing order. */
  predicate Reports(s: AppState, object_: ObjectKey, now: Instant, rs: seq<Reply>) {
    && (forall n <- rs :: n.Notice? && Announces(s, n, now))
    && Lists(Subscribers(rs), Reported(s, object_, now))
  }

  /** The due subscriptions among `done`. */
  function Heard(s: AppState, object_: ObjectKey, now: Instant,
        done: seq<SubscriptionKey>): (keys: set<SubscriptionKey>)
    ensures forall k :: k in keys <==> k in Reported(s, object_, now) && k in done
  {
    set k | k in Reported(s, object_, now) && k in done
  }

  /** The table once the due subscriptions among `done` were told. */
  function Told(s: AppState, object_: ObjectKey, now: Instant, done: seq<SubscriptionKey>):
      (m: map<SubscriptionKey, Subscription>)
  {
    var items, reported := Activated(s, now).subscriptions, Reported(s, object_, now);
    map k | k in items ::
      if k in reported && k in done then items[k].(last := PresentValue(s.device, object_)) else items[k]
  }

  /** Where the loop of `notifications` stands after the subscriptions `done`. */
  predicate Progress(s: AppState, object_: ObjectKey, now: Instant, done: seq<SubscriptionKey>, rs: seq<Reply>,
                     items: map<SubscriptionKey, Subscription>)
  {
    && (forall n <- rs :: n.Notice? && Announces(s, n, now))
    && Lists(Subscribers(rs), Heard(s, object_, now, done))
    && items == Told(s, object_, now, done)
  }

  lemma ReportedIffDue(s: AppState, object_: ObjectKey, now: Instant, key: SubscriptionKey)
    requires key in Activated(s, now).subscriptions
    ensures key in Reported(s, object_, now) <==>
              key in Activated(s, now).endpoints && key.object_ == object_ && Due(s.device, key, s.subscriptions[key])
    ensures key in Reported(s, object_, now) ==> key in s.endpoints && HasPresentValue(s.device, object_)
  {
  }

  lemma ProgressStarts(s: AppState, object_: ObjectKey, now: Instant)
    ensures Progress(s, object_, now, [], [], Activated(s, now).subscriptions)
  {
    hide Reported;
  }

  lemma ProgressSkips(s: AppState, object_: ObjectKey, now: Instant, done: seq<SubscriptionKey>, key: SubscriptionKey,
                      rs: seq<Reply>, items: map<SubscriptionKey, Subscription>)
    requires Progress(s, object_, now, done, rs, items) && key !in Reported(s, object_, now)
    ensures Progress(s, object_, now, done + [key], rs, items)
  {
    hide Reported;
    hide Announces;
    hide Sorted;
    assert Heard(s, object_, now, done) == Heard(s, object_, now, done + [key]);
  }

  lemma ProgressTells(s: AppState, object_: ObjectKey, now: Instant, done: seq<SubscriptionKey>, key: SubscriptionKey,
                      rs: seq<Reply>, items: map<SubscriptionKey, Subscription>, n: Reply)
    requires Progress(s, object_, now, done, rs, items) && key in Reported(s, object_, now) && Sorted(done + [key])
    requires n.Notice? && Announces(s, n, now) && n.subscription == key
    ensures key in Pruned(items, now)
    ensures Progress(s, object_, now, done + [key], rs + [n], Pruned(items, now)[key := items[key].(last := n.values)])
  {
    hide Reported;
    hide Sorted;
    hide Told;
    hide KeyBelow;
    assert forall k <- Members(Subscribers(rs)) :: k in done;
    SubscribersGrow(s, now, done, key, rs, n);
    assert Heard(s, object_, now, done + [key]) == Heard(s, object_, now, done) + {key};
    ToldNext(s, object_, now, done, key);
    assert Members(Subscribers(rs) + [key]) == Members(Subscribers(rs)) + {key};
  }

  lemma ToldNext(s: AppState, object_: ObjectKey, now: Instant, done: seq<SubscriptionKey>, key: SubscriptionKey)
    requires key in Reported(s, object_, now)
    ensures HasPresentValue(s.device, object_) && key.object_ == object_
    ensures var items := Told(s, object_, now, done);
            && Pruned(items, now) == items && key in items
            && Told(s, object_, now, done + [key]) == items[key := items[key].(last := PresentValue(s.device, object_))]
  {
    hide Changed;
  }

  /** One turn of the loop, whichever way it went. */
  lemma ProgressSteps(s: AppState, object_: ObjectKey, now: Instant, active: seq<SubscriptionKey>, i: nat,
                      rs: seq<Reply>, items: map<SubscriptionKey, Subscription>, n: Option<Reply>)
    requires Lists(active, Activated(s, now).subscriptions.Keys) && i < |active|
    requires Progress(s, object_, now, active[..i], rs, items)
    requires active[i] in Activated(s, now).subscriptions
    requires var key, t := active[i], Activated(s, now);
             && (n.Some? <==> key in t.endpoints && key.object_ == object_ && Due(s.device, key, t.subscriptions[key]))
             && (n.Some? ==>
                   && n.value.Notice? && n.value.subscription == key && n.value.to == t.endpoints[key]
                   && n.value.remaining == TimeRemaining(t.subscriptions[key], now)
                   && (n.value.invoke.Some? <==> t.subscriptions[key].confirmed)
                   && n.value.values == PresentValue(s.device, object_))
    ensures if n.None? then Progress(s, object_, now, active[..i + 1], rs, items)
            else && active[i] in Pruned(items, now)
                 && Progress(s, object_, now, active[..i + 1], rs + [n.value],
                             Pruned(items, now)[active[i] := items[active[i]].(last := n.value.values)])
  {
    hide Due;
    hide Progress;
    hide KeyBelow;
    hide Reported;
    assert active[..i + 1] == active[..i] + [active[i]];
    ReportedIffDue(s, object_, now, active[i]);
    if n.None? {
      ProgressSkips(s, object_, now, active[..i], active[i], rs, items);
    } else {
      ProgressTells(s, object_, now, active[..i], active[i], rs, items, n.value);
    }
  }

  lemma SubscribersGrow(s: AppState, now: Instant, done: seq<SubscriptionKey>, key: SubscriptionKey, rs: seq<Reply>,
        n: Reply)
    requires Sorted(done + [key]) && n.Notice? && n.subscription == key && forall r <- rs :: r.Notice?
    requires Sorted(Subscribers(rs)) && forall k <- Subscribers(rs) :: k in done
    ensures Subscribers(rs + [n]) == Subscribers(rs) + [key] && Sorted(Subscribers(rs) + [key])
  {
    hide KeyBelow;
    assert (rs + [n])[..|rs|] == rs;
    forall i | 0 <= i < |rs| ensures KeyBelow(Subscribers(rs)[i], key) {
      assert Subscribers(rs)[i] in done;
      var j :| 0 <= j < |done| && done[j] == Subscribers(rs)[i];
      assert (done + [key])[j] == done[j] && (done + [key])[|done|] == key;
    }
  }

  lemma ProgressEnds(s: AppState, object_: ObjectKey, now: Instant, done: seq<SubscriptionKey>, rs: seq<Reply>,
                     items: map<SubscriptionKey, Subscription>)
    requires Progress(s, object_, now, done, rs, items) && Lists(done, Activated(s, now).subscriptions.Keys)
    ensures items == Notified(s, object_, now).subscriptions
    ensures Reports(s, object_, now, rs)
  {
    hide Announces;
    hide Sorted;
    assert forall k <- Activated(s, now).subscriptions.Keys :: k in done;
    assert Heard(s, object_, now, done) == Reported(s, object_, now);
  }

  // ---- Notifications of a whole batch ------------------------------------

  /** Exactly the due subscriptions of these objects, each once. */
  ghost predicate ReportsEach(s: AppState, objects: seq<ObjectKey>, now: Instant, rs: seq<Reply>) {
    && (forall n <- rs :: n.Notice? && Announces(s, n, now))
    && (forall i, j :: 0 <= i < j < |rs| ==> rs[i].subscription != rs[j].subscription)
    && (forall key :: key in Subscribers(rs) <==> key.object_ in objects && key in Reported(s, key.object_, now))
  }

  /** `t` is `s` but for what subscriptions on `done` were last told, and expired entries. */
  predicate Similar(s: AppState, t: AppState, done: seq<ObjectKey>, now: Instant) {
    var a, b := Activated(s, now), Activated(t, now);
    && s.device == t.device
    && a.endpoints == b.endpoints
    && a.subscriptions.Keys == b.subscriptions.Keys
    && forall key <- a.subscriptions ::
         && b.subscriptions[key] == a.subscriptions[key].(last := b.subscriptions[key].last)
         && (key.object_ !in done ==> b.subscriptions[key].last == a.subscriptions[key].last)
  }

  lemma SimilarNext(s: AppState, t: AppState, done: seq<ObjectKey>, object_: ObjectKey, now: Instant)
    requires Similar(s, t, done, now)
    ensures Similar(s, Notified(t, object_, now), done + [object_], now)
  {
    hide Due;
  }

  lemma SimilarReports(s: AppState, t: AppState, done: seq<ObjectKey>, object_: ObjectKey, now: Instant)
    requires Similar(s, t, done, now) && object_ !in done
    ensures Reported(t, object_, now) == Reported(s, object_, now)
  {
    hide Due;
  }

  lemma SimilarAnnounces(s: AppState, t: AppState, done: seq<ObjectKey>, n: Reply, now: Instant)
    requires Similar(s, t, done, now) && n.Notice? && Announces(t, n, now)
    requires n.subscription in Activated(t, now).subscriptions
    requires n.subscription in Activated(t, now).endpoints
    ensures Announces(s, n, now)
  {
  }

  lemma {:induction false} SubscribersConcat(a: seq<Reply>, b: seq<Reply>)
    requires forall n <- a + b :: n.Notice?
    ensures (forall n <- a :: n.Notice?) && (forall n <- b :: n.Notice?)
    ensures Subscribers(a + b) == Subscribers(a) + Subscribers(b)
  {
    assert forall i :: 0 <= i < |a| ==> a[i] == (a + b)[i];
    assert forall i :: 0 <= i < |b| ==> b[i] == (a + b)[|a| + i];
  }

  /** The notifications of one more object join those of the objects before it. */
  lemma EachNext(s: AppState, t: AppState, done: seq<ObjectKey>, object_: ObjectKey, now: Instant, rs: seq<Reply>,
        more: seq<Reply>)
    requires Similar(s, t, done, now) && object_ !in done
    requires ReportsEach(s, done, now, rs) && Reports(t, object_, now, more)
    ensures ReportsEach(s, done + [object_], now, rs + more)
  {
    hide Announces;
    hide Similar;
    hide Sorted;
    hide Reported;
    SimilarReports(s, t, done, object_, now);
    ReportsAreHere(s, t, done, object_, now, more);
    SubscribersConcat(rs, more);
    assert forall key <- Members(Subscribers(more)) :: key.object_ == object_ by {
      ReportedHere(s, object_, now);
    }
    ReportsDistinct(more);
    DistinctJoin(rs, more, object_);
  }

  lemma ReportedHere(s: AppState, object_: ObjectKey, now: Instant)
    ensures forall key <- Reported(s, object_, now) :: key.object_ == object_
  {
    hide Due;
  }

  lemma DistinctJoin(a: seq<Reply>, b: seq<Reply>, object_: ObjectKey)
    requires (forall n <- a :: n.Notice?) && (forall n <- b :: n.Notice?)
    requires forall i, j :: 0 <= i < j < |a| ==> a[i].subscription != a[j].subscription
    requires forall i, j :: 0 <= i < j < |b| ==> b[i].subscription != b[j].subscription
    requires forall k <- Subscribers(a) :: k.object_ != object_
    requires forall k <- Subscribers(b) :: k.object_ == object_
    ensures forall i, j :: 0 <= i < j < |a + b| ==> (a + b)[i].subscription != (a + b)[j].subscription
  {
    forall i, j | 0 <= i < j < |a + b| ensures (a + b)[i].subscription != (a + b)[j].subscription {
      if i < |a| <= j {
        assert Subscribers(a)[i].object_ != object_ && Subscribers(b)[j - |a|].object_ == object_;
      }
    }
  }

  lemma ReportsDistinct(rs: seq<Reply>)
    requires forall n <- rs :: n.Notice?
    requires Sorted(Subscribers(rs))
    ensures forall i, j :: 0 <= i < j < |rs| ==> rs[i].subscription != rs[j].subscription
  {
    forall i, j | 0 <= i < j < |rs| ensures rs[i].subscription != rs[j].subscription {
      KeysAreTotal(Subscribers(rs)[i], Subscribers(rs)[j]);
    }
  }

  lemma ReportsAreHere(s: AppState, t: AppState, done: seq<ObjectKey>, object_: ObjectKey, now: Instant,
        more: seq<Reply>)
    requires Similar(s, t, done, now) && Reports(t, object_, now, more)
    ensures forall n <- more :: n.Notice? && Announces(s, n, now)
  {
    hide Announces;
    hide Similar;
    hide Due;
    hide Sorted;
    forall n | n in more ensures Announces(s, n, now) {
      var i :| 0 <= i < |more| && more[i] == n;
      assert Subscribers(more)[i] in Members(Subscribers(more));
      assert n.subscription in Reported(t, object_, now);
      SimilarAnnounces(s, t, done, n, now);
    }
  }

  // ---- Invoke IDs of confirmed notifications -----------------------------

  function ConfirmedCount(rs: seq<Reply>): (n: nat)
  {
    if rs == [] then 0
    else ConfirmedCount(rs[..|rs| - 1]) + if rs[|rs| - 1].Notice? && rs[|rs| - 1].invoke.Some? then 1 else 0
  }

  /** The invoke ID `n` steps after `from`: 1 to 255 in a cycle; 0 only before the first. */
  function IdAfter(from: Byte, n: nat): (id: Byte)
    ensures n > 0 ==> id != 0
  {
    if n == 0 then from else (from + n - 1) % 255 + 1
  }

  /** The confirmed notices carry consecutive invoke IDs after `from`. */
  predicate Numbered(rs: seq<Reply>, from: Byte) {
    forall i :: 0 <= i < |rs| ==> NumberedAt(rs, from, i)
  }

  predicate NumberedAt(rs: seq<Reply>, from: Byte, i: nat)
    requires i < |rs|
  {
    rs[i].Notice? && rs[i].invoke.Some? ==> rs[i].invoke.value == IdAfter(from, ConfirmedCount(rs[..i + 1]))
  }

  lemma NumberedStarts(from: Byte)
    ensures Numbered([], from) && IdAfter(from, ConfirmedCount([])) == from
  {
  }

  lemma IdSteps(from: Byte, n: nat)
    ensures IdAfter(IdAfter(from, n), 1) == IdAfter(from, n + 1)
  {
  }

  lemma NumberedNext(rs: seq<Reply>, n: Reply, from: Byte)
    requires Numbered(rs, from)
    requires n.Notice? && n.invoke.Some? ==> n.invoke.value == IdAfter(from, ConfirmedCount(rs) + 1)
    ensures Numbered(rs + [n], from)
    ensures ConfirmedCount(rs + [n]) == ConfirmedCount(rs) + if n.Notice? && n.invoke.Some? then 1 else 0
  {
    hide IdAfter;
    var t := rs + [n];
    assert t[..|rs|] == rs && t[..|rs| + 1] == t;
    forall i | 0 <= i < |rs| ensures NumberedAt(t, from, i) {
      NumberedLeft(rs, [n], from, i);
    }
  }

  lemma {:induction false} CountConcat(a: seq<Reply>, b: seq<Reply>)
    ensures ConfirmedCount(a + b) == ConfirmedCount(a) + ConfirmedCount(b)
    decreases |b|
  {
    if b == [] {
      assert a + b == a;
    } else {
      CountConcat(a, b[..|b| - 1]);
      assert (a + b)[..|a + b| - 1] == a + b[..|b| - 1];
    }
  }

  lemma NumberedConcat(a: seq<Reply>, b: seq<Reply>, from: Byte)
    requires Numbered(a, from) && Numbered(b, IdAfter(from, ConfirmedCount(a)))
    ensures Numbered(a + b, from)
  {
    hide NumberedAt;
    forall i | 0 <= i < |a + b| ensures NumberedAt(a + b, from, i) {
      if i < |a| {
        NumberedLeft(a, b, from, i);
      } else {
        NumberedRight(a, b, from, i - |a|);
      }
    }
  }

  lemma NumberedLeft(a: seq<Reply>, b: seq<Reply>, from: Byte, i: nat)
    requires i < |a| && NumberedAt(a, from, i)
    ensures NumberedAt(a + b, from, i)
  {
    assert (a + b)[..i + 1] == a[..i + 1];
  }

  lemma NumberedRight(a: seq<Reply>, b: seq<Reply>, from: Byte, k: nat)
    requires k < |b| && NumberedAt(b, IdAfter(from, ConfirmedCount(a)), k)
    ensures NumberedAt(a + b, from, |a| + k)
  {
    hide IdAfter;
    assert (a + b)[..|a| + k + 1] == a + b[..k + 1];
    CountConcat(a, b[..k + 1]);
    IdsAdd(from, ConfirmedCount(a), ConfirmedCount(b[..k + 1]));
  }

  lemma IdsAdd(from: Byte, m: nat, n: nat)
    ensures IdAfter(IdAfter(from, m), n) == IdAfter(from, m + n)
  {
  }

  lemma {:induction false} CountGrows(rs: seq<Reply>, i: nat, j: nat)
    requires i <= j <= |rs|
    ensures ConfirmedCount(rs[..i]) <= ConfirmedCount(rs[..j])
    decreases j
  {
    if i < j {
      CountGrows(rs, i, j - 1);
      assert rs[..j][..j - 1] == rs[..j - 1];
    }
  }

  /** Among fewer than 256 outstanding confirmed notices no two share an invoke ID. */
  lemma OutstandingIdsDiffer(rs: seq<Reply>, from: Byte, i: nat, j: nat)
    requires Numbered(rs, from) && i < j < |rs|
    requires rs[i].Notice? && rs[i].invoke.Some? && rs[j].Notice? && rs[j].invoke.Some?
    ensures rs[i].invoke == rs[j].invoke
       <==> (ConfirmedCount(rs[..j + 1]) - ConfirmedCount(rs[..i + 1])) % 255 == 0
    ensures rs[i].invoke == rs[j].invoke ==> ConfirmedCount(rs[..j + 1]) - ConfirmedCount(rs[..i + 1]) >= 255
  {
    CountGrows(rs, i + 1, j);
    assert NumberedAt(rs, from, i) && NumberedAt(rs, from, j);
    assert rs[..j + 1][..j] == rs[..j] && rs[..i + 1][..i] == rs[..i];
    var a, b := ConfirmedCount(rs[..i + 1]), ConfirmedCount(rs[..j + 1]);
    assert 0 < a < b;
    CycleIsInjective(from + a - 1, b - a);
  }

  lemma CycleIsInjective(x: nat, step: nat)
    requires step > 0
    ensures x % 255 == (x + step) % 255 <==> step % 255 == 0
    ensures step % 255 == 0 ==> step >= 255
  {
  }

  /** The reply to a batch: the first failed write with its error, or an acknowledgement. */
  function FailureReply(ws: seq<BatchWrite>, f: Option<Failure>): (r: Reply)
    requires f.Some? ==> f.value.at < |ws|
    ensures !r.Notice? && (r.SimpleAck? <==> f.None?)
  {
    match f
    case None => SimpleAck
    case Some(g) =>
      FailedWrite(ClassCodeOf(g.error), ws[g.at].write.key, ws[g.at].write.property, ws[g.at].index)
  }

  lemma ObjectsNext(specs: seq<ObjectWrites>, i: nat)
    requires i < |specs|
    ensures var before := Objects(specs[..i]);
            Objects(specs[..i + 1]) == if specs[i].key in before then before else before + [specs[i].key]
  {
    assert specs[..i + 1][..i] == specs[..i];
  }

  lemma NoObjects()
    ensures Objects([]) == []
  {
  }

  lemma PresentReading(d: DeviceState, key: ObjectKey)
    ensures ReadProperty(d, key, PRESENT_VALUE, None)
         == if key !in d.objects then Unread(UnknownObject)
            else if HasPresentValue(d, key) then Read(PresentValue(d, key))
            else Unread(UnknownProperty)
  {
  }

  lemma NothingToSubscribe(s: AppState, key: SubscriptionKey, confirmed: bool, lifetime: Uint32, now: Instant)
    requires ValidDevice(s.device)
    ensures !HasPresentValue(s.device, key.object_) ==>
              && Handled(s, Request.Subscribe(key, confirmed, lifetime), now) == s
              && Handled(s, Request.Cancel(key), now) == s
  {
  }

  lemma EachStarts(s: AppState, now: Instant)
    ensures Similar(s, s, [], now) && ReportsEach(s, [], now, [])
  {
    hide Due;
  }
}
