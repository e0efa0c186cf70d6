/** Who is notified, of what and when, over every run: told from the replies the simulator has sent
    and the requests it has got, not from its tables. */
module CovNotices {
  import opened Octets
  import opened Model
  import opened WriteBatch
  import opened Cov
  import opened CovRuns
  import opened Subscriptions
  import opened Replies
  import opened Turns

  // ---- Runs with their replies -------------------------------------------

  /** The turn of one request. */
  ghost function Turning(w: World, e: Event): (t: Turn)
    requires ValidDevice(w.app.device)
  {
    match e.request
    case WriteOne(write) => WriteTurn(w, BatchWrite(write, None), e.now)
    case WriteMany(specs) => BatchTurn(w, specs, e.now)
    case Subscribe(key, confirmed, lifetime) => SubscribeTurn(w, key, false, confirmed, lifetime, e.now)
    case Cancel(key) => SubscribeTurn(w, key, true, false, 0, e.now)
    case _ => Turn(World(Handled(w.app, e.request, e.now), w.invokeId), [])
  }

  lemma TurningHandles(w: World, e: Event)
    requires ValidDevice(w.app.device)
    ensures Turning(w, e).world.app == Handled(w.app, e.request, e.now)
  {
    hide WriteTurn;
    hide BatchTurn;
    hide Notified;
    hide NotifiedAll;
    hide WriteProperty;
    hide Batch;
    if e.request.WriteOne? {
      WriteTurnHandles(w, BatchWrite(e.request.write, None), e.now);
    } else if e.request.WriteMany? {
      BatchTurnHandles(w, e.request.specs, e.now);
    }
  }

  /** The world after a run, from a device nobody has subscribed to. */
  ghost function Played(d: DeviceState, events: seq<Event>): (w: World)
    requires ValidDevice(d)
    ensures ValidDevice(w.app.device) && w.app == Reach(d, events).state
    decreases |events|
  {
    if events == [] then World(AppState(d, map[], map[]), 0)
    else
      var n := |events| - 1;
      var before := Played(d, events[..n]);
      TurningHandles(before, events[n]);
      Turning(before, events[n]).world
  }

  /** Everything sent in a run, in order. */
  ghost function Log(d: DeviceState, events: seq<Event>): (rs: seq<Reply>)
    requires ValidDevice(d)
    decreases |events|
  {
    if events == [] then []
    else
      var n := |events| - 1;
      Log(d, events[..n]) + Turning(Played(d, events[..n]), events[n]).replies
  }

  /** The last notice among the replies that goes to this subscription. */
  function LastNotice(rs: seq<Reply>, key: SubscriptionKey): (n: Option<Reply>)
    ensures n.Some? ==> n.value in rs && n.value.Notice? && n.value.subscription == key
    ensures n.None? ==> forall r <- rs :: !(r.Notice? && r.subscription == key)
  {
    if rs == [] then None
    else
      var last := rs[|rs| - 1];
      if last.Notice? && last.subscription == key then Some(last) else LastNotice(rs[..|rs| - 1], key)
  }

  lemma {:induction false} LastNoticeConcat(a: seq<Reply>, b: seq<Reply>, key: SubscriptionKey)
    ensures LastNotice(a + b, key) == if LastNotice(b, key).Some? then LastNotice(b, key) else LastNotice(a, key)
    decreases |b|
  {
    if b == [] {
      assert a + b == a;
    } else {
      assert (a + b)[..|a + b| - 1] == a + b[..|b| - 1];
      LastNoticeConcat(a, b[..|b| - 1], key);
    }
  }

  // ---- The notices of one request ----------------------------------------

  lemma {:induction false} NoticesForLast(s: AppState, keys: seq<SubscriptionKey>, now: Instant, from: Byte,
                                          key: SubscriptionKey)
    requires forall i :: 0 <= i < |keys| ==> CanTell(s, keys[i])
    ensures var n := LastNotice(NoticesFor(s, keys, now, from), key);
            (n.Some? <==> key in keys) && (n.Some? ==> Announces(s, n.value, now))
    decreases |keys|
  {
    hide CanTell;
    hide Announces;
    hide NoticeOf;
    hide ConfirmedCount;
    if keys != [] {
      var n := |keys| - 1;
      var before := NoticesFor(s, keys[..n], now, from);
      assert keys == keys[..n] + [keys[n]];
      NoticesForLast(s, keys[..n], now, from, key);
      assert CanTell(s, keys[n]);
      NoticeAnnounces(s, keys[n], now, from, ConfirmedCount(before));
      LastNoticeConcat(before, [NoticeOf(s, keys[n], now, from, ConfirmedCount(before))], key);
      OneNotice(NoticeOf(s, keys[n], now, from, ConfirmedCount(before)), key);
    }
  }

  lemma OneNotice(n: Reply, key: SubscriptionKey)
    requires n.Notice?
    ensures LastNotice([n], key) == if n.subscription == key then Some(n) else None
  {
    assert [n][..0] == [];
  }

  lemma NoticeAnnounces(s: AppState, key: SubscriptionKey, now: Instant, from: Byte, count: nat)
    requires CanTell(s, key)
    ensures Announces(s, NoticeOf(s, key, now, from, count), now)
  {
    hide TimeRemaining;
  }

  lemma NoticesOfLast(s: AppState, object_: ObjectKey, now: Instant, from: Byte, key: SubscriptionKey)
    ensures var n := LastNotice(NoticesOf(s, object_, now, from), key);
            (n.Some? <==> key in Reported(s, object_, now)) && (n.Some? ==> Announces(s, n.value, now))
  {
    hide Announces;
    hide CanTell;
    hide Reported;
    hide Sorted;
    hide NoticesFor;
    var keys := Listing(Reported(s, object_, now));
    ReportedCanBeTold(s, object_, now, keys);
    NoticesForLast(s, keys, now, from, key);
    assert key in keys <==> key in Members(keys);
  }

  predicate Distinct(objects: seq<ObjectKey>) {
    forall i, j :: 0 <= i < j < |objects| ==> objects[i] != objects[j]
  }

  lemma NotifiedIsSimilar(s: AppState, object_: ObjectKey, now: Instant)
    ensures Similar(s, Notified(s, object_, now), [object_], now)
  {
    hide Similar;
    hide Notified;
    EachStarts(s, now);
    SimilarNext(s, s, [], object_, now);
    assert [] + [object_] == [object_];
  }

  /** Notices of the other objects are the same whether or not one was reported on before. */
  lemma OthersAnnounced(s: AppState, object_: ObjectKey, now: Instant, n: Reply)
    requires n.Notice? && n.subscription.object_ != object_
    requires n.subscription in Reported(Notified(s, object_, now), n.subscription.object_, now)
    requires Announces(Notified(s, object_, now), n, now)
    ensures Announces(s, n, now)
  {
    hide Announces;
    hide Similar;
    hide Notified;
    hide Due;
    NotifiedIsSimilar(s, object_, now);
    SimilarAnnounces(s, Notified(s, object_, now), [object_], n, now);
  }

  lemma {:induction false} NoticesOfAllLast(s: AppState, objects: seq<ObjectKey>, now: Instant, from: Byte,
                                            key: SubscriptionKey)
    requires Distinct(objects)
    ensures var n := LastNotice(NoticesOfAll(s, objects, now, from), key);
            && (n.Some? <==> key.object_ in objects && key in Reported(s, key.object_, now))
            && (n.Some? ==> Announces(s, n.value, now))
    decreases |objects|
  {
    hide Announces;
    hide Reported;
    hide Notified;
    hide NoticesOf;
    hide ConfirmedCount;
    hide LastNotice;
    if objects == [] {
      NoNotice(key);
    } else {
      var o, rest, t := objects[0], objects[1..], Notified(s, objects[0], now);
      var ns := NoticesOf(s, o, now, from);
      var next := IdAfter(from, ConfirmedCount(ns));
      assert objects == [o] + rest && o !in rest;
      NoticesOfLast(s, o, now, from, key);
      NoticesOfAllLast(t, rest, now, next, key);
      LastNoticeConcat(ns, NoticesOfAll(t, rest, now, next), key);
      ReportedHere(s, o, now);
      if key.object_ != o {
        NotifiedIsSimilar(s, o, now);
        SimilarReports(s, t, [o], key.object_, now);
        LaterAnnounced(s, o, now, LastNotice(NoticesOfAll(t, rest, now, next), key), key);
      }
    }
  }

  lemma LaterAnnounced(s: AppState, object_: ObjectKey, now: Instant, n: Option<Reply>, key: SubscriptionKey)
    requires n.Some? ==> n.value.Notice? && n.value.subscription == key && key.object_ != object_
    requires n.Some? ==> key in Reported(Notified(s, object_, now), key.object_, now)
    requires n.Some? ==> Announces(Notified(s, object_, now), n.value, now)
    ensures n.Some? ==> Announces(s, n.value, now)
  {
    hide Announces;
    hide Reported;
    hide Notified;
    if n.Some? {
      OthersAnnounced(s, object_, now, n.value);
    }
  }

  lemma NoNotice(key: SubscriptionKey)
    ensures LastNotice([], key).None?
  {
  }

  // ---- What a request leaves in the tables -------------------------------

  /** What reporting on these objects makes of an entry. */
  function Reportable(s: AppState, objects: seq<ObjectKey>, now: Instant, key: SubscriptionKey): (b: bool)
  {
    key.object_ in objects && key in Reported(s, key.object_, now)
  }

  lemma NotifiedEntry(s: AppState, object_: ObjectKey, now: Instant, key: SubscriptionKey)
    ensures var t := Notified(s, object_, now);
            && (key in t.subscriptions <==> key in s.subscriptions && !Expired(s.subscriptions[key], now))
            && (key in t.subscriptions && key in Reported(s, object_, now) ==>
                  && HasPresentValue(s.device, key.object_)
                  && t.subscriptions[key] == s.subscriptions[key].(last := PresentValue(s.device, key.object_)))
            && (key in t.subscriptions && key !in Reported(s, object_, now) ==>
                  t.subscriptions[key] == s.subscriptions[key])
  {
    hide Due;
  }

  lemma {:induction false} NotifiedAllEntry(s: AppState, objects: seq<ObjectKey>, now: Instant, key: SubscriptionKey)
    requires Distinct(objects)
    ensures var t := NotifiedAll(s, objects, now);
            && (key in t.subscriptions ==> key in s.subscriptions)
            && (key in s.subscriptions && !Expired(s.subscriptions[key], now) ==> key in t.subscriptions)
            && (key in t.subscriptions && Reportable(s, objects, now, key) ==>
                  && HasPresentValue(s.device, key.object_)
                  && t.subscriptions[key] == s.subscriptions[key].(last := PresentValue(s.device, key.object_)))
            && (key in t.subscriptions && !Reportable(s, objects, now, key) ==>
                  t.subscriptions[key] == s.subscriptions[key])
    decreases |objects|
  {
    hide Reported;
    hide Notified;
    if objects != [] {
      var o, rest, t := objects[0], objects[1..], Notified(s, objects[0], now);
      assert objects == [o] + rest && o !in rest;
      NotifiedEntry(s, o, now, key);
      NotifiedAllEntry(t, rest, now, key);
      ReportedHere(s, o, now);
      ReportedHere(t, key.object_, now);
      if key.object_ != o {
        NotifiedIsSimilar(s, o, now);
        SimilarReports(s, t, [o], key.object_, now);
      }
    }
  }

  /** The request writes, and the object is among those it names. */
  predicate Names(r: Request, object_: ObjectKey) {
    match r
    case WriteOne(w) => w.key == object_
    case WriteMany(specs) => exists i :: 0 <= i < |specs| && specs[i].key == object_
    case _ => false
  }

  predicate Acknowledged(rs: seq<Reply>) {
    rs != [] && rs[0].SimpleAck?
  }

  /** What one turn does about one subscription: whether it is notified, of what, and what the
      tables remember of it. */
  ghost predicate Settled(w: World, e: Event, key: SubscriptionKey)
    requires ValidDevice(w.app.device)
  {
    var t := Turning(w, e);
    var n, s := LastNotice(t.replies, key), w.app.(device := t.world.app.device);
    && (e.request.Subscribe? ==>
          && (n.Some? <==> e.request.key == key && HasPresentValue(s.device, key.object_))
          && (n.Some? ==>
                && n.value.to == key.subscriber && n.value.values == PresentValue(s.device, key.object_)
                && n.value.remaining == e.request.lifetime && (n.value.invoke.Some? <==> e.request.confirmed)))
    && (!e.request.Subscribe? ==>
          && (n.Some? <==>
                && Acknowledged(t.replies) && Names(e.request, key.object_)
                && key in Reported(s, key.object_, e.now))
          && (n.Some? ==> Announces(s, n.value, e.now)))
    && (key in t.world.app.subscriptions ==>
          && (n.Some? ==> t.world.app.subscriptions[key].last == n.value.values)
          && (n.None? ==>
                key in w.app.subscriptions && t.world.app.subscriptions[key].last == w.app.subscriptions[key].last))
  }

  lemma LastAfterAck(rs: seq<Reply>, key: SubscriptionKey)
    ensures LastNotice([SimpleAck] + rs, key) == LastNotice(rs, key)
  {
    LastNoticeConcat([SimpleAck], rs, key);
    assert [SimpleAck][..0] == [];
  }

  lemma LastOfOne(r: Reply, key: SubscriptionKey)
    requires !r.Notice?
    ensures LastNotice([r], key).None?
  {
    assert [r][..0] == [];
  }

  lemma WriteSettles(w: World, e: Event, key: SubscriptionKey)
    requires ValidDevice(w.app.device) && e.request.WriteOne?
    ensures Settled(w, e, key)
  {
    hide WriteProperty;
    hide NoticesOf;
    hide LastNotice;
    hide Notified;
    hide Announces;
    hide Reported;
    hide ConfirmedCount;
    var write := e.request.write;
    var o := WriteProperty(w.app.device, write);
    DryRun(w.app.device, write);
    if o.error.Some? {
      LastOfOne(Failed(ClassCodeOf(o.error.value)), key);
    } else {
      var s := w.app.(device := o.device);
      LastAfterAck(NoticesOf(s, write.key, e.now, w.invokeId), key);
      NoticesOfLast(s, write.key, e.now, w.invokeId, key);
      NotifiedEntry(s, write.key, e.now, key);
      ReportedHere(s, write.key, e.now);
      SaysWhatIsThere(s, LastNotice(NoticesOf(s, write.key, e.now, w.invokeId), key), e.now);
    }
  }

  lemma SaysWhatIsThere(s: AppState, n: Option<Reply>, now: Instant)
    requires n.Some? ==> n.value.Notice? && Announces(s, n.value, now)
    ensures n.Some? ==>
              && HasPresentValue(s.device, n.value.subscription.object_)
              && n.value.values == PresentValue(s.device, n.value.subscription.object_)
  {
  }

  lemma BatchSettles(w: World, e: Event, key: SubscriptionKey)
    requires ValidDevice(w.app.device) && e.request.WriteMany?
    ensures Settled(w, e, key)
  {
    hide Batch;
    hide NoticesOfAll;
    hide LastNotice;
    hide NotifiedAll;
    hide Announces;
    hide Reported;
    hide ConfirmedCount;
    hide Flattened;
    hide Objects;
    var specs := e.request.specs;
    var b := Batch(w.app.device, Flattened(specs));
    var s := w.app.(device := b.device);
    if b.failure.Some? {
      LastOfOne(FailureReply(Flattened(specs), b.failure), key);
    } else {
      var objects := Objects(specs);
      LastAfterAck(NoticesOfAll(s, objects, e.now, w.invokeId), key);
      NoticesOfAllLast(s, objects, e.now, w.invokeId, key);
      NotifiedAllEntry(s, objects, e.now, key);
      SaysWhatIsThere(s, LastNotice(NoticesOfAll(s, objects, e.now, w.invokeId), key), e.now);
    }
  }

  lemma SubscribeSettles(w: World, e: Event, key: SubscriptionKey)
    requires ValidDevice(w.app.device) && (e.request.Subscribe? || e.request.Cancel?)
    ensures Settled(w, e, key)
  {
    hide Announces;
    hide Reported;
    hide LastNotice;
    var rs := Turning(w, e).replies;
    if |rs| == 1 {
      assert rs == [rs[0]];
      LastOfOne(rs[0], key);
    } else {
      assert rs == [SimpleAck] + [rs[1]];
      LastAfterAck([rs[1]], key);
      OneNotice(rs[1], key);
    }
  }

  lemma TurnSettles(w: World, e: Event, key: SubscriptionKey)
    requires ValidDevice(w.app.device)
    ensures Settled(w, e, key)
  {
    if e.request.WriteOne? {
      WriteSettles(w, e, key);
    } else if e.request.WriteMany? {
      BatchSettles(w, e, key);
    } else if e.request.Subscribe? || e.request.Cancel? {
      SubscribeSettles(w, e, key);
    }
  }

  /** Over every run, what the tables remember of a subscription is what its last notice said. */
  lemma {:induction false} RememberedIsTold(d: DeviceState, events: seq<Event>, key: SubscriptionKey)
    requires ValidDevice(d) && key in Played(d, events).app.subscriptions
    ensures LastNotice(Log(d, events), key).Some?
    ensures Played(d, events).app.subscriptions[key].last == LastNotice(Log(d, events), key).value.values
    decreases |events|
  {
    hide Turning;
    hide LastNotice;
    if events != [] {
      var n := |events| - 1;
      var w := Played(d, events[..n]);
      TurnSettles(w, events[n], key);
      LastNoticeConcat(Log(d, events[..n]), Turning(w, events[n]).replies, key);
      if LastNotice(Turning(w, events[n]).replies, key).None? {
        RememberedIsTold(d, events[..n], key);
      }
    }
  }
}
