/** One turn of the simulator's application, as values: the world a decoded request finds, the
    world it leaves and the replies it gets (simulator/application.go). */
module Turns {
  import opened Octets
  import opened Model
  import opened WriteBatch
  import opened Cov
  import opened Subscriptions
  import opened Replies

  datatype World = World(app: AppState, invokeId: Byte)

  datatype Turn = Turn(world: World, replies: seq<Reply>)

  // ---- Notifications in order --------------------------------------------

  predicate CanTell(s: AppState, key: SubscriptionKey) {
    key in s.subscriptions && key in s.endpoints && HasPresentValue(s.device, key.object_)
  }

  /** The notification of one subscription, after `count` confirmed ones. */
  function NoticeOf(s: AppState, key: SubscriptionKey, now: Instant, from: Byte, count: nat): (n: Reply)
    requires CanTell(s, key)
    ensures n.Notice? && n.subscription == key
  {
    var item := s.subscriptions[key];
    Notice(key, s.endpoints[key], if item.confirmed then Some(IdAfter(from, count + 1)) else None,
           TimeRemaining(item, now), PresentValue(s.device, key.object_))
  }

  /** The notifications of these subscriptions, confirmed ones numbered on from `from`. */
  function NoticesFor(s: AppState, keys: seq<SubscriptionKey>, now: Instant, from: Byte): (rs: seq<Reply>)
    requires forall i :: 0 <= i < |keys| ==> CanTell(s, keys[i])
    ensures |rs| == |keys| && forall i :: 0 <= i < |keys| ==> rs[i].Notice? && rs[i].subscription == keys[i]
    decreases |keys|
  {
    if keys == [] then []
    else
      var before := NoticesFor(s, keys[..|keys| - 1], now, from);
      assert CanTell(s, keys[|keys| - 1]);
      before + [NoticeOf(s, keys[|keys| - 1], now, from, ConfirmedCount(before))]
  }

  lemma ReportedCanBeTold(s: AppState, object_: ObjectKey, now: Instant, keys: seq<SubscriptionKey>)
    requires Lists(keys, Reported(s, object_, now))
    ensures forall i :: 0 <= i < |keys| ==> CanTell(s, keys[i]) && keys[i].object_ == object_
  {
    hide Sorted;
    forall i | 0 <= i < |keys| ensures CanTell(s, keys[i]) && keys[i].object_ == object_ {
      assert keys[i] in Members(keys);
    }
  }

  /** `notifications` */
  ghost function NoticesOf(s: AppState, object_: ObjectKey, now: Instant, from: Byte): (rs: seq<Reply>)
  {
    var keys := Listing(Reported(s, object_, now));
    ReportedCanBeTold(s, object_, now, keys);
    NoticesFor(s, keys, now, from)
  }

  ghost function NoticesOfAll(s: AppState, objects: seq<ObjectKey>, now: Instant, from: Byte): (rs: seq<Reply>)
    decreases |objects|
  {
    if objects == [] then []
    else
      var ns := NoticesOf(s, objects[0], now, from);
      ns + NoticesOfAll(Notified(s, objects[0], now), objects[1..], now, IdAfter(from, ConfirmedCount(ns)))
  }

  lemma AnnouncedCanBeTold(s: AppState, now: Instant, rs: seq<Reply>)
    requires forall n <- rs :: n.Notice? && Announces(s, n, now)
    ensures forall i :: 0 <= i < |rs| ==> CanTell(s, Subscribers(rs)[i])
  {
    forall i | 0 <= i < |rs| ensures CanTell(s, Subscribers(rs)[i]) {
      assert Announces(s, rs[i], now) && Subscribers(rs)[i] == rs[i].subscription;
    }
  }

  lemma {:induction false} AnnouncedAreNotices(s: AppState, now: Instant, rs: seq<Reply>, from: Byte)
    requires (forall n <- rs :: n.Notice? && Announces(s, n, now)) && Numbered(rs, from)
    requires forall i :: 0 <= i < |rs| ==> CanTell(s, Subscribers(rs)[i])
    ensures rs == NoticesFor(s, Subscribers(rs), now, from)
    decreases |rs|
  {
    hide NoticeOf;
    hide Announces;
    hide CanTell;
    hide NumberedAt;
    hide ConfirmedCount;
    hide NoticesFor;
    hide Subscribers;
    if rs == [] {
      NobodyToTell(s, Subscribers(rs), now, from);
    } else {
      var n := |rs| - 1;
      var keys, init := Subscribers(rs), rs[..n];
      SubscribersBefore(rs);
      assert forall i :: 0 <= i < n ==> CanTell(s, keys[..n][i]);
      NumberedPrefix(rs, from, n);
      assert forall r <- init :: r in rs;
      AnnouncedAreNotices(s, now, init, from);
      AnnouncedIsNotice(s, now, rs, from);
      OneMoreNotice(s, keys, now, from);
      assert rs == init + [rs[n]];
    }
  }

  lemma NobodyToTell(s: AppState, keys: seq<SubscriptionKey>, now: Instant, from: Byte)
    requires keys == []
    ensures NoticesFor(s, keys, now, from) == []
  {
  }

  lemma OneMoreNotice(s: AppState, keys: seq<SubscriptionKey>, now: Instant, from: Byte)
    requires keys != [] && forall i :: 0 <= i < |keys| ==> CanTell(s, keys[i])
    ensures var n := |keys| - 1;
            && (forall i :: 0 <= i < n ==> CanTell(s, keys[..n][i])) && CanTell(s, keys[n])
            && var before := NoticesFor(s, keys[..n], now, from);
               NoticesFor(s, keys, now, from) == before + [NoticeOf(s, keys[n], now, from, ConfirmedCount(before))]
  {
    hide NoticeOf;
    hide ConfirmedCount;
    hide CanTell;
  }

  lemma SubscribersBefore(rs: seq<Reply>)
    requires rs != [] && forall n <- rs :: n.Notice?
    ensures var n := |rs| - 1; Subscribers(rs)[..n] == Subscribers(rs[..n])
  {
  }

  lemma AnnouncedIsNotice(s: AppState, now: Instant, rs: seq<Reply>, from: Byte)
    requires rs != [] && rs[|rs| - 1].Notice? && Announces(s, rs[|rs| - 1], now) && NumberedAt(rs, from, |rs| - 1)
    ensures CanTell(s, rs[|rs| - 1].subscription)
    ensures rs[|rs| - 1] == NoticeOf(s, rs[|rs| - 1].subscription, now, from, ConfirmedCount(rs[..|rs| - 1]))
  {
    hide IdAfter;
    hide TimeRemaining;
    assert rs[..|rs|] == rs;
  }

  lemma NumberedPrefix(rs: seq<Reply>, from: Byte, n: nat)
    requires Numbered(rs, from) && n <= |rs|
    ensures Numbered(rs[..n], from)
  {
    forall i | 0 <= i < n ensures NumberedAt(rs[..n], from, i) {
      assert NumberedAt(rs, from, i) && rs[..n][..i + 1] == rs[..i + 1];
    }
  }

  /** Reports that are numbered are these notifications and no others. */
  lemma ReportsAreNotices(s: AppState, object_: ObjectKey, now: Instant, rs: seq<Reply>, from: Byte)
    requires Reports(s, object_, now, rs) && Numbered(rs, from)
    ensures rs == NoticesOf(s, object_, now, from)
  {
    hide Announces;
    hide Numbered;
    hide Lists;
    hide Reported;
    hide NoticesFor;
    AnnouncedCanBeTold(s, now, rs);
    AnnouncedAreNotices(s, now, rs, from);
    ListingIsUnique(Subscribers(rs), Listing(Reported(s, object_, now)), Reported(s, object_, now));
  }

  // ---- Turns -------------------------------------------------------------

  function ReadReply(d: DeviceState, key: ObjectKey, property: Uint32, index: Option<Uint32>): (r: Reply)
  {
    match ReadProperty(d, key, property, index)
    case Read(values) => Values(values)
    case Unread(e) => Failed(ClassCodeOf(e))
  }

  /** handleWriteProperty */
  ghost function WriteTurn(w: World, bw: BatchWrite, now: Instant): (t: Turn)
    requires ValidDevice(w.app.device)
  {
    if bw.index.Some? then Turn(w, [Failed(ClassCodeOf(InvalidArrayIndex))])
    else
      var o := WriteProperty(w.app.device, bw.write);
      match o.error
      case Some(e) => Turn(w, [Failed(ClassCodeOf(e))])
      case None =>
        var s := w.app.(device := o.device);
        var ns := NoticesOf(s, bw.write.key, now, w.invokeId);
        Turn(World(Notified(s, bw.write.key, now), IdAfter(w.invokeId, ConfirmedCount(ns))), [SimpleAck] + ns)
  }

  /** handleWritePropertyMultiple */
  ghost function BatchTurn(w: World, specs: seq<ObjectWrites>, now: Instant): (t: Turn)
    requires ValidDevice(w.app.device)
  {
    var b := Batch(w.app.device, Flattened(specs));
    var s := w.app.(device := b.device);
    if b.failure.Some? then Turn(World(s, w.invokeId), [FailureReply(Flattened(specs), b.failure)])
    else
      var ns := NoticesOfAll(s, Objects(specs), now, w.invokeId);
      Turn(World(NotifiedAll(s, Objects(specs), now), IdAfter(w.invokeId, ConfirmedCount(ns))), [SimpleAck] + ns)
  }

  /** handleSubscribeCOV */
  function SubscribeTurn(w: World, key: SubscriptionKey, cancel: bool, confirmed: bool, lifetime: Uint32,
        now: Instant): (t: Turn)
    requires ValidDevice(w.app.device)
  {
    if !HasPresentValue(w.app.device, key.object_) then
      Turn(w, [Failed(if key.object_ in w.app.device.objects then NOT_COV_PROPERTY else ClassCodeOf(UnknownObject))])
    else if cancel then Turn(World(Handled(w.app, Request.Cancel(key), now), w.invokeId), [SimpleAck])
    else
      var id := if confirmed then IdAfter(w.invokeId, 1) else w.invokeId;
      Turn(World(Handled(w.app, Request.Subscribe(key, confirmed, lifetime), now), id),
           [SimpleAck, Notice(key, key.subscriber, if confirmed then Some(id) else None, lifetime,
                              PresentValue(w.app.device, key.object_))])
  }

  lemma SubscribeTurnSays(w: World, key: SubscriptionKey, cancel: bool, confirmed: bool, lifetime: Uint32,
                          now: Instant)
    requires ValidDevice(w.app.device)
    ensures var rs := SubscribeTurn(w, key, cancel, confirmed, lifetime, now).replies;
            TerminalFirst(rs) && Numbered(rs[1..], w.invokeId)
  {
    hide Handled;
    hide IdAfter;
    var rs := SubscribeTurn(w, key, cancel, confirmed, lifetime, now).replies;
    NumberedStarts(w.invokeId);
    if |rs| == 2 {
      NumberedNext([], rs[1], w.invokeId);
      assert rs[1..] == [rs[1]] == [] + [rs[1]];
    } else {
      assert rs[1..] == [];
    }
  }

  /** A turn moves the application as the value model says. */
  lemma WriteTurnHandles(w: World, bw: BatchWrite, now: Instant)
    requires ValidDevice(w.app.device)
    ensures WriteTurn(w, bw, now).world.app == if bw.index.Some? then w.app else Handled(w.app, WriteOne(bw.write), now)
  {
    hide NoticesOf;
    hide Notified;
    if bw.index.None? {
      DryRun(w.app.device, bw.write);
    }
  }

  lemma BatchTurnHandles(w: World, specs: seq<ObjectWrites>, now: Instant)
    requires ValidDevice(w.app.device)
    ensures BatchTurn(w, specs, now).world.app == Handled(w.app, WriteMany(specs), now)
  {
    hide NoticesOfAll;
    hide NotifiedAll;
    hide Batch;
  }
}
