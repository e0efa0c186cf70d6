/** When no two unreleased requests share an invoke ID: the exact conditions on the steps of a
    run, and what happens at a step that breaks them. */
module ClientExclusivity {
  import opened Octets
  import opened Transactions
  import opened ClientProtocol

  /** No two unreleased requests to one address have the same invoke ID. */
  predicate Exclusive(s: State) {
    forall l, m :: 0 <= l < m < |s.lives| && s.lives[l].address.Some? && s.lives[l].id != 0
      ==> !Holds(s.lives[m], Key(s.lives[l].address.value, s.lives[l].id))
  }

  /** A response under this key was delivered, and one of its two releases is to come. */
  predicate WindowOpen(s: State, key: Key) {
    key in s.pending || exists l :: 0 <= l < |s.lives| && Holds(s.lives[l], key) && s.lives[l].answered
  }

  /** The step grants no ID inside its window. */
  predicate Patient(s: State, a: Action) {
    a.Acquire? && a.to.At? && Granted(s.pool, a.to.address).Some? ==>
      !WindowOpen(s, Key(a.to.address, Granted(s.pool, a.to.address).value))
  }

  predicate PatientRun(actions: seq<Action>) {
    forall i :: 0 <= i < |actions| ==> Patient(Run(INITIAL, actions[..i]), actions[i])
  }

  /** A request still waiting has its ID reserved. */
  predicate WaitingReserved(s: State) {
    forall l :: 0 <= l < |s.lives| && s.lives[l].address.Some? && s.lives[l].id != 0 && !s.lives[l].answered ==>
      Key(s.lives[l].address.value, s.lives[l].id) in s.pool.reserved
  }

  /** A dispatcher about to release an ID does so for a request that was answered. */
  predicate PendingAnswered(s: State) {
    forall l :: 0 <= l < |s.lives| && s.lives[l].address.Some? && s.lives[l].id != 0 && !s.lives[l].answered ==>
      Key(s.lives[l].address.value, s.lives[l].id) !in s.pending
  }

  /** No request is left waiting for an ID the dispatcher is about to release: the message is
      handed to the use that holds the ID, or no use still waiting holds it. */
  predicate Harmless(s: State, a: Action) {
    a.Deliver? && Match(s.handlers, a.message).Some? ==>
      var key := Key(a.message.sender, a.message.id);
      || (Answering(s, a.message).Some? && Holds(s.lives[Answering(s, a.message).value], key))
      || forall l :: 0 <= l < |s.lives| && Holds(s.lives[l], key) ==> s.lives[l].answered
  }

  predicate Careful(s: State, a: Action) {
    Patient(s, a) && Harmless(s, a)
  }

  predicate CarefulRun(actions: seq<Action>) {
    forall i :: 0 <= i < |actions| ==> Careful(Run(INITIAL, actions[..i]), actions[i])
  }

  predicate Orderly(s: State) {
    Exclusive(s) && WaitingReserved(s) && PendingAnswered(s)
  }

  lemma ExclusiveStep(s: State, a: Action)
    requires Orderly(s) && Patient(s, a)
    ensures Exclusive(Step(s, a))
  {
    hide PendingAnswered;
    if a.Acquire? {
      AcquireIsExclusive(s, a);
    } else {
      hide WaitingReserved;
      hide WindowOpen;
      hide Granted;
    }
  }

  lemma AcquireIsExclusive(s: State, a: Action)
    requires a.Acquire? && Exclusive(s) && WaitingReserved(s) && Patient(s, a)
    ensures Exclusive(Step(s, a))
  {
    if a.to.At? && Granted(s.pool, a.to.address).Some? {
      var key := Key(a.to.address, Granted(s.pool, a.to.address).value);
      assert key !in s.pool.reserved;
      assert !WindowOpen(s, key);
      assert forall l :: 0 <= l < |s.lives| ==> !Holds(s.lives[l], key);
    }
  }

  lemma WaitingReservedStep(s: State, a: Action)
    requires Orderly(s)
    ensures WaitingReserved(Step(s, a))
  {
    if a.DispatchRelease? {
      hide Exclusive;
    } else if a.ReleaseId? {
      hide PendingAnswered;
    } else {
      hide PendingAnswered;
      hide Exclusive;
    }
  }

  lemma PendingAnsweredStep(s: State, a: Action)
    requires Orderly(s) && Patient(s, a) && !a.Deliver?
    ensures PendingAnswered(Step(s, a))
  {
    hide WaitingReserved;
    hide Exclusive;
  }

  /** A delivery keeps the order exactly when it is harmless. */
  lemma DeliverKeepsPendingIff(s: State, m: Message)
    requires Exclusive(s) && PendingAnswered(s)
    ensures PendingAnswered(Delivering(s, m)) <==> Harmless(s, Deliver(m))
  {
    if Match(s.handlers, m).Some? {
      var key, t := Key(m.sender, m.id), Delivering(s, m);
      if !Harmless(s, Deliver(m)) {
        var l :| 0 <= l < |s.lives| && Holds(s.lives[l], key) && !s.lives[l].answered;
        assert Holds(t.lives[l], key) && !t.lives[l].answered && key in t.pending;
      }
    }
  }

  /** Every step but an acquisition keeps the order exactly when it is harmless; an acquisition
      keeps it when it is patient. */
  lemma OrderlyStep(s: State, a: Action)
    requires Orderly(s) && Patient(s, a)
    ensures Orderly(Step(s, a)) <==> Harmless(s, a)
  {
    hide Exclusive;
    hide WaitingReserved;
    hide PendingAnswered;
    hide Patient;
    hide Holds;
    hide Match;
    ExclusiveStep(s, a);
    WaitingReservedStep(s, a);
    if a.Deliver? {
      DeliverKeepsPendingIff(s, a.message);
    } else {
      PendingAnsweredStep(s, a);
    }
  }

  /** In every run that grants no ID inside its window and whose deliveries are harmless, no two
      unreleased requests to one address share an invoke ID, wherever they are sent. */
  lemma {:induction false} CarefulRunIsExclusive(actions: seq<Action>)
    requires CarefulRun(actions)
    ensures Orderly(Run(INITIAL, actions)) && Exclusive(Run(INITIAL, actions))
    decreases |actions|
  {
    hide Step;
    hide Patient;
    hide Harmless;
    if actions != [] {
      var n := |actions| - 1;
      assert forall i :: 0 <= i < n ==> actions[..n][i] == actions[i] && actions[..n][..i] == actions[..i];
      CarefulRunIsExclusive(actions[..n]);
      OrderlyStep(Run(INITIAL, actions[..n]), actions[n]);
    }
  }

  // ---- Sending where the ID was reserved ---------------------------------

  /** A handler belongs to the very request that registered it. */
  predicate HandlersTrue(s: State) {
    forall key <- s.handlers ::
      var token := s.handlers[key].token;
      && token < |s.registrations| && s.registrations[token].life < |s.lives|
      && Owns(s.lives[s.registrations[token].life], key)
  }

  lemma HandlersTrueStep(s: State, a: Action)
    requires HandlersTrue(s) && Aligned(s, a)
    ensures HandlersTrue(Step(s, a))
  {
    if !a.Register? {
      hide Step;
      var t := Step(s, a);
      RecordsGrow(s, a);
      forall key | key in t.handlers
        ensures t.handlers[key].token < |t.registrations| && t.registrations[t.handlers[key].token].life < |t.lives|
        ensures Owns(t.lives[t.registrations[t.handlers[key].token].life], key)
      {
        OwningLasts(s, a, s.registrations[s.handlers[key].token].life, key);
      }
    }
  }

  lemma {:induction false} AlignedRunHandlersTrue(actions: seq<Action>)
    requires AlignedRun(actions)
    ensures HandlersTrue(Run(INITIAL, actions))
    decreases |actions|
  {
    hide Step;
    hide Aligned;
    if actions != [] {
      var n := |actions| - 1;
      assert forall i :: 0 <= i < n ==> actions[..n][i] == actions[i] && actions[..n][..i] == actions[..i];
      AlignedRunHandlersTrue(actions[..n]);
      HandlersTrueStep(Run(INITIAL, actions[..n]), actions[n]);
    }
  }

  /** Every delivery of a run that sends where it reserved is harmless, so there the window is
      the only condition. */
  lemma PatientRunIsExclusive(actions: seq<Action>)
    requires AlignedRun(actions) && PatientRun(actions)
    ensures Orderly(Run(INITIAL, actions)) && Exclusive(Run(INITIAL, actions))
  {
    forall i | 0 <= i < |actions| ensures Careful(Run(INITIAL, actions[..i]), actions[i]) {
      AlignedPrefix(actions, i);
      AlignedRunHandlersTrue(actions[..i]);
      TrueHandlersAreHarmless(Run(INITIAL, actions[..i]), actions[i]);
    }
    CarefulRunIsExclusive(actions);
  }

  lemma AlignedPrefix(actions: seq<Action>, n: nat)
    requires AlignedRun(actions) && n <= |actions|
    ensures AlignedRun(actions[..n])
  {
    hide Aligned;
    assert forall i :: 0 <= i < n ==> actions[..n][i] == actions[i] && actions[..n][..i] == actions[..i];
  }

  lemma TrueHandlersAreHarmless(s: State, a: Action)
    requires HandlersTrue(s)
    ensures Harmless(s, a)
  {
  }

  // ---- The window is needed ----------------------------------------------

  function Acquires(a: Address, n: nat): (actions: seq<Action>)
    ensures |actions| == n
  {
    if n == 0 then [] else [Acquire(At(a), 12)] + Acquires(a, n - 1)
  }

  lemma {:induction false} RunFirst(s: State, a: Action, rest: seq<Action>)
    ensures Run(s, [a] + rest) == Run(Step(s, a), rest)
    decreases |rest|
  {
    hide Step;
    if rest == [] {
      assert [a] + rest == [a] && [a][..0] == [];
      assert Run(s, []) == s;
    } else {
      var n := |rest| - 1;
      assert ([a] + rest)[..n + 1] == [a] + rest[..n];
      RunFirst(s, a, rest[..n]);
    }
  }

  lemma {:induction false} RunConcat(s: State, a: seq<Action>, b: seq<Action>)
    ensures Run(s, a + b) == Run(Run(s, a), b)
    decreases |b|
  {
    hide Step;
    if b == [] {
      assert a + b == a;
    } else {
      var n := |b| - 1;
      assert (a + b)[..|a| + n] == a + b[..n];
      RunConcat(s, a, b[..n]);
    }
  }

  /** A free ID `d` places ahead is granted within `d + 1` more acquisitions, and no use that
      holds something lets go of it meanwhile. */
  lemma {:induction false} FreeIdComesUp(s: State, key: Key, d: nat) returns (n: nat)
    requires key.id != 0 && key !in s.pool.reserved && d < 255 && Ahead(Start(s.pool, key.address), d) == key.id
    ensures n <= d
    ensures Granted(Run(s, Acquires(key.address, n)).pool, key.address) == Some(key.id)
    ensures s.lives <= Run(s, Acquires(key.address, n)).lives
    decreases d
  {
    hide Granted;
    hide Ahead;
    hide Start;
    var e := FreeIdNears(s.pool, key, d);
    if Granted(s.pool, key.address) == Some(key.id) {
      n := 0;
    } else {
      var t := Step(s, Acquire(At(key.address), 12));
      assert t.pool == Acquired(s.pool, key.address) && s.lives <= t.lives;
      hide Acquired;
      hide Step;
      var m := FreeIdComesUp(t, key, e);
      n := m + 1;
      RunFirst(s, Acquire(At(key.address), 12), Acquires(key.address, m));
    }
  }

  /** A free ID that a request holds can be granted again: the two then share it. */
  lemma FreedIdCollides(s: State, key: Key, l: Life) returns (n: nat, more: seq<Action>)
    requires l < |s.lives| && Holds(s.lives[l], key) && key !in s.pool.reserved
    ensures more == Acquires(key.address, n) + [Acquire(At(key.address), 12)]
    ensures Granted(Run(s, Acquires(key.address, n)).pool, key.address) == Some(key.id)
    ensures (forall a <- more :: a.Acquire?) && !Exclusive(Run(s, more))
  {
    hide Granted;
    var d := EveryIdIsAhead(Start(s.pool, key.address), key.id);
    n := FreeIdComesUp(s, key, d);
    var t := Run(s, Acquires(key.address, n));
    more := Acquires(key.address, n) + [Acquire(At(key.address), 12)];
    assert more[..|more| - 1] == Acquires(key.address, n);
    AcquiresAcquire(key.address, n);
    var u := Run(s, more);
    assert u == Step(t, Acquire(At(key.address), 12));
    assert u.lives[l] == s.lives[l] && Holds(u.lives[|t.lives|], key);
  }

  /** Acquisitions answer nobody. */
  lemma {:induction false} AcquiresAreQuiet(s: State, a: Address, n: nat)
    ensures var t := Run(s, Acquires(a, n));
            && t.pending == s.pending && s.lives <= t.lives
            && forall l :: |s.lives| <= l < |t.lives| ==> !t.lives[l].answered
    decreases n
  {
    hide Granted;
    hide Acquired;
    if n > 0 {
      RunFirst(s, Acquire(At(a), 12), Acquires(a, n - 1));
      AcquiresAreQuiet(Step(s, Acquire(At(a), 12)), a, n - 1);
    }
  }

  lemma {:induction false} AcquiresAcquire(a: Address, n: nat)
    ensures forall x <- Acquires(a, n) :: x.Acquire?
  {
    if n > 0 {
      AcquiresAcquire(a, n - 1);
    }
  }

  /** The side condition cannot be dropped: from any orderly state, an acquisition that
      grants an ID inside its window can be continued, without another Send, to two
      unreleased requests that share it. */
  lemma WindowIsNeeded(s: State, to: Address, service: Byte) returns (more: seq<Action>)
    requires Orderly(s) && !Patient(s, Acquire(At(to), service))
    ensures (forall a <- more :: !a.Register?) && !Exclusive(Run(Step(s, Acquire(At(to), service)), more))
  {
    hide Granted;
    hide Orderly;
    var key := Key(to, Granted(s.pool, to).value);
    var t := Step(s, Acquire(At(to), service));
    assert Holds(t.lives[|s.lives|], key);
    if l :| 0 <= l < |s.lives| && Holds(s.lives[l], key) {
      more := [];
      assert Holds(t.lives[l], key);
    } else {
      assert key in s.pending;
      var u := Step(t, DispatchRelease(key));
      assert key !in u.pool.reserved && Holds(u.lives[|s.lives|], key);
      var _, rest := FreedIdCollides(u, key, |s.lives|);
      RunFirst(t, DispatchRelease(key), rest);
      more := [DispatchRelease(key)] + rest;
    }
  }

  /** The first request, its response and the dispatcher's release. */
  function Exchange(a: Address): (actions: seq<Action>)
  {
    [Acquire(At(a), 12), Register(0, a), Deliver(Message(a, 1, ComplexAck, 12)), DispatchRelease(Key(a, 1))]
  }

  lemma ExchangeFreesId(a: Address)
    ensures var s := Run(INITIAL, Exchange(a));
            |s.lives| > 0 && Holds(s.lives[0], Key(a, 1)) && Key(a, 1) !in s.pool.reserved
  {
    var e := Exchange(a);
    FirstGrant(a);
    var s1 := Step(INITIAL, e[0]);
    assert s1.lives == [Use(Some(a), 1, 12, false, false, None, false)];
    var s2 := Step(s1, e[1]);
    var s3 := Step(s2, e[2]);
    assert s3.pending == multiset{Key(a, 1)};
    FourSteps(INITIAL, e[0], e[1], e[2], e[3]);
  }

  lemma ExchangeAligned(a: Address)
    ensures var s := Run(INITIAL, [Exchange(a)[0]]); |s.lives| == 1 && s.lives[0].address == Some(a)
  {
    assert [Exchange(a)[0]][..0] == [];
    assert Run(INITIAL, []) == INITIAL;
  }

  /** And it can happen: a response to the first request is delivered and dispatched; before
      that request is cleaned up its ID comes round again. */
  lemma CollisionIsReachable(a: Address) returns (actions: seq<Action>)
    ensures AlignedRun(actions) && !Exclusive(Run(INITIAL, actions))
  {
    hide Run;
    hide Exclusive;
    ExchangeFreesId(a);
    var _, more := FreedIdCollides(Run(INITIAL, Exchange(a)), Key(a, 1), 0);
    actions := Exchange(a) + more;
    RunConcat(INITIAL, Exchange(a), more);
    assert actions[..1] == [Exchange(a)[0]];
    ExchangeAligned(a);
    forall i | 0 <= i < |actions| ensures Aligned(Run(INITIAL, actions[..i]), actions[i]) {
      if i < 4 {
        assert actions[i] == Exchange(a)[i];
      } else {
        assert actions[i] == more[i - 4] && more[i - 4].Acquire?;
      }
    }
  }

  // ---- The harmless delivery is needed -----------------------------------

  /** From any orderly state, a delivery that is not harmless can be continued, without another
      Send, to two unreleased requests that share the ID; and the grant that makes them share
      it finds its window closed. */
  lemma HarmIsNeeded(s: State, m: Message) returns (more: seq<Action>)
    requires Orderly(s) && !Harmless(s, Deliver(m))
    ensures (forall a <- more :: !a.Register?) && !Exclusive(Run(Step(s, Deliver(m)), more))
    ensures more != [] && Patient(Run(Step(s, Deliver(m)), more[..|more| - 1]), more[|more| - 1])
  {
    hide Granted;
    hide Step;
    hide Orderly;
    hide Harmless;
    hide Exclusive;
    hide WindowOpen;
    hide Run;
    var key, t := Key(m.sender, m.id), Step(s, Deliver(m));
    var l := Waiting(s, m);
    var u := Step(t, DispatchRelease(key));
    WaitingAlone(s, m, l);
    var n, rest := FreedIdCollides(u, key, l);
    AcquiresKeepWindow(u, key.address, n, key);
    more := [DispatchRelease(key)] + rest;
    RunFirst(t, DispatchRelease(key), rest);
    RunFirst(t, DispatchRelease(key), Acquires(key.address, n));
    assert more[..|more| - 1] == [DispatchRelease(key)] + Acquires(key.address, n);
  }

  lemma Waiting(s: State, m: Message) returns (l: Life)
    requires !Harmless(s, Deliver(m))
    ensures l < |s.lives| && Holds(s.lives[l], Key(m.sender, m.id)) && !s.lives[l].answered
  {
    l :| 0 <= l < |s.lives| && Holds(s.lives[l], Key(m.sender, m.id)) && !s.lives[l].answered;
  }

  lemma AcquiresKeepWindow(s: State, a: Address, n: nat, key: Key)
    requires !WindowOpen(s, key)
    ensures !WindowOpen(Run(s, Acquires(a, n)), key)
  {
    hide Run;
    AcquiresAreQuiet(s, a, n);
  }

  /** After the misdelivery and the dispatcher's release, a request waits for an ID that is free
      and whose window is closed. */
  lemma WaitingAlone(s: State, m: Message, l: Life)
    requires Orderly(s) && !Harmless(s, Deliver(m))
    requires var key := Key(m.sender, m.id); l < |s.lives| && Holds(s.lives[l], key) && !s.lives[l].answered
    ensures var key, t := Key(m.sender, m.id), Step(Step(s, Deliver(m)), DispatchRelease(Key(m.sender, m.id)));
            && l < |t.lives| && Holds(t.lives[l], key) && key !in t.pool.reserved && !WindowOpen(t, key)
  {
    var key, t := Key(m.sender, m.id), Step(s, Deliver(m));
    assert key !in s.pending && key in t.pending;
    assert forall k :: 0 <= k < |t.lives| && k != l ==> !Holds(s.lives[k], key);
  }

  // ---- A collision with every window closed ------------------------------

  /** Two requests of one ID at different addresses, the second sent to the first's address: its
      handler takes the first one's response, and its cleanup closes the window. */
  function Misdelivery(a: Address, b: Address): (actions: seq<Action>)
  {
    [Acquire(At(b), 12), Acquire(At(a), 12), Register(0, b), Register(1, b),
     Deliver(Message(b, 1, ComplexAck, 12)), DispatchRelease(Key(b, 1)), RemoveHandler(1), ReleaseId(1)]
  }

  /** Nobody has been answered and not yet cleaned up. */
  predicate NoWindow(s: State) {
    s.pending == multiset{} && forall l :: 0 <= l < |s.lives| && s.lives[l].address.Some? ==> !s.lives[l].answered
  }

  lemma NoWindowIsPatient(s: State, a: Action)
    requires NoWindow(s)
    ensures Patient(s, a)
  {
    hide Granted;
  }

  /** Four steps in: one handler, registered by the wrong request. */
  lemma MisdeliveryStarts(a: Address, b: Address)
    requires a != b
    ensures var e := Misdelivery(a, b);
            var s1 := Step(INITIAL, e[0]);
            var s4 := Step(Step(Step(s1, e[1]), e[2]), e[3]);
            && NoWindow(s1) && s4.pending == multiset{}
            && s4.handlers == map[Key(b, 1) := Handler(1, 12)]
            && |s4.registrations| == 2 && s4.registrations[1].life == 1
            && s4.lives == [Use(Some(b), 1, 12, true, false, None, false),
                            Use(Some(a), 1, 12, true, false, None, false)]
  {
    var e := Misdelivery(a, b);
    FirstGrant(b);
    var s1 := Step(INITIAL, e[0]);
    assert s1.lives == [Use(Some(b), 1, 12, false, false, None, false)];
    SecondGrant(a, b);
    var s2 := Step(s1, e[1]);
    assert s2.lives == [Use(Some(b), 1, 12, false, false, None, false), Use(Some(a), 1, 12, false, false, None, false)];
  }

  /** Four steps on: the first request waits for a free ID, and nobody else is left. */
  lemma MisdeliveryEnds(s: State, a: Address, b: Address)
    requires a != b && s.pending == multiset{} && s.handlers == map[Key(b, 1) := Handler(1, 12)]
    requires |s.registrations| == 2 && s.registrations[1].life == 1
    requires s.lives == [Use(Some(b), 1, 12, true, false, None, false), Use(Some(a), 1, 12, true, false, None, false)]
    ensures var e := Misdelivery(a, b);
            var t := Step(Step(Step(Step(s, e[4]), e[5]), e[6]), e[7]);
            NoWindow(t) && |t.lives| == 2 && Holds(t.lives[0], Key(b, 1)) && Key(b, 1) !in t.pool.reserved
  {
    var e := Misdelivery(a, b);
    var s5 := Step(s, e[4]);
    assert s5.lives == [s.lives[0], Use(Some(a), 1, 12, true, false, Some(e[4].message), true)];
    var s6 := Step(s5, e[5]);
    assert s6.pending == multiset{} && Key(b, 1) !in s6.pool.reserved && s6.lives == s5.lives;
    var s7 := Step(s6, e[6]);
    assert s7.lives == [s.lives[0], s5.lives[1].(cleaning := true)];
  }

  lemma MisdeliveryFrees(a: Address, b: Address)
    requires a != b
    ensures var s1, s8 := Run(INITIAL, Misdelivery(a, b)[..1]), Run(INITIAL, Misdelivery(a, b));
            && NoWindow(s1) && NoWindow(s8) && |s8.lives| == 2
            && Holds(s8.lives[0], Key(b, 1)) && Key(b, 1) !in s8.pool.reserved
  {
    hide Step;
    hide Run;
    hide NoWindow;
    var e := Misdelivery(a, b);
    MisdeliveryStarts(a, b);
    MisdeliveryEnds(Step(Step(Step(Step(INITIAL, e[0]), e[1]), e[2]), e[3]), a, b);
    EightSteps(a, b);
  }

  lemma SecondGrant(a: Address, b: Address)
    requires a != b
    ensures Granted(Acquired(INITIAL.pool, b), a) == Some(1)
  {
    hide Granted;
    FirstGrant(a);
    OthersUntouched(INITIAL.pool, b, a);
  }

  lemma EightSteps(a: Address, b: Address)
    ensures var e := Misdelivery(a, b);
            && Run(INITIAL, e[..1]) == Step(INITIAL, e[0])
            && var half := Step(Step(Step(Step(INITIAL, e[0]), e[1]), e[2]), e[3]);
               Run(INITIAL, e) == Step(Step(Step(Step(half, e[4]), e[5]), e[6]), e[7])
  {
    hide Step;
    var e := Misdelivery(a, b);
    assert e == e[..4] + e[4..] && e[..4] == [e[0], e[1], e[2], e[3]] && e[4..] == [e[4], e[5], e[6], e[7]];
    FourSteps(INITIAL, e[0], e[1], e[2], e[3]);
    FourSteps(Run(INITIAL, e[..4]), e[4], e[5], e[6], e[7]);
    RunConcat(INITIAL, e[..4], e[4..]);
    assert e[..1] == [e[0]] && [e[0]][..0] == [];
    assert Run(INITIAL, []) == INITIAL;
  }

  /** Without the condition on deliveries the window is not enough: in this run no ID is granted
      inside its window, and two unreleased requests share one. */
  lemma PatientRunMayCollide(a: Address, b: Address) returns (actions: seq<Action>)
    requires a != b
    ensures PatientRun(actions) && !Exclusive(Run(INITIAL, actions))
  {
    hide Exclusive;
    hide Patient;
    hide Run;
    hide Granted;
    hide Holds;
    hide NoWindow;
    var e := Misdelivery(a, b);
    MisdeliveryFrees(a, b);
    var s := Run(INITIAL, e);
    var n, more := FreedIdCollides(s, Key(b, 1), 0);
    actions := e + more;
    RunConcat(INITIAL, e, more);
    forall i | 0 <= i < |actions| ensures Patient(Run(INITIAL, actions[..i]), actions[i]) {
      if i >= 8 {
        assert actions[..i] == e + more[..i - 8];
        RunConcat(INITIAL, e, more[..i - 8]);
        AcquiresPrefix(b, n, i - 8);
        AcquiresKeepQuiet(s, b, i - 8);
        NoWindowIsPatient(Run(INITIAL, actions[..i]), actions[i]);
      } else {
        assert actions[..i] == e[..i] && actions[i] == e[i];
        MisdeliveryIsPatient(a, b, i);
      }
    }
  }

  lemma AcquiresKeepQuiet(s: State, a: Address, n: nat)
    requires NoWindow(s)
    ensures NoWindow(Run(s, Acquires(a, n)))
  {
    hide Run;
    AcquiresAreQuiet(s, a, n);
  }

  lemma MisdeliveryIsPatient(a: Address, b: Address, i: nat)
    requires a != b && i < 8
    ensures Patient(Run(INITIAL, Misdelivery(a, b)[..i]), Misdelivery(a, b)[i])
  {
    hide Patient;
    var e := Misdelivery(a, b);
    if i <= 1 {
      MisdeliveryFrees(a, b);
      assert e[..0] == [] && Run(INITIAL, []) == INITIAL && NoWindow(INITIAL);
      NoWindowIsPatient(Run(INITIAL, e[..i]), e[i]);
    } else {
      OnlyGrantsAreImpatient(Run(INITIAL, e[..i]), e[i]);
    }
  }

  lemma OnlyGrantsAreImpatient(s: State, a: Action)
    requires !a.Acquire?
    ensures Patient(s, a)
  {
  }

  lemma {:induction false} AcquiresPrefix(a: Address, n: nat, i: nat)
    requires i <= n
    ensures (Acquires(a, n) + [Acquire(At(a), 12)])[..i] == Acquires(a, i)
    decreases n
  {
    if i > 0 {
      AcquiresPrefix(a, n - 1, i - 1);
      var x, y := Acquires(a, n) + [Acquire(At(a), 12)], Acquires(a, n - 1) + [Acquire(At(a), 12)];
      assert x == [Acquire(At(a), 12)] + y && x[..i] == [Acquire(At(a), 12)] + y[..i - 1];
    }
  }
}
