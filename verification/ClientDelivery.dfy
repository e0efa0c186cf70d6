/** Which message reaches which request, in every run: a registration stands until it is replaced,
    answered or cleaned up, and while it stands it takes exactly the messages that answer it. */
module ClientDelivery {
  import opened Octets
  import opened Transactions
  import opened ClientProtocol

  // ---- Which registrations stand -----------------------------------------

  /** What an enabled Send registers. */
  function Registered(s: State, a: Action): (r: Registration)
    requires Sends(s, a)
  {
    Registration(a.life, Key(a.dest, s.lives[a.life].id), s.lives[a.life].service)
  }

  /** The step replaces the registration, answers it or cleans it up. */
  predicate Ends(s: State, a: Action, r: Registration) {
    || (Sends(s, a) && Registered(s, a).key == r.key)
    || (a.Deliver? && Answers(a.message, r))
    || (a.RemoveHandler? && a.life < |s.lives| && Owns(s.lives[a.life], r.key))
  }

  /** `r` was registered by step `i` and no later step ended it. */
  predicate Stands(actions: seq<Action>, i: nat, r: Registration) {
    && i < |actions| && Sends(Run(INITIAL, actions[..i]), actions[i])
    && Registered(Run(INITIAL, actions[..i]), actions[i]) == r
    && forall j :: i < j < |actions| ==> !Ends(Run(INITIAL, actions[..j]), actions[j], r)
  }

  /** The number of the registration made by step `i`. */
  function TokenAt(actions: seq<Action>, i: nat): (t: Token)
    requires i <= |actions|
  {
    |Run(INITIAL, actions[..i]).registrations|
  }

  // ---- Standing is having the handler ------------------------------------

  /** The handler under the key belongs to this registration. */
  predicate Handles(s: State, token: Token, r: Registration) {
    && r.key in s.handlers && s.handlers[r.key] == Handler(token, r.service) && r.key.id != 0
    && token < |s.registrations| && s.registrations[token] == r && r.life < |s.lives|
  }

  lemma RegisterHandles(s: State, a: Action)
    requires Sends(s, a)
    ensures Handles(Step(s, a), |s.registrations|, Registered(s, a))
  {
  }

  lemma HandlesUntilEnded(s: State, a: Action, token: Token, r: Registration)
    requires Handles(s, token, r)
    ensures Handles(Step(s, a), token, r) <==> !Ends(s, a, r)
    ensures !Sends(s, a) && Ends(s, a, r) ==> r.key !in Step(s, a).handlers
  {
    if !a.Acquire? {
      hide Granted;
      hide Acquired;
    }
  }

  lemma {:induction false} StandsIsHandled(actions: seq<Action>, i: nat, r: Registration)
    requires Stands(actions, i, r)
    ensures Handles(Run(INITIAL, actions), TokenAt(actions, i), r)
    decreases |actions|
  {
    hide Step;
    hide Handles;
    hide Ends;
    hide Sends;
    var n := |actions| - 1;
    var s := Run(INITIAL, actions[..n]);
    if i == n {
      RegisterHandles(s, actions[n]);
    } else {
      StandsBefore(actions, i, r);
      StandsIsHandled(actions[..n], i, r);
      assert actions[..n][..i] == actions[..i];
      HandlesUntilEnded(s, actions[n], TokenAt(actions, i), r);
    }
  }

  lemma StandsBefore(actions: seq<Action>, i: nat, r: Registration)
    requires i < |actions| - 1
    ensures var n := |actions| - 1;
            Stands(actions, i, r) <==> Stands(actions[..n], i, r) && !Ends(Run(INITIAL, actions[..n]), actions[n], r)
  {
    hide Run;
    hide Ends;
    var n := |actions| - 1;
    assert forall j :: 0 <= j < n ==> actions[..n][j] == actions[j] && actions[..n][..j] == actions[..j];
  }

  /** Every handler belongs to a registration that stands. */
  lemma {:induction false} HandledStands(actions: seq<Action>, key: Key) returns (i: nat, r: Registration)
    requires key in Run(INITIAL, actions).handlers
    ensures Stands(actions, i, r) && r.key == key
    decreases |actions|
  {
    hide Step;
    hide Ends;
    hide Sends;
    var n := |actions| - 1;
    var s, a := Run(INITIAL, actions[..n]), actions[n];
    if Sends(s, a) && Registered(s, a).key == key {
      i, r := n, Registered(s, a);
    } else {
      OnlySendsAdd(s, a, key);
      i, r := HandledStands(actions[..n], key);
      StandsIsHandled(actions[..n], i, r);
      EndedIsGone(s, a, TokenAt(actions[..n], i), r);
      InRange(actions[..n], i, r);
      StandsBefore(actions, i, r);
    }
  }

  lemma InRange(actions: seq<Action>, i: nat, r: Registration)
    requires Stands(actions, i, r)
    ensures i < |actions|
  {
  }

  lemma OnlySendsAdd(s: State, a: Action, key: Key)
    requires key in Step(s, a).handlers && !(Sends(s, a) && Registered(s, a).key == key)
    ensures key in s.handlers
  {
    hide Granted;
    hide Acquired;
  }

  lemma EndedIsGone(s: State, a: Action, token: Token, r: Registration)
    requires Handles(s, token, r) && !(Sends(s, a) && Registered(s, a).key == r.key)
    ensures Ends(s, a, r) ==> r.key !in Step(s, a).handlers
  {
    HandlesUntilEnded(s, a, token, r);
  }

  // ---- Deliveries --------------------------------------------------------

  /** A message under the key of a standing registration is delivered to it if and only if it
      answers it: then the handler goes, the dispatcher's release is to come and the request that
      registered has its answer. Otherwise nothing changes. */
  lemma DeliveredIffAnswers(actions: seq<Action>, i: nat, r: Registration, m: Message)
    requires Stands(actions, i, r) && Key(m.sender, m.id) == r.key
    ensures var s, t := Run(INITIAL, actions), Run(INITIAL, actions + [Deliver(m)]);
            if m.kind.OtherPdu? || m.service == r.service then
              && |t.deliveries| == |s.deliveries| + 1 && t.deliveries[..|s.deliveries|] == s.deliveries
              && t.deliveries[|s.deliveries|].token == TokenAt(actions, i)
              && t.deliveries[|s.deliveries|].message == m
              && t.handlers == s.handlers - {r.key} && t.pending == s.pending + multiset{r.key}
              && r.life < |t.lives| && t.lives[r.life].answered && t.lives[r.life].queue.Some?
            else t == s
  {
    var s := Run(INITIAL, actions);
    assert (actions + [Deliver(m)])[..|actions|] == actions;
    assert Run(INITIAL, actions + [Deliver(m)]) == Step(s, Deliver(m));
    StandsIsHandled(actions, i, r);
    hide Run;
  }

  /** A message under any other key changes nothing. */
  lemma StrayIsIgnored(actions: seq<Action>, m: Message)
    requires forall i, r :: Stands(actions, i, r) ==> r.key != Key(m.sender, m.id)
    ensures Run(INITIAL, actions + [Deliver(m)]) == Run(INITIAL, actions)
  {
    hide Stands;
    var s := Run(INITIAL, actions);
    assert (actions + [Deliver(m)])[..|actions|] == actions;
    assert Run(INITIAL, actions + [Deliver(m)]) == Step(s, Deliver(m));
    hide Run;
    if Key(m.sender, m.id) in s.handlers {
      var i, r := HandledStands(actions, Key(m.sender, m.id));
    }
  }

  // ---- Who the requests are ----------------------------------------------

  /** The calls of SetConfirmedService in a run. */
  function Acquisitions(actions: seq<Action>): (as_: seq<Action>)
  {
    if actions == [] then []
    else
      var before, last := Acquisitions(actions[..|actions| - 1]), actions[|actions| - 1];
      if last.Acquire? then before + [last] else before
  }

  /** Request `l` is the one of the l-th call, and is matched by the service of that call for good;
      its address is the one given there until its cleanup forgets it. */
  lemma {:induction false} RequestsAreCalls(actions: seq<Action>)
    ensures var s, calls := Run(INITIAL, actions), Acquisitions(actions);
            && |s.lives| == |calls|
            && forall l :: 0 <= l < |calls| ==>
                 && calls[l].Acquire? && s.lives[l].service == calls[l].service
                 && (s.lives[l].address.Some? ==> calls[l].to == At(s.lives[l].address.value))
    decreases |actions|
  {
    hide Step;
    if actions != [] {
      var n := |actions| - 1;
      RequestsAreCalls(actions[..n]);
      UsesLast(Run(INITIAL, actions[..n]), actions[n]);
    }
  }

  lemma UsesLast(s: State, a: Action)
    ensures var t := Step(s, a);
            && |t.lives| == |s.lives| + (if a.Acquire? then 1 else 0)
            && (forall l :: 0 <= l < |s.lives| ==>
                  && t.lives[l].service == s.lives[l].service
                  && (t.lives[l].address == s.lives[l].address || t.lives[l].address.None?))
            && (a.Acquire? ==>
                  && t.lives[|s.lives|].service == a.service
                  && (t.lives[|s.lives|].address.Some? ==> a.to == At(t.lives[|s.lives|].address.value)))
  {
    hide Granted;
    hide Acquired;
  }
}
