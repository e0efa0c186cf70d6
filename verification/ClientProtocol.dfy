/** The client's transactions as atomic steps under arbitrary interleaving: the sections
    under a lock in bacnet/transaction.go and bacnet/server.go, as bacnet/request.go and
    Server.handle drive them. */
module ClientProtocol {
  import opened Octets
  import opened Transactions

  type Life = nat
  type Token = nat

  datatype Kind = SimpleAck | ComplexAck | ErrorPdu | OtherPdu

  datatype Message = Message(sender: Address, id: Byte, kind: Kind, service: Byte)

  /** One use of a request, from SetConfirmedService to its cleanup. `address` is cleared by
      the cleanup and `sent` tells whether a server is attached; `queue` is the channel of
      capacity one. */
  datatype Use = Use(address: Option<Address>, id: Byte, service: Byte, sent: bool, cleaning: bool,
                     queue: Option<Message>, answered: bool)

  /** An entry of the handler table; `token` numbers the registrations. */
  datatype Handler = Handler(token: Token, service: Byte)

  datatype Registration = Registration(life: Life, key: Key, service: Byte)

  datatype Delivery = Delivery(token: Token, message: Message, queued: bool)

  datatype State = State(pool: Pool, lives: seq<Use>, handlers: map<Key, Handler>, registrations: seq<Registration>,
                         deliveries: seq<Delivery>, pending: multiset<Key>)

  const INITIAL := State(Pool({}, map[]), [], map[], [], [], multiset{})

  /** What SetConfirmedService is given: a nil slice, a slice of no octets that is not nil, or
      an address. */
  datatype Destination = Nil | Empty | At(address: Address)

  /** The text of an address without octets. */
  const NIL_TEXT: Address := "<nil>"

  /** The address an ID is reserved for: the test for nil lets a slice of no octets pass. */
  function ReservedFor(to: Destination): (a: Option<Address>)
  {
    match to
    case Nil => None
    case Empty => Some(NIL_TEXT)
    case At(address) => Some(address)
  }

  /** The address the request remembers: a copy of no octets is nil. */
  function Remembered(to: Destination): (a: Option<Address>)
  {
    if to.At? then Some(to.address) else None
  }

  datatype Action =
    | Acquire(to: Destination, service: Byte)
    | Register(life: Life, dest: Address)
    | Deliver(message: Message)
    | DispatchRelease(key: Key)
    | Receive(life: Life)
    | RemoveHandler(life: Life)
    | ReleaseId(life: Life)

  /** deliverConfirmedHandler: the handler that takes the message. */
  function Match(handlers: map<Key, Handler>, m: Message): (h: Option<Handler>)
  {
    var key := Key(m.sender, m.id);
    if m.id == 0 || key !in handlers then None
    else if !m.kind.OtherPdu? && m.service != handlers[key].service then None
    else Some(handlers[key])
  }

  function Acquiring(s: State, to: Destination, service: Byte): (t: State)
  {
    match ReservedFor(to)
    case None => s.(lives := s.lives + [Use(None, 0, service, false, false, None, false)])
    case Some(address) =>
      var id := match Granted(s.pool, address) case Some(n) => n as Byte case None => 0;
      s.(pool := Acquired(s.pool, address),
         lives := s.lives + [Use(Remembered(to), id, service, false, false, None, false)])
  }

  function Registering(s: State, life: Life, dest: Address): (t: State)
    requires life < |s.lives|
  {
    var u := s.lives[life];
    s.(handlers := s.handlers[Key(dest, u.id) := Handler(|s.registrations|, u.service)],
       registrations := s.registrations + [Registration(life, Key(dest, u.id), u.service)],
       lives := s.lives[life := u.(sent := true)])
  }

  function Delivering(s: State, m: Message): (t: State)
  {
    match Match(s.handlers, m)
    case None => s
    case Some(h) =>
      var key := Key(m.sender, m.id);
      var rest := s.(handlers := s.handlers - {key}, pending := s.pending + multiset{key});
      if h.token >= |s.registrations| || s.registrations[h.token].life >= |s.lives| then rest
      else
        var life := s.registrations[h.token].life;
        var u := s.lives[life];
        rest.(deliveries := s.deliveries + [Delivery(h.token, m, u.queue.None?)],
              lives := s.lives[life := u.(queue := if u.queue.None? then Some(m) else u.queue, answered := true)])
  }

  /** The first section of cleanupTransaction. */
  function Removing(s: State, life: Life): (t: State)
    requires life < |s.lives|
  {
    var u := s.lives[life];
    var t := s.(lives := s.lives[life := u.(cleaning := true)]);
    if u.sent && u.id != 0 && u.address.Some? then t.(handlers := s.handlers - {Key(u.address.value, u.id)}) else t
  }

  /** The rest of cleanupTransaction. */
  function Releasing(s: State, life: Life): (t: State)
    requires life < |s.lives|
  {
    var u := s.lives[life];
    var t := s.(lives := s.lives[life := u.(cleaning := false, sent := false, address := None)]);
    if u.id != 0 && u.address.Some? then t.(pool := Released(s.pool, Key(u.address.value, u.id))) else t
  }

  /** One atomic step; an action whose turn it is not changes nothing. */
  function Step(s: State, a: Action): (t: State)
  {
    match a
    case Acquire(to, service) => Acquiring(s, to, service)
    case Register(life, dest) =>
      if life < |s.lives| && !s.lives[life].cleaning && s.lives[life].id != 0 then Registering(s, life, dest) else s
    case Deliver(m) => Delivering(s, m)
    case DispatchRelease(key) =>
      if key in s.pending then s.(pool := Released(s.pool, key), pending := s.pending - multiset{key}) else s
    case Receive(life) =>
      if life < |s.lives| then s.(lives := s.lives[life := s.lives[life].(queue := None)]) else s
    case RemoveHandler(life) =>
      if life < |s.lives| && !s.lives[life].cleaning then Removing(s, life) else s
    case ReleaseId(life) =>
      if life < |s.lives| && s.lives[life].cleaning then Releasing(s, life) else s
  }

  function Run(s: State, actions: seq<Action>): (t: State)
  {
    if actions == [] then s else Step(Run(s, actions[..|actions| - 1]), actions[|actions| - 1])
  }

  /** The use has reserved, and not yet released, this ID. */
  predicate Holds(u: Use, key: Key) {
    u.address == Some(key.address) && u.id == key.id && key.id != 0
  }

  predicate Held(s: State, key: Key) {
    exists l :: 0 <= l < |s.lives| && Holds(s.lives[l], key)
  }

  // ---- In every run ------------------------------------------------------

  /** Every reserved ID is held by a use, or was reserved for no octets. */
  predicate ReservedHeld(s: State) {
    forall key <- s.pool.reserved :: Held(s, key) || key.address == NIL_TEXT
  }

  /** Handlers and deliveries name the registration they came from. */
  predicate Recorded(s: State) {
    && (forall i :: 0 <= i < |s.registrations| ==> s.registrations[i].life < |s.lives|)
    && (forall key <- s.handlers ::
          && s.handlers[key].token < |s.registrations|
          && s.registrations[s.handlers[key].token].key == key
          && s.registrations[s.handlers[key].token].service == s.handlers[key].service)
    && (forall i :: 0 <= i < |s.deliveries| ==> s.deliveries[i].token < |s.registrations|)
  }

  /** No registration has had two messages, and one that has had its message is gone. */
  predicate Once(s: State) {
    && (forall i, j :: 0 <= i < j < |s.deliveries| ==> s.deliveries[i].token != s.deliveries[j].token)
    && (forall i, key :: 0 <= i < |s.deliveries| && key in s.handlers ==>
          s.deliveries[i].token != s.handlers[key].token)
  }

  function LifeOf(s: State, i: nat): (l: Life)
    requires i < |s.deliveries| && s.deliveries[i].token < |s.registrations|
  {
    s.registrations[s.deliveries[i].token].life
  }

  predicate HeardBefore(s: State, life: Life, n: nat)
    requires Recorded(s)
  {
    exists j :: 0 <= j < n && j < |s.deliveries| && LifeOf(s, j) == life
  }

  /** A message found its channel full only after an earlier one to the same use. */
  predicate FirstQueued(s: State)
    requires Recorded(s)
  {
    && (forall l :: 0 <= l < |s.lives| && (s.lives[l].queue.Some? || s.lives[l].answered) ==>
          HeardBefore(s, l, |s.deliveries|))
    && (forall i :: 0 <= i < |s.deliveries| && !s.deliveries[i].queued ==> HeardBefore(s, LifeOf(s, i), i))
  }

  /** What was delivered answers what was registered. */
  predicate Answers(m: Message, r: Registration) {
    Key(m.sender, m.id) == r.key && (m.kind.OtherPdu? || m.service == r.service)
  }

  predicate Matched(s: State)
    requires Recorded(s)
  {
    forall i :: 0 <= i < |s.deliveries| ==> Answers(s.deliveries[i].message, s.registrations[s.deliveries[i].token])
  }

  predicate Always(s: State) {
    ReservedHeld(s) && Recorded(s) && Once(s) && FirstQueued(s) && Matched(s)
  }

  /** The records only grow. */
  predicate Grows(s: State, t: State) {
    && |s.lives| <= |t.lives|
    && s.registrations <= t.registrations
    && s.deliveries <= t.deliveries
  }

  lemma RecordsGrow(s: State, a: Action)
    ensures Grows(s, Step(s, a))
    ensures !a.Deliver? ==> Step(s, a).deliveries == s.deliveries
    ensures !a.Register? ==> Step(s, a).registrations == s.registrations
    ensures !a.Register? ==>
              forall key <- Step(s, a).handlers :: key in s.handlers && Step(s, a).handlers[key] == s.handlers[key]
  {
    hide Acquired;
    hide Granted;
  }

  /** A use keeps what it holds until it releases its ID. */
  lemma HoldingLasts(s: State, a: Action, l: Life, key: Key)
    requires l < |s.lives| && Holds(s.lives[l], key)
    ensures l < |Step(s, a).lives|
    ensures Holds(Step(s, a).lives[l], key) || (a == ReleaseId(l) && key !in Step(s, a).pool.reserved)
  {
    hide Acquired;
    hide Granted;
  }

  lemma ReservedHeldStep(s: State, a: Action)
    requires ReservedHeld(s)
    ensures ReservedHeld(Step(s, a))
  {
    hide Step;
    var t := Step(s, a);
    forall key | key in t.pool.reserved && key.address != NIL_TEXT ensures Held(t, key) {
      if key in s.pool.reserved {
        var l :| 0 <= l < |s.lives| && Holds(s.lives[l], key);
        HoldingLasts(s, a, l, key);
      } else {
        NewlyReserved(s, a, key);
      }
    }
  }

  lemma NewlyReserved(s: State, a: Action, key: Key)
    requires key in Step(s, a).pool.reserved && key !in s.pool.reserved
    ensures |Step(s, a).lives| == |s.lives| + 1
    ensures Holds(Step(s, a).lives[|s.lives|], key) || (key.address == NIL_TEXT && a.Acquire? && !a.to.Nil?)
  {
  }

  lemma RecordedStep(s: State, a: Action)
    requires Recorded(s)
    ensures Recorded(Step(s, a))
  {
    if !a.Register? && !a.Deliver? {
      hide Step;
      RecordsGrow(s, a);
    }
  }

  lemma OnceStep(s: State, a: Action)
    requires Recorded(s) && Once(s)
    ensures Once(Step(s, a))
  {
    if !a.Register? && !a.Deliver? {
      hide Step;
      RecordsGrow(s, a);
    }
  }

  lemma MatchedStep(s: State, a: Action)
    requires Recorded(s) && Recorded(Step(s, a)) && Matched(s)
    ensures Matched(Step(s, a))
  {
    hide Step;
    RecordsGrow(s, a);
    if a.Deliver? {
      DeliveryAnswers(s, a.message);
    }
  }

  lemma DeliveryAnswers(s: State, m: Message)
    requires Recorded(s)
    ensures var t := Delivering(s, m);
            && t == Step(s, Deliver(m))
            && |s.deliveries| <= |t.deliveries| <= |s.deliveries| + 1
            && (|t.deliveries| > |s.deliveries| ==>
                  var d := t.deliveries[|s.deliveries|];
                  d.token < |s.registrations| && Answers(d.message, s.registrations[d.token]))
  {
  }

  lemma HeardLasts(s: State, t: State, life: Life, n: nat, m: nat)
    requires Recorded(s) && Recorded(t) && Grows(s, t) && n <= |s.deliveries| && n <= m && HeardBefore(s, life, n)
    ensures HeardBefore(t, life, m)
  {
    var j :| 0 <= j < n && j < |s.deliveries| && LifeOf(s, j) == life;
    assert t.deliveries[j] == s.deliveries[j] && LifeOf(t, j) == life;
  }

  /** A use hears something new only from a delivery to it. */
  lemma NewsIsDelivered(s: State, a: Action, l: Life)
    requires Recorded(s) && Recorded(Step(s, a)) && l < |Step(s, a).lives|
    requires Step(s, a).lives[l].queue.Some? || Step(s, a).lives[l].answered
    ensures (l < |s.lives| && (s.lives[l].queue.Some? || s.lives[l].answered))
         || (|Step(s, a).deliveries| == |s.deliveries| + 1 && LifeOf(Step(s, a), |s.deliveries|) == l)
  {
    if a.Deliver? {
      DeliveredNews(s, a.message, l);
    } else {
      hide LifeOf;
      hide Recorded;
      hide Granted;
      hide Acquired;
    }
  }

  lemma DeliveredNews(s: State, m: Message, l: Life)
    requires Recorded(s) && Recorded(Delivering(s, m)) && l < |Delivering(s, m).lives|
    requires Delivering(s, m).lives[l].queue.Some? || Delivering(s, m).lives[l].answered
    ensures (l < |s.lives| && (s.lives[l].queue.Some? || s.lives[l].answered))
         || (|Delivering(s, m).deliveries| == |s.deliveries| + 1 && LifeOf(Delivering(s, m), |s.deliveries|) == l)
  {
  }

  lemma DroppedOnlyWhenFull(s: State, a: Action)
    requires Recorded(s) && Recorded(Step(s, a)) && |Step(s, a).deliveries| == |s.deliveries| + 1
    requires !Step(s, a).deliveries[|s.deliveries|].queued
    ensures LifeOf(Step(s, a), |s.deliveries|) < |s.lives|
    ensures s.lives[LifeOf(Step(s, a), |s.deliveries|)].queue.Some?
  {
    RecordsGrow(s, a);
  }

  lemma FirstQueuedStep(s: State, a: Action)
    requires Recorded(s) && FirstQueued(s) && Recorded(Step(s, a))
    ensures FirstQueued(Step(s, a))
  {
    hide Step;
    hide HeardBefore;
    var t := Step(s, a);
    RecordsGrow(s, a);
    forall l | 0 <= l < |t.lives| && (t.lives[l].queue.Some? || t.lives[l].answered)
      ensures HeardBefore(t, l, |t.deliveries|)
    {
      NewsIsDelivered(s, a, l);
      if l < |s.lives| && (s.lives[l].queue.Some? || s.lives[l].answered) {
        HeardLasts(s, t, l, |s.deliveries|, |t.deliveries|);
      } else {
        HeardNow(t, l, |s.deliveries|);
      }
    }
    forall i | 0 <= i < |t.deliveries| && !t.deliveries[i].queued ensures HeardBefore(t, LifeOf(t, i), i) {
      AtMostOneMore(s, a);
      if i < |s.deliveries| {
        assert LifeOf(t, i) == LifeOf(s, i);
        HeardLasts(s, t, LifeOf(s, i), i, i);
      } else {
        DroppedOnlyWhenFull(s, a);
        HeardLasts(s, t, LifeOf(t, i), |s.deliveries|, i);
      }
    }
  }

  lemma HeardNow(t: State, l: Life, i: nat)
    requires Recorded(t) && i < |t.deliveries| && LifeOf(t, i) == l
    ensures HeardBefore(t, l, |t.deliveries|)
  {
  }

  lemma AtMostOneMore(s: State, a: Action)
    ensures |Step(s, a).deliveries| <= |s.deliveries| + 1
  {
    hide Granted;
    hide Acquired;
  }

  /** In every interleaving: each reserved ID is held by a use, or was reserved for no
      octets; each registration receives at
      most one message; a message is dropped for lack of room only after another reached the
      same use; and what is delivered answers the address, ID and service registered. */
  lemma {:induction false} EveryRun(actions: seq<Action>)
    ensures Always(Run(INITIAL, actions))
  {
    hide Step;
    hide ReservedHeld;
    hide FirstQueued;
    hide Once;
    hide Matched;
    if actions == [] {
      AlwaysAtFirst();
    } else {
      var s, a := Run(INITIAL, actions[..|actions| - 1]), actions[|actions| - 1];
      EveryRun(actions[..|actions| - 1]);
      ReservedHeldStep(s, a);
      RecordedStep(s, a);
      OnceStep(s, a);
      FirstQueuedStep(s, a);
      MatchedStep(s, a);
    }
  }

  lemma AlwaysAtFirst()
    ensures Always(INITIAL)
  {
  }

  // ---- When an answer is dropped -----------------------------------------

  /** The use a message is handed to. */
  function Answering(s: State, m: Message): (l: Option<Life>)
    ensures l.Some? ==> l.value < |s.lives|
  {
    match Match(s.handlers, m)
    case None => None
    case Some(h) =>
      if h.token >= |s.registrations| || s.registrations[h.token].life >= |s.lives| then None
      else Some(s.registrations[h.token].life)
  }

  /** The message that came at step `i` was handed to this use. */
  predicate HandedTo(actions: seq<Action>, i: nat, l: Life) {
    i < |actions| && actions[i].Deliver? && Answering(Run(INITIAL, actions[..i]), actions[i].message) == Some(l)
  }

  predicate ReceivedAfter(actions: seq<Action>, i: nat, l: Life) {
    exists j :: i < j < |actions| && actions[j] == Receive(l)
  }

  /** A message was handed to the use that it has not received since. */
  ghost predicate Unreceived(actions: seq<Action>, l: Life) {
    exists i :: HandedTo(actions, i, l) && !ReceivedAfter(actions, i, l)
  }

  predicate Full(s: State, l: Life) {
    l < |s.lives| && s.lives[l].queue.Some?
  }

  lemma FullStep(s: State, a: Action, l: Life)
    ensures Full(Step(s, a), l)
       <==> (a.Deliver? && Answering(s, a.message) == Some(l)) || (Full(s, l) && a != Receive(l))
  {
    hide Granted;
    hide Acquired;
    hide Match;
  }

  lemma UnreceivedStep(actions: seq<Action>, l: Life)
    requires actions != []
    ensures var n := |actions| - 1;
            || HandedTo(actions, n, l)
            || (Unreceived(actions[..n], l) && actions[n] != Receive(l))
            <==> Unreceived(actions, l)
  {
    hide Run;
    hide Answering;
    var n := |actions| - 1;
    var before := actions[..n];
    assert forall i :: 0 <= i < n ==> before[..i] == actions[..i];
    assert forall i: nat :: i < n ==> (HandedTo(actions, i, l) <==> HandedTo(before, i, l));
    forall i: nat | i < n
      ensures ReceivedAfter(actions, i, l) <==> ReceivedAfter(before, i, l) || actions[n] == Receive(l)
    {
      ReceivedLater(actions, i, l);
    }
    hide HandedTo;
    hide ReceivedAfter;
    if i :| HandedTo(before, i, l) && !ReceivedAfter(before, i, l) && actions[n] != Receive(l) {
      HandedEarlier(before, i, l);
    }
    if i :| HandedTo(actions, i, l) && !ReceivedAfter(actions, i, l) {
      HandedEarlier(actions, i, l);
    }
    NoneAfterLast(actions, l);
  }

  lemma HandedEarlier(actions: seq<Action>, i: nat, l: Life)
    requires HandedTo(actions, i, l)
    ensures i < |actions|
  {
  }

  lemma NoneAfterLast(actions: seq<Action>, l: Life)
    requires actions != []
    ensures !ReceivedAfter(actions, |actions| - 1, l)
  {
  }

  lemma ReceivedLater(actions: seq<Action>, i: nat, l: Life)
    requires i < |actions| - 1
    ensures var n := |actions| - 1;
            ReceivedAfter(actions, i, l) <==> ReceivedAfter(actions[..n], i, l) || actions[n] == Receive(l)
  {
    var n := |actions| - 1;
    assert forall j :: 0 <= j < n ==> actions[..n][j] == actions[j];
  }

  /** A channel is full exactly while a message handed to its use has not been received. */
  lemma {:induction false} FullIffUnreceived(actions: seq<Action>, l: Life)
    ensures Full(Run(INITIAL, actions), l) <==> Unreceived(actions, l)
    decreases |actions|
  {
    hide Step;
    hide Answering;
    if actions != [] {
      var n := |actions| - 1;
      FullIffUnreceived(actions[..n], l);
      FullStep(Run(INITIAL, actions[..n]), actions[n], l);
      UnreceivedStep(actions, l);
    }
  }

  /** Exactly when an answer is dropped, in every run: whatever finds a handler is handed to the
      use that registered it, and is queued there if and only if that use has received everything
      handed to it before. */
  lemma QueuedIffReceived(actions: seq<Action>, m: Message)
    requires Match(Run(INITIAL, actions).handlers, m).Some?
    ensures var s, t := Run(INITIAL, actions), Run(INITIAL, actions + [Deliver(m)]);
            var l := Answering(s, m);
            && l.Some? && |t.deliveries| == |s.deliveries| + 1
            && t.deliveries[|s.deliveries|].message == m
            && t.deliveries[|s.deliveries|].token == Match(s.handlers, m).value.token
            && (t.deliveries[|s.deliveries|].queued <==> !Unreceived(actions, l.value))
            && (t.deliveries[|s.deliveries|].queued ==> t.lives[l.value].queue == Some(m))
  {
    hide Unreceived;
    var s := Run(INITIAL, actions);
    assert (actions + [Deliver(m)])[..|actions|] == actions;
    assert Run(INITIAL, actions + [Deliver(m)]) == Step(s, Deliver(m));
    hide Run;
    EveryRun(actions);
    MatchedIsRecorded(s, m);
    FullIffUnreceived(actions, Answering(s, m).value);
  }

  lemma MatchedIsRecorded(s: State, m: Message)
    requires Recorded(s) && Match(s.handlers, m).Some?
    ensures Answering(s, m).Some?
  {
  }

  /** In particular a use that sends once never loses the answer. */
  lemma FirstMatchIsQueued(actions: seq<Action>, i: nat)
    ensures Recorded(Run(INITIAL, actions))
    ensures var s := Run(INITIAL, actions);
            && i < |s.deliveries|
            && (forall t :: 0 <= t < |s.registrations| && s.registrations[t].life == LifeOf(s, i) ==>
                  t == s.deliveries[i].token)
            ==> s.deliveries[i].queued
  {
    hide Run;
    EveryRun(actions);
  }

  /** For a use that sends twice it may be: the answer to the first Send fills the channel. */
  lemma SecondSendMayBeDropped(a: Address)
    ensures var m := Message(a, 1, ComplexAck, 12);
            var s := Run(Run(INITIAL, [Acquire(At(a), 12), Register(0, a), Deliver(m)]), [Register(0, a), Deliver(m)]);
            && |s.registrations| == 2 && |s.deliveries| == 2
            && s.deliveries[1].token == 1 && !s.deliveries[1].queued
  {
    var m := Message(a, 1, ComplexAck, 12);
    FirstGrant(a);
    var s1 := Step(INITIAL, Acquire(At(a), 12));
    assert s1.lives == [Use(Some(a), 1, 12, false, false, None, false)];
    hide Run;
    hide Granted;
    hide Acquired;
    var s2 := Step(s1, Register(0, a));
    var s3 := Step(s2, Deliver(m));
    assert s3.lives == [Use(Some(a), 1, 12, true, false, Some(m), true)] && |s3.deliveries| == 1;
    ThreeSteps(INITIAL, Acquire(At(a), 12), Register(0, a), Deliver(m));
    var s4 := Step(s3, Register(0, a));
    assert s4.handlers[Key(a, 1)] == Handler(1, 12);
    var s5 := Step(s4, Deliver(m));
    assert s5.deliveries == s3.deliveries + [Delivery(1, m, false)];
    TwoSteps(s3, Register(0, a), Deliver(m));
  }

  // ---- No leak -----------------------------------------------------------

  /** The use is registered under this key and has not begun its cleanup. */
  predicate Owns(u: Use, key: Key) {
    Holds(u, key) && u.sent && !u.cleaning
  }

  predicate HandlersOwned(s: State) {
    forall key <- s.handlers :: exists l :: 0 <= l < |s.lives| && Owns(s.lives[l], key)
  }

  /** Send goes to the address the ID was reserved for, which a cleanup clears. */
  predicate Aligned(s: State, a: Action) {
    a.Register? && a.life < |s.lives| ==> s.lives[a.life].address == Some(a.dest)
  }

  predicate AlignedRun(actions: seq<Action>) {
    forall i :: 0 <= i < |actions| ==> Aligned(Run(INITIAL, actions[..i]), actions[i])
  }

  lemma OwningLasts(s: State, a: Action, l: Life, key: Key)
    requires l < |s.lives| && Owns(s.lives[l], key) && key in Step(s, a).handlers
    ensures l < |Step(s, a).lives| && Owns(Step(s, a).lives[l], key)
  {
    hide Granted;
    hide Acquired;
  }

  /** The step is no Send that leaves a handler to nobody: Send goes to the reserved address, or to
      one where another use in flight has the same ID. */
  predicate Owning(s: State, a: Action) {
    Sends(s, a) ==>
      var u := s.lives[a.life];
      || u.address == Some(a.dest)
      || exists l :: 0 <= l < |s.lives| && l != a.life && Owns(s.lives[l], Key(a.dest, u.id))
  }

  predicate Sends(s: State, a: Action) {
    a.Register? && a.life < |s.lives| && !s.lives[a.life].cleaning && s.lives[a.life].id != 0
  }

  predicate OwningRun(actions: seq<Action>) {
    forall i :: 0 <= i < |actions| ==> Owning(Run(INITIAL, actions[..i]), actions[i])
  }

  lemma AlignedRunIsOwning(actions: seq<Action>)
    requires AlignedRun(actions)
    ensures OwningRun(actions)
  {
    hide Run;
    forall i | 0 <= i < |actions| ensures Owning(Run(INITIAL, actions[..i]), actions[i]) {
      assert Aligned(Run(INITIAL, actions[..i]), actions[i]);
    }
  }

  lemma HandlersOwnedStep(s: State, a: Action)
    requires HandlersOwned(s) && Owning(s, a)
    ensures HandlersOwned(Step(s, a))
  {
    hide Step;
    hide Owning;
    var t := Step(s, a);
    RecordsGrow(s, a);
    forall key | key in t.handlers ensures exists l :: 0 <= l < |t.lives| && Owns(t.lives[l], key) {
      if key in s.handlers {
        var l :| 0 <= l < |s.lives| && Owns(s.lives[l], key);
        OwningLasts(s, a, l, key);
      } else {
        var l := RegisteringOwns(s, a, key);
      }
    }
  }

  lemma RegisteringOwns(s: State, a: Action, key: Key) returns (l: Life)
    requires a.Register? && Owning(s, a) && key in Step(s, a).handlers && key !in s.handlers
    ensures l < |Step(s, a).lives| && Owns(Step(s, a).lives[l], key)
  {
    l := a.life;
    if s.lives[a.life].address != Some(a.dest) {
      l :| 0 <= l < |s.lives| && l != a.life && Owns(s.lives[l], Key(a.dest, s.lives[a.life].id));
    }
  }

  /** Any other Send registers a handler that no use owns. */
  lemma SendUnowned(s: State, a: Action)
    requires Sends(s, a) && !Owning(s, a)
    ensures Unowned(Step(s, a), Key(a.dest, s.lives[a.life].id))
  {
  }

  /** A handler that no use would remove. */
  predicate Unowned(s: State, key: Key) {
    key in s.handlers && forall l :: 0 <= l < |s.lives| ==> !Owns(s.lives[l], key)
  }

  /** Exactly which step keeps every handler owned: every one but such a Send. */
  lemma RegisterKeepsOwnershipIff(s: State, a: Action)
    requires HandlersOwned(s)
    ensures HandlersOwned(Step(s, a)) <==> Owning(s, a)
  {
    hide Step;
    hide Owns;
    if Owning(s, a) {
      HandlersOwnedStep(s, a);
    } else {
      SendUnowned(s, a);
    }
  }

  lemma {:induction false} OwningRunOwnsHandlers(actions: seq<Action>)
    requires OwningRun(actions)
    ensures HandlersOwned(Run(INITIAL, actions))
    decreases |actions|
  {
    hide Step;
    hide Owning;
    if actions != [] {
      var n := |actions| - 1;
      assert forall i :: 0 <= i < n ==> actions[..n][i] == actions[i] && actions[..n][..i] == actions[..i];
      OwningRunOwnsHandlers(actions[..n]);
      HandlersOwnedStep(Run(INITIAL, actions[..n]), actions[n]);
    }
  }

  /** Every one of the first `n` uses cleans up. */
  function Cleanups(n: nat): (actions: seq<Action>)
  {
    if n == 0 then [] else Cleanups(n - 1) + [RemoveHandler(n - 1), ReleaseId(n - 1)]
  }

  /** The state once every use has cleaned up. */
  function CleanedUp(s: State): (t: State)
  {
    Run(s, Cleanups(|s.lives|))
  }

  lemma CleanupStep(s: State, l: Life, key: Key)
    requires l < |s.lives|
    ensures var t := Step(Step(s, RemoveHandler(l)), ReleaseId(l));
            && |t.lives| == |s.lives| && t.lives[l].address.None?
            && (forall k :: 0 <= k < |s.lives| && s.lives[k].address.None? ==> t.lives[k].address.None?)
            && (Unowned(s, key) ==> Unowned(t, key))
  {
  }

  lemma CleanupKeepsOwned(s: State, l: Life)
    requires HandlersOwned(s)
    ensures HandlersOwned(Step(Step(s, RemoveHandler(l)), ReleaseId(l)))
  {
    hide Step;
    hide HandlersOwned;
    HandlersOwnedStep(s, RemoveHandler(l));
    HandlersOwnedStep(Step(s, RemoveHandler(l)), ReleaseId(l));
  }

  lemma {:induction false} CleanupsRelease(s: State, n: nat, key: Key)
    requires n <= |s.lives|
    ensures var t := Run(s, Cleanups(n));
            && |t.lives| == |s.lives| && (forall l :: 0 <= l < n ==> t.lives[l].address.None?)
            && (Unowned(s, key) ==> Unowned(t, key)) && (HandlersOwned(s) ==> HandlersOwned(t))
  {
    hide Step;
    hide Unowned;
    hide HandlersOwned;
    if n > 0 {
      var a, b := RemoveHandler(n - 1), ReleaseId(n - 1);
      CleanupsRelease(s, n - 1, key);
      var t := Run(s, Cleanups(n - 1));
      TwoMore(s, Cleanups(n - 1), a, b);
      CleanupStep(t, n - 1, key);
      if HandlersOwned(t) {
        CleanupKeepsOwned(t, n - 1);
      }
    }
  }

  lemma TwoMore(s: State, actions: seq<Action>, a: Action, b: Action)
    ensures Run(s, actions + [a, b]) == Step(Step(Run(s, actions), a), b)
  {
    hide Step;
    assert (actions + [a, b])[..|actions| + 1] == actions + [a] && (actions + [a])[..|actions|] == actions;
    assert Run(s, actions + [a]) == Step(Run(s, actions), a);
  }

  /** From any state, such a Send leaks: every request cleans up and the handler is still there. */
  lemma UnownedSendLeaks(s: State, a: Action)
    requires Sends(s, a) && !Owning(s, a)
    ensures var t := CleanedUp(Step(s, a));
            AllReleased(t) && Key(a.dest, s.lives[a.life].id) in t.handlers
  {
    hide Step;
    hide Owning;
    hide Run;
    var key := Key(a.dest, s.lives[a.life].id);
    SendUnowned(s, a);
    CleanupsRelease(Step(s, a), |Step(s, a).lives|, key);
  }

  /** From a state whose handlers are all owned, no handler is left. */
  lemma OwnedCleansUp(s: State)
    requires HandlersOwned(s)
    ensures AllReleased(CleanedUp(s)) && CleanedUp(s).handlers == map[]
  {
    hide Run;
    CleanupsRelease(s, |s.lives|, Key(NIL_TEXT, 0));
    ReleasedOwnsNothing(CleanedUp(s));
  }

  lemma ReleasedOwnsNothing(s: State)
    requires HandlersOwned(s) && AllReleased(s)
    ensures s.handlers == map[]
  {
    assert s.handlers.Keys == {};
  }

  /** Over every run: wherever it is stopped and every request cleans up no handler is left, if and
      only if each Send goes where it reserved or where another request in flight has its ID. */
  lemma NoHandlerLeaksIff(actions: seq<Action>)
    ensures OwningRun(actions)
       <==> forall i :: 0 <= i <= |actions| ==> CleanedUp(Run(INITIAL, actions[..i])).handlers == map[]
  {
    hide Step;
    hide Owning;
    hide CleanedUp;
    hide HandlersOwned;
    if OwningRun(actions) {
      forall i | 0 <= i <= |actions| ensures CleanedUp(Run(INITIAL, actions[..i])).handlers == map[] {
        assert forall j :: 0 <= j < i ==> actions[..i][j] == actions[j] && actions[..i][..j] == actions[..j];
        OwningRunOwnsHandlers(actions[..i]);
        OwnedCleansUp(Run(INITIAL, actions[..i]));
      }
    } else {
      var i :| 0 <= i < |actions| && !Owning(Run(INITIAL, actions[..i]), actions[i]);
      var s := Run(INITIAL, actions[..i]);
      assert actions[..i + 1][..i] == actions[..i];
      assert Run(INITIAL, actions[..i + 1]) == Step(s, actions[i]);
      UnowningSends(s, actions[i]);
      UnownedSendLeaks(s, actions[i]);
    }
  }

  lemma UnowningSends(s: State, a: Action)
    requires !Owning(s, a)
    ensures Sends(s, a)
  {
  }

  predicate AllReleased(s: State) {
    forall l :: 0 <= l < |s.lives| ==> s.lives[l].address.None?
  }

  /** No octets come from anywhere or make the text of an address. */
  predicate Genuine(a: Action) {
    && (a.Acquire? && a.to.At? ==> a.to.address != NIL_TEXT)
    && (a.Deliver? ==> a.message.sender != NIL_TEXT)
  }

  /** Nobody releases an ID that was reserved for no octets. */
  predicate NilUntouched(s: State) {
    && (forall key <- s.pending :: key.address != NIL_TEXT)
    && (forall l :: 0 <= l < |s.lives| ==> s.lives[l].address != Some(NIL_TEXT))
  }

  predicate NilReserved(s: State) {
    exists key <- s.pool.reserved :: key.address == NIL_TEXT
  }

  predicate ForNoOctets(a: Action) {
    a.Acquire? && a.to.Empty?
  }

  lemma NilStep(s: State, a: Action)
    requires NilUntouched(s) && Genuine(a)
    ensures NilUntouched(Step(s, a))
  {
    hide NIL_TEXT;
    hide Step;
    PendingSources(s, a);
    AddressSources(s, a);
  }

  lemma PendingSources(s: State, a: Action)
    ensures forall key <- Step(s, a).pending :: key in s.pending || (a.Deliver? && key.address == a.message.sender)
  {
    hide Granted;
    hide Acquired;
    hide Match;
  }

  lemma AddressSources(s: State, a: Action)
    ensures forall l :: 0 <= l < |Step(s, a).lives| && Step(s, a).lives[l].address.Some? ==>
              || (l < |s.lives| && Step(s, a).lives[l].address == s.lives[l].address)
              || (a.Acquire? && Step(s, a).lives[l].address == Remembered(a.to))
  {
    hide Granted;
    hide Acquired;
    hide Match;
  }

  lemma NilReservedStep(s: State, a: Action)
    requires NilUntouched(s) && Genuine(a)
    ensures NilReserved(Step(s, a)) <==> NilReserved(s) || ForNoOctets(a)
  {
    hide NIL_TEXT;
    hide Match;
    var t := Step(s, a);
    if NilReserved(s) {
      var key :| key in s.pool.reserved && key.address == NIL_TEXT;
      assert key in t.pool.reserved;
    } else if ForNoOctets(a) {
      assert Candidate(s.pool, NIL_TEXT, 0) !in s.pool.reserved;
      assert Key(NIL_TEXT, Granted(s.pool, NIL_TEXT).value) in t.pool.reserved;
    } else {
      assert forall key <- t.pool.reserved :: key in s.pool.reserved || key.address != NIL_TEXT;
    }
  }

  lemma {:induction false} NilRun(actions: seq<Action>)
    requires forall a <- actions :: Genuine(a)
    ensures NilUntouched(Run(INITIAL, actions))
    ensures NilReserved(Run(INITIAL, actions)) <==> exists a <- actions :: ForNoOctets(a)
    decreases |actions|
  {
    hide Step;
    hide NilUntouched;
    hide Genuine;
    hide ForNoOctets;
    if actions == [] {
      NilAtFirst();
    } else {
      var n := |actions| - 1;
      var s := Run(INITIAL, actions[..n]);
      assert actions == actions[..n] + [actions[n]];
      NilRun(actions[..n]);
      NilStep(s, actions[n]);
      NilReservedStep(s, actions[n]);
    }
  }

  lemma NilAtFirst()
    ensures NilUntouched(INITIAL) && !NilReserved(INITIAL)
  {
  }

  /** Nothing leaks: once every request is released no ID is reserved, if and only if none was
      asked for with a slice of no octets that is not nil; and no handler is left in any run
      whose Sends leave none to nobody, among them the runs that send where they reserved. */
  lemma NothingLeaks(actions: seq<Action>)
    requires (forall a <- actions :: Genuine(a)) && AllReleased(Run(INITIAL, actions))
    ensures Run(INITIAL, actions).pool.reserved == {} <==> forall a <- actions :: !ForNoOctets(a)
    ensures OwningRun(actions) ==> Run(INITIAL, actions).handlers == map[]
    ensures AlignedRun(actions) ==> OwningRun(actions)
  {
    hide Run;
    EveryRun(actions);
    NilRun(actions);
    var s := Run(INITIAL, actions);
    assert forall key :: !Held(s, key);
    assert s.pool.reserved == {} <==> !NilReserved(s);
    if OwningRun(actions) {
      OwningRunOwnsHandlers(actions);
      ReleasedOwnsNothing(s);
    }
    if AlignedRun(actions) {
      AlignedRunIsOwning(actions);
    }
  }

  /** A request for no octets: its cleanup has no address to release the ID of. */
  lemma EmptyAddressLeaks(service: Byte)
    ensures var s := Run(INITIAL, [Acquire(Empty, service), RemoveHandler(0), ReleaseId(0)]);
            AllReleased(s) && s.pool.reserved != {}
  {
    var actions := [Acquire(Empty, service), RemoveHandler(0), ReleaseId(0)];
    var s1 := Step(INITIAL, actions[0]);
    assert |s1.lives| == 1 && s1.lives[0].address == None;
    ThreeSteps(INITIAL, actions[0], actions[1], actions[2]);
    assert ForNoOctets(actions[0]);
    hide Run;
    NothingLeaks(actions);
  }

  /** A Send elsewhere than reserved, and a second Send after a failed one, both leave a
      handler behind for good. */
  lemma MisaddressedSendLeaks(a: Address, b: Address)
    requires a != b
    ensures var s := Run(INITIAL, [Acquire(At(a), 12), Register(0, b), RemoveHandler(0), ReleaseId(0)]);
            AllReleased(s) && s.handlers != map[]
  {
    var s1 := Step(INITIAL, Acquire(At(a), 12));
    FirstGrant(a);
    assert s1.lives == [Use(Some(a), 1, 12, false, false, None, false)];
    hide Run;
    hide Granted;
    hide Acquired;
    var s2 := Step(s1, Register(0, b));
    assert s2.lives == [Use(Some(a), 1, 12, true, false, None, false)] && Key(b, 1) in s2.handlers;
    var s3 := Step(s2, RemoveHandler(0));
    assert s3.lives == [Use(Some(a), 1, 12, true, true, None, false)] && Key(b, 1) in s3.handlers;
    var s4 := Step(s3, ReleaseId(0));
    assert s4.lives == [Use(None, 1, 12, false, false, None, false)] && Key(b, 1) in s4.handlers;
    FourSteps(INITIAL, Acquire(At(a), 12), Register(0, b), RemoveHandler(0), ReleaseId(0));
  }

  lemma ResendLeaks(a: Address)
    ensures var s := Run(Run(INITIAL, [Acquire(At(a), 12), Register(0, a), RemoveHandler(0), ReleaseId(0)]),
                         [Register(0, a), RemoveHandler(0), ReleaseId(0)]);
            AllReleased(s) && s.handlers != map[]
  {
    var s1 := Step(INITIAL, Acquire(At(a), 12));
    FirstGrant(a);
    assert s1.lives == [Use(Some(a), 1, 12, false, false, None, false)];
    hide Run;
    hide Granted;
    hide Acquired;
    var s2 := Step(s1, Register(0, a));
    var s4 := Step(Step(s2, RemoveHandler(0)), ReleaseId(0));
    assert s4.lives == [Use(None, 1, 12, false, false, None, false)];
    FourSteps(INITIAL, Acquire(At(a), 12), Register(0, a), RemoveHandler(0), ReleaseId(0));
    var s5 := Step(s4, Register(0, a));
    assert Key(a, 1) in s5.handlers;
    var s7 := Step(Step(s5, RemoveHandler(0)), ReleaseId(0));
    assert s7.lives == [Use(None, 1, 12, false, false, None, false)] && Key(a, 1) in s7.handlers;
    ThreeSteps(s4, Register(0, a), RemoveHandler(0), ReleaseId(0));
  }

  lemma FirstGrant(a: Address)
    ensures Granted(INITIAL.pool, a) == Some(1)
  {
    assert Candidate(INITIAL.pool, a, 0) == Key(a, 1);
  }

  lemma TwoSteps(s: State, a: Action, b: Action)
    ensures Run(s, [a, b]) == Step(Step(s, a), b)
  {
    hide Step;
    assert [a, b][..1] == [a] && [a][..0] == [];
    assert Run(s, [a]) == Step(s, a);
  }

  lemma ThreeSteps(s: State, a: Action, b: Action, c: Action)
    ensures Run(s, [a, b, c]) == Step(Step(Step(s, a), b), c)
  {
    hide Step;
    assert [a, b, c][..2] == [a, b] && [a, b][..1] == [a] && [a][..0] == [];
    assert Run(s, [a]) == Step(s, a);
    assert Run(s, [a, b]) == Step(Step(s, a), b);
  }

  lemma FourSteps(s: State, a: Action, b: Action, c: Action, d: Action)
    ensures Run(s, [a, b, c, d]) == Step(Step(Step(Step(s, a), b), c), d)
  {
    hide Step;
    assert [a, b, c, d][..3] == [a, b, c];
    ThreeSteps(s, a, b, c);
  }
}
