/** The client as it runs: the two tables of bacnet/transaction.go and bacnet/server.go,
    changed in place, and the methods of bacnet/request.go and Server.handle that drive them.
    Every method is one atomic section and takes the step of ClientProtocol it is named for. */
module Client {
  import opened Octets
  import opened Transactions
  import opened ClientProtocol
  import opened ServerHandlers

  class Client {
    const transactions: TransactionTable
    const handlers: HandlerTable
    var lives: seq<Use>
    var registrations: seq<Registration>
    ghost var deliveries: seq<Delivery>
    var pending: multiset<Key>

    ghost predicate Valid()
      reads this, transactions, handlers
    {
      transactions.Valid() && handlers.Valid()
    }

    ghost function View(): (s: State)
      reads this, transactions, handlers
    {
      State(transactions.State(), lives, handlers.handlers, registrations, deliveries, pending)
    }

    constructor ()
      ensures Valid() && View() == INITIAL && fresh(transactions) && fresh(handlers)
    {
      transactions := new TransactionTable();
      handlers := new HandlerTable();
      lives, registrations, deliveries, pending := [], [], [], multiset{};
    }

    /** SetConfirmedService on a clean request: an ID is reserved, or the ID stays zero; the
        address remembered is a copy, which is nil when it has no octets. */
    method SetConfirmedService(to: Destination, service: Byte)
      requires Valid()
      modifies this, transactions
      ensures Valid() && View() == Step(old(View()), Acquire(to, service))
    {
      hide Granted;
      hide Acquired;
      var grant := transactions.TryGetInvokeId(ReservedFor(to));
      var id := if grant.Grant? then grant.id as Byte else 0;
      lives := lives + [Use(Remembered(to), id, service, false, false, None, false)];
    }

    /** Send, past its guards: the handler is registered before the datagram leaves. */
    method Send(life: Life, dest: Address)
      requires Valid() && life < |lives|
      modifies this, handlers
      ensures Valid() && View() == Step(old(View()), Register(life, dest))
    {
      var u := lives[life];
      if u.cleaning || u.id == 0 {
        return;
      }
      handlers.Set(Some(dest), u.id, Handler(|registrations|, u.service));
      registrations := registrations + [Registration(life, Key(dest, u.id), u.service)];
      lives := lives[life := u.(sent := true)];
    }

    /** deliverConfirmedHandler: the entry goes, and the message is queued if there is room. */
    method Receive(m: Message) returns (found: bool, delivered: bool)
      requires Valid() && Recorded(View())
      modifies this, handlers
      ensures Valid() && View() == Step(old(View()), Deliver(m))
      ensures found <==> Match(old(View()).handlers, m).Some?
      ensures delivered ==> found
    {
      hide Granted;
      var h := handlers.Take(m);
      if h.None? {
        return false, false;
      }
      assert h.value.token < |registrations| && registrations[h.value.token].life < |lives|;
      pending := pending + multiset{Key(m.sender, m.id)};
      var life := registrations[h.value.token].life;
      var u := lives[life];
      delivered := u.queue.None?;
      deliveries := deliveries + [Delivery(h.value.token, m, delivered)];
      lives := lives[life := u.(queue := if delivered then Some(m) else u.queue, answered := true)];
      found := true;
    }

    /** The dispatcher's own ReleaseInvokeID after a delivery. */
    method ReleaseAfterDelivery(key: Key)
      requires Valid() && key in pending && key.id != 0
      modifies this, transactions
      ensures Valid() && View() == Step(old(View()), DispatchRelease(key))
    {
      transactions.ReleaseInvokeId(Some(key.address), key.id);
      pending := pending - multiset{key};
    }

    /** cleanupTransaction, first section. */
    method RemoveConfirmedHandler(life: Life)
      requires Valid() && life < |lives| && !lives[life].cleaning
      modifies this, handlers
      ensures Valid() && View() == Step(old(View()), RemoveHandler(life))
    {
      var u := lives[life];
      if u.sent && u.id != 0 && u.address.Some? {
        handlers.Remove(u.address, u.id);
      }
      lives := lives[life := u.(cleaning := true)];
    }

    /** cleanupTransaction, the rest. */
    method ReleaseId(life: Life)
      requires Valid() && life < |lives| && lives[life].cleaning
      modifies this, transactions
      ensures Valid() && View() == Step(old(View()), Action.ReleaseId(life))
    {
      var u := lives[life];
      if u.id != 0 && u.address.Some? {
        transactions.ReleaseInvokeId(u.address, u.id);
      }
      lives := lives[life := u.(cleaning := false, sent := false, address := None)];
    }
  }
}
