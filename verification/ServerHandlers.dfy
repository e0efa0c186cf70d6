/** The confirmed-handler table of bacnet/server.go, keyed by text, against the table keyed
    by address and ID that the protocol's steps use. */
module ServerHandlers {
  import opened Octets
  import opened Transactions
  import opened ClientProtocol

  class HandlerTable {
    var entries: map<string, Handler>
    ghost var handlers: map<Key, Handler>

    ghost predicate Valid()
      reads this
    {
      && entries.Keys == (set key | key in handlers :: KeyText(key.address, key.id))
      && forall key <- handlers :: entries[KeyText(key.address, key.id)] == handlers[key]
    }

    constructor ()
      ensures Valid() && handlers == map[]
    {
      entries, handlers := map[], map[];
    }

    /** A text stands for one key only. */
    lemma TextsAreKeys(key: Key)
      requires Valid()
      ensures KeyText(key.address, key.id) in entries <==> key in handlers
      ensures forall other <- handlers ::
                KeyText(other.address, other.id) == KeyText(key.address, key.id) <==> other == key
    {
      forall other | other in handlers
        ensures KeyText(other.address, other.id) == KeyText(key.address, key.id) <==> other == key
      {
        KeysAreInjective(other.address, other.id, key.address, key.id);
      }
    }

    /** setConfirmedHandlerForService */
    method Set(address: Option<Address>, id: Byte, h: Handler)
      requires Valid()
      modifies this
      ensures Valid()
      ensures handlers == if id == 0 || address.None? then old(handlers) else old(handlers)[Key(address.value, id) := h]
    {
      if id == 0 || address.None? {
        return;
      }
      TextsAreKeys(Key(address.value, id));
      entries := entries[KeyText(address.value, id) := h];
      handlers := handlers[Key(address.value, id) := h];
    }

    /** RemoveConfirmedHandler */
    method Remove(address: Option<Address>, id: Byte)
      requires Valid()
      modifies this
      ensures Valid()
      ensures handlers == if id == 0 || address.None? then old(handlers) else old(handlers) - {Key(address.value, id)}
    {
      if id == 0 || address.None? {
        return;
      }
      TextsAreKeys(Key(address.value, id));
      entries := entries - {KeyText(address.value, id)};
      handlers := handlers - {Key(address.value, id)};
    }

    /** deliverConfirmedHandler up to the channel: the handler that takes the message loses
        its entry in the same section. */
    method Take(m: Message) returns (h: Option<Handler>)
      requires Valid()
      modifies this
      ensures Valid() && h == Match(old(handlers), m)
      ensures handlers == if h.Some? then old(handlers) - {Key(m.sender, m.id)} else old(handlers)
    {
      if m.id == 0 {
        return None;
      }
      TextsAreKeys(Key(m.sender, m.id));
      var text := KeyText(m.sender, m.id);
      if text !in entries {
        return None;
      }
      var found := entries[text];
      if (m.kind.SimpleAck? || m.kind.ComplexAck? || m.kind.ErrorPdu?) && m.service != found.service {
        return None;
      }
      entries := entries - {text};
      handlers := handlers - {Key(m.sender, m.id)};
      return Some(found);
    }
  }
}
