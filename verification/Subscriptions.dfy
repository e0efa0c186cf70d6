/** The registry of COV subscriptions (simulator/subscriptions.go). */
module Subscriptions {
  import opened Octets
  import opened Model
  import opened Cov

  // ---- The order Active lists subscriptions in ---------------------------

  predicate TextBelow(a: string, b: string) {
    b != [] && (a == [] || (if a[0] != b[0] then a[0] < b[0] else TextBelow(a[1..], b[1..])))
  }

  predicate KeyBelow(a: SubscriptionKey, b: SubscriptionKey) {
    if a.subscriber != b.subscriber then TextBelow(a.subscriber, b.subscriber)
    else if a.process != b.process then a.process < b.process
    else if a.object_.kind != b.object_.kind then a.object_.kind < b.object_.kind
    else a.object_.instance < b.object_.instance
  }

  lemma {:induction false} TextIsTotal(a: string, b: string)
    ensures !(TextBelow(a, b) && TextBelow(b, a))
    ensures TextBelow(a, b) || TextBelow(b, a) <==> a != b
  {
    if a != [] && b != [] {
      TextIsTotal(a[1..], b[1..]);
      assert a == [a[0]] + a[1..] && b == [b[0]] + b[1..];
    }
  }

  lemma {:induction false} TextIsTransitive(a: string, b: string, c: string)
    requires TextBelow(a, b) && TextBelow(b, c)
    ensures TextBelow(a, c)
  {
    if a != [] && a[0] == b[0] && b[0] == c[0] {
      TextIsTransitive(a[1..], b[1..], c[1..]);
    }
  }

  /** Distinct keys are always ordered, one way. */
  lemma KeysAreTotal(a: SubscriptionKey, b: SubscriptionKey)
    ensures !(KeyBelow(a, b) && KeyBelow(b, a))
    ensures KeyBelow(a, b) || KeyBelow(b, a) <==> a != b
  {
    TextIsTotal(a.subscriber, b.subscriber);
  }

  lemma KeysAreTransitive(a: SubscriptionKey, b: SubscriptionKey, c: SubscriptionKey)
    requires KeyBelow(a, b) && KeyBelow(b, c)
    ensures KeyBelow(a, c)
  {
    hide TextBelow;
    TextIsTotal(a.subscriber, b.subscriber);
    TextIsTotal(b.subscriber, c.subscriber);
    TextIsTotal(a.subscriber, c.subscriber);
    if TextBelow(a.subscriber, b.subscriber) && TextBelow(b.subscriber, c.subscriber) {
      TextIsTransitive(a.subscriber, b.subscriber, c.subscriber);
    }
  }

  predicate Sorted(keys: seq<SubscriptionKey>) {
    forall i, j :: 0 <= i < j < |keys| ==> KeyBelow(keys[i], keys[j])
  }

  function Members(keys: seq<SubscriptionKey>): (members: set<SubscriptionKey>)
    ensures forall k :: k in members <==> k in keys
  {
    set k | k in keys
  }

  /** The keys of the table, each once, in order. */
  predicate Lists(keys: seq<SubscriptionKey>, members: set<SubscriptionKey>) {
    Sorted(keys) && Members(keys) == members
  }

  /** A set of keys has one listing, so Active's order does not depend on the map's. */
  lemma {:induction false} ListingIsUnique(a: seq<SubscriptionKey>, b: seq<SubscriptionKey>,
        members: set<SubscriptionKey>)
    requires Lists(a, members) && Lists(b, members)
    ensures a == b
    decreases |a|
  {
    hide KeyBelow;
    EmptyListing(a, members);
    EmptyListing(b, members);
    if a != [] {
      assert a[0] in members && b[0] in members;
      var i :| 0 <= i < |b| && b[i] == a[0];
      var j :| 0 <= j < |a| && a[j] == b[0];
      KeysAreTotal(a[0], b[0]);
      KeysAreTotal(a[0], a[0]);
      assert a[0] == b[0];
      ListingTail(a, members);
      ListingTail(b, members);
      ListingIsUnique(a[1..], b[1..], members - {a[0]});
      assert a == [a[0]] + a[1..] && b == [b[0]] + b[1..];
    }
  }

  lemma EmptyListing(a: seq<SubscriptionKey>, members: set<SubscriptionKey>)
    requires Lists(a, members)
    ensures a == [] <==> members == {}
  {
    if a != [] {
      assert a[0] in members;
    }
  }

  lemma ListingTail(a: seq<SubscriptionKey>, members: set<SubscriptionKey>)
    requires Lists(a, members) && a != []
    ensures Lists(a[1..], members - {a[0]})
  {
    hide KeyBelow;
    KeysAreTotal(a[0], a[0]);
    assert forall k :: k in a[1..] <==> k in members - {a[0]} by {
      assert a == [a[0]] + a[1..];
      forall i | 0 <= i < |a[1..]| ensures a[1..][i] != a[0] {
        assert a[1..][i] == a[i + 1] && KeyBelow(a[0], a[i + 1]);
      }
    }
  }

  lemma {:induction false} LeastExists(members: set<SubscriptionKey>)
    requires members != {}
    ensures exists k :: k in members && forall j <- members :: j == k || KeyBelow(k, j)
    decreases |members|
  {
    hide KeyBelow;
    var x :| x in members;
    var rest := members - {x};
    if rest == {} {
      assert members == {x};
    } else {
      LeastExists(rest);
      var m :| m in rest && forall j <- rest :: j == m || KeyBelow(m, j);
      KeysAreTotal(x, m);
      if KeyBelow(x, m) {
        forall j | j in members ensures j == x || KeyBelow(x, j) {
          if j != x && j != m {
            KeysAreTransitive(x, m, j);
          }
        }
      } else {
        assert forall j <- members :: j == m || KeyBelow(m, j);
      }
    }
  }

  /** The listing of a set of keys. */
  ghost function Listing(members: set<SubscriptionKey>): (keys: seq<SubscriptionKey>)
    ensures Lists(keys, members)
  {
    if members == {} then []
    else
      LeastExists(members);
      var k :| k in members && forall j <- members :: j == k || KeyBelow(k, j);
      var rest := Listing(members - {k});
      ListingHead(k, rest, members);
      [k] + rest
  }

  lemma ListingHead(k: SubscriptionKey, rest: seq<SubscriptionKey>, members: set<SubscriptionKey>)
    requires k in members && (forall j <- members :: j == k || KeyBelow(k, j)) && Lists(rest, members - {k})
    ensures Lists([k] + rest, members)
  {
    hide KeyBelow;
    assert forall j :: j in [k] + rest <==> j in members by {
      assert forall j :: j in rest <==> j in Members(rest);
    }
    forall i | 0 <= i < |rest| ensures KeyBelow(k, rest[i]) {
      assert rest[i] in Members(rest);
    }
  }

  /** Insert one key where the order wants it. */
  method Insert(keys: seq<SubscriptionKey>, key: SubscriptionKey) returns (r: seq<SubscriptionKey>)
    requires Sorted(keys) && key !in keys
    ensures Lists(r, Members(keys) + {key})
  {
    hide KeyBelow;
    var i := 0;
    while i < |keys| && KeyBelow(keys[i], key)
      invariant 0 <= i <= |keys|
      invariant forall j :: 0 <= j < i ==> KeyBelow(keys[j], key)
    {
      i := i + 1;
    }
    r := keys[..i] + [key] + keys[i..];
    forall j | i <= j < |keys| ensures KeyBelow(key, keys[j]) {
      KeysAreTotal(keys[i], key);
      if i < j {
        KeysAreTransitive(key, keys[i], keys[j]);
      }
    }
    assert forall k :: k in r <==> k in keys || k == key by {
      assert keys == keys[..i] + keys[i..];
    }
  }

  // ---- The registry ------------------------------------------------------

  class SubscriptionRegistry {
    var items: map<SubscriptionKey, Subscription>

    constructor ()
      ensures items == map[]
    {
      items := map[];
    }

    method Subscribe(key: SubscriptionKey, confirmed: bool, lifetime: Uint32, values: seq<Value>, now: Instant)
      modifies this
      ensures items == old(items)[key := NewSubscription(confirmed, lifetime, now, values)]
    {
      var expires := if lifetime > 0 then Some(now + lifetime * SECOND) else None;
      items := items[key := Subscription(confirmed, lifetime, expires, values)];
    }

    method Cancel(key: SubscriptionKey) returns (existed: bool)
      modifies this
      ensures existed == (key in old(items)) && items == old(items) - {key}
    {
      existed := key in items;
      items := items - {key};
    }

    method RemoveExpired(now: Instant)
      modifies this
      ensures items == Pruned(old(items), now)
    {
      var todo := items.Keys;
      while todo != {}
        invariant todo <= items.Keys <= old(items).Keys
        invariant forall k <- items :: items[k] == old(items)[k]
        invariant forall k <- old(items) :: k in items <==> k in todo || !Expired(old(items)[k], now)
      {
        var key :| key in todo;
        if Expired(items[key], now) {
          items := items - {key};
        }
        todo := todo - {key};
      }
    }

    /** The unexpired subscriptions, in order. */
    method Active(now: Instant) returns (keys: seq<SubscriptionKey>)
      modifies this
      ensures items == Pruned(old(items), now)
      ensures Lists(keys, items.Keys)
    {
      RemoveExpired(now);
      var todo := items.Keys;
      keys := [];
      while todo != {}
        invariant todo <= items.Keys && items == Pruned(old(items), now)
        invariant Lists(keys, items.Keys - todo)
      {
        var key :| key in todo;
        keys := Insert(keys, key);
        todo := todo - {key};
      }
    }

    method UpdateLastValue(key: SubscriptionKey, values: seq<Value>, now: Instant) returns (found: bool)
      modifies this
      ensures found == (key in Pruned(old(items), now))
      ensures items == if found then Pruned(old(items), now)[key := old(items)[key].(last := values)]
                       else Pruned(old(items), now)
    {
      RemoveExpired(now);
      found := key in items;
      if found {
        items := items[key := items[key].(last := values)];
      }
    }
  }
}
