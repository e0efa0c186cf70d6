/** ReadPropertyMultiple on the simulator: what the property ALL stands for
    (expandPropertyReferences in simulator/application.go). */
module ReadAll {
  import opened Octets
  import opened Model
  import opened ReadRequests

  const ALL: Uint32 := 8

  predicate Ascending(ids: seq<Uint32>) {
    forall i, j :: 0 <= i < j < |ids| ==> ids[i] <= ids[j]
  }

  /** One step of the sort. */
  method InsertId(ids: seq<Uint32>, id: Uint32) returns (r: seq<Uint32>)
    requires Ascending(ids)
    ensures Ascending(r) && multiset(r) == multiset(ids) + multiset{id}
  {
    var i := 0;
    while i < |ids| && ids[i] < id
      invariant 0 <= i <= |ids|
      invariant forall j :: 0 <= j < i ==> ids[j] < id
    {
      i := i + 1;
    }
    r := ids[..i] + [id] + ids[i..];
    InsertedBetween(ids, id, i);
  }

  lemma InsertedBetween(ids: seq<Uint32>, id: Uint32, i: nat)
    requires Ascending(ids) && i <= |ids| && (forall j :: 0 <= j < i ==> ids[j] < id) && (i < |ids| ==> id <= ids[i])
    ensures Ascending(ids[..i] + [id] + ids[i..])
    ensures multiset(ids[..i] + [id] + ids[i..]) == multiset(ids) + multiset{id}
  {
    BetweenAscends(ids, id, i);
    hide Ascending;
    assert ids == ids[..i] + ids[i..];
  }

  lemma BetweenAscends(ids: seq<Uint32>, id: Uint32, i: nat)
    requires Ascending(ids) && i <= |ids| && (forall j :: 0 <= j < i ==> ids[j] < id) && (i < |ids| ==> id <= ids[i])
    ensures Ascending(ids[..i] + [id] + ids[i..])
  {
    var r := ids[..i] + [id] + ids[i..];
    forall j, k | 0 <= j < k < |r| ensures r[j] <= r[k] {
      assert r[j] == if j < i then ids[j] else if j == i then id else ids[j - 1];
      assert r[k] == if k < i then ids[k] else if k == i then id else ids[k - 1];
    }
  }

  /** The properties an object computes rather than stores. */
  function Computed(o: ObjectState): (ids: seq<Uint32>)
  {
    var commanded := PRESENT_VALUE in o.properties && o.properties[PRESENT_VALUE].shape.fallback.Some?;
    if o.key.kind == DEVICE_TYPE then (if commanded then [PRIORITY_ARRAY, RELINQUISH_DEFAULT] else [])
    else if !commanded then [STATUS_FLAGS, EVENT_STATE, RELIABILITY, OUT_OF_SERVICE]
    else [STATUS_FLAGS, EVENT_STATE, RELIABILITY, OUT_OF_SERVICE, PRIORITY_ARRAY, RELINQUISH_DEFAULT]
  }

  /** The identifiers ALL stands for: those stored, then those computed. */
  ghost function Everything(o: ObjectState): (ids: multiset<Uint32>)
  {
    multiset(o.properties.Keys) + multiset(Computed(o))
  }

  function Inserted(ids: seq<Uint32>, id: Uint32): (r: seq<Uint32>)
    ensures |r| == |ids| + 1 && forall i :: 0 <= i < |r| ==> r[i] == id || r[i] in ids
  {
    if ids == [] || id <= ids[0] then [id] + ids else [ids[0]] + Inserted(ids[1..], id)
  }

  lemma {:induction false} InsertedInOrder(ids: seq<Uint32>, id: Uint32)
    requires Ascending(ids)
    ensures Ascending(Inserted(ids, id))
  {
    if ids != [] && ids[0] < id {
      InsertedInOrder(ids[1..], id);
      var r := Inserted(ids[1..], id);
      assert forall i :: 0 <= i < |r| ==> ids[0] <= r[i];
    }
  }

  lemma {:induction false} InsertedBag(ids: seq<Uint32>, id: Uint32)
    ensures multiset(Inserted(ids, id)) == multiset(ids) + multiset{id}
  {
    if ids != [] && ids[0] < id {
      InsertedBag(ids[1..], id);
      assert ids == [ids[0]] + ids[1..];
    }
  }

  /** The identifiers of the bag, in order. */
  ghost function Ascended(bag: multiset<Uint32>): (ids: seq<Uint32>)
    ensures Ascending(ids) && multiset(ids) == bag
    decreases |bag|
  {
    if bag == multiset{} then []
    else
      var x :| x in bag;
      var rest := Ascended(bag - multiset{x});
      InsertedInOrder(rest, x);
      InsertedBag(rest, x);
      Inserted(rest, x)
  }

  lemma {:induction false} AscendingIsUnique(a: seq<Uint32>, b: seq<Uint32>)
    requires Ascending(a) && Ascending(b) && multiset(a) == multiset(b)
    ensures a == b
    decreases |a|
  {
    hide Ascending;
    assert |a| == |multiset(a)| == |b|;
    if a != [] {
      LeastFirst(a, b);
      LeastFirst(b, a);
      TailBag(a);
      TailBag(b);
      AscendingIsUnique(a[1..], b[1..]);
      assert a == [a[0]] + a[1..] && b == [b[0]] + b[1..];
    }
  }

  lemma TailBag(a: seq<Uint32>)
    requires a != [] && Ascending(a)
    ensures multiset(a[1..]) == multiset(a) - multiset{a[0]} && Ascending(a[1..])
  {
    assert a == [a[0]] + a[1..];
  }

  lemma LeastFirst(a: seq<Uint32>, b: seq<Uint32>)
    requires Ascending(a) && multiset(a) == multiset(b) && a != [] && b != []
    ensures a[0] <= b[0]
  {
    assert b[0] in multiset(a);
    var i :| 0 <= i < |a| && a[i] == b[0];
  }

  function References(ids: seq<Uint32>): (rs: seq<Reference>)
    ensures |rs| == |ids| && forall i :: 0 <= i < |ids| ==> rs[i] == Reference(ids[i], None)
  {
    seq(|ids|, i requires 0 <= i < |ids| => Reference(ids[i], None))
  }

  /** What the references of a specification stand for. */
  ghost function Expanded(d: DeviceState, key: ObjectKey, references: seq<Reference>): (rs: seq<Reference>)
  {
    if |references| != 1 || references[0].id != ALL || key !in d.objects then references
    else References(Ascended(Everything(d.objects[key])))
  }

  /** expandPropertyReferences */
  method Expand(d: DeviceState, key: ObjectKey, references: seq<Reference>) returns (r: seq<Reference>)
    ensures |references| != 1 || references[0].id != ALL || key !in d.objects ==> r == references
    ensures |references| == 1 && references[0].id == ALL && key in d.objects ==>
              && (forall i :: 0 <= i < |r| ==> r[i].index.None?)
              && Ascending(Ids(r)) && multiset(Ids(r)) == Everything(d.objects[key])
    ensures r == Expanded(d, key, references)
  {
    if |references| != 1 || references[0].id != ALL || key !in d.objects {
      return references;
    }
    hide Ascending;
    hide Computed;
    hide Ascended;
    var o := d.objects[key];
    var stored := SortKeys(o.properties.Keys);
    var ids := InsertAll(stored, Computed(o));
    r := ToReferences(ids);
    AscendingIsUnique(ids, Ascended(Everything(o)));
    assert Ids(r) == ids;
  }

  method ToReferences(ids: seq<Uint32>) returns (r: seq<Reference>)
    ensures r == References(ids)
  {
    r := [];
    for i := 0 to |ids|
      invariant |r| == i && forall k :: 0 <= k < i ==> r[k] == Reference(ids[k], None)
    {
      r := r + [Reference(ids[i], None)];
    }
  }

  method SortKeys(keys: set<Uint32>) returns (ids: seq<Uint32>)
    ensures Ascending(ids) && multiset(ids) == multiset(keys)
  {
    hide Ascending;
    var todo := keys;
    ids := [];
    assert Ascending(ids) by { NoneAscend(); }
    while todo != {}
      invariant todo <= keys && Ascending(ids) && multiset(ids) == multiset(keys - todo)
    {
      var id :| id in todo;
      ids := InsertId(ids, id);
      assert keys - (todo - {id}) == (keys - todo) + {id};
      todo := todo - {id};
    }
    assert keys - {} == keys;
  }

  lemma NoneAscend()
    ensures Ascending([])
  {
  }

  method InsertAll(ids: seq<Uint32>, more: seq<Uint32>) returns (r: seq<Uint32>)
    requires Ascending(ids)
    ensures Ascending(r) && multiset(r) == multiset(ids) + multiset(more)
  {
    hide Ascending;
    r := ids;
    for i := 0 to |more|
      invariant Ascending(r) && multiset(r) == multiset(ids) + multiset(more[..i])
    {
      r := InsertId(r, more[i]);
      assert more[..i + 1] == more[..i] + [more[i]];
    }
    assert more[..|more|] == more;
  }

  function Ids(rs: seq<Reference>): (ids: seq<Uint32>)
    ensures |ids| == |rs| && forall i :: 0 <= i < |rs| ==> ids[i] == rs[i].id
  {
    seq(|rs|, i requires 0 <= i < |rs| => rs[i].id)
  }

  /** ALL names exactly the properties that can be read. */
  lemma AllIsReadable(d: DeviceState, key: ObjectKey, id: Uint32)
    requires key in d.objects
    ensures id in Everything(d.objects[key]) <==> ReadProperty(d, key, id, None).Read?
  {
    hide Effective;
    hide PriorityArray;
    var o := d.objects[key];
    assert id in Everything(o) <==> id in o.properties || id in Computed(o);
    if id !in o.properties {
      ComputedIsSynthesized(o, id);
    }
  }

  lemma ComputedIsSynthesized(o: ObjectState, id: Uint32)
    ensures id in Computed(o) <==> Synthesized(o, id).Some?
  {
    hide PriorityArray;
  }

  /** And each once, when no stored property has the number of a computed one. */
  lemma AllIsOnce(o: ObjectState, id: Uint32)
    requires forall k <- Computed(o) :: k !in o.properties
    ensures Everything(o)[id] <= 1
  {
    ComputedIsOnce(o, id);
    hide Computed;
    var bag: multiset<Uint32> := multiset(Computed(o));
    assert bag[id] > 0 ==> id in Computed(o);
  }

  lemma ComputedIsOnce(o: ObjectState, id: Uint32)
    ensures multiset(Computed(o))[id] <= 1
  {
    var ids := Computed(o);
    assert forall i, j :: 0 <= i < j < |ids| ==> ids[i] != ids[j];
    hide Computed;
    DistinctOnce(ids, id);
  }

  lemma {:induction false} DistinctOnce(s: seq<Uint32>, id: Uint32)
    requires forall i, j :: 0 <= i < j < |s| ==> s[i] != s[j]
    ensures multiset(s)[id] <= 1
    decreases |s|
  {
    if s != [] {
      assert s == [s[0]] + s[1..];
      DistinctOnce(s[1..], id);
      if s[0] == id {
        assert id !in s[1..];
      }
    }
  }
}
