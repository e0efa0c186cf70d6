/** Invoke-ID allocation per destination (bacnet/transaction.go). */
module Transactions {
  import opened Octets

  type Address = string

  // ---- Textual keys ------------------------------------------------------

  function Digit(d: nat): (c: char)
    requires d < 10
    ensures '0' <= c <= '9'
  {
    "0123456789"[d]
  }

  /** strconv.Itoa */
  function Decimal(n: nat): (s: string)
    ensures s != [] && forall i :: 0 <= i < |s| ==> '0' <= s[i] <= '9'
  {
    if n < 10 then [Digit(n)] else Decimal(n / 10) + [Digit(n % 10)]
  }

  lemma {:induction false} DecimalInjective(m: nat, n: nat)
    requires Decimal(m) == Decimal(n)
    ensures m == n
  {
    hide Digit;
    var s := Decimal(m);
    assert s[|s| - 1] == Digit(m % 10) == Digit(n % 10);
    DigitInjective(m % 10, n % 10);
    if m >= 10 && n >= 10 {
      assert s[..|s| - 1] == Decimal(m / 10) == Decimal(n / 10);
      DecimalInjective(m / 10, n / 10);
    }
  }

  lemma DigitInjective(d: nat, e: nat)
    requires d < 10 && e < 10 && Digit(d) == Digit(e)
    ensures d == e
  {
  }

  /** genTxId; the handler tables use the same form. */
  function KeyText(address: Address, n: nat): (s: string)
  {
    address + ['.'] + Decimal(n)
  }

  lemma LastSeparator(a: string, c: char, x: string)
    requires c !in x
    ensures (a + [c] + x)[|a|] == c && forall k :: |a| < k < |a + [c] + x| ==> (a + [c] + x)[k] != c
  {
  }

  /** A text is split at its last separator in one way only. */
  lemma JoinInjective(a: string, x: string, b: string, y: string, c: char)
    requires a + [c] + x == b + [c] + y && c !in x && c !in y
    ensures a == b && x == y
  {
    var s, t := a + [c] + x, b + [c] + y;
    LastSeparator(a, c, x);
    LastSeparator(b, c, y);
    assert |a| == |b|;
    assert s[..|a|] == a && t[..|b|] == b;
    assert s[|a| + 1..] == x && t[|b| + 1..] == y;
  }

  /** Different addresses or numbers never share a key, whatever the address text. */
  lemma KeysAreInjective(a: Address, m: nat, b: Address, n: nat)
    ensures KeyText(a, m) == KeyText(b, n) <==> a == b && m == n
  {
    if KeyText(a, m) == KeyText(b, n) {
      JoinInjective(a, Decimal(m), b, Decimal(n), '.');
      DecimalInjective(m, n);
    }
  }

  // ---- The pool of invoke IDs --------------------------------------------

  datatype Key = Key(address: Address, id: Byte)

  /** The reserved IDs of every destination, and where each destination's next scan starts. */
  datatype Pool = Pool(reserved: set<Key>, next: map<Address, Byte>)

  type InvokeId = n: int | 1 <= n <= 255 witness 1

  /** `k` places after `id` in the cycle 1, 2, ..., 255, 1. */
  function Ahead(id: InvokeId, k: nat): (r: InvokeId)
  {
    (id - 1 + k) % 255 + 1
  }

  function Start(p: Pool, address: Address): (id: InvokeId)
  {
    if address in p.next && p.next[address] != 0 then p.next[address] else 1
  }

  /** The `k`th candidate of a scan for `address`. */
  function Candidate(p: Pool, address: Address, k: nat): (key: Key)
  {
    Key(address, Ahead(Start(p, address), k))
  }

  /** How many candidates, from the `k`th on, a scan rejects before it grants one; None when
      it rejects them all. */
  function Scan(p: Pool, address: Address, k: nat): (r: Option<nat>)
    requires k <= 255
    ensures r.Some? ==>
              && k <= r.value < 255
              && Candidate(p, address, r.value) !in p.reserved
              && forall j :: k <= j < r.value ==> Candidate(p, address, j) in p.reserved
    ensures r.None? ==> forall j :: k <= j < 255 ==> Candidate(p, address, j) in p.reserved
    decreases 255 - k
  {
    if k == 255 then None
    else if Candidate(p, address, k) !in p.reserved then Some(k)
    else Scan(p, address, k + 1)
  }

  function Granted(p: Pool, address: Address): (id: Option<InvokeId>)
  {
    match Scan(p, address, 0)
    case Some(k) => Some(Candidate(p, address, k).id)
    case None => None
  }

  function Acquired(p: Pool, address: Address): (q: Pool)
  {
    match Granted(p, address)
    case Some(id) => Pool(p.reserved + {Key(address, id)}, p.next[address := Ahead(id, 1)])
    case None => p
  }

  function Released(p: Pool, key: Key): (q: Pool)
  {
    p.(reserved := p.reserved - {key})
  }

  // ---- What allocation guarantees ----------------------------------------

  function ReservedIds(p: Pool, address: Address): (ids: set<Byte>)
  {
    set key | key in p.reserved && key.address == address && key.id != 0 :: key.id
  }

  function AllIds(n: nat): (ids: set<Byte>)
    requires n <= 255
    ensures |ids| == n && forall id: Byte :: id in ids <==> 1 <= id <= n
  {
    if n == 0 then {} else AllIds(n - 1) + {n}
  }

  lemma SubsetIsSmaller(a: set<Byte>, b: set<Byte>)
    requires a <= b
    ensures |a| <= |b| && (a != b ==> |a| < |b|)
  {
    var rest := b - a;
    assert b == a + rest && |b| == |a| + |rest|;
    assert a != b ==> rest != {};
  }

  /** Every ID is a candidate of the scan, once. */
  lemma EveryIdIsAhead(id: InvokeId, target: InvokeId) returns (k: nat)
    ensures k < 255 && Ahead(id, k) == target
    ensures forall j :: 0 <= j < 255 && Ahead(id, j) == target ==> j == k
  {
    k := (target - id + 255) % 255;
  }

  /** An ID is granted exactly when fewer than 255 are reserved for the destination; it is
      then one of 1..255 that was not reserved. */
  lemma GrantedIffAvailable(p: Pool, address: Address)
    ensures Granted(p, address).Some? <==> |ReservedIds(p, address)| < 255
    ensures Granted(p, address).Some? ==> Key(address, Granted(p, address).value) !in p.reserved
  {
    hide AllIds;
    hide Ahead;
    hide Scan;
    var ids := ReservedIds(p, address);
    assert ids <= AllIds(255);
    SubsetIsSmaller(ids, AllIds(255));
    if Granted(p, address).Some? {
      assert Granted(p, address).value !in ids;
    } else {
      forall id: Byte | id in AllIds(255) ensures id in ids {
        var k := EveryIdIsAhead(Start(p, address), id);
        assert Candidate(p, address, k) == Key(address, id);
      }
    }
  }

  /** Allocations for different destinations never interfere. */
  lemma OthersUntouched(p: Pool, address: Address, other: Address)
    requires other != address
    ensures ReservedIds(Acquired(p, address), other) == ReservedIds(p, other)
    ensures Granted(Acquired(p, address), other) == Granted(p, other)
    ensures forall id: Byte :: ReservedIds(Released(p, Key(address, id)), other) == ReservedIds(p, other)
    ensures forall id: Byte :: Granted(Released(p, Key(address, id)), other) == Granted(p, other)
  {
    ScanDependsOnAddress(p, Acquired(p, address), other, 0);
    forall id: Byte ensures Granted(Released(p, Key(address, id)), other) == Granted(p, other) {
      ScanDependsOnAddress(p, Released(p, Key(address, id)), other, 0);
    }
  }

  lemma {:induction false} ScanDependsOnAddress(p: Pool, q: Pool, address: Address, k: nat)
    requires k <= 255 && Start(p, address) == Start(q, address)
    requires forall id: Byte :: Key(address, id) in p.reserved <==> Key(address, id) in q.reserved
    ensures Scan(p, address, k) == Scan(q, address, k)
    decreases 255 - k
  {
    if k < 255 {
      ScanDependsOnAddress(p, q, address, k + 1);
    }
  }

  // ---- Fairness ----------------------------------------------------------

  datatype Op = Get(address: Address) | Free(key: Key)

  function OpApplied(p: Pool, op: Op): (q: Pool)
  {
    match op
    case Get(address) => Acquired(p, address)
    case Free(key) => Released(p, key)
  }

  function PoolAfter(p: Pool, ops: seq<Op>): (q: Pool)
  {
    if ops == [] then p else OpApplied(PoolAfter(p, ops[..|ops| - 1]), ops[|ops| - 1])
  }

  /** Operation `m` grants `id` to `address`. */
  predicate Grants(p: Pool, ops: seq<Op>, m: nat, address: Address, id: InvokeId) {
    m < |ops| && ops[m] == Get(address) && Granted(PoolAfter(p, ops[..m]), address) == Some(id)
  }

  /** Operation `m` scans for `address` and finds `id` reserved. */
  predicate Skips(p: Pool, ops: seq<Op>, m: nat, address: Address, id: InvokeId) {
    && m < |ops| && ops[m] == Get(address)
    && var q := PoolAfter(p, ops[..m]);
       var scan := Scan(q, address, 0);
       exists k :: 0 <= k < (if scan.Some? then scan.value else 255)
         && Candidate(q, address, k) == Key(address, id) && Candidate(q, address, k) in q.reserved
  }

  predicate Met(p: Pool, ops: seq<Op>, m: nat, address: Address, id: InvokeId) {
    Grants(p, ops, m, address, id) || Skips(p, ops, m, address, id)
  }

  predicate Touched(p: Pool, ops: seq<Op>, from: nat, to: nat, address: Address, id: InvokeId) {
    exists m :: from < m < to && Met(p, ops, m, address, id)
  }

  /** The `d` IDs after `x` were all met between operations `from` and `to`. */
  predicate Swept(p: Pool, ops: seq<Op>, from: nat, to: nat, address: Address, x: InvokeId, d: nat) {
    forall e :: 1 <= e <= d ==> Touched(p, ops, from, to, address, Ahead(x, e))
  }

  lemma AheadAdds(x: InvokeId, m: nat, n: nat)
    ensures Ahead(Ahead(x, m), n) == Ahead(x, m + n)
  {
  }

  lemma FullTurn(x: InvokeId, d: nat)
    ensures Ahead(x, d) == x <==> d % 255 == 0
  {
  }

  lemma SweptLater(p: Pool, ops: seq<Op>, from: nat, to: nat, address: Address, x: InvokeId, d: nat)
    requires Swept(p, ops, from, to, address, x, d)
    ensures Swept(p, ops, from, to + 1, address, x, d)
  {
    hide Met;
    hide Ahead;
  }

  /** What one scan that starts after `d` swept IDs adds: it meets every ID it rejects. */
  lemma ScanSweeps(p: Pool, ops: seq<Op>, from: nat, m: nat, address: Address, x: InvokeId, d: nat, k: nat)
    requires from < m < |ops| && ops[m] == Get(address) && Swept(p, ops, from, m, address, x, d)
    requires Start(PoolAfter(p, ops[..m]), address) == Ahead(x, d + 1)
    requires var scan := Scan(PoolAfter(p, ops[..m]), address, 0); k <= if scan.Some? then scan.value else 255
    ensures Swept(p, ops, from, m + 1, address, x, d + k)
  {
    hide Grants;
    hide Scan;
    hide PoolAfter;
    var q := PoolAfter(p, ops[..m]);
    forall e | 1 <= e <= d + k ensures Touched(p, ops, from, m + 1, address, Ahead(x, e)) {
      if e <= d {
        assert Touched(p, ops, from, m, address, Ahead(x, e));
      } else {
        var j := e - d - 1;
        AheadAdds(x, d + 1, j);
        assert Candidate(q, address, j) == Key(address, Ahead(x, e));
        assert Candidate(q, address, j) in q.reserved;
        assert Skips(p, ops, m, address, Ahead(x, e));
        assert Met(p, ops, m, address, Ahead(x, e));
      }
    }
  }

  /** One operation of the run: the sweep grows, or stays where the next scan starts. */
  lemma SweepStep(p: Pool, ops: seq<Op>, i: nat, m: nat, address: Address, x: InvokeId, d: nat) returns (r: nat)
    requires i < m < |ops| && !Grants(p, ops, m, address, x)
    requires d <= 254 && Swept(p, ops, i, m, address, x, d)
    requires d == 254 || Start(PoolAfter(p, ops[..m]), address) == Ahead(x, d + 1)
    ensures r <= 254 && Swept(p, ops, i, m + 1, address, x, r)
    ensures r == 254 || Start(PoolAfter(p, ops[..m + 1]), address) == Ahead(x, r + 1)
  {
    hide Swept;
    hide Scan;
    var q := PoolAfter(p, ops[..m]);
    assert ops[..m + 1][..m] == ops[..m] && PoolAfter(p, ops[..m + 1]) == OpApplied(q, ops[m]);
    SweptLater(p, ops, i, m, address, x, d);
    r := d;
    if d < 254 && ops[m] == Get(address) {
      var scan := Scan(q, address, 0);
      if scan.Some? && d + 1 + scan.value < 255 {
        r := d + 1 + scan.value;
        ScanSweeps(p, ops, i, m, address, x, d, scan.value);
        AheadAdds(x, d + 1, scan.value);
        AheadAdds(x, r, 1);
        assert Grants(p, ops, m, address, Ahead(x, r));
        SweptOneMore(p, ops, i, m, address, x, r);
      } else {
        r := 254;
        if scan.Some? {
          AheadAdds(x, d + 1, scan.value);
          FullTurn(x, d + 1 + scan.value);
        }
        ScanSweeps(p, ops, i, m, address, x, d, 254 - d);
      }
    }
  }

  lemma SweptOneMore(p: Pool, ops: seq<Op>, i: nat, m: nat, address: Address, x: InvokeId, r: nat)
    requires r > 0 && i < m && Swept(p, ops, i, m + 1, address, x, r - 1) && Grants(p, ops, m, address, Ahead(x, r))
    ensures Swept(p, ops, i, m + 1, address, x, r)
  {
    hide Ahead;
    hide Skips;
    hide Grants;
    assert Met(p, ops, m, address, Ahead(x, r));
  }

  lemma {:induction false} Sweep(p: Pool, ops: seq<Op>, i: nat, m: nat, address: Address, x: InvokeId) returns (d: nat)
    requires i < m <= |ops| && Grants(p, ops, i, address, x)
    requires forall q :: i < q < m ==> !Grants(p, ops, q, address, x)
    ensures d <= 254 && Swept(p, ops, i, m, address, x, d)
    ensures d == 254 || Start(PoolAfter(p, ops[..m]), address) == Ahead(x, d + 1)
    decreases m
  {
    hide Swept;
    hide Scan;
    if m == i + 1 {
      d := 0;
      assert ops[..m][..i] == ops[..i];
      assert Swept(p, ops, i, m, address, x, 0) by { NothingSwept(p, ops, i, m, address, x); }
    } else {
      d := Sweep(p, ops, i, m - 1, address, x);
      d := SweepStep(p, ops, i, m - 1, address, x, d);
    }
  }

  lemma NothingSwept(p: Pool, ops: seq<Op>, i: nat, m: nat, address: Address, x: InvokeId)
    ensures Swept(p, ops, i, m, address, x, 0)
  {
  }

  /** Between two successive grants of an ID to a destination, every other ID was granted to
      it or found reserved by a scan: no ID comes round early. */
  lemma NoIdComesRoundEarly(p: Pool, ops: seq<Op>, i: nat, j: nat, address: Address, x: InvokeId, y: InvokeId)
    requires i < j && Grants(p, ops, i, address, x) && Grants(p, ops, j, address, x) && x != y
    requires forall q :: i < q < j ==> !Grants(p, ops, q, address, x)
    ensures exists m :: i < m <= j && (Grants(p, ops, m, address, y) || Skips(p, ops, m, address, y))
  {
    hide Scan;
    var d := Sweep(p, ops, i, j, address, x);
    var e := EveryIdIsAhead(x, y);
    FullTurn(x, e);
    if d == 254 {
      SweptLater(p, ops, i, j, address, x, d);
    } else {
      var k := Scan(PoolAfter(p, ops[..j]), address, 0).value;
      AheadAdds(x, d + 1, k);
      FullTurn(x, d + 1 + k);
      ScanSweeps(p, ops, i, j, address, x, d, 254 - d);
    }
    assert Touched(p, ops, i, j + 1, address, Ahead(x, e));
  }

  /** The octet counter goes up by one, from 255 to 0, and 0 is passed over. */
  function Following(id: InvokeId): (next: InvokeId)
    ensures next == Ahead(id, 1)
  {
    if id == 255 then 1 else id + 1
  }

  lemma AheadSteps(x: InvokeId, k: nat)
    ensures Ahead(x, 0) == x
    ensures Ahead(x, k + 1) == Following(Ahead(x, k))
  {
  }

  lemma ScanSteps(p: Pool, address: Address, k: nat)
    requires k <= 255
    ensures Scan(p, address, k)
         == if k == 255 then None
            else if Candidate(p, address, k) !in p.reserved then Some(k)
            else Scan(p, address, k + 1)
  {
  }

  /** A free ID `d` places ahead is granted now, or is nearer after the grant. */
  lemma FreeIdNears(p: Pool, key: Key, d: nat) returns (e: nat)
    requires key.id != 0 && key !in p.reserved && d < 255 && Ahead(Start(p, key.address), d) == key.id
    ensures Granted(p, key.address).Some?
    ensures || Granted(p, key.address) == Some(key.id)
            || (&& e < d && key !in Acquired(p, key.address).reserved
                && Ahead(Start(Acquired(p, key.address), key.address), e) == key.id)
  {
    hide Scan;
    var at := Start(p, key.address);
    var scan := Scan(p, key.address, 0);
    assert Candidate(p, key.address, d) == key;
    assert scan.Some? && scan.value <= d;
    if scan.value < d {
      e := d - scan.value - 1;
      AheadAdds(at, scan.value, 1);
      AheadAdds(at, scan.value + 1, e);
      var k := EveryIdIsAhead(at, key.id);
    } else {
      e := 0;
    }
  }

  // ---- The table of bacnet/transaction.go --------------------------------

  datatype Grant = Grant(id: InvokeId) | NoAddress | Exhausted

  class TransactionTable {
    var transactions: set<string>
    var next: map<Address, Byte>
    ghost var reserved: set<Key>

    ghost predicate Valid()
      reads this
    {
      transactions == set key | key in reserved :: KeyText(key.address, key.id)
    }

    ghost function State(): (p: Pool)
      reads this
    {
      Pool(reserved, next)
    }

    constructor ()
      ensures Valid() && State() == Pool({}, map[])
    {
      transactions, next, reserved := {}, map[], {};
    }

    lemma TextsAreKeys(key: Key)
      requires Valid()
      ensures KeyText(key.address, key.id) in transactions <==> key in reserved
    {
      if KeyText(key.address, key.id) in transactions {
        var other :| other in reserved && KeyText(other.address, other.id) == KeyText(key.address, key.id);
        KeysAreInjective(other.address, other.id, key.address, key.id);
      }
    }

    method TryGetInvokeId(address: Option<Address>) returns (r: Grant)
      requires Valid()
      modifies this
      ensures Valid()
      ensures address.None? ==> r == NoAddress && State() == old(State())
      ensures address.Some? ==>
                && r == (match Granted(old(State()), address.value) case Some(id) => Grant(id) case None => Exhausted)
                && State() == Acquired(old(State()), address.value)
    {
      if address.None? {
        return NoAddress;
      }
      var a := address.value;
      var id: Byte := if a in next then next[a] else 0;
      if id == 0 {
        id := 1;
      }
      hide Scan;
      hide Ahead;
      hide KeyText;
      ghost var p := State();
      AheadSteps(Start(p, a), 0);
      for i := 0 to 255
        invariant Valid() && State() == p && id == Ahead(Start(p, a), i)
        invariant Scan(p, a, 0) == Scan(p, a, i)
      {
        TextsAreKeys(Key(a, id));
        ScanSteps(p, a, i);
        AheadSteps(Start(p, a), i);
        if KeyText(a, id) !in transactions {
          Reserve(a, id);
          return Grant(id);
        }
        id := Following(id);
      }
      ScanSteps(p, a, 255);
      return Exhausted;
    }

    method Reserve(a: Address, id: InvokeId)
      requires Valid()
      modifies this
      ensures Valid() && State() == Pool(old(reserved) + {Key(a, id)}, old(next)[a := Ahead(id, 1)])
    {
      hide Ahead;
      hide KeyText;
      transactions := transactions + {KeyText(a, id)};
      reserved := reserved + {Key(a, id)};
      next := next[a := Following(id)];
    }

    method ReleaseInvokeId(address: Option<Address>, id: Byte)
      requires Valid()
      modifies this
      ensures Valid()
      ensures State() == if address.None? || id == 0 then old(State())
                         else Released(old(State()), Key(address.value, id))
    {
      if address.None? || id == 0 {
        return;
      }
      var key := Key(address.value, id);
      forall other | other in reserved
        ensures KeyText(other.address, other.id) == KeyText(key.address, key.id) <==> other == key
      {
        KeysAreInjective(other.address, other.id, key.address, key.id);
      }
      transactions := transactions - {KeyText(address.value, id)};
      reserved := reserved - {key};
    }
  }
}
