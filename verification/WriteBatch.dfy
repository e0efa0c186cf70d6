/** WritePropertyMultiple on the device: validate every write, then apply every write
    (handleWritePropertyMultiple in simulator/application.go). */
module WriteBatch {
  import opened Octets
  import opened Model

  /** One write of the request; array-indexed writes are refused. */
  datatype BatchWrite = BatchWrite(write: Write, index: Option<Uint32>)

  datatype Failure = Failure(at: nat, error: Error)

  function CheckBatchWrite(d: DeviceState, w: BatchWrite): (e: Option<Error>)
  {
    if w.index.Some? then Some(InvalidArrayIndex) else ValidateWrite(d, w.write)
  }

  /** The first write of the request that the device, as it stands, refuses. */
  function FirstRefused(d: DeviceState, ws: seq<BatchWrite>): (f: Option<Failure>)
    ensures f.Some? ==>
              && f.value.at < |ws|
              && CheckBatchWrite(d, ws[f.value.at]) == Some(f.value.error)
              && forall k :: 0 <= k < f.value.at ==> CheckBatchWrite(d, ws[k]).None?
    ensures f.None? ==> forall k :: 0 <= k < |ws| ==> CheckBatchWrite(d, ws[k]).None?
  {
    if ws == [] then None
    else if CheckBatchWrite(d, ws[0]).Some? then Some(Failure(0, CheckBatchWrite(d, ws[0]).value))
    else match FirstRefused(d, ws[1..])
      case None => None
      case Some(g) => Some(Failure(g.at + 1, g.error))
  }

  datatype BatchResult = BatchResult(device: DeviceState, failure: Option<Failure>)

  /** The writes applied in order, up to the first that fails. */
  function ApplyAll(d: DeviceState, ws: seq<BatchWrite>): (r: BatchResult)
    requires ValidDevice(d)
    ensures ValidDevice(r.device)
    ensures r.failure.Some? ==> r.failure.value.at < |ws|
    decreases |ws|
  {
    if ws == [] then BatchResult(d, None)
    else
      var r := WriteProperty(d, ws[0].write);
      if r.error.Some? then BatchResult(r.device, Some(Failure(0, r.error.value)))
      else
        var rest := ApplyAll(r.device, ws[1..]);
        BatchResult(rest.device, match rest.failure
                                 case None => None
                                 case Some(g) => Some(Failure(g.at + 1, g.error)))
  }

  /** What a batch came to, told from its first write on, when `r` tells it from write `at` on. */
  function Resumed(r: BatchResult, at: nat): (t: BatchResult)
  {
    BatchResult(r.device, match r.failure
                          case None => None
                          case Some(g) => Some(Failure(g.at + at, g.error)))
  }

  lemma ResumedAtStart(d: DeviceState, ws: seq<BatchWrite>)
    requires ValidDevice(d)
    ensures ApplyAll(d, ws) == Resumed(ApplyAll(d, ws), 0)
  {
    hide ApplyAll;
  }

  /** One write: it ends the batch, or the rest resumes after it. */
  lemma ApplyAllStep(d: DeviceState, ws: seq<BatchWrite>, at: nat)
    requires ValidDevice(d) && at < |ws|
    ensures var r := WriteProperty(d, ws[at].write);
            Resumed(ApplyAll(d, ws[at..]), at)
              == match r.error
                 case Some(e) => BatchResult(r.device, Some(Failure(at, e)))
                 case None => Resumed(ApplyAll(r.device, ws[at + 1..]), at + 1)
  {
    hide WriteProperty;
    assert ws[at..][0] == ws[at] && ws[at..][1..] == ws[at + 1..];
  }

  /** A batch in two parts: the second resumes where the first ends, unless the first failed. */
  lemma {:induction false} ApplyAllConcat(d: DeviceState, a: seq<BatchWrite>, b: seq<BatchWrite>)
    requires ValidDevice(d)
    ensures ApplyAll(d, a + b)
         == if ApplyAll(d, a).failure.Some? then ApplyAll(d, a) else Resumed(ApplyAll(ApplyAll(d, a).device, b), |a|)
    decreases |a|
  {
    hide WriteProperty;
    if a == [] {
      assert a + b == b;
    } else {
      assert (a + b)[1..] == a[1..] + b && (a + b)[0] == a[0];
      var r := WriteProperty(d, a[0].write);
      if r.error.None? {
        ApplyAllConcat(r.device, a[1..], b);
      }
    }
  }

  /** Likewise for validation. */
  lemma {:induction false} FirstRefusedConcat(d: DeviceState, a: seq<BatchWrite>, b: seq<BatchWrite>)
    ensures FirstRefused(d, a + b)
         == if FirstRefused(d, a).Some? then FirstRefused(d, a) else Later(FirstRefused(d, b), |a|)
    decreases |a|
  {
    hide FirstRefused;
    hide CheckBatchWrite;
    FirstRefusedUnfolds(d, a);
    FirstRefusedUnfolds(d, a + b);
    if a == [] {
      assert a + b == b;
    } else {
      assert (a + b)[1..] == a[1..] + b && (a + b)[0] == a[0];
      FirstRefusedConcat(d, a[1..], b);
    }
  }

  lemma FirstRefusedUnfolds(d: DeviceState, ws: seq<BatchWrite>)
    ensures FirstRefused(d, ws)
         == if ws == [] then None
            else if CheckBatchWrite(d, ws[0]).Some? then Some(Failure(0, CheckBatchWrite(d, ws[0]).value))
            else Later(FirstRefused(d, ws[1..]), 1)
  {
    hide CheckBatchWrite;
  }

  function Later(f: Option<Failure>, at: nat): (g: Option<Failure>)
  {
    match f case None => None case Some(h) => Some(Failure(h.at + at, h.error))
  }

  lemma {:induction false} ApplyAllKeepsShape(d: DeviceState, ws: seq<BatchWrite>)
    requires ValidDevice(d)
    ensures SameShape(d, ApplyAll(d, ws).device)
    decreases |ws|
  {
    hide WriteProperty;
    if ws != [] {
      var e := WriteProperty(d, ws[0].write).device;
      WriteKeepsShape(d, ws[0].write);
      if WriteProperty(d, ws[0].write).error.None? {
        ApplyAllKeepsShape(e, ws[1..]);
        ShapeIsPassedOn(d, e, ApplyAll(e, ws[1..]).device);
      }
    }
  }

  lemma ShapeIsPassedOn(c: DeviceState, d: DeviceState, e: DeviceState)
    requires SameShape(c, d) && SameShape(d, e)
    ensures SameShape(c, e)
  {
  }

  lemma NothingToApply(d: DeviceState)
    requires ValidDevice(d)
    ensures ApplyAll(d, []) == BatchResult(d, None)
  {
  }

  /** The loop's answer is the first refusal. */
  lemma FirstRefusedAt(d: DeviceState, ws: seq<BatchWrite>, at: nat)
    requires at < |ws| && CheckBatchWrite(d, ws[at]).Some?
    requires forall k :: 0 <= k < at ==> CheckBatchWrite(d, ws[k]).None?
    ensures FirstRefused(d, ws) == Some(Failure(at, CheckBatchWrite(d, ws[at]).value))
  {
    hide CheckBatchWrite;
    var f := FirstRefused(d, ws);
    assert f.Some? && f.value.at == at;
  }

  lemma NothingRefused(d: DeviceState, ws: seq<BatchWrite>)
    requires forall k :: 0 <= k < |ws| ==> CheckBatchWrite(d, ws[k]).None?
    ensures FirstRefused(d, ws) == None
  {
    hide CheckBatchWrite;
  }

  /** The whole request: refused by validation, or applied. */
  function Batch(d: DeviceState, ws: seq<BatchWrite>): (r: BatchResult)
    requires ValidDevice(d)
    ensures ValidDevice(r.device)
    ensures r.failure.Some? ==> r.failure.value.at < |ws|
  {
    match FirstRefused(d, ws)
    case Some(f) => BatchResult(d, Some(f))
    case None => ApplyAll(d, ws)
  }

  // ---- When a validated batch applies ------------------------------------

  /** The write sets Out_Of_Service, and not a stored property of that number. */
  predicate SetsOutOfService(d: DeviceState, w: Write) {
    && w.key in d.objects
    && w.property == OUT_OF_SERVICE
    && OUT_OF_SERVICE !in d.objects[w.key].properties
    && d.objects[w.key].key.kind != DEVICE_TYPE
  }

  /** Out_Of_Service of `key` once the writes of `ws` are applied to `d`. */
  function OutOfServiceAfter(d: DeviceState, ws: seq<BatchWrite>, key: ObjectKey): (b: bool)
    requires key in d.objects
  {
    if ws == [] then d.objects[key].outOfService
    else
      var last := ws[|ws| - 1].write;
      if last.key == key && SetsOutOfService(d, last) && last.values != [] then
        last.values[0].Boolean? && last.values[0].flag
      else OutOfServiceAfter(d, ws[..|ws| - 1], key)
  }

  /** A Present_Value that only Out_Of_Service lets through. */
  predicate NeedsBypass(d: DeviceState, w: Write) {
    && w.key in d.objects
    && w.property == PRESENT_VALUE
    && PRESENT_VALUE in d.objects[w.key].properties
    && d.objects[w.key].properties[PRESENT_VALUE].shape.fallback.None?
    && !d.objects[w.key].properties[PRESENT_VALUE].shape.writable
  }

  /** Write `j` needs the bypass after the batch itself has put the object back in service. */
  predicate Hazard(d: DeviceState, ws: seq<BatchWrite>, j: nat)
    requires j < |ws|
  {
    NeedsBypass(d, ws[j].write) && !OutOfServiceAfter(d, ws[..j], ws[j].write.key)
  }

  predicate HazardFree(d: DeviceState, ws: seq<BatchWrite>) {
    forall j :: 0 <= j < |ws| ==> !Hazard(d, ws, j)
  }

  /** A device reached from `d` by applying the writes of `done`. */
  predicate Reached(d: DeviceState, done: seq<BatchWrite>, e: DeviceState) {
    && ValidDevice(e)
    && SameShape(d, e)
    && forall key <- d.objects :: e.objects[key].outOfService == OutOfServiceAfter(d, done, key)
  }

  /** What a device accepts depends on its shape, and on Out_Of_Service only through the bypass. */
  lemma AcceptedElsewhere(d: DeviceState, e: DeviceState, w: Write)
    requires SameShape(d, e) && ValidateWrite(d, w).None?
    ensures w.key in d.objects
    ensures ValidateWrite(e, w).None? <==> !(NeedsBypass(d, w) && !e.objects[w.key].outOfService)
  {
    hide CheckValues;
  }

  lemma WriteMovesOutOfService(d: DeviceState, e: DeviceState, w: Write, key: ObjectKey)
    requires ValidDevice(e) && SameShape(d, e) && key in d.objects
    requires WriteProperty(e, w).error.None?
    ensures key in WriteProperty(e, w).device.objects
    ensures WriteProperty(e, w).device.objects[key].outOfService
         == if w.key == key && SetsOutOfService(d, w) && w.values != []
            then w.values[0].Boolean? && w.values[0].flag
            else e.objects[key].outOfService
  {
    hide CheckValues;
  }

  lemma ReachedNext(d: DeviceState, done: seq<BatchWrite>, e: DeviceState, w: BatchWrite)
    requires Reached(d, done, e) && WriteProperty(e, w.write).error.None?
    ensures Reached(d, done + [w], WriteProperty(e, w.write).device)
  {
    hide WriteProperty;
    hide SetsOutOfService;
    WritesKeepShape(d, e, w.write);
    var next := done + [w];
    assert next[..|next| - 1] == done;
    forall key <- d.objects
      ensures WriteProperty(e, w.write).device.objects[key].outOfService == OutOfServiceAfter(d, next, key)
    {
      WriteMovesOutOfService(d, e, w.write, key);
    }
  }

  /** From any point of the batch on: the rest applies exactly when no hazard lies ahead,
      and where it stops some object is in service that was not. */
  lemma {:induction false} ApplyFrom(d: DeviceState, ws: seq<BatchWrite>, k: nat, e: DeviceState)
    requires k <= |ws| && FirstRefused(d, ws).None? && Reached(d, ws[..k], e)
    ensures ApplyAll(e, ws[k..]).failure.None? <==> forall j :: k <= j < |ws| ==> !Hazard(d, ws, j)
    ensures ApplyAll(e, ws[k..]).failure.Some? ==> ApplyAll(e, ws[k..]).device != d
    decreases |ws| - k
  {
    hide WriteProperty;
    hide ValidateWrite;
    hide NeedsBypass;
    hide OutOfServiceAfter;
    if k < |ws| {
      var w := ws[k].write;
      assert CheckBatchWrite(d, ws[k]).None?;
      AcceptedElsewhere(d, e, w);
      DryRun(e, w);
      assert ws[k..][0] == ws[k] && ws[k..][1..] == ws[k + 1..];
      if WriteProperty(e, w).error.None? {
        ReachedNext(d, ws[..k], e, ws[k]);
        assert ws[..k] + [ws[k]] == ws[..k + 1];
        ApplyFrom(d, ws, k + 1, WriteProperty(e, w).device);
      } else {
        assert Hazard(d, ws, k);
        BypassWasOpen(d, w);
      }
    }
  }

  lemma BypassWasOpen(d: DeviceState, w: Write)
    requires ValidateWrite(d, w).None? && NeedsBypass(d, w)
    ensures d.objects[w.key].outOfService
  {
    hide CheckValues;
  }

  /** A batch that passes validation is applied whole exactly when it is hazard-free. */
  lemma ValidatedBatchApplies(d: DeviceState, ws: seq<BatchWrite>)
    requires ValidDevice(d) && FirstRefused(d, ws).None?
    ensures Batch(d, ws).failure.None? <==> HazardFree(d, ws)
    ensures Batch(d, ws).failure.Some? ==> Batch(d, ws).device != d
  {
    hide Hazard;
    assert ws[..0] == [] && ws[0..] == ws;
    ApplyFrom(d, ws, 0, d);
  }

  /** All or nothing: every failed request leaves the device unchanged exactly when
      validation catches it or the batch is hazard-free. */
  lemma AllOrNothing(d: DeviceState, ws: seq<BatchWrite>)
    requires ValidDevice(d)
    ensures (Batch(d, ws).failure.Some? ==> Batch(d, ws).device == d)
       <==> FirstRefused(d, ws).Some? || HazardFree(d, ws)
  {
    hide HazardFree;
    if FirstRefused(d, ws).None? {
      ValidatedBatchApplies(d, ws);
    }
  }

  /** What a batch comes to, in the writes' own terms. Without an index anywhere, with every write
      one the device as it stands accepts, and free of the hazard, it is applied whole; and only then.
      A batch with an index is refused there, unless an earlier write is. */
  lemma BatchAppliesIff(d: DeviceState, ws: seq<BatchWrite>)
    requires ValidDevice(d)
    ensures Batch(d, ws).failure.None?
       <==> && (forall k :: 0 <= k < |ws| ==> ws[k].index.None? && WriteProperty(d, ws[k].write).error.None?)
            && HazardFree(d, ws)
    ensures forall k :: 0 <= k < |ws| && (forall j :: 0 <= j < k ==> Passes(d, ws[j])) && ws[k].index.Some? ==>
              Batch(d, ws) == BatchResult(d, Some(Failure(k, InvalidArrayIndex)))
    ensures forall k :: 0 <= k < |ws| && (forall j :: 0 <= j < k ==> Passes(d, ws[j])) && ws[k].index.None?
                        && WriteProperty(d, ws[k].write).error.Some? ==>
              Batch(d, ws) == BatchResult(d, Some(Failure(k, WriteProperty(d, ws[k].write).error.value)))
  {
    hide HazardFree;
    hide WriteProperty;
    hide ValidateWrite;
    hide FirstRefused;
    hide ApplyAll;
    forall k | 0 <= k < |ws| ensures CheckBatchWrite(d, ws[k]).None? <==> Passes(d, ws[k]) {
      DryRun(d, ws[k].write);
    }
    if forall k :: 0 <= k < |ws| ==> Passes(d, ws[k]) {
      NothingRefused(d, ws);
      ValidatedBatchApplies(d, ws);
    }
    forall k | 0 <= k < |ws| && (forall j :: 0 <= j < k ==> Passes(d, ws[j])) && !Passes(d, ws[k])
      ensures Batch(d, ws) == BatchResult(d, Some(Failure(k, CheckBatchWrite(d, ws[k]).value)))
    {
      FirstRefusedAt(d, ws, k);
      DryRun(d, ws[k].write);
    }
    forall k | 0 <= k < |ws| ensures ws[k].index.None? ==>
        CheckBatchWrite(d, ws[k]) == WriteProperty(d, ws[k].write).error
    {
      DryRun(d, ws[k].write);
    }
  }

  /** The device as it stands would take the write. */
  predicate Passes(d: DeviceState, w: BatchWrite)
    requires ValidDevice(d)
  {
    w.index.None? && WriteProperty(d, w.write).error.None?
  }

  // ---- Where a validated batch stops -------------------------------------

  /** The first write of the batch that needs a bypass the batch has closed. */
  predicate FirstHazard(d: DeviceState, ws: seq<BatchWrite>, j: nat) {
    j < |ws| && Hazard(d, ws, j) && forall k :: 0 <= k < j ==> !Hazard(d, ws, k)
  }

  lemma {:induction false} HazardHasFirst(d: DeviceState, ws: seq<BatchWrite>, j: nat) returns (first: nat)
    requires j < |ws| && Hazard(d, ws, j)
    ensures first <= j && FirstHazard(d, ws, first)
    decreases j
  {
    hide Hazard;
    first := j;
    if k :| 0 <= k < j && Hazard(d, ws, k) {
      first := HazardHasFirst(d, ws, k);
    }
  }

  /** Up to its first hazard a validated batch applies. */
  lemma {:induction false} PrefixApplies(d: DeviceState, ws: seq<BatchWrite>, j: nat)
    requires ValidDevice(d) && FirstRefused(d, ws).None? && j <= |ws|
    requires forall k :: 0 <= k < j ==> !Hazard(d, ws, k)
    ensures ApplyAll(d, ws[..j]).failure.None? && Reached(d, ws[..j], ApplyAll(d, ws[..j]).device)
    decreases j
  {
    hide WriteProperty;
    hide ValidateWrite;
    hide NeedsBypass;
    hide OutOfServiceAfter;
    hide FirstRefused;
    hide ApplyAll;
    if j == 0 {
      assert ws[..0] == [];
      NothingToApply(d);
      ReachedAtStart(d);
    } else {
      var n := j - 1;
      PrefixApplies(d, ws, n);
      var e, w := ApplyAll(d, ws[..n]).device, ws[n];
      assert ws[..j] == ws[..n] + [w];
      ApplyAllConcat(d, ws[..n], [w]);
      OneWriteApplies(e, w);
      assert CheckBatchWrite(d, w).None? && !Hazard(d, ws, n);
      AcceptedElsewhere(d, e, w.write);
      DryRun(e, w.write);
      ReachedNext(d, ws[..n], e, w);
    }
  }

  lemma ReachedAtStart(d: DeviceState)
    requires ValidDevice(d)
    ensures Reached(d, [], d)
  {
  }

  lemma OneWriteApplies(d: DeviceState, w: BatchWrite)
    requires ValidDevice(d)
    ensures var r := WriteProperty(d, w.write);
            ApplyAll(d, [w]) == BatchResult(r.device, match r.error
                                                      case None => None
                                                      case Some(e) => Some(Failure(0, e)))
  {
    hide WriteProperty;
    assert [w][1..] == [];
  }

  lemma DeniedElsewhere(d: DeviceState, e: DeviceState, w: Write)
    requires SameShape(d, e) && ValidateWrite(d, w).None? && NeedsBypass(d, w) && !e.objects[w.key].outOfService
    ensures ValidateWrite(e, w) == Some(WriteDenied)
  {
    hide CheckValues;
  }

  /** A validated batch with a hazard stops at the first one, and what came before stays applied. */
  lemma StopsAtFirstHazard(d: DeviceState, ws: seq<BatchWrite>, j: nat)
    requires ValidDevice(d) && FirstRefused(d, ws).None? && FirstHazard(d, ws, j)
    ensures Batch(d, ws) == BatchResult(ApplyAll(d, ws[..j]).device, Some(Failure(j, WriteDenied)))
    ensures Reached(d, ws[..j], ApplyAll(d, ws[..j]).device)
  {
    hide WriteProperty;
    hide ValidateWrite;
    hide NeedsBypass;
    hide OutOfServiceAfter;
    hide FirstRefused;
    hide ApplyAll;
    PrefixApplies(d, ws, j);
    var e := ApplyAll(d, ws[..j]).device;
    assert CheckBatchWrite(d, ws[j]).None?;
    AcceptedElsewhere(d, e, ws[j].write);
    DeniedElsewhere(d, e, ws[j].write);
    DryRun(e, ws[j].write);
    assert ws == ws[..j] + ws[j..];
    ApplyAllConcat(d, ws[..j], ws[j..]);
    StopsAtOnce(e, ws[j..]);
  }

  lemma StopsAtOnce(d: DeviceState, ws: seq<BatchWrite>)
    requires ValidDevice(d) && ws != [] && WriteProperty(d, ws[0].write).error.Some?
    ensures var r := WriteProperty(d, ws[0].write);
            ApplyAll(d, ws) == BatchResult(r.device, Some(Failure(0, r.error.value)))
  {
    hide WriteProperty;
  }

  /** A request that breaks it: an input object is out of service; the batch puts it back
      in service and then writes its read-only Present_Value. */
  lemma PartialBatchExists() returns (d: DeviceState, ws: seq<BatchWrite>)
    ensures ValidDevice(d) && FirstRefused(d, ws).None?
    ensures Batch(d, ws).failure == Some(Failure(1, WriteDenied))
    ensures Batch(d, ws).device != d
  {
    var key := ObjectKey(0, 1);
    var present := ScalarProperty(Real(20.0, true), false);
    d := DeviceState(1, map[key := ObjectState(key, map[PRESENT_VALUE := present], true)]);
    var first := Write(key, OUT_OF_SERVICE, [Boolean(false)], 0);
    var second := Write(key, PRESENT_VALUE, [Real(21.0, false)], 0);
    ws := [BatchWrite(first, None), BatchWrite(second, None)];
    var e := WriteProperty(d, first).device;
    assert e == WithObject(d, key, ObjectState(key, map[PRESENT_VALUE := present], false));
    assert ws[1..] == [ws[1]];
    assert FirstRefused(d, ws[1..][1..]).None?;
    assert WriteProperty(e, second) == Outcome(e, Some(WriteDenied));
    assert ApplyAll(e, ws[1..]) == BatchResult(e, Some(Failure(0, WriteDenied)));
  }
}
