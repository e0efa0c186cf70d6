/** From the client's call to the client's result, as in EndToEnd, for WritePropertyMultiple and
    ReadPropertyMultiple. */
module EndToEndMultiple {
  import opened Octets
  import opened Datagram
  import opened Responder
  import opened DeviceValues
  import opened Simulator
  import opened SimulatorRuns
  import opened ValueLists
  import opened EndToEnd
  import opened WriteRequests
  import Codec = ApplicationValues
  import SimulatorAnswers
  import ReadRequests
  import ReadResults
  import WriteErrors
  import PropertyCodec
  import ReadAll
  import Encodable
  import Model
  import WriteBatch
  import Cov
  import Replies
  import Turns

  // ---- WritePropertyMultiple ---------------------------------------------

  /** The writes a client asks for on one object, as the device gets them. */
  function ObjectWritesOf(f: Floats, s: WriteSpec): (ws: seq<WriteBatch.BatchWrite>)
    ensures |ws| == |s.writes|
    ensures forall j :: 0 <= j < |ws| ==>
              var w := s.writes[j];
              && ws[j].write == Model.Write(ObjectKeyOf(s.object_), w.reference.id, FromAll(f, PlainAll(w.values)),
                                            w.priority)
              && ws[j].index == w.reference.index
    decreases |s.writes|
  {
    if s.writes == [] then []
    else
      var w := s.writes[0];
      var write := Model.Write(ObjectKeyOf(s.object_), w.reference.id, FromAll(f, PlainAll(w.values)), w.priority);
      [WriteBatch.BatchWrite(write, w.reference.index)] + ObjectWritesOf(f, s.(writes := s.writes[1..]))
  }

  /** And on all objects, in order. */
  function RequestWrites(f: Floats, specs: seq<WriteSpec>): (ws: seq<WriteBatch.BatchWrite>)
  {
    if specs == [] then [] else ObjectWritesOf(f, specs[0]) + RequestWrites(f, specs[1..])
  }

  lemma {:induction false} PlainWritesAre(ws: seq<PropertyWrite>)
    ensures |PlainWrites(ws)| == |ws|
    ensures forall j :: 0 <= j < |ws| ==> PlainWrites(ws)[j] == ws[j].(values := PlainAll(ws[j].values))
  {
    if ws != [] {
      PlainWritesAre(ws[1..]);
    }
  }

  lemma {:induction false} PlainSpecsAre(specs: seq<WriteSpec>)
    ensures |PlainSpecs(specs)| == |specs|
    ensures forall i :: 0 <= i < |specs| ==> PlainSpecs(specs)[i] == PlainSpec(specs[i])
  {
    hide PlainSpec;
    if specs != [] {
      PlainSpecsAre(specs[1..]);
    }
  }

  lemma OneObjectDecoded(f: Floats, s: WriteSpec)
    ensures BatchWritesOf(f, s.object_, PlainSpec(s).writes) == ObjectWritesOf(f, s)
    ensures PlainSpec(s).object_ == s.object_
  {
    hide FromAll;
    hide PlainAll;
    hide ObjectWritesOf;
    PlainWritesAre(s.writes);
  }

  /** What the simulator decodes of the request are the client's writes. */
  lemma {:induction false} DecodedAreRequestWrites(f: Floats, specs: seq<WriteSpec>)
    ensures Cov.Flattened(SpecsOf(f, PlainSpecs(specs))) == RequestWrites(f, specs)
    decreases |specs|
  {
    hide ObjectWritesOf;
    hide PlainSpec;
    hide BatchWritesOf;
    var plain := PlainSpecs(specs);
    PlainSpecsAre(specs);
    if specs != [] {
      OneObjectDecoded(f, specs[0]);
      assert SpecsOf(f, plain)[1..] == SpecsOf(f, PlainSpecs(specs[1..]));
      DecodedAreRequestWrites(f, specs[1..]);
    } else {
      assert SpecsOf(f, plain) == [];
    }
  }

  /** What the client is told: an acknowledgement, or the error that names the first failed write. */
  function BatchResultApdu(ws: seq<WriteBatch.BatchWrite>, failure: Option<WriteBatch.Failure>, id: Byte): (a: Apdu)
    requires failure.Some? ==> failure.value.at < |ws|
  {
    match failure
    case None => SimpleAck(id, 16)
    case Some(g) =>
      var c := Replies.ClassCodeOf(g.error);
      ErrorPdu(id, 16, c.class_, c.code, WriteErrors.EncodeWriteError(FirstFailed(ws[g.at], g.error)))
  }

  function FirstFailed(w: WriteBatch.BatchWrite, e: Model.Error): (f: WriteErrors.WriteError)
  {
    var c := Replies.ClassCodeOf(e);
    WriteErrors.WriteError(c.class_, c.code, IdOf(w.write.key), ReadRequests.Reference(w.write.property, w.index))
  }

  lemma BatchIsRouted(w: World, p: Packet, source: Endpoint, now: Cov.Instant, c: Context)
    requires Model.ValidDevice(w.app.device) && p.apdu.Confirmed? && p.apdu.service == 16
    ensures Registered(p.apdu) && Accepted(p.apdu, c.discovery)
    ensures Handle(w, p, source, now, c) == HandleWriteMultiple(w, p.apdu.payload, now, c.floats)
  {
    hide HandleWriteMultiple;
  }

  /** The first response to a batch, and the device it leaves. */
  lemma BatchRespondsFirst(w: World, specs: seq<Cov.ObjectWrites>, now: Cov.Instant, f: Floats)
    requires Model.ValidDevice(w.app.device)
    ensures var t, ws := Turns.BatchTurn(w, specs, now), Cov.Flattened(specs);
            var b := WriteBatch.Batch(w.app.device, ws);
            var rs := EncodedAll(f, w.app.device.id, t.replies);
            && t.world.app.device == b.device
            && (rs != [] && b.failure.None? ==> rs[0] == Ack)
            && (rs != [] && b.failure.Some? ==>
                  var g := b.failure.value;
                  var e := FirstFailed(ws[g.at], g.error);
                  rs[0] == Failure(e.class_, e.code, WriteErrors.EncodeWriteError(e)))
  {
    hide WriteBatch.Batch;
    hide Turns.NoticesOfAll;
    hide Cov.NotifiedAll;
    hide Cov.Flattened;
    hide Cov.Objects;
    hide NoticePayload;
    hide WriteErrors.EncodeWriteError;
  }

  lemma BatchResultIsAccepted(ws: seq<WriteBatch.BatchWrite>, failure: Option<WriteBatch.Failure>, id: Byte,
                              discovery: Discovery)
    requires failure.Some? ==> failure.value.at < |ws| && Codec.ObjectIdInRange(IdOf(ws[failure.value.at].write.key))
    ensures var a := BatchResultApdu(ws, failure, id);
            && ErrorFits(a) && Accepted(a, discovery)
            && (failure.Some? ==>
                  WriteErrors.DecodeWriteError(a.payload)
                    == Some(FirstFailed(ws[failure.value.at], failure.value.error)))
  {
    hide WriteErrors.DecodeWriteError;
    hide WriteErrors.EncodeWriteError;
    hide Accepted;
    PlainRepliesAreAccepted(BatchResultApdu(ws, failure, id), discovery);
    if failure.Some? {
      WriteErrors.WriteErrorRoundTrip(FirstFailed(ws[failure.value.at], failure.value.error));
    }
  }

  lemma {:induction false} RequestKeysInRange(f: Floats, specs: seq<WriteSpec>)
    requires forall s <- specs :: ValidWriteSpec(s)
    ensures forall w <- RequestWrites(f, specs) :: Codec.ObjectIdInRange(IdOf(w.write.key))
    decreases |specs|
  {
    if specs != [] {
      RequestKeysInRange(f, specs[1..]);
      assert ValidWriteSpec(specs[0]);
      assert forall w <- ObjectWritesOf(f, specs[0]) :: w.write.key == ObjectKeyOf(specs[0].object_);
    }
  }

  /** The client's WritePropertyMultiple: the device becomes what the client's own writes, all
      objects in order, make of it as a batch; and the client is told of success, or of the first
      failed write with its object, property, index and error. */
  lemma WriteMultipleEndToEnd(w: World, specs: seq<WriteSpec>, caller: Caller, c: Context)
    requires Good(w) && Model.ValidDevice(w.app.device)
    requires specs != [] && forall s <- specs :: ValidWriteSpec(s)
    requires Goes(Call(caller, 16, EncodeWriteRequest(specs)))
    ensures var p, a := Call(caller, 16, EncodeWriteRequest(specs)), Sending(caller, 16, EncodeWriteRequest(specs));
            var ws := RequestWrites(c.floats, specs);
            var b := WriteBatch.Batch(w.app.device, ws);
            && Next(w, a, c).app.device == b.device
            && Answered(caller, p, BatchResultApdu(ws, b.failure, caller.id), Sends(w, a, c), c.discovery)
            && (b.failure.Some? ==>
                  WriteErrors.DecodeWriteError(BatchResultApdu(ws, b.failure, caller.id).payload)
                    == Some(FirstFailed(ws[b.failure.value.at], b.failure.value.error)))
  {
    hide Good;
    hide EncodeWriteRequest;
    hide DecodePacket;
    hide EncodePacket;
    hide Sends;
    hide Next;
    hide HandleWriteMultiple;
    hide EncodedAll;
    hide Turns.BatchTurn;
    hide WriteBatch.Batch;
    hide WriteAll;
    hide Goes;
    hide SimulatorAnswers.Answered;
    hide Answered;
    hide Handle;
    hide Accepted;
    hide ErrorFits;
    hide ValidWriteSpec;
    hide RequestWrites;
    hide Cov.Flattened;
    hide WriteErrors.DecodeWriteError;
    hide WriteErrors.EncodeWriteError;
    var payload := EncodeWriteRequest(specs);
    var p, ws := Call(caller, 16, payload), RequestWrites(c.floats, specs);
    CallFacts(p);
    BatchIsRouted(w, p, caller.source, caller.now, c);
    CallArrives(w, p, caller.source, caller.now, c);
    BatchIsHandled(w, specs, caller.now, c.floats);
    SimulatorAnswers.WriteMultipleIsAnswered(w, payload, caller.now, c.floats);
    var rs := HandleWriteMultiple(w, payload, caller.now, c.floats).responses;
    AnsweredIsWell(rs);
    BatchRespondsFirst(w, SpecsOf(c.floats, PlainSpecs(specs)), caller.now, c.floats);
    RequestKeysInRange(c.floats, specs);
    var b := WriteBatch.Batch(w.app.device, ws);
    BatchResultIsAccepted(ws, b.failure, caller.id, c.discovery);
    var a := BatchResultApdu(ws, b.failure, caller.id);
    ErrorsAreNotCut(p.apdu, rs[0], a);
    FirstReplyArrives(p, caller, rs, a, c.discovery);
  }

  lemma BatchIsHandled(w: World, specs: seq<WriteSpec>, now: Cov.Instant, f: Floats)
    requires Model.ValidDevice(w.app.device)
    requires specs != [] && forall s <- specs :: ValidWriteSpec(s)
    ensures var o := HandleWriteMultiple(w, EncodeWriteRequest(specs), now, f);
            var t := Turns.BatchTurn(w, SpecsOf(f, PlainSpecs(specs)), now);
            o.world == t.world && o.responses == EncodedAll(f, w.app.device.id, t.replies)
    ensures Cov.Flattened(SpecsOf(f, PlainSpecs(specs))) == RequestWrites(f, specs)
  {
    hide DecodeWriteRequest;
    hide EncodeWriteRequest;
    hide Turns.BatchTurn;
    hide EncodedAll;
    hide ValidWriteSpec;
    hide SpecsOf;
    WriteRequestRoundTrip(specs);
    DecodedAreRequestWrites(f, specs);
  }

  lemma ErrorsAreNotCut(incoming: Apdu, r: Response, a: Apdu)
    requires incoming.Confirmed? && (r.Ack? || r.Failure?)
    requires a == if r.Ack? then SimpleAck(incoming.id, incoming.service)
                  else ErrorPdu(incoming.id, incoming.service, r.class_, r.code, r.payload)
    ensures ReplyApdu(incoming, r).Some? && Fitted(incoming, ReplyApdu(incoming, r).value) == a
  {
  }

  // ---- ReadPropertyMultiple ----------------------------------------------

  /** The answer to one reference is what a ReadProperty of the same object, property and index
      returns: its values, or the class and code of its error. */
  predicate SameAsRead(d: Model.DeviceState, f: Floats, t: PropertyCodec.Target, answer: ReadResults.Answer,
                       caller: Caller)
  {
    match answer
    case Answered(vs) => Reported(d, f, t) == Some(vs)
    case Failed(class_, code) =>
      Reported(d, f, t).None? && ReadResult(d, f, t, caller) == ErrorPdu(caller.id, 12, class_, code, [])
  }

  /** One access result per requested object, in order, and in it one result per reference that the
      object's references stand for, in order. */
  ghost predicate Tells(d: Model.DeviceState, f: Floats, specs: seq<ReadRequests.ReadSpec>,
                        as_: seq<ReadResults.AccessResult>, caller: Caller)
  {
    && |as_| == |specs|
    && forall i :: 0 <= i < |specs| ==> TellsObject(d, f, specs[i], as_[i], caller)
  }

  ghost predicate TellsObject(d: Model.DeviceState, f: Floats, s: ReadRequests.ReadSpec, a: ReadResults.AccessResult,
                              caller: Caller)
  {
    var rs := ReadAll.Expanded(d, ObjectKeyOf(s.object_), s.references);
    && a.object_ == s.object_ && |a.results| == |rs|
    && forall j :: 0 <= j < |rs| ==>
         && a.results[j].reference == rs[j]
         && SameAsRead(d, f, PropertyCodec.Target(s.object_, rs[j]), a.results[j].answer, caller)
  }

  lemma ResultIsRead(d: Model.DeviceState, o: Codec.ObjectId, r: ReadRequests.Reference, f: Floats, caller: Caller)
    ensures ResultOf(d, o, r, f).Some? ==>
              && ResultOf(d, o, r, f).value.reference == r
              && SameAsRead(d, f, PropertyCodec.Target(o, r), ResultOf(d, o, r, f).value.answer, caller)
  {
    hide Model.ReadProperty;
  }

  lemma {:induction false} ResultsAreReads(d: Model.DeviceState, o: Codec.ObjectId, rs: seq<ReadRequests.Reference>,
                                           f: Floats, caller: Caller)
    requires ResultsOf(d, o, rs, f).Some?
    ensures var results := ResultsOf(d, o, rs, f).value;
            && |results| == |rs|
            && forall j :: 0 <= j < |rs| ==>
                 && results[j].reference == rs[j]
                 && SameAsRead(d, f, PropertyCodec.Target(o, rs[j]), results[j].answer, caller)
  {
    hide ResultOf;
    hide SameAsRead;
    if rs != [] {
      ResultIsRead(d, o, rs[0], f, caller);
      ResultsAreReads(d, o, rs[1..], f, caller);
    }
  }

  lemma {:induction false} AccessesTell(d: Model.DeviceState, specs: seq<ReadRequests.ReadSpec>, f: Floats,
                                        caller: Caller)
    requires AccessesOf(d, specs, f).Some?
    ensures Tells(d, f, specs, AccessesOf(d, specs, f).value, caller)
    decreases |specs|
  {
    hide ResultsOf;
    hide SameAsRead;
    if specs != [] {
      var o := specs[0].object_;
      ResultsAreReads(d, o, ReadAll.Expanded(d, ObjectKeyOf(o), specs[0].references), f, caller);
      AccessesTell(d, specs[1..], f, caller);
      var as_ := AccessesOf(d, specs, f).value;
      assert as_[1..] == AccessesOf(d, specs[1..], f).value;
      forall i | 0 <= i < |specs| ensures TellsObject(d, f, specs[i], as_[i], caller) {
        if i > 0 {
          assert specs[i] == specs[1..][i - 1] && as_[i] == as_[1..][i - 1];
        }
      }
    }
  }

  lemma ReadMultipleIsHandled(w: World, specs: seq<ReadRequests.ReadSpec>, p: Packet, source: Endpoint,
                              now: Cov.Instant, c: Context)
    requires Model.ValidDevice(w.app.device) && Encodable.DeviceEncodes(w.app.device)
    requires specs != [] && forall s <- specs :: ReadRequests.ValidSpec(s)
    requires p.apdu.Confirmed? && p.apdu.service == 14 && p.apdu.payload == ReadRequests.EncodeRequest(specs)
    ensures Registered(p.apdu) && Accepted(p.apdu, c.discovery) && AccessesOf(w.app.device, specs, c.floats).Some?
    ensures Handle(w, p, source, now, c)
         == Outcome(w, [Result(ReadResults.EncodeAck(AccessesOf(w.app.device, specs, c.floats).value))])
  {
    hide ReadRequests.DecodeRequest;
    hide ReadRequests.EncodeRequest;
    hide ReadRequests.ValidSpec;
    hide ReadResults.EncodeAck;
    hide AccessesOf;
    hide Encodable.DeviceEncodes;
    ReadRequests.RequestRoundTrip(specs);
    SimulatorAnswers.AccessesEncode(w.app.device, specs, c.floats);
  }

  /** The acknowledgement, or an Abort when it exceeds what the client takes. */
  function AckResult(as_: seq<ReadResults.AccessResult>, caller: Caller): (a: Apdu)
  {
    var payload := ReadResults.EncodeAck(as_);
    if 3 + |payload| <= caller.maxApdu then ComplexAck(caller.id, 14, payload)
    else Abort(true, caller.id, SEGMENTATION_NOT_SUPPORTED)
  }

  lemma AckIsFitted(caller: Caller, request: Octets, as_: seq<ReadResults.AccessResult>)
    ensures var p, r := Call(caller, 14, request), Result(ReadResults.EncodeAck(as_));
            && WellAnswered([r]) && ReplyApdu(p.apdu, r).Some?
            && Fitted(p.apdu, ReplyApdu(p.apdu, r).value) == AckResult(as_, caller)
            && ErrorFits(AckResult(as_, caller))
  {
    hide ReadResults.EncodeAck;
  }

  lemma AckIsAccepted(as_: seq<ReadResults.AccessResult>, caller: Caller, discovery: Discovery)
    requires as_ != []
    ensures var a := AckResult(as_, caller);
            && (!a.ComplexAck? ==> Accepted(a, discovery))
            && (a.ComplexAck? && (forall x <- as_ :: ReadResults.ValidAccess(x)) ==>
                  Accepted(a, discovery) && ReadResults.DecodeAck(a.payload) == Some(as_))
  {
    hide ReadResults.EncodeAck;
    hide ReadResults.DecodeAck;
    hide ReadResults.ValidAccess;
    hide Accepted;
    AckIsAcceptedIff(caller.id, ReadResults.EncodeAck(as_), discovery);
    PlainRepliesAreAccepted(Abort(true, caller.id, SEGMENTATION_NOT_SUPPORTED), discovery);
    if forall x <- as_ :: ReadResults.ValidAccess(x) {
      ReadResults.AckRoundTrip(as_);
    }
  }

  /** The client's ReadPropertyMultiple: nothing changes, and what comes back is, object by object and
      reference by reference, what single reads would return; or an Abort when that exceeds what the
      client takes. A client decodes well-formed results as they are. */
  lemma ReadMultipleEndToEnd(w: World, specs: seq<ReadRequests.ReadSpec>, caller: Caller, c: Context)
      returns (as_: seq<ReadResults.AccessResult>)
    requires Good(w) && Model.ValidDevice(w.app.device)
    requires specs != [] && forall s <- specs :: ReadRequests.ValidSpec(s)
    requires Goes(Call(caller, 14, ReadRequests.EncodeRequest(specs)))
    ensures Tells(w.app.device, c.floats, specs, as_, caller)
    ensures var request := ReadRequests.EncodeRequest(specs);
            var a, sent := AckResult(as_, caller), Sends(w, Sending(caller, 14, request), c);
            && Next(w, Sending(caller, 14, request), c) == w
            && sent != [] && sent[0] == Sent(caller.source, ReplyPacket(Call(caller, 14, request), a))
            && (!a.ComplexAck? ==> Answered(caller, Call(caller, 14, request), a, sent, c.discovery))
            && (a.ComplexAck? && (forall x <- as_ :: Sayable(x)) ==>
                  && Answered(caller, Call(caller, 14, request), a, sent, c.discovery)
                  && ReadResults.DecodeAck(a.payload) == Some(as_))
  {
    hide Good;
    hide DecodePacket;
    hide EncodePacket;
    hide Sends;
    hide Next;
    hide WriteAll;
    hide Goes;
    hide Handle;
    hide Accepted;
    hide Answered;
    hide ErrorFits;
    hide Fitted;
    hide AccessesOf;
    hide Tells;
    hide AckResult;
    hide Sayable;
    hide ReadRequests.EncodeRequest;
    hide ReadRequests.ValidSpec;
    hide ReadResults.EncodeAck;
    hide ReadResults.DecodeAck;
    hide ReadResults.ValidAccess;
    var request := ReadRequests.EncodeRequest(specs);
    var p := Call(caller, 14, request);
    CallFacts(p);
    SimulatorAnswers.GoodEncodes(w);
    ReadMultipleIsHandled(w, specs, p, caller.source, caller.now, c);
    CallArrives(w, p, caller.source, caller.now, c);
    as_ := AccessesOf(w.app.device, specs, c.floats).value;
    AccessesTell(w.app.device, specs, c.floats, caller);
    TellsAll(w.app.device, c.floats, specs, as_, caller);
    forall x <- as_ | Sayable(x) ensures ReadResults.ValidAccess(x) {
      SayableIsValid(w.app.device, c.floats, specs, as_, caller, x);
    }
    AckIsFitted(caller, request, as_);
    AckIsAccepted(as_, caller, c.discovery);
    FirstReplyArrives(p, caller, [Result(ReadResults.EncodeAck(as_))], AckResult(as_, caller), c.discovery);
  }

  /** Something was read, and every value that was can be decoded. */
  predicate Sayable(a: ReadResults.AccessResult) {
    && a.results != []
    && forall r <- a.results :: r.answer.Answered? ==> Codec.AllWellFormed(r.answer.values)
  }

  lemma SayableIsValid(d: Model.DeviceState, f: Floats, specs: seq<ReadRequests.ReadSpec>,
                       as_: seq<ReadResults.AccessResult>, caller: Caller, a: ReadResults.AccessResult)
    requires Tells(d, f, specs, as_, caller) && (forall s <- specs :: ReadRequests.ValidSpec(s))
    requires a in as_ && Sayable(a)
    ensures ReadResults.ValidAccess(a)
  {
    hide Codec.AllWellFormed;
    hide SameAsRead;
    var i :| 0 <= i < |as_| && as_[i] == a;
    assert ReadRequests.ValidSpec(specs[i]);
    var rs := ReadAll.Expanded(d, ObjectKeyOf(specs[i].object_), specs[i].references);
    forall r <- a.results ensures ReadResults.ValidResult(r) {
      var j :| 0 <= j < |rs| && a.results[j] == r;
      FailureHasCode(d, f, PropertyCodec.Target(specs[i].object_, rs[j]), r.answer, caller);
    }
  }

  lemma FailureHasCode(d: Model.DeviceState, f: Floats, t: PropertyCodec.Target, answer: ReadResults.Answer,
                       caller: Caller)
    requires SameAsRead(d, f, t, answer, caller)
    ensures answer.Failed? ==> answer.code != 0
  {
    hide Model.ReadProperty;
  }

  lemma TellsAll(d: Model.DeviceState, f: Floats, specs: seq<ReadRequests.ReadSpec>,
                 as_: seq<ReadResults.AccessResult>, caller: Caller)
    requires Tells(d, f, specs, as_, caller) && specs != []
    ensures as_ != []
  {
  }
}
