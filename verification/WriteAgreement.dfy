/** Exactly which WritePropertyMultiple requests the simulator and the library agree on. The
    library's scan matches closing tags by number only; the simulator wants the context class. */
module WriteAgreement {
  import opened Octets
  import opened Tags
  import opened TagScanner
  import opened ApplicationValues
  import opened ContextFields
  import opened ValueLists
  import opened ReadRequests
  import opened WriteRequests

  // ---- The condition -----------------------------------------------------

  /** The value list that starts `b` is closed by a context-class tag, if at all. */
  predicate ListCloses(b: Octets) {
    Find(b, 2).Some? ==>
      DecodeTag(b[Find(b, 2).value.contentEnd..]).Some? && DecodeTag(b[Find(b, 2).value.contentEnd..]).value.tag.context
  }

  /** Where the values of the write that starts `b` begin. */
  function ValuesStart(b: Octets): (n: nat)
    ensures n <= |b|
  {
    match LibReference(b)
    case Ok(_, n) => n + OpeningSize(b[n..], 2)
    case _ => 0
  }

  predicate WritesClose(b: Octets)
    decreases |b|
  {
    DecodeTag(b).Some? && !DecodeTag(b).value.tag.IsClosing(1) && LibWrite(b).Ok? ==>
      ListCloses(b[ValuesStart(b)..]) && WritesClose(b[LibWrite(b).size..])
  }

  /** Where the writes of the specification that starts `b` begin. */
  function WritesStart(b: Octets): (n: nat)
    ensures n <= |b|
  {
    match ReadObjectId(b, 0)
    case Ok(_, n) => n + OpeningSize(b[n..], 1)
    case _ => 0
  }

  /** Every value list of the request is closed by a context-class tag. */
  predicate RequestCloses(b: Octets)
    decreases |b|
  {
    b != [] && DecodeWriteSpec(Library, b).Ok? ==>
      WritesClose(b[WritesStart(b)..]) && RequestCloses(b[DecodeWriteSpec(Library, b).size..])
  }

  // ---- Value lists -------------------------------------------------------

  predicate LibraryReads(b: Octets) {
    Find(b, 2).Some? && DecodeValues(b[..Find(b, 2).value.contentEnd]).Some?
  }

  /** A value at the front: both readers go on behind it. */
  lemma {:induction false} OneValueOn(b: Octets, n: nat)
    requires NextValue(b).Some? && NextValue(b).value.1 == n
    ensures Find(b, 2) == Shifted(n, Find(b[n..], 2)) && ConstructedSize(b, 2, false) == Some(0)
    ensures LibraryReads(b) <==> LibraryReads(b[n..])
    ensures ListCloses(b) <==> ListCloses(b[n..])
  {
    hide DecodeTag;
    hide NextValue;
    hide Find;
    hide DecodeValues;
    NextValueHeader(b);
    FindPrimitive(b, 2, DecodeTag(b).value);
    if Find(b[n..], 2).Some? {
      var end := Find(b[n..], 2).value.contentEnd;
      LibraryStep(b, NextValue(b).value.0, n, end);
      assert b[n..][end..] == b[n + end..];
      PrependedIsSome(NextValue(b).value.0, DecodeValues(b[n..][..end]));
    }
  }

  lemma PrependedIsSome(v: AppValue, r: Option<seq<AppValue>>)
    ensures Prepended([v], r).Some? <==> r.Some?
  {
  }

  /** Content that the library reads starts with a value, unless there is none. */
  lemma {:induction false} ContentStarts(b: Octets)
    requires LibraryReads(b) && Find(b, 2).value.contentEnd > 0
    ensures NextValue(b).Some?
  {
    hide NextValue;
    hide Find;
    var content := b[..Find(b, 2).value.contentEnd];
    assert NextValue(content).Some?;
    var n := NextValue(content).value.1;
    assert b[..n] == content[..n];
    NextValueIsPrefix(content, b);
  }

  /** An empty list is its closing tag. */
  lemma {:induction false} EmptyListCloses(b: Octets)
    requires Find(b, 2).Some? && Find(b, 2).value.contentEnd == 0
    ensures DecodeTag(b).Some? && DecodeTag(b).value.tag.closing && DecodeTag(b).value.tag.number == 2
  {
    hide DecodeTag;
  }

  /** The simulator reads a value list if and only if the library does and it is closed by a
      context-class tag. */
  lemma {:induction false} SimValuesIff(b: Octets)
    ensures SimValues(b).Ok? <==> LibraryReads(b) && ListCloses(b)
    decreases |b|
  {
    hide DecodeTag;
    hide NextValue;
    hide Find;
    hide LibraryReads;
    hide ListCloses;
    if NextValue(b).Some? {
      var n := NextValue(b).value.1;
      OneValueOn(b, n);
      SimValuesIff(b[n..]);
    } else {
      NoValueIff(b);
    }
  }

  lemma {:induction false} NoValueIff(b: Octets)
    requires NextValue(b).None?
    ensures SimValues(b).Ok? <==> LibraryReads(b) && ListCloses(b)
  {
    hide DecodeTag;
    hide NextValue;
    hide DecodeValues;
    hide Find;
    if LibraryReads(b) {
      if Find(b, 2).value.contentEnd > 0 {
        ContentStarts(b);
      } else {
        EmptyListCloses(b);
        assert b[0..] == b;
      }
    } else if SimValues(b).Ok? {
      SimValuesAreLibraryValues(b);
    }
  }

  // ---- Writes, specifications, requests ----------------------------------

  /** A write the library reads: the simulator reads it too if and only if its value list is
      closed by a context-class tag. */
  lemma {:induction false} WriteIff(b: Octets)
    requires LibWrite(b).Ok?
    ensures SimWrite(b).Ok? <==> ListCloses(b[ValuesStart(b)..])
    ensures SimWrite(b).Ok? ==> SimWrite(b).size == LibWrite(b).size
  {
    hide DecodeTag;
    hide SimValues;
    hide DecodeValues;
    hide Find;
    hide ReadUnsigned;
    hide OptionalUnsigned;
    hide TryUnsigned;
    hide ListCloses;
    hide PlainAll;
    ReferencesSame(b);
    var c := ValuesStart(b);
    SimValuesIff(b[c..]);
    if SimValues(b[c..]).Ok? {
      SimValuesAreLibraryValues(b[c..]);
      PlainIsNotEmpty(DecodeValues(b[c..][..Find(b[c..], 2).value.contentEnd]).value);
      TryIsOptional(b[c + Find(b[c..], 2).value.valueEnd..], 3);
    }
  }

  lemma PlainIsNotEmpty(vs: seq<AppValue>)
    ensures PlainAll(vs) == [] <==> vs == []
  {
  }

  lemma ReferencesSame(b: Octets)
    requires LibReference(b).Ok?
    ensures SimReference(b) == LibReference(b)
  {
    hide DecodeTag;
  }

  lemma {:induction false} WritesIff(b: Octets)
    ensures SimWrites(b).Ok? <==> LibWrites(b).Ok? && WritesClose(b)
    decreases |b|
  {
    hide DecodeTag;
    hide SimWrite;
    hide LibWrite;
    hide ListCloses;
    hide ValuesStart;
    if DecodeTag(b).Some? && !DecodeTag(b).value.tag.IsClosing(1) {
      if LibWrite(b).Ok? {
        WriteIff(b);
        WritesIff(b[LibWrite(b).size..]);
      } else if SimWrite(b).Ok? {
        LibraryWrite(b);
      }
    }
  }

  lemma {:induction false} SpecsIff(b: Octets)
    ensures DecodeWriteSpecs(Simulator, b).Ok? <==> DecodeWriteSpecs(Library, b).Ok? && RequestCloses(b)
    ensures DecodeWriteSpecs(Simulator, b).Ok? ==>
              |DecodeWriteSpecs(Simulator, b).value| == |DecodeWriteSpecs(Library, b).value|
    decreases |b|
  {
    hide ReadObjectId;
    hide OpeningSize;
    hide SimWrites;
    hide LibWrites;
    hide WritesClose;
    if b != [] {
      WritesIff(b[WritesStart(b)..]);
      SpecIff(b);
      if DecodeWriteSpec(Simulator, b).Ok? {
        SpecsIff(b[DecodeWriteSpec(Simulator, b).size..]);
      }
    }
  }

  lemma SpecIff(b: Octets)
    ensures DecodeWriteSpec(Simulator, b).Ok? <==>
              DecodeWriteSpec(Library, b).Ok? && WritesClose(b[WritesStart(b)..])
    ensures DecodeWriteSpec(Simulator, b).Ok? ==> DecodeWriteSpec(Simulator, b).size == DecodeWriteSpec(Library, b).size
  {
    hide ReadObjectId;
    hide OpeningSize;
    hide SimWrites;
    hide LibWrites;
    hide WritesClose;
    hide PlainWrites;
    var rest := b[WritesStart(b)..];
    WritesIff(rest);
    if SimWrites(rest).Ok? {
      LibraryWrites(rest);
      PlainWritesSize(LibWrites(rest).value);
    }
  }

  lemma PlainWritesSize(ws: seq<PropertyWrite>)
    ensures |PlainWrites(ws)| == |ws|
  {
  }

  /** On every octet string, the simulator accepts a WritePropertyMultiple request if and only if
      the library does and every value list in it is closed by a context-class tag. */
  lemma SimulatorAcceptsIffClosed(b: Octets)
    ensures DecodeWriteRequest(Simulator, b).Ok? <==> DecodeWriteRequest(Library, b).Ok? && RequestCloses(b)
  {
    hide DecodeWriteSpecs;
    hide RequestCloses;
    SpecsIff(b);
  }
}
