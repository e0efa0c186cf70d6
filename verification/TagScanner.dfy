/** The scanner that finds the end of a constructed value (propertyValueBounds in
    bacnet/types/property.go and its copy in bacnet/pdu/read_property_multiple.go):
    a loop over a stack of tag numbers, against a grammar of nested tags. */
module TagScanner {
  import opened Octets
  import opened Tags

  /** Where the content ends and where the closing tag ends. */
  datatype Bounds = Bounds(contentEnd: nat, valueEnd: nat)

  function Shifted(n: nat, r: Option<Bounds>): (s: Option<Bounds>)
  {
    match r
    case None => None
    case Some(v) => Some(Bounds(n + v.contentEnd, n + v.valueEnd))
  }

  /** The octets a primitive tag carries after its header; the context bit matters only here. */
  function SkipSize(t: Tag): (n: nat)
  {
    if !t.context && t.number <= 1 then 0 else t.len
  }

  // ---- The grammar -------------------------------------------------------

  /** A run of tags is a sequence of items; a group carries its own opening and closing tag. */
  datatype Item = Leaf(octets: Octets) | Group(open: Octets, inner: seq<Item>, close: Octets)

  function Flatten(items: seq<Item>): (b: Octets)
    decreases items, 1
  {
    if items == [] then [] else OctetsOf(items[0]) + Flatten(items[1..])
  }

  function OctetsOf(item: Item): (b: Octets)
    decreases item, 0
  {
    match item
    case Leaf(octets) => octets
    case Group(open, inner, close) => open + (Flatten(inner) + close)
  }

  predicate IsClosingHeader(b: Octets, number: Byte) {
    DecodeTag(b).Some? && DecodeTag(b).value.size == |b|
    && DecodeTag(b).value.tag.closing && DecodeTag(b).value.tag.number == number
  }

  predicate IsOpeningHeader(b: Octets) {
    DecodeTag(b).Some? && DecodeTag(b).value.size == |b| && DecodeTag(b).value.tag.opening
  }

  predicate IsLeaf(b: Octets) {
    DecodeTag(b).Some? && DecodeTag(b).value.tag.Primitive()
    && |b| == DecodeTag(b).value.size + SkipSize(DecodeTag(b).value.tag)
  }

  /** Every group is closed by its own tag number, whatever the context bits. */
  predicate Balanced(items: seq<Item>)
    decreases items, 1
  {
    items == [] || (BalancedItem(items[0]) && Balanced(items[1..]))
  }

  predicate BalancedItem(item: Item)
    decreases item, 0
  {
    match item
    case Leaf(octets) => IsLeaf(octets)
    case Group(open, inner, close) =>
      IsOpeningHeader(open) && Balanced(inner) && IsClosingHeader(close, DecodeTag(open).value.tag.number)
  }

  lemma {:induction false} BalancedCons(item: Item, items: seq<Item>)
    requires BalancedItem(item) && Balanced(items)
    ensures Balanced([item] + items)
    ensures Flatten([item] + items) == OctetsOf(item) + Flatten(items)
  {
    hide BalancedItem;
    hide OctetsOf;
    assert ([item] + items)[1..] == items;
  }

  // ---- Recursive descent, without a stack --------------------------------

  function Find(b: Octets, outer: Byte): (r: Option<Bounds>)
    ensures r.Some? ==> r.value.contentEnd < r.value.valueEnd <= |b|
    decreases |b|
  {
    match DecodeTag(b)
    case None => None
    case Some(h) =>
      if h.tag.opening then
        match Find(b[h.size..], h.tag.number)
        case None => None
        case Some(v) => Shifted(h.size + v.valueEnd, Find(b[h.size + v.valueEnd..], outer))
      else if h.tag.closing then
        if h.tag.number == outer then Some(Bounds(0, h.size)) else None
      else if |b| - h.size < SkipSize(h.tag) then None
      else Shifted(h.size + SkipSize(h.tag), Find(b[h.size + SkipSize(h.tag)..], outer))
  }

  /** `Find` one tag further, at an opening, a closing and a primitive tag. */
  lemma {:induction false} FindOpening(b: Octets, outer: Byte, h: Header)
    requires DecodeTag(b) == Some(h) && h.tag.opening
    ensures Find(b, outer) == match Find(b[h.size..], h.tag.number)
                              case None => None
                              case Some(v) => Shifted(h.size + v.valueEnd, Find(b[h.size + v.valueEnd..], outer))
  {
    hide DecodeTag;
  }

  lemma {:induction false} FindClosing(b: Octets, outer: Byte, h: Header)
    requires DecodeTag(b) == Some(h) && h.tag.closing
    ensures Find(b, outer) == if h.tag.number == outer then Some(Bounds(0, h.size)) else None
  {
    hide DecodeTag;
  }

  lemma {:induction false} FindPrimitive(b: Octets, outer: Byte, h: Header)
    requires DecodeTag(b) == Some(h) && h.tag.Primitive()
    ensures Find(b, outer) == if |b| - h.size < SkipSize(h.tag) then None
                              else Shifted(h.size + SkipSize(h.tag), Find(b[h.size + SkipSize(h.tag)..], outer))
  {
    hide DecodeTag;
  }

  lemma {:induction false} FindNothing(b: Octets, outer: Byte)
    requires DecodeTag(b).None?
    ensures Find(b, outer) == None
  {
    hide DecodeTag;
  }

  /** What is found is a balanced run and its closing tag. */
  lemma {:induction false} FoundIsBalanced(b: Octets, outer: Byte) returns (items: seq<Item>)
    requires Find(b, outer).Some?
    ensures Balanced(items)
    ensures Flatten(items) == b[..Find(b, outer).value.contentEnd]
    ensures IsClosingHeader(b[Find(b, outer).value.contentEnd..Find(b, outer).value.valueEnd], outer)
    decreases |b|
  {
    hide DecodeTag;
    hide Find;
    hide Flatten;
    hide Balanced;
    if DecodeTag(b).None? {
      FindNothing(b, outer);
    }
    var h := DecodeTag(b).value;
    if h.tag.closing {
      FindClosing(b, outer, h);
      items := Empty(b, h, outer);
      return;
    }
    var first: Item;
    var size: nat;
    if h.tag.opening {
      FindOpening(b, outer, h);
      size := h.size + Find(b[h.size..], h.tag.number).value.valueEnd;
      first := FoundGroup(b, h);
    } else {
      FindPrimitive(b, outer, h);
      size := h.size + SkipSize(h.tag);
      HeaderIsPrefix(b, b[..size]);
      first := Leaf(b[..size]);
    }
    var rest := FoundIsBalanced(b[size..], outer);
    items := [first] + rest;
    BalancedCons(first, rest);
    Joined(b, size, Find(b[size..], outer).value);
  }

  lemma {:induction false} Empty(b: Octets, h: Header, outer: Byte) returns (items: seq<Item>)
    requires DecodeTag(b) == Some(h) && h.tag.closing && h.tag.number == outer
    ensures Balanced(items) && Flatten(items) == b[..0] && IsClosingHeader(b[0..h.size], outer)
  {
    hide DecodeTag;
    HeaderIsPrefix(b, b[0..h.size]);
    items := [];
  }

  lemma {:induction false} FoundGroup(b: Octets, h: Header) returns (group: Item)
    requires DecodeTag(b) == Some(h) && h.tag.opening
    requires Find(b[h.size..], h.tag.number).Some?
    ensures BalancedItem(group)
    ensures OctetsOf(group) == b[..h.size + Find(b[h.size..], h.tag.number).value.valueEnd]
    decreases |b|, 0
  {
    hide DecodeTag;
    hide Find;
    hide Flatten;
    hide Balanced;
    var rest := b[h.size..];
    var inner := FoundIsBalanced(rest, h.tag.number);
    var v := Find(rest, h.tag.number).value;
    HeaderIsPrefix(b, b[..h.size]);
    var close := rest[v.contentEnd..v.valueEnd];
    group := Group(b[..h.size], inner, close);
    assert rest[..v.valueEnd] == Flatten(inner) + close;
    assert b[..h.size + v.valueEnd] == b[..h.size] + rest[..v.valueEnd];
  }

  /** Cutting `b` at `size` and then `b[size..]` at `w` is cutting `b` at both. */
  lemma {:induction false} Joined(b: Octets, size: nat, w: Bounds)
    requires size <= |b| && w.contentEnd <= w.valueEnd <= |b| - size
    ensures b[..size + w.contentEnd] == b[..size] + b[size..][..w.contentEnd]
    ensures b[size + w.contentEnd..size + w.valueEnd] == b[size..][w.contentEnd..w.valueEnd]
    ensures b[size + w.valueEnd..] == b[size..][w.valueEnd..]
  {
  }

  /** A balanced run with its closing tag is found, whatever follows. */
  lemma {:induction false} BalancedIsFound(items: seq<Item>, close: Octets, rest: Octets, outer: Byte)
    requires Balanced(items) && IsClosingHeader(close, outer)
    ensures Find(Flatten(items) + (close + rest), outer)
         == Some(Bounds(|Flatten(items)|, |Flatten(items)| + |close|))
    decreases items, 1
  {
    hide DecodeTag;
    hide Find;
    var b := Flatten(items) + (close + rest);
    if items == [] {
      assert b == close + rest;
      HeaderIsPrefix(close, b);
      FindClosing(b, outer, DecodeTag(close).value);
    } else {
      var tail := Flatten(items[1..]) + (close + rest);
      BalancedIsFound(items[1..], close, rest, outer);
      assert b == OctetsOf(items[0]) + tail;
      if items[0].Leaf? {
        var octets := items[0].octets;
        HeaderIsPrefix(octets, b);
        FindPrimitive(b, outer, DecodeTag(octets).value);
        assert b[|octets|..] == tail;
      } else {
        GroupIsFound(items[0], tail, outer);
      }
    }
  }

  lemma {:induction false} GroupIsFound(g: Item, tail: Octets, outer: Byte)
    requires g.Group? && BalancedItem(g)
    ensures Find(OctetsOf(g) + tail, outer) == Shifted(|OctetsOf(g)|, Find(tail, outer))
    decreases g, 0
  {
    hide DecodeTag;
    hide Find;
    hide Flatten;
    hide Balanced;
    var b := OctetsOf(g) + tail;
    var h := DecodeTag(g.open).value;
    var content := Flatten(g.inner) + (g.close + tail);
    assert b == g.open + content;
    HeaderIsPrefix(g.open, b);
    FindOpening(b, outer, h);
    BalancedIsFound(g.inner, g.close, tail, h.tag.number);
    assert b[|g.open|..] == content;
    assert b[|OctetsOf(g)|..] == tail;
  }

  /** The scanner's answer, exactly: it stops after the first balanced run that the
      outer closing tag follows, and there is one such run at most. */
  lemma {:induction false} FindIffBalanced(b: Octets, outer: Byte, v: Bounds)
    ensures Find(b, outer) == Some(v) <==>
            && v.contentEnd <= v.valueEnd <= |b|
            && IsClosingHeader(b[v.contentEnd..v.valueEnd], outer)
            && exists items :: Balanced(items) && Flatten(items) == b[..v.contentEnd]
  {
    hide DecodeTag;
    hide Find;
    hide Balanced;
    hide Flatten;
    hide IsClosingHeader;
    if Find(b, outer) == Some(v) {
      var _ := FoundIsBalanced(b, outer);
    }
    if v.contentEnd <= v.valueEnd <= |b| && IsClosingHeader(b[v.contentEnd..v.valueEnd], outer)
       && exists items :: Balanced(items) && Flatten(items) == b[..v.contentEnd] {
      var items :| Balanced(items) && Flatten(items) == b[..v.contentEnd];
      var close := b[v.contentEnd..v.valueEnd];
      BalancedIsFound(items, close, b[v.valueEnd..], outer);
      assert b == b[..v.contentEnd] + (close + b[v.valueEnd..]);
    }
  }

  // ---- The stack loop ----------------------------------------------------

  /** What remains to be found when the tags on `stack` are still open, innermost last. */
  function Unwind(b: Octets, stack: seq<Byte>): (r: Option<Bounds>)
    requires stack != []
    decreases |stack|
  {
    match Find(b, stack[|stack| - 1])
    case None => None
    case Some(v) =>
      if |stack| == 1 then Some(v) else Shifted(v.valueEnd, Unwind(b[v.valueEnd..], stack[..|stack| - 1]))
  }

  lemma {:induction false} UnwindOpening(b: Octets, stack: seq<Byte>, h: Header)
    requires stack != [] && DecodeTag(b) == Some(h) && h.tag.opening
    ensures Unwind(b, stack) == Shifted(h.size, Unwind(b[h.size..], stack + [h.tag.number]))
  {
    hide DecodeTag;
    hide Find;
    var top := stack[|stack| - 1];
    FindOpening(b, top, h);
    var inner := Find(b[h.size..], h.tag.number);
    var pushed := stack + [h.tag.number];
    assert pushed[..|pushed| - 1] == stack;
    if inner.Some? {
      var size := h.size + inner.value.valueEnd;
      assert b[h.size..][inner.value.valueEnd..] == b[size..];
      UnwindShifted(b, stack, size);
    }
  }

  lemma {:induction false} UnwindShifted(b: Octets, stack: seq<Byte>, size: nat)
    requires stack != [] && size <= |b|
    requires Find(b, stack[|stack| - 1]) == Shifted(size, Find(b[size..], stack[|stack| - 1]))
    ensures Unwind(b, stack) == Shifted(size, Unwind(b[size..], stack))
  {
    hide Find;
    var found := Find(b[size..], stack[|stack| - 1]);
    if found.Some? {
      Joined(b, size, found.value);
    }
  }

  lemma {:induction false} UnwindPrimitive(b: Octets, stack: seq<Byte>, h: Header)
    requires stack != [] && DecodeTag(b) == Some(h) && h.tag.Primitive()
    requires h.size + SkipSize(h.tag) <= |b|
    ensures Unwind(b, stack) == Shifted(h.size + SkipSize(h.tag), Unwind(b[h.size + SkipSize(h.tag)..], stack))
  {
    hide DecodeTag;
    hide Find;
    FindPrimitive(b, stack[|stack| - 1], h);
    UnwindShifted(b, stack, h.size + SkipSize(h.tag));
  }

  /** propertyValueBounds: the loop finds what the grammar says, on every input. */
  method PropertyValueBounds(b: Octets, start: nat, outer: Byte) returns (r: Option<Bounds>)
    requires start <= |b|
    ensures r == Shifted(start, Find(b[start..], outer))
  {
    hide DecodeTag;
    hide Find;
    hide Unwind;
    var stack, offset := [outer], start;
    UnwindSingle(b[start..], outer);
    while offset < |b|
      invariant start <= offset <= |b|
      invariant stack != []
      invariant Shifted(start, Find(b[start..], outer)) == Shifted(offset, Unwind(b[offset..], stack))
    {
      var rest := b[offset..];
      var header := DecodeTag(rest);
      if header.None? {
        NothingFound(rest, stack);
        return None;
      }
      var h := header.value;
      if h.tag.opening {
        UnwindOpening(rest, stack, h);
        assert rest[h.size..] == b[offset + h.size..];
        stack, offset := stack + [h.tag.number], offset + h.size;
      } else if h.tag.closing {
        UnwindClosing(rest, stack, h);
        if stack[|stack| - 1] != h.tag.number {
          return None;
        }
        if |stack| == 1 {
          return Some(Bounds(offset, offset + h.size));
        }
        assert rest[h.size..] == b[offset + h.size..];
        stack, offset := stack[..|stack| - 1], offset + h.size;
      } else {
        if |b| - offset - h.size < SkipSize(h.tag) {
          NothingFound(rest, stack);
          return None;
        }
        UnwindPrimitive(rest, stack, h);
        assert rest[h.size + SkipSize(h.tag)..] == b[offset + h.size + SkipSize(h.tag)..];
        offset := offset + h.size + SkipSize(h.tag);
      }
    }
    assert b[offset..] == [];
    NothingFound([], stack);
    return None;
  }

  lemma {:induction false} UnwindSingle(b: Octets, outer: Byte)
    ensures Unwind(b, [outer]) == Find(b, outer)
  {
  }

  lemma {:induction false} UnwindClosing(b: Octets, stack: seq<Byte>, h: Header)
    requires stack != [] && DecodeTag(b) == Some(h) && h.tag.closing
    ensures Unwind(b, stack) ==
            if stack[|stack| - 1] != h.tag.number then None
            else if |stack| == 1 then Some(Bounds(0, h.size))
            else Shifted(h.size, Unwind(b[h.size..], stack[..|stack| - 1]))
  {
    hide DecodeTag;
  }

  lemma {:induction false} NothingFound(b: Octets, stack: seq<Byte>)
    requires stack != []
    requires DecodeTag(b).None? ||
             (DecodeTag(b).value.tag.Primitive() && |b| - DecodeTag(b).value.size < SkipSize(DecodeTag(b).value.tag))
    ensures Unwind(b, stack) == None
  {
    hide DecodeTag;
  }
}
