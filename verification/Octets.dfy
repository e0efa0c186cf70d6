/** Octets, fixed-width integers and the variable-length integer codecs of BACnet.
    Bit operations on octets are written as arithmetic: the operands of every `|`
    in the program are disjoint, so `|` is `+`, and masks and shifts are `/` and `%`. */
module Octets {
  datatype Option<+T> = None | Some(value: T)

  type Byte = b: int | 0 <= b < 0x100
  type Uint16 = n: int | 0 <= n < 0x1_0000
  type Uint32 = n: int | 0 <= n < 0x1_0000_0000
  type Int32 = n: int | -0x8000_0000 <= n < 0x8000_0000
  type Octets = seq<Byte>

  /** Object types have 10 bits and instances 22. */
  const MAX_OBJECT_TYPE: Uint16 := 0x3FF
  const MAX_INSTANCE: Uint32 := 0x3F_FFFF

  function EncodeUint16(v: Uint16): (b: Octets)
    ensures |b| == 2
  {
    [v / 0x100, v % 0x100]
  }

  function EncodeUint24(v: Uint32): (b: Octets)
    ensures |b| == 3
  {
    [v / 0x1_0000 % 0x100, v / 0x100 % 0x100, v % 0x100]
  }

  function EncodeUint32(v: Uint32): (b: Octets)
    ensures |b| == 4
  {
    [v / 0x100_0000, v / 0x1_0000 % 0x100, v / 0x100 % 0x100, v % 0x100]
  }

  /** The value of one to four octets, most significant first. */
  function BigEndian(b: Octets): (v: Uint32)
    requires 1 <= |b| <= 4
    ensures |b| == 1 ==> v < 0x100
    ensures |b| == 2 ==> v < 0x1_0000
    ensures |b| == 3 ==> v < 0x100_0000
  {
    var octet := (i: nat) requires i < |b| => b[i] as int;
    match |b|
    case 1 => octet(0)
    case 2 => octet(0) * 0x100 + octet(1)
    case 3 => octet(0) * 0x1_0000 + octet(1) * 0x100 + octet(2)
    case _ => octet(0) * 0x100_0000 + octet(1) * 0x1_0000 + octet(2) * 0x100 + octet(3)
  }

  /** Each octet is worth 256 times the one after it. */
  lemma MostSignificantFirst(b: Octets)
    requires 2 <= |b| <= 4
    ensures BigEndian(b) == BigEndian(b[..|b| - 1]) * 0x100 + b[|b| - 1] as int
    ensures BigEndian([b[0]]) == b[0]
  {
  }

  function EncodeVarUint(v: Uint32): (b: Octets)
    ensures 1 <= |b| <= 4
    ensures |b| == 4 <==> v >= 0x100_0000
  {
    if v < 0x100 then [v]
    else if v < 0x1_0000 then EncodeUint16(v)
    else if v < 0x100_0000 then EncodeUint24(v)
    else EncodeUint32(v)
  }

  /** A length outside 1..4 leaves the result zero, as the failed unmarshal does. */
  function DecodeVarUint(b: Octets): (v: Uint32)
  {
    if 1 <= |b| <= 4 then BigEndian(b) else 0
  }

  lemma EncodedUintReads(n: Uint32)
    ensures BigEndian(EncodeUint32(n)) == n
    ensures n < 0x100_0000 ==> BigEndian(EncodeUint24(n)) == n
    ensures n < 0x1_0000 ==> BigEndian(EncodeUint16(n)) == n
  {
    assert n == n / 0x100 * 0x100 + n % 0x100;
    assert n / 0x100 == n / 0x1_0000 * 0x100 + n / 0x100 % 0x100;
    assert n / 0x1_0000 == n / 0x100_0000 * 0x100 + n / 0x1_0000 % 0x100;
  }

  lemma VarUintRoundTrip(v: Uint32)
    ensures DecodeVarUint(EncodeVarUint(v)) == v
  {
    EncodedUintReads(v);
  }

  /** The encoding is minimal: no shorter octet string has the same value. */
  lemma VarUintMinimal(v: Uint32, b: Octets)
    requires 1 <= |b| <= 4 && DecodeVarUint(b) == v
    ensures |EncodeVarUint(v)| <= |b|
  {
  }

  /** Two's complement on `width` octets. */
  function EncodeVarInt(v: Int32): (b: Octets)
    ensures 1 <= |b| <= 4
  {
    if -0x80 <= v < 0x80 then [if v < 0 then v + 0x100 else v]
    else if -0x8000 <= v < 0x8000 then EncodeUint16(if v < 0 then v + 0x1_0000 else v)
    else if -0x80_0000 <= v < 0x80_0000 then EncodeUint24(if v < 0 then v + 0x100_0000 else v)
    else EncodeUint32(if v < 0 then v + 0x1_0000_0000 else v)
  }

  function DecodeVarInt(b: Octets): (v: Int32)
  {
    if !(1 <= |b| <= 4) then 0
    else
      var u := BigEndian(b);
      match |b|
      case 1 => if u >= 0x80 then u - 0x100 else u
      case 2 => if u >= 0x8000 then u - 0x1_0000 else u
      case 3 => if u >= 0x80_0000 then u - 0x100_0000 else u
      case _ => if u >= 0x8000_0000 then u - 0x1_0000_0000 else u
  }

  lemma VarIntRoundTrip(v: Int32)
    ensures DecodeVarInt(EncodeVarInt(v)) == v
  {
    if -0x80 <= v < 0x80 {
    } else if -0x8000 <= v < 0x8000 {
      EncodedUintReads(if v < 0 then v + 0x1_0000 else v);
    } else if -0x80_0000 <= v < 0x80_0000 {
      EncodedUintReads(if v < 0 then v + 0x100_0000 else v);
    } else {
      EncodedUintReads(if v < 0 then v + 0x1_0000_0000 else v);
    }
  }

  function Reverse4(n: int): (r: int)
    requires 0 <= n < 16
    ensures 0 <= r < 16
  {
    [0, 8, 4, 12, 2, 10, 6, 14, 1, 9, 5, 13, 3, 11, 7, 15][n]
  }

  /** The bits of an octet in the opposite order (bit strings are sent bit 7 first). */
  function Reverse8(b: Byte): (r: Byte)
    ensures r / 16 == Reverse4(b % 16) && r % 16 == Reverse4(b / 16)
  {
    Reverse4(b % 16) * 16 + Reverse4(b / 16)
  }

  lemma Reverse8Involution(b: Byte)
    ensures Reverse8(Reverse8(b)) == b
  {
    assert forall n :: 0 <= n < 16 ==> Reverse4(Reverse4(n)) == n;
  }

  /** Bit `i` of an octet, counted from the least significant. */
  function BitOf(b: Byte, i: nat): (bit: int)
    requires i < 8
  {
    b / [1, 2, 4, 8, 16, 32, 64, 128][i] % 2
  }

  lemma NibblesReverse(n: int)
    requires 0 <= n < 16
    ensures forall i :: 0 <= i < 4 ==> BitOf(Reverse4(n), i) == BitOf(n, 3 - i)
  {
  }

  lemma BitInNibble(b: Byte, i: nat)
    requires i < 8
    ensures BitOf(b, i) == if i < 4 then BitOf(b % 16, i) else BitOf(b / 16, i - 4)
  {
    LowBits(b / 16, b % 16);
    HighBits(b / 16, b % 16);
    var high, low := b / 16, b % 16;
    assert b == high * 16 + low;
  }

  lemma LowBits(high: int, low: int)
    requires 0 <= high < 16 && 0 <= low < 16
    ensures var b := high * 16 + low;
            && b / 1 % 2 == low / 1 % 2 && b / 2 % 2 == low / 2 % 2
            && b / 4 % 2 == low / 4 % 2 && b / 8 % 2 == low / 8 % 2
  {
    var b := high * 16 + low;
    assert b / 2 == high * 8 + low / 2 && b / 4 == high * 4 + low / 4 && b / 8 == high * 2 + low / 8;
  }

  lemma HighBits(high: int, low: int)
    requires 0 <= high < 16 && 0 <= low < 16
    ensures var b := high * 16 + low;
            && b / 16 % 2 == high / 1 % 2 && b / 32 % 2 == high / 2 % 2
            && b / 64 % 2 == high / 4 % 2 && b / 128 % 2 == high / 8 % 2
  {
    var b := high * 16 + low;
    assert b / 16 == high && b / 32 == high / 2 && b / 64 == high / 4 && b / 128 == high / 8;
  }

  /** Bit `i` becomes bit `7 - i`. */
  lemma BitsReverse(b: Byte, i: nat)
    requires i < 8
    ensures BitOf(Reverse8(b), i) == BitOf(b, 7 - i)
  {
    hide BitOf;
    BitInNibble(Reverse8(b), i);
    BitInNibble(b, 7 - i);
    NibblesReverse(b % 16);
    NibblesReverse(b / 16);
  }

  function ReverseEach(b: Octets): (r: Octets)
    ensures |r| == |b|
    ensures forall i :: 0 <= i < |b| ==> r[i] == Reverse8(b[i])
  {
    seq(|b|, i requires 0 <= i < |b| => Reverse8(b[i]))
  }

  /** What a loop that has already read `xs` returns when the rest of its input gives `r`. */
  function Prepended<T>(xs: seq<T>, r: Option<seq<T>>): (p: Option<seq<T>>)
  {
    match r
    case None => None
    case Some(ys) => Some(xs + ys)
  }

  lemma PrependedStep<T>(xs: seq<T>, x: T, r: Option<seq<T>>)
    ensures Prepended([], r) == r
    ensures Prepended(xs, Prepended([x], r)) == Prepended(xs + [x], r)
  {
    if r.Some? {
      assert [] + r.value == r.value;
      assert xs + ([x] + r.value) == xs + [x] + r.value;
    }
  }

  /** How a head, an opening, a list and a closing lie before the octets that follow them. */
  lemma ListLayout<T>(head: seq<T>, open: seq<T>, list: seq<T>, close: seq<T>, rest: seq<T>)
    ensures var b := head + (open + (list + close)) + rest;
            && b == head + (open + (list + (close + rest)))
            && b[|head|..] == open + (list + (close + rest))
            && b[|head| + |open|..] == list + (close + rest)
            && b[|head| + |open| + (|list| + |close|)..] == rest
  {
  }
}
