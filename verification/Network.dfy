/** The network layer header (bacnet/pdu/npci.go; section 6.2 of ASHRAE 135). */
module Network {
  import opened Octets

  const MAX_MAC := 7
  const DEFAULT_HOPS: Byte := 255

  /** A network of 0 stands for no address. The length octets are those of the MACs. */
  datatype Npci = Npci(expectingReply: bool, priority: Byte, hops: Byte,
                       destNet: Uint16, destMac: Octets, sourceNet: Uint16, sourceMac: Octets)

  predicate Bit(control: Byte, weight: nat)
    requires weight > 0
  {
    control as int / weight % 2 == 1
  }

  function Control(n: Npci): (c: Byte)
    ensures Bit(c, 32) == (n.destNet != 0) && Bit(c, 8) == (n.sourceNet != 0) && Bit(c, 4) == n.expectingReply
    ensures !Bit(c, 128) && c as int % 4 == n.priority as int % 4
  {
    (if n.destNet != 0 then 32 else 0) + (if n.sourceNet != 0 then 8 else 0)
    + (if n.expectingReply then 4 else 0) + n.priority % 4
  }

  function EncodeRoute(net: Uint16, mac: Octets): (b: Octets)
    requires |mac| < 0x100
  {
    if net == 0 then [] else EncodeUint16(net) + ([|mac|] + mac)
  }

  /** Npci.MarshalBinary refuses long addresses, and a source network without an address. */
  predicate Sendable(n: Npci) {
    |n.destMac| <= MAX_MAC && |n.sourceMac| <= MAX_MAC && (n.sourceNet != 0 ==> n.sourceMac != [])
  }

  function EncodeNpci(n: Npci): (b: Octets)
    requires Sendable(n)
  {
    [1, Control(n)] + (EncodeRoute(n.destNet, n.destMac) + (EncodeRoute(n.sourceNet, n.sourceMac)
      + if n.destNet != 0 then [n.hops] else []))
  }

  datatype Route = Route(net: Uint16, mac: Octets, size: nat)

  function DecodeRoute(b: Octets, present: bool): (r: Option<Route>)
    ensures r.Some? ==> r.value.size <= |b|
  {
    if !present then Some(Route(0, [], 0))
    else if |b| < 3 || |b| < 3 + b[2] as int then None
    else Some(Route(b[0] as int * 0x100 + b[1] as int, b[3..3 + b[2] as int], 3 + b[2] as int))
  }

  datatype Front = Front(npci: Npci, size: nat)

  /** Npci.UnmarshalBinary */
  function DecodeNpci(b: Octets): (r: Option<Front>)
    ensures r.Some? ==> 2 <= r.value.size <= |b| && r.value.npci.priority < 4
  {
    if |b| < 2 || b[0] != 1 || Bit(b[1], 128) then None
    else match DecodeRoute(b[2..], Bit(b[1], 32))
      case None => None
      case Some(dest) =>
        match DecodeRoute(b[2 + dest.size..], Bit(b[1], 8))
        case None => None
        case Some(source) =>
          var n := 2 + dest.size + source.size;
          if dest.net != 0 && n == |b| then None
          else
            var hops := if dest.net != 0 then b[n] else DEFAULT_HOPS;
            Some(Front(Npci(Bit(b[1], 4), b[1] % 4, hops, dest.net, dest.mac, source.net, source.mac),
                        n + if dest.net != 0 then 1 else 0))
  }

  /** What the octets can carry: an address needs its network, a hop count a destination. */
  predicate Complete(n: Npci) {
    && n.priority < 4
    && (n.destNet == 0 ==> n.destMac == [] && n.hops == DEFAULT_HOPS)
    && (n.sourceNet == 0 ==> n.sourceMac == [])
  }

  /** The part of `n` that reaches the other side. */
  function Carried(n: Npci): (m: Npci)
    ensures m == n <==> Complete(n)
  {
    Npci(n.expectingReply, n.priority % 4, if n.destNet == 0 then DEFAULT_HOPS else n.hops,
         n.destNet, if n.destNet == 0 then [] else n.destMac, n.sourceNet, if n.sourceNet == 0 then [] else n.sourceMac)
  }

  lemma RouteRoundTrip(net: Uint16, mac: Octets, rest: Octets)
    requires |mac| <= MAX_MAC
    ensures DecodeRoute(EncodeRoute(net, mac) + rest, net != 0)
         == Some(Route(net, if net == 0 then [] else mac, |EncodeRoute(net, mac)|))
  {
    if net != 0 {
      var b := EncodeRoute(net, mac) + rest;
      assert b[0] as int * 0x100 + b[1] as int == net;
      assert b[3..3 + |mac|] == mac;
    }
  }

  /** The header is read back from the front of any datagram; it is the same header exactly
      when it is well formed. */
  lemma NpciRoundTrip(n: Npci, rest: Octets)
    requires Sendable(n)
    ensures DecodeNpci(EncodeNpci(n) + rest) == Some(Front(Carried(n), |EncodeNpci(n)|))
    ensures Carried(n) == n <==> Complete(n)
  {
    hide EncodeRoute;
    hide DecodeRoute;
    hide Bit;
    hide Control;
    var dest, source := EncodeRoute(n.destNet, n.destMac), EncodeRoute(n.sourceNet, n.sourceMac);
    var hops := if n.destNet != 0 then [n.hops] else [];
    var b := EncodeNpci(n) + rest;
    assert b == [1, Control(n)] + (dest + (source + (hops + rest)));
    assert b[2..] == dest + (source + (hops + rest));
    RouteRoundTrip(n.destNet, n.destMac, source + (hops + rest));
    assert b[2 + |dest|..] == source + (hops + rest);
    RouteRoundTrip(n.sourceNet, n.sourceMac, hops + rest);
    assert b[2 + |dest| + |source|..] == hops + rest;
  }

  // ---- In place ----------------------------------------------------------

  /** copy(b[offset:], source): what is filled grows by the source. */
  method CopyInto(b: array<Byte>, offset: nat, source: Octets)
    requires offset + |source| <= b.Length
    modifies b
    ensures b[..offset + |source|] == old(b[..offset]) + source
  {
    for i := 0 to |source|
      invariant b[..offset + i] == old(b[..offset]) + source[..i]
    {
      b[offset + i] := source[i];
    }
    assert source[..|source|] == source;
  }

  method WriteRoute(b: array<Byte>, offset: nat, net: Uint16, mac: Octets) returns (next: nat)
    requires |mac| < 0x100 && offset + |EncodeRoute(net, mac)| <= b.Length
    modifies b
    ensures next == offset + |EncodeRoute(net, mac)|
    ensures b[..next] == old(b[..offset]) + EncodeRoute(net, mac)
  {
    hide EncodeUint16;
    ghost var before, high := b[..offset], EncodeUint16(net);
    next := offset;
    if net > 0 {
      CopyInto(b, next, EncodeUint16(net));
      next := next + 2;
      assert b[..next] == before + high;
      CopyInto(b, next, [|mac|]);
      next := next + 1;
      assert b[..next] == before + high + [|mac|];
      CopyInto(b, next, mac);
      next := next + |mac|;
      assert before + high + [|mac|] + mac == before + (high + ([|mac|] + mac));
    }
  }

  /** Npci.MarshalBinary: a buffer of the right length, its slots filled at a moving offset. */
  method MarshalNpci(n: Npci) returns (b: array<Byte>, ok: bool)
    ensures ok <==> Sendable(n)
    ensures ok ==> fresh(b) && b[..] == EncodeNpci(n)
  {
    hide EncodeRoute;
    hide Control;
    if |n.destMac| > MAX_MAC || |n.sourceMac| > MAX_MAC || (n.sourceNet != 0 && n.sourceMac == []) {
      return new Byte[0], false;
    }
    RouteSizes(n);
    var length := 2;
    if n.destNet != 0 {
      length := length + 2 + 1 + |n.destMac| + 1;
    }
    if n.sourceNet != 0 {
      length := length + 2 + 1 + |n.sourceMac|;
    }
    b := new Byte[length];
    ghost var dest, source := EncodeRoute(n.destNet, n.destMac), EncodeRoute(n.sourceNet, n.sourceMac);
    ghost var hops := if n.destNet != 0 then [n.hops] else [];
    CopyInto(b, 0, [1, Control(n)]);
    ghost var head := [1, Control(n)];
    var offset := WriteRoute(b, 2, n.destNet, n.destMac);
    assert b[..offset] == head + dest;
    offset := WriteRoute(b, offset, n.sourceNet, n.sourceMac);
    assert b[..offset] == head + dest + source;
    CopyInto(b, offset, if n.destNet > 0 then [n.hops] else []);
    assert b[..] == head + dest + source + hops;
    return b, true;
  }

  lemma RouteSizes(n: Npci)
    requires Sendable(n)
    ensures |EncodeRoute(n.destNet, n.destMac)| == if n.destNet == 0 then 0 else 3 + |n.destMac|
    ensures |EncodeRoute(n.sourceNet, n.sourceMac)| == if n.sourceNet == 0 then 0 else 3 + |n.sourceMac|
  {
  }
}
