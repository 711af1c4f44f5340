/**
 Multiaddresses: the normal form bootstrap contacts are rewritten to, and the two
 different ways a peer id is read out of an address.
 */
module Addresses {
  import opened Wrappers

  type PeerId = string

  /** The protocols the code distinguishes; `Other` stands for every remaining one. */
  datatype Protocol =
    | Ip4(ip: nat)
    | Udp(udpPort: nat)
    | Tcp(tcpPort: nat)
    | QuicV1
    | Ws(path: string)
    | P2p(peer: PeerId)
    | Other(code: nat)

  type Multiaddr = seq<Protocol>

  datatype Kind = KIp4 | KUdp | KTcp | KQuicV1 | KWs | KP2p | KOther

  function KindOf(p: Protocol): Kind
  {
    match p
    case Ip4(_) => KIp4
    case Udp(_) => KUdp
    case Tcp(_) => KTcp
    case QuicV1 => KQuicV1
    case Ws(_) => KWs
    case P2p(_) => KP2p
    case Other(_) => KOther
  }

  /** The first component of the given kind. */
  function Find(addr: Multiaddr, k: Kind): (r: Option<Protocol>)
    ensures r.Some? ==> KindOf(r.value) == k
  {
    if addr == [] then None
    else if KindOf(addr[0]) == k then Some(addr[0])
    else Find(addr[1..], k)
  }

  predicate Has(addr: Multiaddr, k: Kind)
  {
    Find(addr, k).Some?
  }

  lemma {:induction false} FindAt(addr: Multiaddr, k: Kind, i: nat)
    requires i < |addr| && KindOf(addr[i]) == k
    requires forall j | 0 <= j < i :: KindOf(addr[j]) != k
    ensures Find(addr, k) == Some(addr[i])
  {
    if i > 0 {
      FindAt(addr[1..], k, i - 1);
    }
  }

  lemma {:induction false} FindNone(addr: Multiaddr, k: Kind)
    requires forall j | 0 <= j < |addr| :: KindOf(addr[j]) != k
    ensures Find(addr, k) == None
  {
    if addr != [] {
      FindNone(addr[1..], k);
    }
  }

  /** The peer id of the first p2p component: how dial slots are matched to peers. */
  function GetPeerId(addr: Multiaddr): Option<PeerId>
  {
    match Find(addr, KP2p)
    case Some(P2p(id)) => Some(id)
    case _ => None
  }

  /** The peer id of the last component, and what is left of the address once it is popped:
      how a dial request is built. */
  function PopP2p(addr: Multiaddr): (r: (Option<PeerId>, Multiaddr))
    ensures r.0.Some? <==> addr != [] && addr[|addr| - 1].P2p?
    ensures r.0.Some? ==> addr == r.1 + [P2p(r.0.value)]
    ensures r.0.None? ==> r.1 == addr
  {
    if addr != [] && Last(addr).P2p? then (Some(Last(addr).peer), Front(addr)) else (None, addr)
  }

  /** The same protocol, whatever its argument. */
  predicate SameProtocol(p: Protocol, q: Protocol)
  {
    && p.Ip4? == q.Ip4? && p.Udp? == q.Udp? && p.Tcp? == q.Tcp?
    && p.QuicV1? == q.QuicV1? && p.Ws? == q.Ws? && p.P2p? == q.P2p?
  }

  /** `p` is the first component of its protocol. */
  predicate IsFirst(addr: Multiaddr, p: Protocol)
  {
    exists i :: 0 <= i < |addr| && addr[i] == p && forall j | 0 <= j < i :: !SameProtocol(addr[j], p)
  }

  lemma {:induction false} FindMeans(addr: Multiaddr, k: Kind)
    ensures Find(addr, k).Some? <==> exists i :: 0 <= i < |addr| && KindOf(addr[i]) == k
    ensures Find(addr, k).Some? && k != KOther ==> IsFirst(addr, Find(addr, k).value)
  {
    var found := Find(addr, k);
    if found.Some? {
      var i := FindIndex(addr, k);
      assert KindOf(addr[i]) == k;
    } else if i :| 0 <= i < |addr| && KindOf(addr[i]) == k {
      FindSome(addr, k, i);
    }
  }

  lemma {:induction false} FindIndex(addr: Multiaddr, k: Kind) returns (i: nat)
    requires Find(addr, k).Some?
    ensures i < |addr| && addr[i] == Find(addr, k).value
    ensures forall j | 0 <= j < i :: KindOf(addr[j]) != k
  {
    if KindOf(addr[0]) == k {
      i := 0;
    } else {
      i := FindIndex(addr[1..], k);
      i := i + 1;
    }
  }

  lemma {:induction false} FindSome(addr: Multiaddr, k: Kind, i: nat)
    requires i < |addr| && KindOf(addr[i]) == k
    ensures Find(addr, k).Some?
  {
    if KindOf(addr[0]) != k {
      FindSome(addr[1..], k, i - 1);
    }
  }

  /** `multiaddr_get_peer_id` reads the first p2p component. */
  lemma PeerIdIsFirst(addr: Multiaddr, id: PeerId)
    ensures GetPeerId(addr) == Some(id) <==> IsFirst(addr, P2p(id))
  {
    FindMeans(addr, KP2p);
    if i :| 0 <= i < |addr| && addr[i] == P2p(id) && forall j | 0 <= j < i :: !SameProtocol(addr[j], P2p(id)) {
      FindAt(addr, KP2p, i);
    }
  }

  predicate HasIp4(addr: Multiaddr) { exists i :: 0 <= i < |addr| && addr[i].Ip4? }

  predicate HasUdp(addr: Multiaddr) { exists i :: 0 <= i < |addr| && addr[i].Udp? }

  predicate HasTcp(addr: Multiaddr) { exists i :: 0 <= i < |addr| && addr[i].Tcp? }

  predicate HasQuic(addr: Multiaddr) { exists i :: 0 <= i < |addr| && addr[i].QuicV1? }

  predicate HasWs(addr: Multiaddr) { exists i :: 0 <= i < |addr| && addr[i].Ws? }

  predicate HasP2p(addr: Multiaddr) { exists i :: 0 <= i < |addr| && addr[i].P2p? }

  /** `[opt][/p2p/...]` where `opt` has the given kind. */
  predicate CraftedTail(tail: Multiaddr, opt: Kind)
  {
    || tail == []
    || (|tail| == 1 && (KindOf(tail[0]) == opt || tail[0].P2p?))
    || (|tail| == 2 && KindOf(tail[0]) == opt && tail[1].P2p?)
  }

  /** The grammar `ip4/(udp[/quic-v1] | tcp[/ws])[/p2p]`. */
  predicate IsCrafted(addr: Multiaddr)
  {
    && |addr| >= 2
    && addr[0].Ip4?
    && (|| (addr[1].Udp? && CraftedTail(addr[2..], KQuicV1))
        || (addr[1].Tcp? && CraftedTail(addr[2..], KWs)))
  }

  function Opt(p: Option<Protocol>): Multiaddr
  {
    if p.Some? then [p.value] else []
  }

  function Assemble(ip: Protocol, transport: Protocol, opt: Option<Protocol>, peer: Option<Protocol>): Multiaddr
  {
    [ip, transport] + Opt(opt) + Opt(peer)
  }

  /** What `CraftValidMultiaddr` computes, in one expression. */
  function Crafted(addr: Multiaddr, ignorePeerId: bool): Option<Multiaddr>
  {
    var ip, udp, tcp, peer := Find(addr, KIp4), Find(addr, KUdp), Find(addr, KTcp), Find(addr, KP2p);
    if ip.None? || (udp.None? && tcp.None?) || (peer.None? && !ignorePeerId) then None
    else if udp.Some? then Some(Assemble(ip.value, udp.value, Find(addr, KQuicV1), peer))
    else Some(Assemble(ip.value, tcp.value, Find(addr, KWs), peer))
  }

  lemma AssembledShape(ip: Protocol, transport: Protocol, opt: Option<Protocol>, peer: Option<Protocol>)
    requires ip.Ip4? && (peer.Some? ==> peer.value.P2p?)
    requires transport.Udp? || transport.Tcp?
    requires opt.Some? ==> KindOf(opt.value) == if transport.Udp? then KQuicV1 else KWs
    ensures var a := Assemble(ip, transport, opt, peer); IsCrafted(a) && Find(a, KP2p) == peer
  {
    var a := Assemble(ip, transport, opt, peer);
    if peer.Some? {
      FindAt(a, KP2p, |a| - 1);
    } else {
      FindNone(a, KP2p);
    }
  }

  /** What crafting keeps: the first ip4, the first udp or else the first tcp, the first quic-v1 behind udp or
      ws behind tcp, if there is one, and the first p2p, if there is one. */
  predicate RewriteOf(addr: Multiaddr, out: Multiaddr)
  {
    && |out| >= 2 && out[0].Ip4? && IsFirst(addr, out[0])
    && (out[1].Udp? || out[1].Tcp?) && IsFirst(addr, out[1]) && (out[1].Udp? <==> HasUdp(addr))
    && var opt := if out[1].Udp? then HasQuic(addr) else HasWs(addr);
    && |out| == 2 + (if opt then 1 else 0) + (if HasP2p(addr) then 1 else 0)
    && (opt ==> (if out[1].Udp? then out[2].QuicV1? else out[2].Ws?) && IsFirst(addr, out[2]))
    && (HasP2p(addr) ==> out[|out| - 1].P2p? && IsFirst(addr, out[|out| - 1]))
  }

  /** Which addresses are accepted: those with an ip4, a udp or tcp, and a p2p where one is demanded. */
  predicate Acceptable(addr: Multiaddr, ignorePeerId: bool)
  {
    HasIp4(addr) && (HasUdp(addr) || HasTcp(addr)) && (ignorePeerId || HasP2p(addr))
  }

  lemma CraftedExactly(addr: Multiaddr, ignorePeerId: bool)
    ensures Crafted(addr, ignorePeerId).Some? <==> Acceptable(addr, ignorePeerId)
    ensures Crafted(addr, ignorePeerId).Some? ==> RewriteOf(addr, Crafted(addr, ignorePeerId).value)
  {
    FoundExactly(addr);
    var ip, udp, tcp, peer := Find(addr, KIp4), Find(addr, KUdp), Find(addr, KTcp), Find(addr, KP2p);
    if ip.Some? && udp.Some? {
      AssembledRewrites(addr, ip.value, udp.value, Find(addr, KQuicV1), peer);
    } else if ip.Some? && tcp.Some? {
      AssembledRewrites(addr, ip.value, tcp.value, Find(addr, KWs), peer);
    }
  }

  /** What was found is the first of its protocol, and there is one if and only if something was found. */
  predicate FirstOf(addr: Multiaddr, found: Option<Protocol>, has: bool)
  {
    (found.Some? <==> has) && (found.Some? ==> IsFirst(addr, found.value))
  }

  lemma FoundExactly(addr: Multiaddr)
    ensures FirstOf(addr, Find(addr, KIp4), HasIp4(addr)) && FirstOf(addr, Find(addr, KUdp), HasUdp(addr))
    ensures FirstOf(addr, Find(addr, KTcp), HasTcp(addr)) && FirstOf(addr, Find(addr, KQuicV1), HasQuic(addr))
    ensures FirstOf(addr, Find(addr, KWs), HasWs(addr)) && FirstOf(addr, Find(addr, KP2p), HasP2p(addr))
  {
    FindMeans(addr, KIp4);
    FindMeans(addr, KUdp);
    FindMeans(addr, KTcp);
    FindMeans(addr, KQuicV1);
    FindMeans(addr, KWs);
    FindMeans(addr, KP2p);
  }

  lemma AssembledRewrites(addr: Multiaddr, ip: Protocol, transport: Protocol, opt: Option<Protocol>,
                          peer: Option<Protocol>)
    requires ip.Ip4? && IsFirst(addr, ip)
    requires (transport.Udp? || transport.Tcp?) && IsFirst(addr, transport) && (transport.Udp? <==> HasUdp(addr))
    requires FirstOf(addr, opt, if transport.Udp? then HasQuic(addr) else HasWs(addr))
    requires opt.Some? ==> if transport.Udp? then opt.value.QuicV1? else opt.value.Ws?
    requires FirstOf(addr, peer, HasP2p(addr)) && (peer.Some? ==> peer.value.P2p?)
    ensures RewriteOf(addr, Assemble(ip, transport, opt, peer))
  {
  }

  method CraftValidMultiaddr(addr: Multiaddr, ignorePeerId: bool) returns (r: Option<Multiaddr>)
    ensures r == Crafted(addr, ignorePeerId)
    ensures r.Some? <==> HasIp4(addr) && (HasUdp(addr) || HasTcp(addr)) && (ignorePeerId || HasP2p(addr))
    ensures r.Some? ==> RewriteOf(addr, r.value)
    ensures r.Some? ==> IsCrafted(r.value) && GetPeerId(r.value) == GetPeerId(addr)
  {
    CraftedExactly(addr, ignorePeerId);
    var peerId := Find(addr, KP2p);
    var output: Multiaddr := [];
    var ip := Find(addr, KIp4);
    if ip.None? {
      return None;
    }
    output := output + [ip.value];
    var udp := Find(addr, KUdp);
    var tcp := Find(addr, KTcp);
    if udp.Some? {
      output := output + [udp.value];
      var quic := Find(addr, KQuicV1);
      if quic.Some? {
        output := output + [quic.value];
      }
    } else if tcp.Some? {
      output := output + [tcp.value];
      var ws := Find(addr, KWs);
      if ws.Some? {
        output := output + [ws.value];
      }
    } else {
      return None;
    }
    if peerId.Some? {
      output := output + [peerId.value];
    } else if !ignorePeerId {
      return None;
    }
    r := Some(output);
    assert output == Assemble(ip.value, if udp.Some? then udp.value else tcp.value,
                              Find(addr, if udp.Some? then KQuicV1 else KWs), peerId);
    CraftedShape(addr, ignorePeerId);
  }

  /** Every output follows the grammar and carries the peer id of the input. */
  lemma CraftedShape(addr: Multiaddr, ignorePeerId: bool)
    requires Crafted(addr, ignorePeerId).Some?
    ensures IsCrafted(Crafted(addr, ignorePeerId).value)
    ensures GetPeerId(Crafted(addr, ignorePeerId).value) == GetPeerId(addr)
  {
    var ip, udp, tcp, peer := Find(addr, KIp4), Find(addr, KUdp), Find(addr, KTcp), Find(addr, KP2p);
    if udp.Some? {
      AssembledShape(ip.value, udp.value, Find(addr, KQuicV1), peer);
    } else {
      AssembledShape(ip.value, tcp.value, Find(addr, KWs), peer);
    }
  }

  lemma FindInCrafted(addr: Multiaddr)
    requires IsCrafted(addr)
    ensures Find(addr, KIp4) == Some(addr[0])
    ensures Find(addr, KUdp) == if addr[1].Udp? then Some(addr[1]) else None
    ensures addr[1].Tcp? ==> Find(addr, KTcp) == Some(addr[1])
    ensures Find(addr, KP2p) == if Last(addr).P2p? then Some(Last(addr)) else None
    ensures Find(addr, if addr[1].Udp? then KQuicV1 else KWs) ==
            if |addr| > 2 && !addr[2].P2p? then Some(addr[2]) else None
  {
    FindAt(addr, KIp4, 0);
    FindAt(addr, KindOf(addr[1]), 1);
    if addr[1].Tcp? {
      FindNone(addr, KUdp);
    }
    if Last(addr).P2p? {
      FindAt(addr, KP2p, |addr| - 1);
    } else {
      FindNone(addr, KP2p);
    }
    if |addr| > 2 && !addr[2].P2p? {
      FindAt(addr, KindOf(addr[2]), 2);
    } else {
      FindNone(addr, if addr[1].Udp? then KQuicV1 else KWs);
    }
  }

  /** The fixed points are exactly the addresses of the grammar (with a peer id where one is demanded). */
  lemma CraftedFixpoint(addr: Multiaddr, ignorePeerId: bool)
    ensures Crafted(addr, ignorePeerId) == Some(addr) <==> IsCrafted(addr) && (ignorePeerId || GetPeerId(addr).Some?)
  {
    if Crafted(addr, ignorePeerId) == Some(addr) {
      CraftedShape(addr, ignorePeerId);
    }
    if IsCrafted(addr) {
      FindInCrafted(addr);
      var opt := if |addr| > 2 && !addr[2].P2p? then Some(addr[2]) else None;
      assert addr == Assemble(addr[0], addr[1], opt, Find(addr, KP2p));
    }
  }

  /** Crafting is idempotent in whichever modes the two passes are made, except that a second pass which
      demands a peer id refuses what the first let through without one. */
  lemma CraftedIdempotent(addr: Multiaddr, first: bool, second: bool)
    requires Crafted(addr, first).Some?
    ensures var crafted := Crafted(addr, first).value;
            Crafted(crafted, second) == if second || GetPeerId(crafted).Some? then Some(crafted) else None
  {
    CraftedShape(addr, first);
    CraftedFixpoint(Crafted(addr, first).value, second);
  }

  /** Both ways of reading a peer id give the same answer. */
  predicate IdsAgree(addr: Multiaddr)
  {
    PopP2p(addr).0 == GetPeerId(addr)
  }

  /** The two readings agree exactly on addresses with no p2p component and on those that end in
      the id they mention first; a crafted address is always one of these. */
  lemma IdsAgreeExactly(addr: Multiaddr)
    ensures IdsAgree(addr) <==> !Has(addr, KP2p) || Find(addr, KP2p) == Some(Last(addr))
    ensures IsCrafted(addr) ==> IdsAgree(addr)
  {
    if addr != [] && Last(addr).P2p? {
      FindLast(addr, KP2p);
    }
    if IsCrafted(addr) {
      FindInCrafted(addr);
    }
  }

  lemma {:induction false} FindLast(addr: Multiaddr, k: Kind)
    requires addr != [] && KindOf(Last(addr)) == k
    ensures Find(addr, k).Some?
  {
    if KindOf(addr[0]) != k {
      FindLast(addr[1..], k);
    }
  }

  /** A relayed address names the relay first and the target last, so the readings differ. */
  lemma RelayIdsDisagree(ip: nat, port: nat, relay: PeerId, target: PeerId)
    requires relay != target
    ensures !IdsAgree([Ip4(ip), Tcp(port), P2p(relay), Other(290), P2p(target)])
  {
    FindAt([Ip4(ip), Tcp(port), P2p(relay), Other(290), P2p(target)], KP2p, 2);
  }
}
