/**
 The WireGuard configuration message: built attribute by attribute in a growing buffer with
 back-patched lengths, and the walk over the attributes of a device that reads its status.
 */
module NetlinkWireGuard {
  import opened Bytes
  import opened Wrappers
  import opened Netlink

  const WGDEVICE_A_IFNAME: nat := 2
  const WGDEVICE_A_PRIVATE_KEY: nat := 3
  const WGDEVICE_A_PUBLIC_KEY: nat := 4
  const WGDEVICE_A_LISTEN_PORT: nat := 6
  const WGDEVICE_A_PEERS: nat := 8
  const WGPEER_A_PUBLIC_KEY: nat := 1
  const WGPEER_A_FLAGS: nat := 3
  const WGPEER_A_ENDPOINT: nat := 4
  const WGPEER_A_PERSISTENT_KEEPALIVE_INTERVAL: nat := 5
  const WGPEER_A_ALLOWEDIPS: nat := 9
  const WGALLOWEDIP_A_FAMILY: nat := 1
  const WGALLOWEDIP_A_IPADDR: nat := 2
  const WGALLOWEDIP_A_CIDR_MASK: nat := 3
  const WGPEER_F_REMOVE_ME: nat := 1
  const WGPEER_F_REPLACE_ALLOWEDIPS: nat := 2
  const AF_INET: nat := 2
  const WG_CMD_SET_DEVICE: byte := 1
  const NLM_F_REQUEST_ACK: nat := 5
  const KEY_SIZE: nat := 32

  function LE32(n: nat): (s: seq<byte>)
    requires n < TWO_32
    ensures |s| == 4
  {
    LE16(n % TWO_16) + LE16(n / TWO_16)
  }

  // ---------------------------------------------------------------------
  // The attributes of a device
  // ---------------------------------------------------------------------

  /** An IPv4 address in network order. */
  type IPv4 = s: seq<byte> | |s| == 4 witness [0, 0, 0, 0]

  datatype Endpoint = Endpoint(address: IPv4, port: uint16)

  /** `address` is absent when it is not an IPv4 address; such entries are skipped. */
  datatype AllowedIp = AllowedIp(address: Option<IPv4>, cidrMask: byte)

  datatype Peer = Peer(
    publicKey: seq<byte>, remove: bool, persistentKeepalive: uint16,
    endpoint: Option<Endpoint>, allowedIps: seq<AllowedIp>)

  datatype Device = Device(ifName: seq<byte>, privateKey: seq<byte>, listenPort: uint16, peers: seq<Peer>)

  function When(c: bool, t: Attr): seq<Attr> {
    if c then [t] else []
  }

  function SockAddr(e: Endpoint): seq<byte> {
    LE16(AF_INET) + BE16(e.port) + e.address + Padding(8)
  }

  function AllowedIpAttr(address: IPv4, mask: byte): Attr {
    Nest(0, [Leaf(WGALLOWEDIP_A_FAMILY, LE16(AF_INET)), Leaf(WGALLOWEDIP_A_IPADDR, address),
             Leaf(WGALLOWEDIP_A_CIDR_MASK, [mask])])
  }

  function AllowedIpAttrs(ips: seq<AllowedIp>): seq<Attr> {
    if ips == [] then []
    else
      (if ips[0].address.Some? then [AllowedIpAttr(ips[0].address.value, ips[0].cidrMask)] else [])
      + AllowedIpAttrs(ips[1..])
  }

  function KeptPeerAttrs(p: Peer): seq<Attr> {
    [Leaf(WGPEER_A_FLAGS, LE32(WGPEER_F_REPLACE_ALLOWEDIPS))]
    + When(p.persistentKeepalive > 0, Leaf(WGPEER_A_PERSISTENT_KEEPALIVE_INTERVAL, LE16(p.persistentKeepalive)))
    + (if p.endpoint.Some? then [Leaf(WGPEER_A_ENDPOINT, SockAddr(p.endpoint.value))] else [])
    + When(p.allowedIps != [], Nest(WGPEER_A_ALLOWEDIPS, AllowedIpAttrs(p.allowedIps)))
  }

  function PeerAttr(p: Peer): Attr {
    Nest(0, [Leaf(WGPEER_A_PUBLIC_KEY, p.publicKey)]
            + if p.remove then [Leaf(WGPEER_A_FLAGS, LE32(WGPEER_F_REMOVE_ME))] else KeptPeerAttrs(p))
  }

  /** Peers whose key has the wrong size are skipped. */
  function PeerAttrs(peers: seq<Peer>): seq<Attr> {
    if peers == [] then []
    else When(|peers[0].publicKey| == KEY_SIZE, PeerAttr(peers[0])) + PeerAttrs(peers[1..])
  }

  function DeviceAttrs(d: Device): seq<Attr> {
    [Leaf(WGDEVICE_A_IFNAME, d.ifName + [0])]
    + When(|d.privateKey| == KEY_SIZE, Leaf(WGDEVICE_A_PRIVATE_KEY, d.privateKey))
    + When(d.listenPort > 0, Leaf(WGDEVICE_A_LISTEN_PORT, LE16(d.listenPort)))
    + When(d.peers != [], Nest(WGDEVICE_A_PEERS, PeerAttrs(d.peers)))
  }

  /** The headers: total length, family, flags, sequence number 6, no port; then command and version. */
  function Headers(length: nat, familyId: uint16): (s: seq<byte>)
    requires length < TWO_32
    ensures |s| == 20
  {
    LE32(length) + LE16(familyId) + LE16(NLM_F_REQUEST_ACK) + LE32(6) + LE32(0) + [WG_CMD_SET_DEVICE, 1, 0, 0]
  }

  // ---------------------------------------------------------------------
  // The buffer
  // ---------------------------------------------------------------------

  /** The length of the attribute that starts at `offset` is written into its header. */
  function Ended(buf: seq<byte>, offset: nat): seq<byte>
    requires offset + NLA_HDRLEN <= |buf|
  {
    var len := (|buf| - offset) % TWO_16;
    buf[..offset] + LE16(len) + buf[offset + 2..] + Padding(Pad(len))
  }

  class NetlinkBuffer {
    var buf: seq<byte>

    constructor ()
      ensures buf == []
    {
      buf := [];
    }

    method AppendRaw(data: seq<byte>)
      modifies this
      ensures buf == old(buf) + data
    {
      buf := buf + data;
    }

    method PutAttr(kind: uint16, data: seq<byte>)
      modifies this
      ensures buf == old(buf) + Layouts([Leaf(kind, data)])
      ensures |old(buf)| % 4 == 0 ==> |buf| % 4 == 0
    {
      hide LE16, Aligned, Pad;
      ghost var was := buf;
      var attrLen := (NLA_HDRLEN + |data|) % TWO_16;
      AppendRaw(LE16(attrLen) + LE16(kind));
      if |data| > 0 {
        AppendRaw(data);
      }
      assert buf == was + (LE16(attrLen) + LE16(kind) + data);
      AppendPadding(attrLen);
      OneLayout(Leaf(kind, data));
      assert buf == was + Sealed(kind, data);
      SealedSize(kind, data);
    }

    method AppendPadding(len: nat)
      modifies this
      ensures buf == old(buf) + Padding(Pad(len))
    {
      AppendZeros(Aligned(len) - len);
    }

    /** The padding loop. */
    method AppendZeros(pad: nat)
      modifies this
      ensures buf == old(buf) + Padding(pad)
    {
      for i := 0 to pad
        invariant buf == old(buf) + Padding(i)
      {
        buf := buf + [0];
        assert Padding(i) + [0] == Padding(i + 1);
      }
    }

    method StartNested(kind: uint16) returns (offset: nat)
      modifies this
      ensures offset == |old(buf)|
      ensures buf == old(buf) + LE16(0) + LE16(Flagged(kind))
      ensures |old(buf)| % 4 == 0 ==> |buf| % 4 == 0
    {
      offset := |buf|;
      AppendRaw(LE16(0) + LE16(Flagged(kind)));
    }

    method EndNested(offset: nat)
      requires offset + NLA_HDRLEN <= |buf|
      modifies this
      ensures buf == Ended(old(buf), offset)
      ensures |old(buf)| % 4 == 0 && offset % 4 == 0 ==> |buf| == |old(buf)|
    {
      hide LE16, Aligned, Pad;
      EndedSize(buf, offset);
      var len := (|buf| - offset) % TWO_16;
      buf := buf[..offset] + LE16(len) + buf[offset + 2..];
      AppendPadding(len);
    }
  }

  /** Between aligned ends there is nothing to pad. */
  lemma EndedSize(buf: seq<byte>, offset: nat)
    requires offset + NLA_HDRLEN <= |buf|
    ensures |buf| % 4 == 0 && offset % 4 == 0 ==> |Ended(buf, offset)| == |buf|
  {
    hide LE16, Pad, Padding;
    PadOfCut(|buf| - offset);
    if |buf| % 4 == 0 && offset % 4 == 0 {
      NothingToPad(|buf|, offset);
    }
  }

  lemma NothingToPad(n: nat, offset: nat)
    requires n % 4 == 0 && offset % 4 == 0 && offset <= n
    ensures Pad(n - offset) == 0
  {
  }

  lemma OneLayout(t: Attr)
    ensures Layouts([t]) == Sealed(RawType(t), Content(t))
  {
    EmptyLayout();
    LayoutsCons(t, []);
    assert [t] + [] == [t];
  }

  /** Starting, filling and ending a nested attribute leaves its layout, whatever its length. */
  lemma NestedLayout(before: seq<byte>, kind: uint16, children: seq<Attr>)
    requires kind < NLA_F_NESTED
    ensures Ended(before + LE16(0) + LE16(Flagged(kind)) + Layouts(children), |before|) ==
            before + Layouts([Nest(kind, children)])
  {
    hide LE16, Layouts;
    OneLayout(Nest(kind, children));
    var buf := before + LE16(0) + LE16(Flagged(kind)) + Layouts(children);
    assert buf[..|before|] == before && buf[|before| + 2..] == LE16(Flagged(kind)) + Layouts(children);
  }

  // ---------------------------------------------------------------------
  // Building the message
  // ---------------------------------------------------------------------

  lemma Joined(before: seq<byte>, ts: seq<Attr>, us: seq<Attr>)
    ensures before + Layouts(ts) + Layouts(us) == before + Layouts(ts + us)
  {
    hide Layouts;
    LayoutsAppend(ts, us);
    assert before + Layouts(ts) + Layouts(us) == before + (Layouts(ts) + Layouts(us));
  }

  lemma AllowedIpAttrsFrom(ips: seq<AllowedIp>, j: nat)
    requires j < |ips|
    ensures AllowedIpAttrs(ips[j..]) ==
            (if ips[j].address.Some? then [AllowedIpAttr(ips[j].address.value, ips[j].cidrMask)] else [])
            + AllowedIpAttrs(ips[j + 1..])
  {
    hide AllowedIpAttr;
    assert ips[j..][1..] == ips[j + 1..];
  }

  method PutAllowedIps(b: NetlinkBuffer, ips: seq<AllowedIp>)
    modifies b
    ensures b.buf == old(b.buf) + Layouts([Nest(WGPEER_A_ALLOWEDIPS, AllowedIpAttrs(ips))])
  {
    hide Layouts, LE16, AllowedIpAttr, AllowedIpAttrs;
    ghost var was, ts := b.buf, [];
    var allowedNest := b.StartNested(WGPEER_A_ALLOWEDIPS);
    ghost var base := b.buf;
    EmptyLayout();
    NoAttrs();
    assert ips[0..] == ips;
    for j := 0 to |ips|
      invariant b.buf == base + Layouts(ts)
      invariant ts + AllowedIpAttrs(ips[j..]) == AllowedIpAttrs(ips)
    {
      AllowedIpAttrsFrom(ips, j);
      if ips[j].address.Some? {
        ghost var t := AllowedIpAttr(ips[j].address.value, ips[j].cidrMask);
        assert ts + ([t] + AllowedIpAttrs(ips[j + 1..])) == ts + [t] + AllowedIpAttrs(ips[j + 1..]);
        PutAllowedIp(b, ips[j].address.value, ips[j].cidrMask);
        Joined(base, ts, [t]);
        ts := ts + [t];
      }
    }
    assert ips[|ips|..] == [] && ts + [] == ts;
    NestedLayout(was, WGPEER_A_ALLOWEDIPS, ts);
    b.EndNested(allowedNest);
  }

  lemma NoAttrs()
    ensures AllowedIpAttrs([]) == [] && PeerAttrs([]) == []
  {
  }

  method PutAllowedIp(b: NetlinkBuffer, address: IPv4, mask: byte)
    modifies b
    ensures b.buf == old(b.buf) + Layouts([AllowedIpAttr(address, mask)])
  {
    hide Layouts, LE16;
    ghost var was := b.buf;
    var aipNest := b.StartNested(0);
    ghost var base := b.buf;
    ghost var family, ip := Leaf(WGALLOWEDIP_A_FAMILY, LE16(AF_INET)), Leaf(WGALLOWEDIP_A_IPADDR, address);
    ghost var cidr := Leaf(WGALLOWEDIP_A_CIDR_MASK, [mask]);
    b.PutAttr(WGALLOWEDIP_A_FAMILY, LE16(AF_INET));
    b.PutAttr(WGALLOWEDIP_A_IPADDR, address);
    Joined(base, [family], [ip]);
    assert [family] + [ip] == [family, ip] && [family, ip] + [cidr] == [family, ip, cidr];
    b.PutAttr(WGALLOWEDIP_A_CIDR_MASK, [mask]);
    Joined(base, [family, ip], [cidr]);
    NestedLayout(was, 0, [family, ip, cidr]);
    b.EndNested(aipNest);
  }

  method PutPeer(b: NetlinkBuffer, p: Peer)
    modifies b
    ensures b.buf == old(b.buf) + Layouts([PeerAttr(p)])
  {
    hide Layouts, LE16, LE32, SockAddr, KeptPeerAttrs;
    ghost var was := b.buf;
    var peerNest := b.StartNested(0);
    ghost var base := b.buf;
    ghost var key := [Leaf(WGPEER_A_PUBLIC_KEY, p.publicKey)];
    b.PutAttr(WGPEER_A_PUBLIC_KEY, p.publicKey);
    if p.remove {
      b.PutAttr(WGPEER_A_FLAGS, LE32(WGPEER_F_REMOVE_ME));
      Joined(base, key, [Leaf(WGPEER_A_FLAGS, LE32(WGPEER_F_REMOVE_ME))]);
    } else {
      PutKeptPeer(b, p);
      Joined(base, key, KeptPeerAttrs(p));
    }
    NestedLayout(was, 0, PeerAttr(p).children);
    b.EndNested(peerNest);
  }

  /** Appends the attribute if the condition holds. */
  method PutWhen(c: bool, b: NetlinkBuffer, kind: uint16, data: seq<byte>, ghost base: seq<byte>, ghost ts: seq<Attr>)
    requires b.buf == base + Layouts(ts)
    modifies b
    ensures b.buf == base + Layouts(ts + When(c, Leaf(kind, data)))
  {
    hide Layouts;
    EmptyLayout();
    Joined(base, ts, When(c, Leaf(kind, data)));
    if c {
      b.PutAttr(kind, data);
    }
  }

  method PutKeptPeer(b: NetlinkBuffer, p: Peer)
    modifies b
    ensures b.buf == old(b.buf) + Layouts(KeptPeerAttrs(p))
  {
    hide Layouts, LE16, LE32, SockAddr, When;
    ghost var base := b.buf;
    ghost var ts: seq<Attr> := [Leaf(WGPEER_A_FLAGS, LE32(WGPEER_F_REPLACE_ALLOWEDIPS))];
    b.PutAttr(WGPEER_A_FLAGS, LE32(WGPEER_F_REPLACE_ALLOWEDIPS));
    PutWhen(p.persistentKeepalive > 0, b, WGPEER_A_PERSISTENT_KEEPALIVE_INTERVAL, LE16(p.persistentKeepalive), base, ts);
    ts := ts + When(p.persistentKeepalive > 0, Leaf(WGPEER_A_PERSISTENT_KEEPALIVE_INTERVAL, LE16(p.persistentKeepalive)));
    if p.endpoint.Some? {
      var sin := SockAddr(p.endpoint.value);
      b.PutAttr(WGPEER_A_ENDPOINT, sin);
      Joined(base, ts, [Leaf(WGPEER_A_ENDPOINT, sin)]);
      ts := ts + [Leaf(WGPEER_A_ENDPOINT, sin)];
    } else {
      assert ts + [] == ts;
      ts := ts + [];
    }
    ghost var allowed := Nest(WGPEER_A_ALLOWEDIPS, AllowedIpAttrs(p.allowedIps));
    PutNothing(base, ts, allowed);
    if p.allowedIps != [] {
      PutAllowedIps(b, p.allowedIps);
    }
  }

  lemma PutNothing(base: seq<byte>, ts: seq<Attr>, t: Attr)
    ensures base + Layouts(ts + When(true, t)) == base + Layouts(ts) + Layouts([t])
    ensures base + Layouts(ts + When(false, t)) == base + Layouts(ts)
  {
    hide Layouts;
    Joined(base, ts, [t]);
    assert ts + [] == ts;
  }

  lemma PeerAttrsFrom(peers: seq<Peer>, i: nat)
    requires i < |peers|
    ensures PeerAttrs(peers[i..]) ==
            When(|peers[i].publicKey| == KEY_SIZE, PeerAttr(peers[i])) + PeerAttrs(peers[i + 1..])
  {
    hide PeerAttr;
    assert peers[i..][1..] == peers[i + 1..];
  }

  method PutPeers(b: NetlinkBuffer, peers: seq<Peer>)
    modifies b
    ensures b.buf == old(b.buf) + Layouts([Nest(WGDEVICE_A_PEERS, PeerAttrs(peers))])
  {
    hide Layouts, LE16, PeerAttr, PeerAttrs;
    ghost var was, ts := b.buf, [];
    var peersNest := b.StartNested(WGDEVICE_A_PEERS);
    ghost var base := b.buf;
    EmptyLayout();
    NoAttrs();
    assert peers[0..] == peers;
    for i := 0 to |peers|
      invariant b.buf == base + Layouts(ts)
      invariant ts + PeerAttrs(peers[i..]) == PeerAttrs(peers)
    {
      PeerAttrsFrom(peers, i);
      if |peers[i].publicKey| != KEY_SIZE {
        continue;
      }
      ghost var t := PeerAttr(peers[i]);
      assert ts + ([t] + PeerAttrs(peers[i + 1..])) == ts + [t] + PeerAttrs(peers[i + 1..]);
      PutPeer(b, peers[i]);
      Joined(base, ts, [t]);
      ts := ts + [t];
    }
    assert peers[|peers|..] == [] && ts + [] == ts;
    NestedLayout(was, WGDEVICE_A_PEERS, ts);
    b.EndNested(peersNest);
  }

  /** The request that is sent to the kernel, its total length filled in last. */
  method SetWireGuardDevice(d: Device, familyId: uint16) returns (message: seq<byte>)
    ensures message == Headers((20 + |Layouts(DeviceAttrs(d))|) % TWO_32, familyId) + Layouts(DeviceAttrs(d))
  {
    hide Layouts, LE16, LE32, PeerAttrs, When, Headers;
    var b := new NetlinkBuffer();
    b.AppendRaw(Headers(0, familyId));
    ghost var base := b.buf;
    ghost var ts: seq<Attr> := [Leaf(WGDEVICE_A_IFNAME, d.ifName + [0])];
    b.PutAttr(WGDEVICE_A_IFNAME, d.ifName + [0]);
    PutWhen(|d.privateKey| == KEY_SIZE, b, WGDEVICE_A_PRIVATE_KEY, d.privateKey, base, ts);
    ts := ts + When(|d.privateKey| == KEY_SIZE, Leaf(WGDEVICE_A_PRIVATE_KEY, d.privateKey));
    PutWhen(d.listenPort > 0, b, WGDEVICE_A_LISTEN_PORT, LE16(d.listenPort), base, ts);
    ts := ts + When(d.listenPort > 0, Leaf(WGDEVICE_A_LISTEN_PORT, LE16(d.listenPort)));
    PutNothing(base, ts, Nest(WGDEVICE_A_PEERS, PeerAttrs(d.peers)));
    if d.peers != [] {
      PutPeers(b, d.peers);
    }
    ghost var attrs := Layouts(DeviceAttrs(d));
    assert b.buf == Headers(0, familyId) + attrs;
    var length := |b.buf| % TWO_32;
    message := LE32(length) + b.buf[4..];
    HeadersLength(length, familyId, attrs);
    assert message == Headers(length, familyId) + attrs;
  }

  lemma HeadersLength(length: nat, familyId: uint16, tail: seq<byte>)
    requires length < TWO_32
    ensures LE32(length) + (Headers(0, familyId) + tail)[4..] == Headers(length, familyId) + tail
  {
    hide LE32, LE16;
  }

  // ---------------------------------------------------------------------
  // What a walk makes of the message
  // ---------------------------------------------------------------------

  lemma {:induction false} AllowedIpKinds(ips: seq<AllowedIp>)
    ensures Kinds(AllowedIpAttrs(ips))
  {
    if ips != [] {
      AllowedIpKinds(ips[1..]);
    }
  }

  lemma PeerKinds(p: Peer)
    ensures Kinds([PeerAttr(p)])
  {
    hide LE16, LE32, SockAddr, AllowedIpAttrs;
    AllowedIpKinds(p.allowedIps);
  }

  lemma {:induction false} PeersKinds(peers: seq<Peer>)
    ensures Kinds(PeerAttrs(peers))
  {
    hide PeerAttr;
    if peers != [] {
      PeerKinds(peers[0]);
      assert PeerAttr(peers[0]) in [PeerAttr(peers[0])];
      PeersKinds(peers[1..]);
    }
  }

  lemma DeviceKinds(d: Device)
    ensures Kinds(DeviceAttrs(d))
  {
    hide LE16, PeerAttrs;
    PeersKinds(d.peers);
  }

  /** For every device: the walk recovers exactly the attributes laid out if and only if every length fits. */
  lemma RequestRecoveredIffFit(d: Device)
    ensures Recovered(Layouts(DeviceAttrs(d))) == DeviceAttrs(d) <==> Fit(DeviceAttrs(d))
  {
    DeviceKinds(d);
    RecoveredIffFit(DeviceAttrs(d));
  }

  /** A peer as the service adds it: keepalive, IPv4 endpoint, and one allowed IPv4 address. */
  predicate Typical(p: Peer) {
    && |p.publicKey| == KEY_SIZE && !p.remove && p.persistentKeepalive > 0 && p.endpoint.Some?
    && |p.allowedIps| == 1 && p.allowedIps[0].address.Some?
  }

  lemma LayoutSize(t: Attr, ts: seq<Attr>)
    ensures |Layouts([t] + ts)| == Aligned(NLA_HDRLEN + |Content(t)|) + |Layouts(ts)|
  {
    LayoutsCons(t, ts);
    SealedSize(RawType(t), Content(t));
  }

  lemma TypicalAllowedIps(p: Peer)
    requires Typical(p)
    ensures Fit(AllowedIpAttrs(p.allowedIps)) && |Layouts(AllowedIpAttrs(p.allowedIps))| == 28
  {
    hide Layouts, LE16;
    var ip := p.allowedIps[0];
    var t := AllowedIpAttr(ip.address.value, ip.cidrMask);
    assert AllowedIpAttrs(p.allowedIps) == [t] by { assert p.allowedIps[1..] == []; }
    var a, b, c := t.children[0], t.children[1], t.children[2];
    EmptyLayout();
    LayoutSize(c, []);
    LayoutSize(b, [c]);
    LayoutSize(a, [b, c]);
    assert [c] + [] == [c] && [b] + [c] == [b, c] && [a] + [b, c] == t.children;
    assert |Layouts(t.children)| == 24;
    LayoutSize(t, []);
    assert [t] + [] == [t];
  }

  /** Every typical peer takes 108 bytes. */
  lemma TypicalPeerSize(p: Peer)
    requires Typical(p)
    ensures Fit([PeerAttr(p)]) && |Layouts([PeerAttr(p)])| == 108
  {
    hide Layouts, LE16, LE32, SockAddr, AllowedIpAttrs, AllowedIpAttr;
    TypicalAllowedIps(p);
    var t := PeerAttr(p);
    var key, flags, keepalive, endpoint, allowed :=
      t.children[0], t.children[1], t.children[2], t.children[3], t.children[4];
    SockAddrSize(p.endpoint.value);
    EmptyLayout();
    LayoutSize(allowed, []);
    LayoutSize(endpoint, [allowed]);
    LayoutSize(keepalive, [endpoint, allowed]);
    LayoutSize(flags, [keepalive, endpoint, allowed]);
    LayoutSize(key, [flags, keepalive, endpoint, allowed]);
    assert [allowed] + [] == [allowed] && [endpoint] + [allowed] == [endpoint, allowed];
    assert [keepalive] + [endpoint, allowed] == [keepalive, endpoint, allowed];
    assert [flags] + [keepalive, endpoint, allowed] == [flags, keepalive, endpoint, allowed];
    assert [key] + [flags, keepalive, endpoint, allowed] == t.children;
    assert |Layouts(t.children)| == 104;
    LayoutSize(t, []);
    assert [t] + [] == [t];
  }

  lemma SockAddrSize(e: Endpoint)
    ensures |SockAddr(e)| == 16
  {
  }

  lemma {:induction false} TypicalPeersSize(peers: seq<Peer>)
    requires forall p :: p in peers ==> Typical(p)
    ensures Fit(PeerAttrs(peers)) && |Layouts(PeerAttrs(peers))| == 108 * |peers|
  {
    hide Layouts, PeerAttr, Fit;
    EmptyLayout();
    EmptyFits();
    if peers != [] {
      TypicalPeerSize(peers[0]);
      TypicalPeersSize(peers[1..]);
      LayoutsAppend([PeerAttr(peers[0])], PeerAttrs(peers[1..]));
      FitCons(PeerAttr(peers[0]), []);
      FitCons(PeerAttr(peers[0]), PeerAttrs(peers[1..]));
      assert [PeerAttr(peers[0])] + [] == [PeerAttr(peers[0])];
    }
  }

  /** With typical peers the request is recovered exactly up to 606 of them, if the name itself fits. */
  lemma TypicalRequestFits(d: Device)
    requires forall p :: p in d.peers ==> Typical(p)
    ensures Recovered(Layouts(DeviceAttrs(d))) == DeviceAttrs(d) <==> |d.peers| <= 606 && |d.ifName| <= 65530
  {
    hide Recovered, Layouts, LE16, PeerAttrs, Fit;
    RequestRecoveredIffFit(d);
    TypicalPeersSize(d.peers);
    DeviceFits(d);
  }

  lemma DeviceFits(d: Device)
    requires Fit(PeerAttrs(d.peers))
    ensures Fit(DeviceAttrs(d)) <==>
            && NLA_HDRLEN + |d.ifName| + 1 < TWO_16
            && (d.peers == [] || NLA_HDRLEN + |Layouts(PeerAttrs(d.peers))| < TWO_16)
  {
    hide Layouts, LE16, PeerAttrs;
    assert Leaf(WGDEVICE_A_IFNAME, d.ifName + [0]) in DeviceAttrs(d);
    if d.peers != [] {
      assert Nest(WGDEVICE_A_PEERS, PeerAttrs(d.peers)) in DeviceAttrs(d);
    }
  }

  // ---------------------------------------------------------------------
  // Reading the status of a device
  // ---------------------------------------------------------------------

  datatype Status = Status(publicKey: seq<byte>, listenPort: uint16)

  function Noted(s: Status, kind: nat, payload: seq<byte>): Status {
    if kind == WGDEVICE_A_PUBLIC_KEY && |payload| >= KEY_SIZE then s.(publicKey := payload[..KEY_SIZE])
    else if kind == WGDEVICE_A_LISTEN_PORT && |payload| >= 2 then s.(listenPort := ReadLE16(payload, 0))
    else s
  }

  function StatusOf(s: Status, buf: seq<byte>): Status
    decreases |buf|
  {
    match NextAttr(buf)
    case None => s
    case Some(Visit(raw, payload, rest)) => StatusOf(Noted(s, raw % NLA_TYPES, payload), rest)
  }

  /** The walk over the attributes of a response, which is complete. */
  method GetWireGuardDevice(response: seq<byte>) returns (status: Status)
    ensures status == StatusOf(Status([], 0), response)
  {
    hide ReadLE16, NextAttr, StatusOf, Noted, Aligned;
    status := Status([], 0);
    var attrPtr, attrLen: int := 0, |response|;
    assert response[0..] == response;
    while attrLen >= NLA_HDRLEN
      invariant 0 <= attrPtr && 0 <= attrLen && attrPtr + attrLen == |response|
      invariant StatusOf(status, response[attrPtr..]) == StatusOf(Status([], 0), response)
      decreases attrLen
    {
      StatusStep(status, response[attrPtr..]);
      NextAt(response, attrPtr);
      var len: nat := ReadLE16(response, attrPtr);
      if len < NLA_HDRLEN || len > attrLen {
        return;
      }
      var kind := ReadLE16(response, attrPtr + 2) % NLA_TYPES;
      NotedAt(status, kind, response, attrPtr + NLA_HDRLEN, attrPtr + len);
      if kind == WGDEVICE_A_PUBLIC_KEY && len >= NLA_HDRLEN + KEY_SIZE {
        status := status.(publicKey := response[attrPtr + NLA_HDRLEN..attrPtr + NLA_HDRLEN + KEY_SIZE]);
      } else if kind == WGDEVICE_A_LISTEN_PORT && len >= NLA_HDRLEN + 2 {
        status := status.(listenPort := ReadLE16(response, attrPtr + NLA_HDRLEN));
      }
      AlignedBounds(len);
      var alignedLen := Aligned(len);
      if alignedLen > attrLen {
        NoStatus(status);
        return;
      }
      attrPtr := attrPtr + alignedLen;
      attrLen := attrLen - alignedLen;
    }
    StatusStep(status, response[attrPtr..]);
    TooShort(response[attrPtr..]);
  }

  lemma StatusStep(s: Status, buf: seq<byte>)
    ensures StatusOf(s, buf) ==
            if NextAttr(buf).None? then s
            else StatusOf(Noted(s, NextAttr(buf).value.raw % NLA_TYPES, NextAttr(buf).value.payload), NextAttr(buf).value.rest)
  {
    hide NextAttr, Noted;
  }

  lemma TooShort(buf: seq<byte>)
    requires |buf| < NLA_HDRLEN
    ensures NextAttr(buf) == None
  {
  }

  lemma NextAt(s: seq<byte>, at: nat)
    requires at + NLA_HDRLEN <= |s|
    ensures var len := ReadLE16(s, at);
            NextAttr(s[at..]) ==
            if len < NLA_HDRLEN || len > |s| - at then None
            else Some(Visit(ReadLE16(s, at + 2), s[at + NLA_HDRLEN..at + len],
                            if Aligned(len) > |s| - at then [] else s[at + Aligned(len)..]))
  {
    hide Aligned;
    var buf := s[at..];
    var len: nat := ReadLE16(s, at);
    assert ReadLE16(buf, 0) == len && ReadLE16(buf, 2) == ReadLE16(s, at + 2);
    AlignedBounds(len);
    if NLA_HDRLEN <= len <= |buf| {
      assert buf[NLA_HDRLEN..len] == s[at + NLA_HDRLEN..at + len];
      if Aligned(len) <= |buf| {
        assert buf[Aligned(len)..] == s[at + Aligned(len)..];
      }
    }
  }

  lemma NotedAt(status: Status, kind: nat, s: seq<byte>, i: nat, j: nat)
    requires i <= j <= |s|
    ensures Noted(status, kind, s[i..j]) ==
            if kind == WGDEVICE_A_PUBLIC_KEY && j - i >= KEY_SIZE then status.(publicKey := s[i..i + KEY_SIZE])
            else if kind == WGDEVICE_A_LISTEN_PORT && j - i >= 2 then status.(listenPort := ReadLE16(s, i))
            else status
  {
    if j - i >= KEY_SIZE {
      assert s[i..j][..KEY_SIZE] == s[i..i + KEY_SIZE];
    }
  }

  /** The status that the top-level attributes of a tree describe; what is nested plays no part. */
  function StatusOfTree(s: Status, ts: seq<Attr>): Status
    decreases |ts|
  {
    if ts == [] then s else StatusOfTree(Noted(s, ts[0].kind, Content(ts[0])), ts[1..])
  }

  lemma {:induction false} StatusOfLayouts(s: Status, ts: seq<Attr>)
    requires Kinds(ts) && Fit(ts)
    ensures StatusOf(s, Layouts(ts)) == StatusOfTree(s, ts)
    decreases |ts|
  {
    hide Layouts, NextAttr, Noted, Kinds, Fit, Sealed;
    EmptyLayout();
    if ts == [] {
      NoStatus(s);
    } else {
      var t, rest := ts[0], ts[1..];
      assert ts == [t] + rest;
      KindsCons(t, rest);
      FitCons(t, rest);
      LayoutsCons(t, rest);
      NextOfSealed(RawType(t), Content(t), Layouts(rest));
      assert Content(t)[..|Content(t)|] == Content(t);
      StatusOfLayouts(Noted(s, t.kind, Content(t)), rest);
    }
  }

  lemma NoStatus(s: Status)
    ensures StatusOf(s, []) == s
  {
  }

  /** The port that was configured is the port that the walk over the same attributes reports. */
  lemma PortReadBack(d: Device)
    requires Fit(DeviceAttrs(d))
    ensures StatusOf(Status([], 0), Layouts(DeviceAttrs(d))) == Status([], d.listenPort)
  {
    hide Layouts, PeerAttrs, StatusOf, Fit, Kinds, LE16, ReadLE16;
    DeviceKinds(d);
    StatusOfLayouts(Status([], 0), DeviceAttrs(d));
    var word := LE16(d.listenPort);
    assert word[0..2] == word;
    ReadBackLE16(word, 0, d.listenPort);
    var privateKey := When(|d.privateKey| == KEY_SIZE, Leaf(WGDEVICE_A_PRIVATE_KEY, d.privateKey));
    var port := When(d.listenPort > 0, Leaf(WGDEVICE_A_LISTEN_PORT, word));
    var peers := When(d.peers != [], Nest(WGDEVICE_A_PEERS, PeerAttrs(d.peers)));
    var name := [Leaf(WGDEVICE_A_IFNAME, d.ifName + [0])];
    StatusOfAppend(Status([], 0), name + privateKey + port, peers);
    StatusOfAppend(Status([], 0), name + privateKey, port);
    StatusOfAppend(Status([], 0), name, privateKey);
  }

  lemma {:induction false} StatusOfAppend(s: Status, ts: seq<Attr>, us: seq<Attr>)
    ensures StatusOfTree(s, ts + us) == StatusOfTree(StatusOfTree(s, ts), us)
    decreases |ts|
  {
    hide Noted, Content;
    if ts == [] {
      assert ts + us == us;
    } else {
      assert (ts + us)[1..] == ts[1..] + us;
      StatusOfAppend(Noted(s, ts[0].kind, Content(ts[0])), ts[1..], us);
    }
  }
}
