/**
 What the kernel makes of a configuration message: a reader that knows the attribute numbers of
 linux/wireguard.h and the layout of struct sockaddr_in, and shares nothing with the code that writes them.
 */
module NetlinkDevice {
  import opened Bytes
  import opened Wrappers
  import opened Netlink
  import opened NetlinkWireGuard

  // ---------------------------------------------------------------------
  // The reader
  // ---------------------------------------------------------------------

  datatype SeenEndpoint = SeenEndpoint(family: nat, port: nat, address: seq<byte>)

  datatype SeenIp = SeenIp(family: nat, address: seq<byte>, mask: nat)

  datatype SeenPeer = SeenPeer(
    publicKey: seq<byte>, removed: bool, replacesIps: bool, keepalive: Option<nat>,
    endpoint: Option<SeenEndpoint>, allowedIps: seq<SeenIp>)

  /** What is absent stays as it is. */
  datatype SeenDevice = SeenDevice(
    ifName: seq<byte>, privateKey: Option<seq<byte>>, listenPort: Option<nat>, peers: seq<SeenPeer>)

  /** The first attribute of a kind. */
  function First(ts: seq<Attr>, kind: nat): Option<Attr> {
    if ts == [] then None else if ts[0].kind == kind then Some(ts[0]) else First(ts[1..], kind)
  }

  function DataAt(ts: seq<Attr>, kind: nat): Option<seq<byte>> {
    match First(ts, kind)
    case Some(Leaf(_, data)) => Some(data)
    case _ => None
  }

  function DataOf(ts: seq<Attr>, kind: nat): seq<byte> {
    if DataAt(ts, kind).Some? then DataAt(ts, kind).value else []
  }

  function NumberAt(ts: seq<Attr>, kind: nat): Option<nat> {
    if DataAt(ts, kind).Some? then Some(Number(DataAt(ts, kind).value)) else None
  }

  function ChildrenOf(ts: seq<Attr>, kind: nat): seq<Attr> {
    match First(ts, kind)
    case Some(Nest(_, children)) => children
    case _ => []
  }

  /** A number in the order of the host, least significant byte first. */
  function Number(s: seq<byte>): nat {
    if s == [] then 0 else s[0] + 256 * Number(s[1..])
  }

  /** Up to the null that ends it. */
  function CString(s: seq<byte>): seq<byte> {
    if s == [] || s[0] == 0 then [] else [s[0]] + CString(s[1..])
  }

  /** struct sockaddr_in: family, port and address in network order, eight bytes of padding. */
  function ReadSockAddr(s: seq<byte>): Option<SeenEndpoint> {
    if |s| != 16 then None else Some(SeenEndpoint(Number(s[0..2]), Number([s[3], s[2]]), s[4..8]))
  }

  function ReadIps(ts: seq<Attr>): seq<SeenIp> {
    if ts == [] then []
    else
      (match ts[0]
       case Nest(_, ip) => [SeenIp(Number(DataOf(ip, 1)), DataOf(ip, 2), Number(DataOf(ip, 3)))]
       case Leaf(_, _) => [])
      + ReadIps(ts[1..])
  }

  function ReadPeer(ts: seq<Attr>): SeenPeer {
    var flags := Number(DataOf(ts, 3));
    SeenPeer(DataOf(ts, 1), flags % 2 == 1, flags / 2 % 2 == 1, NumberAt(ts, 5),
             ReadSockAddr(DataOf(ts, 4)), ReadIps(ChildrenOf(ts, 9)))
  }

  function ReadPeers(ts: seq<Attr>): seq<SeenPeer> {
    if ts == [] then []
    else (match ts[0] case Nest(_, peer) => [ReadPeer(peer)] case Leaf(_, _) => []) + ReadPeers(ts[1..])
  }

  function ReadDevice(ts: seq<Attr>): SeenDevice {
    SeenDevice(CString(DataOf(ts, 2)), DataAt(ts, 3), NumberAt(ts, 6), ReadPeers(ChildrenOf(ts, 8)))
  }

  /** The headers of a message and the attributes behind them. */
  datatype SeenMessage = SeenMessage(
    length: nat, family: nat, flags: nat, sequence: nat, port: nat, command: nat, version: nat, device: SeenDevice)

  function ReadMessage(m: seq<byte>): SeenMessage
    requires |m| >= 20
  {
    SeenMessage(Number(m[0..4]), Number(m[4..6]), Number(m[6..8]), Number(m[8..12]), Number(m[12..16]), m[16], m[17],
                ReadDevice(Recovered(m[20..])))
  }

  // ---------------------------------------------------------------------
  // What it is to see
  // ---------------------------------------------------------------------

  function IpsOf(ips: seq<AllowedIp>): seq<SeenIp> {
    if ips == [] then []
    else
      (if ips[0].address.Some? then [SeenIp(2, ips[0].address.value, ips[0].cidrMask)] else []) + IpsOf(ips[1..])
  }

  function PeerOf(p: Peer): SeenPeer {
    if p.remove then SeenPeer(p.publicKey, true, false, None, None, [])
    else
      SeenPeer(p.publicKey, false, true, if p.persistentKeepalive > 0 then Some(p.persistentKeepalive) else None,
               if p.endpoint.Some? then Some(SeenEndpoint(2, p.endpoint.value.port, p.endpoint.value.address)) else None,
               IpsOf(p.allowedIps))
  }

  function PeersOf(peers: seq<Peer>): seq<SeenPeer> {
    if peers == [] then [] else (if |peers[0].publicKey| == 32 then [PeerOf(peers[0])] else []) + PeersOf(peers[1..])
  }

  function DeviceOf(d: Device): SeenDevice {
    SeenDevice(d.ifName, if |d.privateKey| == 32 then Some(d.privateKey) else None,
               if d.listenPort > 0 then Some(d.listenPort) else None, PeersOf(d.peers))
  }

  // ---------------------------------------------------------------------
  // It sees it
  // ---------------------------------------------------------------------

  lemma {:induction false} FirstAppend(ts: seq<Attr>, us: seq<Attr>, kind: nat)
    ensures First(ts + us, kind) == if First(ts, kind).Some? then First(ts, kind) else First(us, kind)
  {
    if ts == [] {
      assert ts + us == us;
    } else {
      assert (ts + us)[1..] == ts[1..] + us;
      FirstAppend(ts[1..], us, kind);
    }
  }

  lemma FirstOfOne(t: Attr, kind: nat)
    ensures First([t], kind) == if t.kind == kind then Some(t) else None
    ensures First([], kind) == None
  {
    assert [t][1..] == [];
  }

  lemma NumberOf16(n: nat)
    requires n < TWO_16
    ensures Number(LE16(n)) == n
  {
    var s := LE16(n);
    assert s[1..] == [s[1]] && s[1..][1..] == [];
    assert Number(s[1..]) == s[1];
  }

  lemma NumberOf32(n: nat)
    requires n < TWO_32
    ensures Number(LE32(n)) == n
  {
    hide LE16;
    NumberOf16(n % TWO_16);
    NumberOf16(n / TWO_16);
    NumberAppend(LE16(n % TWO_16), LE16(n / TWO_16));
  }

  lemma NumberAppend(a: seq<byte>, b: seq<byte>)
    requires |a| == 2
    ensures Number(a + b) == Number(a) + 65536 * Number(b)
  {
    assert (a + b)[1..] == [a[1]] + b && ([a[1]] + b)[1..] == b && a[1..] == [a[1]] && a[1..][1..] == [];
    assert Number(a[1..]) == a[1];
  }

  lemma NumberOfByte(b: byte)
    ensures Number([b]) == b && Number([]) == 0
  {
    assert [b][1..] == [];
  }

  lemma {:induction false} CStringEnds(s: seq<byte>)
    ensures CString(s + [0]) == s <==> 0 !in s
    ensures 0 !in CString(s + [0])
  {
    if s != [] {
      assert (s + [0])[1..] == s[1..] + [0];
      CStringEnds(s[1..]);
    }
  }

  lemma {:induction false} IpsAreRead(ips: seq<AllowedIp>)
    ensures ReadIps(AllowedIpAttrs(ips)) == IpsOf(ips)
  {
    hide AllowedIpAttr;
    if ips != [] {
      IpsAreRead(ips[1..]);
      if ips[0].address.Some? {
        var t, rest := AllowedIpAttr(ips[0].address.value, ips[0].cidrMask), AllowedIpAttrs(ips[1..]);
        assert ([t] + rest)[1..] == rest;
        IpIsRead(ips[0].address.value, ips[0].cidrMask);
      } else {
        assert [] + AllowedIpAttrs(ips[1..]) == AllowedIpAttrs(ips[1..]);
      }
    }
  }

  lemma IpIsRead(address: IPv4, mask: byte)
    ensures var t := AllowedIpAttr(address, mask);
            && t.Nest? && Number(DataOf(t.children, 1)) == 2
            && DataOf(t.children, 2) == address && Number(DataOf(t.children, 3)) == mask
  {
    hide LE16;
    NumberOf16(2);
    NumberOfByte(mask);
    var a, b, c := Leaf(1, LE16(2)), Leaf(2, address), Leaf(3, [mask]);
    assert AllowedIpAttr(address, mask).children == [a] + ([b] + [c]);
    forall kind: nat
      ensures First([a] + ([b] + [c]), kind) ==
              if kind == 1 then Some(a) else if kind == 2 then Some(b) else if kind == 3 then Some(c) else None
    {
      FirstAppend([a], [b] + [c], kind);
      FirstAppend([b], [c], kind);
      FirstOfOne(a, kind);
      FirstOfOne(b, kind);
      FirstOfOne(c, kind);
    }
  }

  lemma BothOrders(port: uint16, s: seq<byte>)
    requires |s| >= 4 && s[2..4] == BE16(port)
    ensures [s[3], s[2]] == LE16(port)
  {
    assert s[2] == s[2..4][0] && s[3] == s[2..4][1];
  }

  lemma EndpointIsRead(e: Endpoint)
    ensures ReadSockAddr(SockAddr(e)) == Some(SeenEndpoint(2, e.port, e.address))
  {
    hide LE16;
    var s := SockAddr(e);
    assert s[0..2] == LE16(2) && s[4..8] == e.address;
    assert s[2..4] == BE16(e.port) && [s[3], s[2]] == LE16(e.port) by { BothOrders(e.port, s); }
    NumberOf16(2);
    NumberOf16(e.port);
  }

  lemma PeerIsRead(p: Peer)
    ensures PeerAttr(p).Nest? && ReadPeer(PeerAttr(p).children) == PeerOf(p)
  {
    hide LE16, LE32, SockAddr, AllowedIpAttrs, ReadIps, ReadSockAddr;
    NumberOf32(1);
    NumberOf32(2);
    NumberOfByte(0);
    var key := Leaf(1, p.publicKey);
    NothingRead();
    if p.remove {
      RemovedIsRead(p);
    } else {
      KeptIsRead(p);
      NumberOf16(p.persistentKeepalive);
      IpsAreRead(p.allowedIps);
      if p.endpoint.Some? {
        EndpointIsRead(p.endpoint.value);
      }
    }
  }

  lemma NothingRead()
    ensures ReadIps([]) == [] && ReadPeers([]) == [] && AllowedIpAttrs([]) == [] && PeerAttrs([]) == [] && ReadSockAddr([]) == None
  {
  }

  lemma RemovedIsRead(p: Peer)
    requires p.remove
    ensures var ts := PeerAttr(p).children;
            && DataOf(ts, 1) == p.publicKey && DataOf(ts, 3) == LE32(1)
            && DataAt(ts, 5) == None && DataOf(ts, 4) == [] && ChildrenOf(ts, 9) == []
  {
    hide LE32;
    var key, flags := Leaf(1, p.publicKey), Leaf(3, LE32(1));
    assert PeerAttr(p).children == [key] + [flags];
    forall kind: nat
      ensures First([key] + [flags], kind) == if kind == 1 then Some(key) else if kind == 3 then Some(flags) else None
    {
      FirstAppend([key], [flags], kind);
      FirstOfOne(key, kind);
      FirstOfOne(flags, kind);
    }
  }

  /** What is found in the attributes of a peer that is kept. */
  lemma KeptIsRead(p: Peer)
    requires !p.remove
    ensures var ts := PeerAttr(p).children;
            && DataOf(ts, 1) == p.publicKey && DataOf(ts, 3) == LE32(2)
            && DataAt(ts, 5) == (if p.persistentKeepalive > 0 then Some(LE16(p.persistentKeepalive)) else None)
            && DataOf(ts, 4) == (if p.endpoint.Some? then SockAddr(p.endpoint.value) else [])
            && ChildrenOf(ts, 9) == AllowedIpAttrs(p.allowedIps)
  {
    hide LE16, LE32, SockAddr, First;
    NothingRead();
    var front := [Leaf(1, p.publicKey)] + [Leaf(3, LE32(2))];
    var keepalive := When(p.persistentKeepalive > 0, Leaf(5, LE16(p.persistentKeepalive)));
    var endpoint := if p.endpoint.Some? then [Leaf(4, SockAddr(p.endpoint.value))] else [];
    var allowed := When(p.allowedIps != [], Nest(9, AllowedIpAttrs(p.allowedIps)));
    assert PeerAttr(p).children == [Leaf(1, p.publicKey)] + ([Leaf(3, LE32(2))] + keepalive + endpoint + allowed);
    assert PeerAttr(p).children == front + keepalive + endpoint + allowed;
    forall kind: nat
      ensures First(front + keepalive + endpoint + allowed, kind) ==
              if kind == 1 then Some(Leaf(1, p.publicKey)) else if kind == 3 then Some(Leaf(3, LE32(2)))
              else if First(keepalive, kind).Some? then First(keepalive, kind)
              else if First(endpoint, kind).Some? then First(endpoint, kind) else First(allowed, kind)
    {
      FirstAppend(front + keepalive + endpoint, allowed, kind);
      FirstAppend(front + keepalive, endpoint, kind);
      FirstAppend(front, keepalive, kind);
      FirstAppend([Leaf(1, p.publicKey)], [Leaf(3, LE32(2))], kind);
      FirstOfOne(Leaf(1, p.publicKey), kind);
      FirstOfOne(Leaf(3, LE32(2)), kind);
    }
    forall kind: nat
      ensures First(keepalive, kind) == if p.persistentKeepalive > 0 && kind == 5 then Some(keepalive[0]) else None
      ensures First(endpoint, kind) == if p.endpoint.Some? && kind == 4 then Some(endpoint[0]) else None
      ensures First(allowed, kind) == if p.allowedIps != [] && kind == 9 then Some(allowed[0]) else None
    {
      FirstOfOne(Leaf(5, LE16(p.persistentKeepalive)), kind);
      FirstOfOne(Leaf(4, if p.endpoint.Some? then SockAddr(p.endpoint.value) else []), kind);
      FirstOfOne(Nest(9, AllowedIpAttrs(p.allowedIps)), kind);
    }
  }

  lemma {:induction false} PeersAreRead(peers: seq<Peer>)
    ensures ReadPeers(PeerAttrs(peers)) == PeersOf(peers)
  {
    hide PeerAttr, ReadPeer, PeerOf;
    if peers != [] {
      PeersAreRead(peers[1..]);
      var rest := PeerAttrs(peers[1..]);
      if |peers[0].publicKey| == KEY_SIZE {
        PeerIsRead(peers[0]);
        assert ([PeerAttr(peers[0])] + rest)[1..] == rest;
      } else {
        assert [] + rest == rest;
      }
    }
  }

  lemma DeviceIsRead(d: Device)
    ensures var seen := ReadDevice(DeviceAttrs(d));
            seen == DeviceOf(d).(ifName := seen.ifName) && (seen.ifName == d.ifName <==> 0 !in d.ifName)
  {
    hide LE16, PeerAttrs, First, ReadPeers, PeersOf;
    NothingRead();
    PeersAreRead(d.peers);
    CStringEnds(d.ifName);
    NumberOf16(d.listenPort);
    NumberOfByte(0);
    var name := [Leaf(2, d.ifName + [0])];
    var key := When(|d.privateKey| == 32, Leaf(3, d.privateKey));
    var port := When(d.listenPort > 0, Leaf(6, LE16(d.listenPort)));
    var peers := When(d.peers != [], Nest(8, PeerAttrs(d.peers)));
    assert DeviceAttrs(d) == name + key + port + peers;
    forall kind: nat
      ensures First(name + key + port + peers, kind) ==
              if kind == 2 then Some(name[0]) else if |d.privateKey| == 32 && kind == 3 then Some(key[0])
              else if d.listenPort > 0 && kind == 6 then Some(port[0])
              else if d.peers != [] && kind == 8 then Some(peers[0]) else None
    {
      FirstAppend(name + key + port, peers, kind);
      FirstAppend(name + key, port, kind);
      FirstAppend(name, key, kind);
      FirstOfOne(Leaf(2, d.ifName + [0]), kind);
      FirstOfOne(Leaf(3, d.privateKey), kind);
      FirstOfOne(Leaf(6, LE16(d.listenPort)), kind);
      FirstOfOne(Nest(8, PeerAttrs(d.peers)), kind);
    }
  }

  /**
   The message that configures a device, read back: request and acknowledgement flags, the length of the whole
   message, the command, and, where every length fits, the device as it was given. Its peers are those with a key
   of 32 bytes, removed, or with their allowed addresses replaced, keepalive, IPv4 endpoint and allowed IPv4 addresses.
   */
  lemma MessageDescribesDevice(d: Device, familyId: uint16, message: seq<byte>)
    requires message == Headers((20 + |Layouts(DeviceAttrs(d))|) % TWO_32, familyId) + Layouts(DeviceAttrs(d))
    requires Fit(DeviceAttrs(d))
    ensures var seen := ReadMessage(message);
            && seen == SeenMessage(|message| % TWO_32, familyId, 0x1 + 0x4, 6, 0, 1, 1, seen.device)
            && seen.device == DeviceOf(d).(ifName := seen.device.ifName)
            && (seen.device.ifName == d.ifName <==> 0 !in d.ifName)
  {
    hide Layouts, Recovered, Fit, DeviceAttrs, LE16, LE32, ReadDevice, DeviceOf, Number;
    RequestRecoveredIffFit(d);
    DeviceIsRead(d);
    var length := |message| % TWO_32;
    assert message[20..] == Layouts(DeviceAttrs(d));
    assert message[0..4] == LE32(length) && message[4..6] == LE16(familyId) && message[6..8] == LE16(5);
    assert message[8..12] == LE32(6) && message[12..16] == LE32(0);
    NumberOf32(length);
    NumberOf16(familyId);
    NumberOf16(5);
    NumberOf32(6);
    NumberOf32(0);
  }

  // ---------------------------------------------------------------------
  // The status of a device
  // ---------------------------------------------------------------------

  /** The content of the last attribute of a kind that has at least `size` bytes. */
  function Last(ts: seq<Attr>, kind: nat, size: nat): (r: Option<seq<byte>>)
    ensures r.Some? ==> |r.value| >= size
  {
    if ts == [] then None
    else
      var later := Last(ts[1..], kind, size);
      if later.Some? then later
      else if ts[0].kind == kind && |Content(ts[0])| >= size then Some(Content(ts[0])) else None
  }

  /** Of all attributes of a response the last public key and the last port that are long enough are the status. */
  lemma StatusIsLast(ts: seq<Attr>)
    requires Kinds(ts) && Fit(ts)
    ensures var s, key, port := StatusOf(Status([], 0), Layouts(ts)), Last(ts, 4, 32), Last(ts, 6, 2);
            && s.publicKey == (if key.Some? then key.value[..32] else [])
            && s.listenPort == (if port.Some? then Number(port.value[..2]) else 0)
  {
    hide Layouts, StatusOf, Kinds, Fit, Last, StatusOfTree, Content;
    StatusOfLayouts(Status([], 0), ts);
    StatusFrom(Status([], 0), ts);
  }

  lemma {:induction false} StatusFrom(s: Status, ts: seq<Attr>)
    ensures var key, port := Last(ts, 4, 32), Last(ts, 6, 2);
            StatusOfTree(s, ts) == Status(if key.Some? then key.value[..32] else s.publicKey,
                                          if port.Some? then ReadLE16(port.value, 0) else s.listenPort)
    ensures var port := Last(ts, 6, 2); port.Some? ==> ReadLE16(port.value, 0) == Number(port.value[..2])
    decreases |ts|
  {
    hide Content;
    if ts != [] {
      StatusFrom(Noted(s, ts[0].kind, Content(ts[0])), ts[1..]);
      if |Content(ts[0])| >= 2 {
        TwoBytes(Content(ts[0]));
      }
    }
  }

  lemma TwoBytes(s: seq<byte>)
    requires |s| >= 2
    ensures ReadLE16(s, 0) == Number(s[..2])
  {
    assert s[..2][1..] == [s[1]];
    NumberOfByte(s[1]);
  }
}
