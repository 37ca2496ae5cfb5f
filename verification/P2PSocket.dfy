/** The peer socket: an outgoing queue drained by partial writes, and one read buffer per connection. */
module P2PSocket {
  import opened Bytes
  import opened Framing
  import opened StreamDecoder

  const MAX_OUTGOING_QUEUE_SIZE: nat := 16 * 1024 * 1024

  datatype P2PState = Disconnected | Connecting | Connected | Closing

  /** An accepted incoming connection: what was read and not yet decoded, and what was written. */
  datatype ServerPeer = ServerPeer(connected: bool, buffer: seq<byte>, sent: seq<byte>)

  // ---------------------------------------------------------------------
  // The outgoing queue
  // ---------------------------------------------------------------------

  datatype Flush = Flush(queue: seq<seq<byte>>, written: seq<byte>)

  /** Writing chunk after chunk to a socket that takes `room` more bytes. */
  function Flushed(queue: seq<seq<byte>>, room: nat): Flush {
    if queue == [] then Flush([], [])
    else if |queue[0]| <= room then
      var rest := Flushed(queue[1..], room - |queue[0]|);
      rest.(written := queue[0] + rest.written)
    else Flush([queue[0][room..]] + queue[1..], queue[0][..room])
  }

  /** A flush moves bytes from the front of the queue to the wire, as many as fit, and loses none. */
  lemma {:induction false} FlushConserves(queue: seq<seq<byte>>, room: nat)
    ensures var f := Flushed(queue, room);
            && f.written + Flat(f.queue) == Flat(queue)
            && |f.written| == if room < |Flat(queue)| then room else |Flat(queue)|
  {
    if queue != [] {
      if |queue[0]| <= room {
        FlushConserves(queue[1..], room - |queue[0]|);
      } else {
        assert ([queue[0][room..]] + queue[1..])[1..] == queue[1..];
      }
    }
  }

  lemma {:induction false} FlatAppend(queue: seq<seq<byte>>, packet: seq<byte>)
    ensures Flat(queue + [packet]) == Flat(queue) + packet
  {
    if queue == [] {
      assert Flat([packet]) == packet;
    } else {
      assert (queue + [packet])[1..] == queue[1..] + [packet];
      FlatAppend(queue[1..], packet);
    }
  }

  function Broadcast(peers: map<nat, ServerPeer>, packet: seq<byte>): map<nat, ServerPeer> {
    map p | p in peers ::
      if peers[p].connected then peers[p].(sent := peers[p].sent + packet) else peers[p]
  }

  predicate AnyConnected(peers: map<nat, ServerPeer>) {
    exists p :: p in peers && peers[p].connected
  }

  /** The frames are broadcast one after another. */
  function BroadcastAll(peers: map<nat, ServerPeer>, frames: seq<Frame>): map<nat, ServerPeer>
    decreases |frames|
  {
    if frames == [] then peers else BroadcastAll(Broadcast(peers, Encode(frames[0])), frames[1..])
  }

  /** Every connected peer is sent the bytes of all frames in order, and no other peer anything. */
  lemma {:induction false} BroadcastSends(peers: map<nat, ServerPeer>, frames: seq<Frame>)
    ensures var after := BroadcastAll(peers, frames);
            && after.Keys == peers.Keys
            && forall p :: p in peers ==>
                 after[p] == if peers[p].connected then peers[p].(sent := peers[p].sent + Stream(frames)) else peers[p]
    decreases |frames|
  {
    hide Encode;
    if frames != [] {
      var packet := Encode(frames[0]);
      BroadcastSends(Broadcast(peers, packet), frames[1..]);
      forall p | p in peers
        ensures peers[p].sent + packet + Stream(frames[1..]) == peers[p].sent + Stream(frames)
      {
      }
    }
  }

  /** A peer that was connected before anything was sent to it decodes exactly the frames that were broadcast. */
  lemma BroadcastIsDecoded(peers: map<nat, ServerPeer>, frames: seq<Frame>, p: nat)
    requires p in peers && peers[p].connected && peers[p].sent == [] && AllFit(frames, MAX_FRAME_PAYLOAD_SIZE)
    ensures var after := BroadcastAll(peers, frames);
            p in after && Scanned(after[p].sent, MAX_FRAME_PAYLOAD_SIZE) == Scan(frames, [], NoError, false)
  {
    hide BroadcastAll, Scanned, Stream, Encode;
    BroadcastSends(peers, frames);
    assert BroadcastAll(peers, frames)[p].sent == Stream(frames);
    ScannedStream(frames, MAX_FRAME_PAYLOAD_SIZE);
  }

  /** The operating system's end of the connection: it takes `room` more bytes for now. */
  class TcpSocket {
    var unconnected: bool
    var connected: bool
    /** The connection is asked to close. */
    var closing: bool
    var broken: bool
    var room: nat
    var sent: seq<byte>

    method DisconnectFromHost()
      modifies this`closing
      ensures closing
    {
      closing := true;
    }

    method Write(chunk: seq<byte>) returns (written: int)
      modifies this`room, this`sent
      ensures broken ==> written == -1 && room == old(room) && sent == old(sent)
      ensures !broken ==> written == (if |chunk| < old(room) then |chunk| else old(room))
      ensures !broken ==> sent == old(sent) + chunk[..written] && room == old(room) - written
    {
      if broken {
        return -1;
      }
      written := if |chunk| < room then |chunk| else room;
      sent := sent + chunk[..written];
      room := room - written;
    }
  }

  class P2PSocket {
    const socket: TcpSocket
    var state: P2PState
    var readBuffer: seq<byte>
    var outgoingQueue: seq<seq<byte>>
    var queuedBytes: int
    var serverPeers: map<nat, ServerPeer>
    /** The frames signalled to the controllers, in order. */
    var received: seq<Frame>

    ghost predicate Valid()
      reads this
    {
      queuedBytes == |Flat(outgoingQueue)|
    }

    constructor (socket: TcpSocket)
      ensures Valid() && this.socket == socket && state == Disconnected
      ensures readBuffer == [] && outgoingQueue == [] && serverPeers == map[] && received == []
    {
      this.socket := socket;
      state, readBuffer, outgoingQueue, queuedBytes := Disconnected, [], [], 0;
      serverPeers, received := map[], [];
    }

    method ConnectToPeer()
      modifies this`state, this`readBuffer, this`outgoingQueue, this`queuedBytes, socket`closing
      ensures Valid() && state == Connecting && readBuffer == [] && outgoingQueue == []
      ensures socket.closing == (old(socket.closing)
                || ((old(state) == Connected || old(state) == Connecting) && !socket.unconnected))
    {
      if state == Connected || state == Connecting {
        DisconnectFromPeer();
      }
      readBuffer, outgoingQueue, queuedBytes := [], [], 0;
      state := Connecting;
    }

    method DisconnectFromPeer()
      modifies this`state, socket`closing
      ensures state == if old(state) == Disconnected then Disconnected else Closing
      ensures socket.closing == (old(socket.closing)
                || (old(state) != Disconnected && old(state) != Closing && !socket.unconnected))
    {
      if state != Disconnected && state != Closing {
        state := Closing;
        if !socket.unconnected {
          socket.DisconnectFromHost();
        }
      }
    }

    method OnSocketConnected()
      requires Valid()
      modifies this`state, this`outgoingQueue, this`queuedBytes, socket`room, socket`sent
      ensures Valid() && state == Connected
      ensures socket.sent + Flat(outgoingQueue) == old(socket.sent + Flat(outgoingQueue))
      ensures socket.connected && !socket.broken ==>
                var f := Flushed(old(outgoingQueue), old(socket.room));
                outgoingQueue == f.queue && socket.sent == old(socket.sent) + f.written
    {
      state := Connected;
      FlushConserves(outgoingQueue, socket.room);
      FlushWriteQueue();
    }

    method OnSocketDisconnected()
      modifies this`state, this`readBuffer, this`outgoingQueue, this`queuedBytes
      ensures Valid() && state == Disconnected && readBuffer == [] && outgoingQueue == []
    {
      state := Disconnected;
      readBuffer, outgoingQueue, queuedBytes := [], [], 0;
    }

    method FlushWriteQueue()
      requires Valid()
      modifies this`outgoingQueue, this`queuedBytes, socket`room, socket`sent
      ensures Valid()
      ensures !socket.connected || socket.broken ==>
                outgoingQueue == old(outgoingQueue) && socket.sent == old(socket.sent)
      ensures socket.connected && !socket.broken ==>
                var f := Flushed(old(outgoingQueue), old(socket.room));
                outgoingQueue == f.queue && socket.sent == old(socket.sent) + f.written
    {
      while outgoingQueue != [] && socket.connected
        invariant Valid()
        invariant !socket.connected || socket.broken ==>
                    outgoingQueue == old(outgoingQueue) && socket.sent == old(socket.sent)
        invariant socket.connected && !socket.broken ==>
                    var f, g := Flushed(old(outgoingQueue), old(socket.room)), Flushed(outgoingQueue, socket.room);
                    f.queue == g.queue && old(socket.sent) + f.written == socket.sent + g.written
        decreases |outgoingQueue|
      {
        var chunk := outgoingQueue[0];
        var written := socket.Write(chunk);
        if written < 0 {
          break;
        }
        if written == |chunk| {
          outgoingQueue := outgoingQueue[1..];
          queuedBytes := queuedBytes - written;
        } else if written > 0 {
          ghost var tail := outgoingQueue[1..];
          outgoingQueue := outgoingQueue[0 := chunk[written..]];
          queuedBytes := queuedBytes - written;
          assert outgoingQueue[1..] == tail && outgoingQueue == [chunk[written..]] + tail;
          break;
        } else {
          assert chunk[0..] == chunk && outgoingQueue == [chunk] + outgoingQueue[1..];
          break;
        }
      }
    }

    /** Queue and flush on the client connection, and write to every accepted one. */
    method SendFrame(frame: Frame) returns (ok: bool)
      requires Valid()
      modifies this`outgoingQueue, this`queuedBytes, this`serverPeers, socket`room, socket`sent
      ensures Valid()
      ensures var packet := Encode(frame);
              var open := state == Connected && socket.connected;
              var full := |Flat(old(outgoingQueue))| + |packet| > MAX_OUTGOING_QUEUE_SIZE;
              && (open && full ==>
                    !ok && outgoingQueue == old(outgoingQueue) && socket.sent == old(socket.sent)
                    && serverPeers == old(serverPeers))
              && (!(open && full) ==>
                    && ok == (open || AnyConnected(old(serverPeers)))
                    && serverPeers == Broadcast(old(serverPeers), packet))
              && (open && !full && socket.broken ==>
                    outgoingQueue == old(outgoingQueue) + [packet] && socket.sent == old(socket.sent))
              && (open && !full && !socket.broken ==>
                    var f := Flushed(old(outgoingQueue) + [packet], old(socket.room));
                    outgoingQueue == f.queue && socket.sent == old(socket.sent) + f.written)
              && (!open ==> outgoingQueue == old(outgoingQueue) && socket.sent == old(socket.sent))
    {
      var packet := Encode(frame);
      var sentAny := false;
      if state == Connected && socket.connected {
        if queuedBytes + |packet| <= MAX_OUTGOING_QUEUE_SIZE {
          FlatAppend(outgoingQueue, packet);
          outgoingQueue := outgoingQueue + [packet];
          queuedBytes := queuedBytes + |packet|;
          FlushWriteQueue();
          sentAny := true;
        } else {
          return false;
        }
      }
      var reached := WriteToServerPeers(packet);
      ok := sentAny || reached;
    }

    /** The loop over accepted connections; what the socket makes of each write is not looked at. */
    method WriteToServerPeers(packet: seq<byte>) returns (reached: bool)
      modifies this`serverPeers
      ensures serverPeers == Broadcast(old(serverPeers), packet)
      ensures reached == AnyConnected(old(serverPeers))
    {
      reached := false;
      var pending := serverPeers.Keys;
      while pending != {}
        invariant serverPeers.Keys == old(serverPeers).Keys && pending <= serverPeers.Keys
        invariant forall p :: p in pending ==> serverPeers[p] == old(serverPeers)[p]
        invariant forall p :: p in serverPeers && p !in pending ==>
                                serverPeers[p] == Broadcast(old(serverPeers), packet)[p]
        invariant reached == exists p :: p in old(serverPeers) && p !in pending && old(serverPeers)[p].connected
        decreases pending
      {
        var p :| p in pending;
        if serverPeers[p].connected {
          serverPeers := serverPeers[p := serverPeers[p].(sent := serverPeers[p].sent + packet)];
          reached := true;
        }
        pending := pending - {p};
      }
    }

    method OnSocketReadyRead(data: seq<byte>) returns (error: StreamError)
      modifies this`readBuffer, this`received
      ensures var s := Received(old(readBuffer) + data, MAX_FRAME_PAYLOAD_SIZE);
              readBuffer == s.rest && received == old(received) + s.frames && error == s.error
    {
      readBuffer := readBuffer + data;
      var frames;
      readBuffer, frames, error := ProcessStreamBuffer(readBuffer, MAX_FRAME_PAYLOAD_SIZE);
      received := received + frames;
    }

    /** Each accepted connection is decoded in its own buffer. */
    method OnServerPeerReadyRead(peer: nat, data: seq<byte>) returns (error: StreamError)
      modifies this`serverPeers, this`received
      ensures peer !in old(serverPeers) ==>
                serverPeers == old(serverPeers) && received == old(received) && error == NoError
      ensures peer in old(serverPeers) ==>
                var before := old(serverPeers)[peer];
                var s := Received(before.buffer + data, MAX_FRAME_PAYLOAD_SIZE);
                && serverPeers == old(serverPeers)[peer := before.(buffer := s.rest)]
                && received == old(received) + s.frames && error == s.error
    {
      if peer !in serverPeers {
        return NoError;
      }
      var buffer, frames;
      buffer, frames, error := ProcessStreamBuffer(serverPeers[peer].buffer + data, MAX_FRAME_PAYLOAD_SIZE);
      serverPeers := serverPeers[peer := serverPeers[peer].(buffer := buffer)];
      received := received + frames;
    }
  }
}
