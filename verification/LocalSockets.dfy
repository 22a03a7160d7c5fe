/** LocalSocket: how sockets get connected to each other, and the bytes that flow between connected ones. */
module LocalSockets {
  import opened Basics
  import opened CircularBuffers
  import opened StreamData

  datatype SocketType = Stream | SeqPacket | Dgram

  datatype Direction = ReadOnly | WriteOnly | ReadWrite

  datatype ConnectState = New | Connecting | Connected | Listening

  datatype Errno = EAGAIN | EBADF | ECONNREFUSED | ECONNRESET | EINVAL | EISCONN | EMFILE | ENOSYS | EOPNOTSUPP

  datatype Result<+T> = Ok(value: T) | Err(error: Errno)

  const BUFFER_SIZE: nat := 224 * 1024

  class LocalSocket {
    /** What was sent to this socket and not received yet. */
    const buffer: CircularBuffer
    const socketType: SocketType
    const direction: Direction
    const blocking: bool
    var bound: bool
    var state: ConnectState
    var queue: seq<LocalSocket>
    var backlog: nat
    var peer: LocalSocket?
    var closed: bool
    /** All bytes that were ever put into the buffer, and all that were ever taken out. */
    ghost var accepted: seq<Byte>
    ghost var delivered: seq<Byte>

    constructor (socketType: SocketType, direction: Direction, blocking: bool)
      ensures this.socketType == socketType && this.direction == direction && this.blocking == blocking
      ensures state == New && queue == [] && peer == null && !closed && !bound
      ensures fresh(buffer) && fresh(buffer.buffer) && Flows() && accepted == []
    {
      this.socketType, this.direction, this.blocking := socketType, direction, blocking;
      state, queue, backlog, peer, closed, bound := New, [], 0, null, false, false;
      accepted, delivered := [], [];
      buffer := new CircularBuffer();
      new;
      if socketType == Stream && direction != WriteOnly {
        buffer.SetCapacity(BUFFER_SIZE);
      }
    }

    /** The buffer is sound and holds what was accepted and not delivered yet, in order. */
    ghost predicate Flows()
      reads this`accepted, this`delivered, buffer, buffer.buffer
    {
      && buffer.Valid() && delivered + buffer.Contents() == accepted
      && buffer.capacity == if socketType == Stream && direction != WriteOnly then BUFFER_SIZE else 0
    }

    /** What flows to this socket. */
    ghost function Incoming(): Channel
      requires Flows()
      reads this`accepted, this`delivered, this`peer, buffer, buffer.buffer
    {
      Channel(buffer.capacity, buffer.Contents(), accepted, delivered, peer != null)
    }

    method SetPeer(p: LocalSocket)
      modifies this`peer, this`state
      ensures peer == p && state == Connected
    {
      peer := p;
      state := Connected;
    }
  }

  // ----- Invariants of a set of sockets

  /** Peer links go both ways, within the world, between open sockets of one type that are connected, or went on to
      listen. */
  ghost predicate Symmetric(world: set<LocalSocket>)
    reads world`peer, world`closed, world`state
  {
    && (forall a :: a in world && a.peer != null ==> a.peer in world && a.peer.peer == a && a.peer != a)
    && (forall a :: a in world && a.peer != null ==> a.peer.socketType == a.socketType)
    && (forall a :: a in world && a.peer != null ==> !a.closed && (a.state == Connected || a.state == Listening))
  }

  ghost predicate Queued(l: LocalSocket, i: int, c: LocalSocket)
    reads l`queue
  {
    0 <= i < |l.queue| && l.queue[i] == c
  }

  /** A queued socket has no peer, and the type of the socket that it waits for. */
  ghost predicate QueuedAlone(world: set<LocalSocket>)
    reads world`queue, world`peer, world`state
  {
    forall l, i :: l in world && 0 <= i < |l.queue| ==>
      && l.queue[i] in world && l.queue[i].peer == null && l.queue[i].socketType == l.socketType
      && (l.queue[i].state == Connecting || l.queue[i].state == Listening)
  }

  /** A socket is queued in one place only. */
  ghost predicate QueuedOnce(world: set<LocalSocket>)
    reads world`queue
  {
    forall l, i, k, j ::
      l in world && k in world && 0 <= i < |l.queue| && 0 <= j < |k.queue| && l.queue[i] == k.queue[j] ==>
      l == k && i == j
  }

  /** An open socket that is connecting is queued. */
  ghost predicate ConnectingQueued(world: set<LocalSocket>)
    reads world`queue, world`state, world`closed
  {
    forall c :: c in world && c.state == Connecting && !c.closed ==> exists l, i :: l in world && Queued(l, i, c)
  }

  ghost predicate Pending(world: set<LocalSocket>)
    reads world`queue, world`peer, world`state, world`closed
  {
    QueuedAlone(world) && QueuedOnce(world) && ConnectingQueued(world)
  }

  /** No two sockets share a buffer. */
  ghost predicate OwnBuffers(world: set<LocalSocket>)
    reads (set s | s in world :: s.buffer)`buffer
  {
    forall s, t :: s in world && t in world && s != t ==> s.buffer != t.buffer && s.buffer.buffer != t.buffer.buffer
  }

  lemma OwnBuffer(world: set<LocalSocket>, s: LocalSocket)
    requires OwnBuffers(world) && s in world
    ensures forall t :: t in world && t != s ==> t.buffer != s.buffer && t.buffer.buffer != s.buffer.buffer
  {
  }

  /** Bytes flow through each socket, by a buffer of its own. */
  ghost predicate Flowing(world: set<LocalSocket>)
    reads world`accepted, world`delivered, set s | s in world :: s.buffer, set s | s in world :: s.buffer.buffer
  {
    OwnBuffers(world) && forall s :: s in world ==> s.Flows()
  }

  /** Sockets that wait for nothing and have nobody waiting can join. */
  lemma PendingGrows(world: set<LocalSocket>, more: set<LocalSocket>)
    requires Pending(world) && forall x :: x in more ==> x.queue == [] && x.state != Connecting
    ensures Pending(world + more)
  {
    forall c | c in world + more && c.state == Connecting && !c.closed
      ensures exists l, i :: l in world + more && Queued(l, i, c)
    {
      var l, i :| l in world && Queued(l, i, c);
      assert l in world + more;
    }
  }

  lemma SymmetricGrows(world: set<LocalSocket>, a: LocalSocket, b: LocalSocket)
    requires Symmetric(world) && a !in world && b !in world && a != b && a.socketType == b.socketType
    requires a.peer == b && b.peer == a && a.state == b.state == Connected && !a.closed && !b.closed
    ensures Symmetric(world + {a, b})
  {
  }

  /** socketpair and pipe: two new sockets, each the other's peer, with nothing in their buffers. */
  method MakePair(socketType: SocketType, dirA: Direction, dirB: Direction, blocking: bool,
                  ghost world: set<LocalSocket>)
    returns (a: LocalSocket, b: LocalSocket)
    requires Symmetric(world) && Pending(world) && Flowing(world)
    ensures fresh(a) && fresh(b) && a.peer == b && b.peer == a && a.state == b.state == Connected
    ensures fresh(a.buffer) && fresh(a.buffer.buffer) && fresh(b.buffer) && fresh(b.buffer.buffer)
    ensures a.socketType == b.socketType == socketType && a.direction == dirA && b.direction == dirB
    ensures Symmetric(world + {a, b}) && Pending(world + {a, b}) && Flowing(world + {a, b})
    ensures a.Incoming() == NewChannel(a) && b.Incoming() == NewChannel(b)
  {
    hide Symmetric, Pending, Flowing, LocalSocket.Flows, CircularBuffer.Valid, CircularBuffer.Contents;
    a := NewSocket(socketType, dirA, blocking, world);
    b := NewSocket(socketType, dirB, blocking, world + {a});
    assert world + {a} + {b} == world + {a, b};
    PairUp(a, b, world);
  }

  method PairUp(a: LocalSocket, b: LocalSocket, ghost world: set<LocalSocket>)
    requires Symmetric(world) && Pending(world) && a !in world && b !in world && a != b
    requires a.socketType == b.socketType && !a.closed && !b.closed && a.queue == [] && b.queue == []
    modifies a`peer, a`state, b`peer, b`state
    ensures a.peer == b && b.peer == a && a.state == b.state == Connected
    ensures Symmetric(world + {a, b}) && Pending(world + {a, b})
  {
    hide Symmetric, Pending;
    a.SetPeer(b);
    b.SetPeer(a);
    SymmetricGrows(world, a, b);
    PendingGrows(world, {a, b});
  }

  /** A socket that nobody knows yet joins the others. */
  method NewSocket(socketType: SocketType, direction: Direction, blocking: bool, ghost world: set<LocalSocket>)
    returns (s: LocalSocket)
    requires Flowing(world)
    ensures fresh(s) && fresh(s.buffer) && fresh(s.buffer.buffer)
    ensures s.socketType == socketType && s.direction == direction && s.blocking == blocking
    ensures s.state == New && s.queue == [] && s.peer == null && !s.closed && !s.bound
    ensures Flowing(world + {s}) && s.Flows() && s.Incoming() == NewChannel(s).(open := false)
  {
    s := new LocalSocket(socketType, direction, blocking);
    FlowingGrows(world, s);
  }

  ghost function NewChannel(s: LocalSocket): Channel {
    Channel(if s.socketType == Stream && s.direction != WriteOnly then BUFFER_SIZE else 0, [], [], [], true)
  }

  lemma FlowingGrows(world: set<LocalSocket>, s: LocalSocket)
    requires Flowing(world) && s.Flows()
    requires forall t :: t in world ==> t.buffer != s.buffer && t.buffer.buffer != s.buffer.buffer
    ensures Flowing(world + {s})
  {
  }

  /** The last reference to a socket's file goes: both ends of its link are cut, and what still flows to the peer is
      all that it will get. */
  method OnLastFileRef(s: LocalSocket, ghost world: set<LocalSocket>)
    requires s in world && Symmetric(world) && Pending(world) && Flowing(world)
    modifies s`closed, s`peer, (if s.peer != null then {s.peer} else {})`peer
    ensures s.closed && s.peer == null && Symmetric(world) && Pending(world) && Flowing(world)
    ensures old(s.peer) != null ==>
      var p := old(s.peer); p.peer == null && p in world && p.Incoming() == Step(old(p.Incoming()), Close)
  {
    hide Flowing, QueuedOnce, LocalSocket.Flows, CircularBuffer.Valid, CircularBuffer.Contents;
    FlowsIn(world);
    s.closed := true;
    if s.peer != null {
      s.peer.peer := null;
      s.peer := null;
    }
    forall c | c in world && c.state == Connecting && !c.closed ensures exists l, i :: l in world && Queued(l, i, c) {
      var l, i :| l in world && old(Queued(l, i, c));
      assert Queued(l, i, c);
    }
  }

  lemma FlowsIn(world: set<LocalSocket>)
    requires Flowing(world)
    ensures forall s :: s in world ==> s.Flows()
  {
  }

  method Listen(s: LocalSocket, backlog: nat, ghost world: set<LocalSocket>) returns (r: Result<()>)
    requires s in world && Symmetric(world) && Pending(world)
    modifies s`state, s`backlog
    ensures Symmetric(world) && Pending(world)
    ensures r.Ok? <==> s.socketType != Dgram && s.bound
    ensures r.Err? ==> r.error == if s.socketType == Dgram then EOPNOTSUPP else EINVAL
    ensures r.Ok? ==> s.state == Listening && s.backlog == backlog
    ensures r.Err? ==> s.state == old(s.state) && s.backlog == old(s.backlog)
  {
    if s.socketType == Dgram {
      return Err(EOPNOTSUPP);
    }
    if !s.bound {
      return Err(EINVAL);
    }
    s.state := Listening;
    s.backlog := backlog;
    forall c | c in world && c.state == Connecting && !c.closed ensures exists l, i :: l in world && Queued(l, i, c) {
      var l, i :| l in world && old(Queued(l, i, c));
      assert Queued(l, i, c);
    }
    return Ok(());
  }

  /** connect up to the wait for accept; `target` is the socket bound to the name, if any. The one thing that can go
      wrong is that the socket was connecting already: then it waits in two places. */
  method Connect(s: LocalSocket, target: LocalSocket?, ghost world: set<LocalSocket>) returns (r: Result<()>)
    requires s in world && !s.closed && (target != null ==> target in world)
    requires Symmetric(world) && Pending(world)
    modifies s`state, (if target != null then {target} else {})`queue
    ensures Symmetric(world)
    ensures r.Ok? && s.socketType != Dgram ==>
      target != null && target.queue == old(target.queue) + [s] && s.state == Connecting
    ensures r.Err? || s.socketType == Dgram ==>
      s.state == old(s.state) && (target != null ==> target.queue == old(target.queue))
    ensures r.Ok? <==>
      && old(s.state) in {New, Connecting} && target != null && target.socketType == s.socketType
      && (s.socketType == Dgram || (s.blocking && target.state == Listening && target.backlog != |old(target.queue)|))
    ensures Pending(world) <==> r.Err? || s.socketType == Dgram || old(s.state) != Connecting
    ensures r == Err(EISCONN) <==> old(s.state) in {Connected, Listening}
    ensures r == Err(ENOSYS) <==> old(s.state) in {New, Connecting} && s.socketType != Dgram && !s.blocking
    ensures r.Err? ==> r.error in {EISCONN, ENOSYS, ECONNREFUSED}
  {
    hide Symmetric, Pending;
    if s.state == Connected || s.state == Listening {
      return Err(EISCONN);
    }
    if s.socketType != Dgram && !s.blocking {
      return Err(ENOSYS);
    }
    if target == null {
      return Err(ECONNREFUSED);
    }
    if target.socketType != s.socketType {
      return Err(ECONNREFUSED);
    }
    if s.socketType == Dgram {
      return Ok(());
    }
    if target.state != Listening || target.backlog == |target.queue| {
      return Err(ECONNREFUSED);
    }
    Enqueue(s, target, world);
    return Ok(());
  }

  /** The client goes to the back of the listener's queue and starts to wait. */
  method Enqueue(s: LocalSocket, target: LocalSocket, ghost world: set<LocalSocket>)
    requires s in world && target in world && !s.closed && Symmetric(world) && Pending(world)
    requires s.state in {New, Connecting} && target.state == Listening && target.socketType == s.socketType
    modifies s`state, target`queue
    ensures target.queue == old(target.queue) + [s] && s.state == Connecting
    ensures Symmetric(world)
    ensures Pending(world) <==> old(s.state) != Connecting
  {
    hide Symmetric;
    target.queue := target.queue + [s];
    StartWaiting(s, world);
    assert Queued(target, |target.queue| - 1, s);
    if old(s.state) == Connecting {
      ghost var l, i :| l in world && old(Queued(l, i, s));
      assert l.queue[i] == target.queue[|target.queue| - 1];
    } else {
      assert QueuedAlone(world);
      assert QueuedOnce(world);
    }
    forall c | c in world && c.state == Connecting && !c.closed ensures exists l, i :: l in world && Queued(l, i, c) {
      if c != s {
        var l, i :| l in world && old(Queued(l, i, c));
        assert Queued(l, i, c);
      }
    }
  }

  method StartWaiting(s: LocalSocket, ghost world: set<LocalSocket>)
    requires s in world && !s.closed && s.state in {New, Connecting} && Symmetric(world)
    modifies s`state
    ensures s.state == Connecting && Symmetric(world)
  {
    s.state := Connecting;
  }

  method DropClosed(s: LocalSocket, ghost world: set<LocalSocket>)
    requires s in world && Symmetric(world) && Pending(world)
    requires s.queue != [] && s.queue[0].closed
    modifies s`queue
    ensures s.queue == old(s.queue)[1..] && Symmetric(world) && Pending(world)
  {
    s.queue := s.queue[1..];
    forall c | c in world && c.state == Connecting && !c.closed ensures exists l, i :: l in world && Queued(l, i, c) {
      var l, i :| l in world && old(Queued(l, i, c));
      assert Queued(l, if l == s then i - 1 else i, c);
    }
  }

  /** The loop of WaitForOpenedConnectToAccept drops the clients that were closed while they waited. */
  method SkipClosed(s: LocalSocket, ghost world: set<LocalSocket>) returns (ghost skipped: nat)
    requires s in world && Symmetric(world) && Pending(world)
    modifies s`queue
    ensures Symmetric(world) && Pending(world)
    ensures skipped <= |old(s.queue)| && s.queue == old(s.queue)[skipped..]
    ensures forall i :: 0 <= i < skipped ==> old(s.queue)[i].closed
    ensures s.queue != [] ==> !s.queue[0].closed
  {
    skipped := 0;
    while s.queue != [] && s.queue[0].closed
      invariant skipped <= |old(s.queue)| && s.queue == old(s.queue)[skipped..]
      invariant forall i :: 0 <= i < skipped ==> old(s.queue)[i].closed
      invariant Symmetric(world) && Pending(world)
      decreases |s.queue|
    {
      DropClosed(s, world);
      skipped := skipped + 1;
    }
  }

  /** accept, once the wait is over. A new server socket and the first client that is still open become peers. */
  method Accept(s: LocalSocket, haveDescriptor: bool, ghost world: set<LocalSocket>)
    returns (r: Result<LocalSocket>, ghost skipped: nat)
    requires s in world && Symmetric(world) && Pending(world) && Flowing(world)
    modifies s`queue, (set c | c in s.queue)`peer, (set c | c in s.queue)`state
    ensures skipped <= |old(s.queue)| && forall i :: 0 <= i < skipped ==> old(s.queue[i].closed)
    ensures r.Ok? ==>
      && fresh(r.value) && fresh(r.value.buffer) && fresh(r.value.buffer.buffer)
      && Symmetric(world + {r.value}) && Pending(world + {r.value}) && Flowing(world + {r.value})
      && r.value.Incoming() == NewChannel(r.value)
      && skipped < |old(s.queue)| && s.queue == old(s.queue)[skipped + 1..] && !old(s.queue[skipped].closed)
      && r.value.peer == old(s.queue)[skipped] && old(s.queue)[skipped].peer == r.value
      && r.value.state == old(s.queue)[skipped].state == Connected
      && r.value.socketType == s.socketType && r.value.direction == ReadWrite && r.value.blocking == s.blocking
    ensures forall c :: c in old(s.queue) && !(r.Ok? && c == r.value.peer) ==>
      c.peer == old(c.peer) && c.state == old(c.state)
    ensures r.Err? ==> Symmetric(world) && Pending(world) && s.queue == old(s.queue)[skipped..]
    ensures r.Ok? <==>
      && s.socketType != Dgram && old(s.state) == Listening && s.blocking && !s.closed && haveDescriptor
      && exists i :: 0 <= i < |old(s.queue)| && !old(s.queue[i].closed)
    ensures r == Err(EOPNOTSUPP) <==> s.socketType == Dgram
    ensures r == Err(EINVAL) <==> s.socketType != Dgram && old(s.state) != Listening
    ensures r == Err(ENOSYS) <==> s.socketType != Dgram && old(s.state) == Listening && !s.blocking
    ensures r == Err(EBADF) <==> s.socketType != Dgram && old(s.state) == Listening && s.blocking && s.closed
    ensures r == Err(EAGAIN) <==>
      && s.socketType != Dgram && old(s.state) == Listening && s.blocking && !s.closed
      && forall i :: 0 <= i < |old(s.queue)| ==> old(s.queue[i].closed)
    ensures r == Err(EAGAIN) ==> skipped == |old(s.queue)|
    ensures r.Err? ==> r.error in {EOPNOTSUPP, EINVAL, ENOSYS, EBADF, EAGAIN, EMFILE}
  {
    hide Symmetric, Pending, Flowing, LocalSocket.Flows, LocalSocket.Incoming;
    skipped := 0;
    if s.socketType == Dgram {
      return Err(EOPNOTSUPP), skipped;
    }
    if s.state != Listening {
      return Err(EINVAL), skipped;
    }
    if !s.blocking {
      return Err(ENOSYS), skipped;
    }
    skipped := SkipClosed(s, world);
    if s.closed {
      return Err(EBADF), skipped;
    }
    if s.queue == [] {
      return Err(EAGAIN), skipped;
    }
    r := ServeFront(s, haveDescriptor, world);
  }

  lemma FrontWaits(world: set<LocalSocket>, s: LocalSocket)
    requires Pending(world) && s in world && s.queue != []
    ensures s.queue[0] in world && s.queue[0].peer == null && s.queue[0].socketType == s.socketType
  {
  }

  /** Makes the server socket for the client at the front, if there is a descriptor for it. */
  method ServeFront(s: LocalSocket, haveDescriptor: bool, ghost world: set<LocalSocket>)
    returns (r: Result<LocalSocket>)
    requires s in world && Symmetric(world) && Pending(world) && Flowing(world)
    requires s.queue != [] && !s.queue[0].closed
    modifies s`queue, {s.queue[0]}`peer, {s.queue[0]}`state
    ensures if haveDescriptor then r.Ok? else r == Err(EMFILE)
    ensures r.Ok? ==>
      && fresh(r.value) && fresh(r.value.buffer) && fresh(r.value.buffer.buffer)
      && Symmetric(world + {r.value}) && Pending(world + {r.value}) && Flowing(world + {r.value})
      && r.value.Incoming() == NewChannel(r.value)
      && r.value.peer == old(s.queue)[0] && old(s.queue)[0].peer == r.value && s.queue == old(s.queue)[1..]
      && r.value.state == old(s.queue)[0].state == Connected
      && r.value.socketType == s.socketType && r.value.direction == ReadWrite && r.value.blocking == s.blocking
    ensures r.Err? ==>
      && Symmetric(world) && Pending(world) && s.queue == old(s.queue)
      && s.queue[0].peer == old(s.queue[0].peer) && s.queue[0].state == old(s.queue[0].state)
  {
    hide Symmetric, Pending, Flowing, LocalSocket.Flows, CircularBuffer.Valid, CircularBuffer.Contents;
    var server := NewSocket(s.socketType, ReadWrite, s.blocking, world);
    if !haveDescriptor {
      return Err(EMFILE);
    }
    var client := s.queue[0];
    FrontWaits(world, s);
    Link(s, client, server, world);
    PendingGrows(world, {server});
    return Ok(server);
  }

  /** Takes the client from the front of the queue and links it with a new server socket. Links stay symmetric exactly
      when the client had no peer. */
  method Link(s: LocalSocket, client: LocalSocket, server: LocalSocket, ghost world: set<LocalSocket>)
    requires s in world && client in world && server !in world && Symmetric(world)
    requires s.queue != [] && s.queue[0] == client && !client.closed
    requires !server.closed && server.peer == null && server.queue == [] && server.socketType == client.socketType
    modifies s`queue, client`peer, client`state, server`peer, server`state
    ensures server.peer == client && client.peer == server && server.state == client.state == Connected
    ensures s.queue == old(s.queue)[1..]
    ensures Symmetric(world + {server}) <==> old(client.peer) == null
    ensures old(Pending(world)) ==> Pending(world)
  {
    hide Symmetric;
    PopFront(s, world);
    SetPeers(client, server, world);
    if old(Pending(world)) {
      forall c | c in world && c.state == Connecting && !c.closed ensures exists l, i :: l in world && Queued(l, i, c) {
        var l, i :| l in world && old(Queued(l, i, c));
        assert Queued(l, if l == s then i - 1 else i, c);
      }
    }
  }

  method PopFront(s: LocalSocket, ghost world: set<LocalSocket>)
    requires s in world && s.queue != [] && Symmetric(world)
    modifies s`queue
    ensures s.queue == old(s.queue)[1..] && Symmetric(world)
  {
    s.queue := s.queue[1..];
  }

  method SetPeers(client: LocalSocket, server: LocalSocket, ghost world: set<LocalSocket>)
    requires client in world && server !in world && Symmetric(world)
    requires !client.closed && !server.closed && server.peer == null && server.socketType == client.socketType
    modifies client`peer, client`state, server`peer, server`state
    ensures server.peer == client && client.peer == server && server.state == client.state == Connected
    ensures Symmetric(world + {server}) <==> old(client.peer) == null
  {
    server.SetPeer(client);
    client.SetPeer(server);
    if old(client.peer) != null {
      assert old(client.peer) in world + {server} && old(client.peer).peer == client;
    }
  }

  /** A socket that connects again while it is connecting ends up with two server sockets that take it for their
      peer. */
  method ConnectTwice(client: LocalSocket, listener: LocalSocket, ghost world: set<LocalSocket>)
    returns (first: LocalSocket, second: LocalSocket)
    requires client in world && listener in world && Symmetric(world) && Pending(world)
    requires client.state == New && client.peer == null && !client.closed && client.blocking
    requires client.socketType == listener.socketType == Stream
    requires listener.state == Listening && listener.queue == [] && listener.backlog > 1
    modifies client, listener
    ensures first != second && first.peer == second.peer == client && !Symmetric(world + {first} + {second})
  {
    hide Symmetric, Pending, QueuedAlone, QueuedOnce, ConnectingQueued;
    hide LocalSocket.Flows, CircularBuffer.Valid, CircularBuffer.Contents;
    var connected := Connect(client, listener, world);
    connected := Connect(client, listener, world);
    first := new LocalSocket(Stream, ReadWrite, true);
    second := new LocalSocket(Stream, ReadWrite, true);
    assert listener.queue == [client, client];
    Link(listener, client, first, world);
    Link(listener, client, second, world + {first});
  }

  // ----- Stream data

  /** The loop of HandleSendmsgLocked. */
  method WriteAll(buffer: CircularBuffer, iov: seq<seq<Byte>>) returns (bytesSent: nat, bytesAttempted: nat)
    requires buffer.Valid()
    modifies buffer`end, buffer`size, buffer.buffer
    ensures buffer.Valid() && bytesAttempted == |Flat(iov)|
    ensures var accepted := Accepted(iov, buffer.capacity - old(buffer.size));
      bytesSent == |accepted| && buffer.Contents() == old(buffer.Contents()) + accepted
  {
    hide Ring, Accepted, Flat;
    bytesSent, bytesAttempted := 0, 0;
    ghost var was, room := buffer.Contents(), buffer.capacity - buffer.size;
    AcceptedNone(iov, room);
    for i := 0 to |iov|
      invariant buffer.Valid()
      invariant bytesAttempted == |Flat(iov[..i])| && bytesSent == |Accepted(iov[..i], room)| <= room
      invariant buffer.Contents() == was + Accepted(iov[..i], room)
    {
      FlatStep(iov, i);
      AcceptedStep(iov, i, room);
      bytesAttempted := bytesAttempted + |iov[i]|;
      var n := buffer.Write(iov[i]);
      bytesSent := bytesSent + n;
    }
    assert iov[..|iov|] == iov;
  }

  /** The stream path of HandleSendmsgLocked, on the receiving socket. */
  method HandleSendmsg(s: LocalSocket, iov: seq<seq<Byte>>) returns (r: Result<nat>)
    requires s.socketType == Stream && s.Flows()
    modifies s.buffer`end, s.buffer`size, s.buffer.buffer, s`accepted
    ensures s.Flows() && (s.peer != null ==> s.Incoming() == Step(old(s.Incoming()), Send(iov)))
    ensures r.Ok? ==> |s.accepted| == |old(s.accepted)| + r.value
    ensures r == Err(EAGAIN) <==> Flat(iov) != [] && s.accepted == old(s.accepted)
    ensures r.Err? ==> r == Err(EAGAIN)
  {
    hide Ring, Accepted, Flat;
    var bytesSent, bytesAttempted := WriteAll(s.buffer, iov);
    s.accepted := s.accepted + Accepted(iov, s.buffer.capacity - old(s.buffer.size));
    if bytesSent == 0 && bytesAttempted != 0 {
      return Err(EAGAIN);
    }
    return Ok(bytesSent);
  }

  predicate CanSend(s: LocalSocket)
    reads s`state, s`peer
  {
    s.direction != ReadOnly && s.state == Connected && s.peer != null
  }

  lemma PeerIsOpen(world: set<LocalSocket>, s: LocalSocket)
    requires Symmetric(world) && s in world && s.peer != null
    ensures s.peer in world && s.peer.peer == s && s.peer.socketType == s.socketType
  {
  }

  /** A send is a step of the channel to the peer, and of no other. */
  method SendMsg(s: LocalSocket, iov: seq<seq<Byte>>, ghost world: set<LocalSocket>) returns (r: Result<nat>)
    requires s in world && s.socketType == Stream && Symmetric(world) && Flowing(world)
    modifies if s.peer != null then {s.peer.buffer, s.peer.buffer.buffer} else {}
    modifies (if s.peer != null then {s.peer} else {})`accepted
    ensures Flowing(world)
    ensures s.direction == ReadOnly ==> r == Err(EBADF)
    ensures s.direction != ReadOnly && s.state != Connected ==> r == Err(EINVAL)
    ensures s.direction != ReadOnly && s.state == Connected && s.peer == null ==> r == Err(ECONNRESET)
    ensures CanSend(s) ==>
      && s.peer.Incoming() == Step(old(s.peer.Incoming()), Send(iov))
      && (r.Ok? ==> |s.peer.accepted| == |old(s.peer.accepted)| + r.value)
      && (r == Err(EAGAIN) <==> Flat(iov) != [] && s.peer.accepted == old(s.peer.accepted))
      && (r.Err? ==> r == Err(EAGAIN))
    ensures forall t :: t in world && !(CanSend(s) && t == s.peer) ==> t.Incoming() == old(t.Incoming())
  {
    hide Symmetric, OwnBuffers, LocalSocket.Flows, LocalSocket.Incoming, CircularBuffer.Valid, CircularBuffer.Contents;
    hide Step, Flat, Accepted;
    if s.peer != null {
      PeerIsOpen(world, s);
      OwnBuffer(world, s.peer);
    }
    if s.direction == ReadOnly {
      return Err(EBADF);
    }
    if s.state != Connected {
      return Err(EINVAL);
    }
    if s.peer != null {
      r := HandleSendmsg(s.peer, iov);
      return;
    }
    return Err(ECONNRESET);
  }

  /** The loop of recvmsg; `chunks` are the bytes put into each iovec it used. */
  method ReadInto(buffer: CircularBuffer, lengths: seq<nat>) returns (bytesRead: nat, chunks: seq<seq<Byte>>)
    requires buffer.Valid()
    modifies buffer`start, buffer`size
    ensures buffer.Valid() && bytesRead == |Flat(chunks)|
    ensures |chunks| <= |lengths| && forall i :: 0 <= i < |chunks| ==> |chunks[i]| <= lengths[i]
    ensures Flat(chunks) == Delivered(old(buffer.Contents()), lengths)
    ensures buffer.Contents() == old(buffer.Contents())[bytesRead..]
  {
    hide Ring, Delivered;
    ghost var was := buffer.Contents();
    bytesRead, chunks := 0, [];
    var i := 0;
    DeliveredNone(was, lengths);
    while i < |lengths| && buffer.size > 0
      invariant i == |chunks| <= |lengths| && forall j :: 0 <= j < i ==> |chunks[j]| <= lengths[j]
      invariant buffer.Valid() && bytesRead == |Flat(chunks)| <= |was|
      invariant Flat(chunks) == Delivered(was, lengths[..i])
      invariant buffer.Contents() == was[bytesRead..]
    {
      DeliveredStep(was, lengths, i);
      var data := buffer.Read(lengths[i]);
      assert (chunks + [data])[..|chunks|] == chunks;
      bytesRead, chunks, i := bytesRead + |data|, chunks + [data], i + 1;
    }
    if i < |lengths| {
      DeliveredAll(was, lengths, i);
    }
    assert lengths[..|lengths|] == lengths;
  }

  lemma TakenKeeps(delivered: seq<Byte>, contents: seq<Byte>, n: nat)
    requires n <= |contents|
    ensures (delivered + contents[..n]) + contents[n..] == delivered + contents
  {
  }

  method TakeOut(s: LocalSocket, lengths: seq<nat>) returns (bytesRead: nat, chunks: seq<seq<Byte>>)
    requires s.Flows()
    modifies s.buffer`start, s.buffer`size, s`delivered
    ensures s.Flows() && s.Incoming() == Step(old(s.Incoming()), Receive(lengths))
    ensures s.delivered == old(s.delivered) + Flat(chunks) && bytesRead == |Flat(chunks)|
    ensures |chunks| <= |lengths| && forall i :: 0 <= i < |chunks| ==> |chunks[i]| <= lengths[i]
  {
    hide Ring, Delivered, Flat, Sum, CircularBuffer.Valid, CircularBuffer.Contents;
    TakenKeeps(s.delivered, s.buffer.Contents(), |Delivered(s.buffer.Contents(), lengths)|);
    bytesRead, chunks := ReadInto(s.buffer, lengths);
    s.delivered := s.delivered + Flat(chunks);
  }

  /** The stream path of recvmsg, once it need not wait: a step of the channel to this socket, and of no other. */
  method RecvMsg(s: LocalSocket, lengths: seq<nat>, ghost world: set<LocalSocket>)
    returns (r: Result<nat>, chunks: seq<seq<Byte>>)
    requires s in world && s.socketType == Stream && Flowing(world)
    modifies s.buffer`start, s.buffer`size, s`delivered
    ensures Flowing(world)
    ensures |chunks| <= |lengths| && forall i :: 0 <= i < |chunks| ==> |chunks[i]| <= lengths[i]
    ensures s.delivered == old(s.delivered) + Flat(chunks)
    ensures s.direction == WriteOnly ==> r == Err(EBADF)
    ensures s.direction != WriteOnly && s.state != Connected ==> r == Err(EINVAL)
    ensures s.direction == WriteOnly || s.state != Connected ==> s.Incoming() == old(s.Incoming())
    ensures s.direction != WriteOnly && s.state == Connected ==>
      && s.Incoming() == Step(old(s.Incoming()), Receive(lengths))
      && r == if Flat(chunks) != [] then Ok(|Flat(chunks)|) else if s.peer == null then Ok(0) else Err(EAGAIN)
    ensures forall t :: t in world && t != s ==> t.Incoming() == old(t.Incoming())
  {
    hide OwnBuffers, LocalSocket.Flows, LocalSocket.Incoming, CircularBuffer.Valid, CircularBuffer.Contents, Step, Flat;
    OwnBuffer(world, s);
    chunks := [];
    if s.direction == WriteOnly {
      return Err(EBADF), chunks;
    }
    if s.state != Connected {
      return Err(EINVAL), chunks;
    }
    var bytesRead;
    bytesRead, chunks := TakeOut(s, lengths);
    if bytesRead > 0 {
      return Ok(bytesRead), chunks;
    }
    if s.peer == null {
      return Ok(0), chunks;
    }
    return Err(EAGAIN), chunks;
  }

  /** A send followed by a receive at the other end is two steps of the channel between them. */
  method SendThenReceive(a: LocalSocket, iov: seq<seq<Byte>>, lengths: seq<nat>, ghost world: set<LocalSocket>)
    returns (sent: Result<nat>, received: Result<nat>, chunks: seq<seq<Byte>>)
    requires a in world && a.socketType == Stream && Symmetric(world) && Flowing(world)
    requires CanSend(a) && a.peer.direction != WriteOnly && a.peer.state == Connected
    modifies a.peer.buffer, a.peer.buffer.buffer, a.peer`accepted, a.peer`delivered
    ensures Flowing(world)
    ensures a.peer.Incoming() == Step(Step(old(a.peer.Incoming()), Send(iov)), Receive(lengths))
    ensures old(a.peer.delivered) + Flat(chunks) == a.peer.delivered <= a.peer.accepted
    ensures sent.Ok? ==> |a.peer.accepted| == |old(a.peer.accepted)| + sent.value
    ensures sent.Err? ==> sent == Err(EAGAIN) && Flat(iov) != [] && a.peer.accepted == old(a.peer.accepted)
    ensures sent.Ok? && Flat(iov) != [] ==> a.peer.accepted != old(a.peer.accepted)
    ensures received == if Flat(chunks) != [] then Ok(|Flat(chunks)|) else Err(EAGAIN)
  {
    hide Symmetric, Flowing, LocalSocket.Flows, LocalSocket.Incoming, CircularBuffer.Valid, CircularBuffer.Contents;
    hide Step, Flat;
    PeerIsOpen(world, a);
    sent := SendMsg(a, iov, world);
    received, chunks := RecvMsg(a.peer, lengths, world);
    DeliveredIsAccepted(world, a.peer);
  }

  lemma DeliveredIsAccepted(world: set<LocalSocket>, s: LocalSocket)
    requires Flowing(world) && s in world
    ensures s.delivered <= s.accepted
  {
  }

  /** What is written to one end of a new pair or pipe is what the other end reads: the longest prefix that fits the
      buffer and the reader. */
  method PairDelivers(dirA: Direction, dirB: Direction, blocking: bool, iov: seq<seq<Byte>>, lengths: seq<nat>,
                      ghost world: set<LocalSocket>)
    returns (sent: Result<nat>, received: Result<nat>, chunks: seq<seq<Byte>>)
    requires Symmetric(world) && Pending(world) && Flowing(world) && dirA != ReadOnly && dirB != WriteOnly
    ensures Flat(chunks) == Delivered(Accepted(iov, BUFFER_SIZE), lengths)
    ensures sent == Ok(Min(|Flat(iov)|, 229376))
    ensures received == if Flat(chunks) != [] then Ok(|Flat(chunks)|) else Err(EAGAIN)
  {
    hide Symmetric, Pending, Flowing, LocalSocket.Flows, LocalSocket.Incoming, CircularBuffer.Valid;
    hide Flat, Accepted, Delivered, Step, CircularBuffer.Contents;
    var a, b := MakePair(Stream, dirA, dirB, blocking, world);
    FlowsIn(world + {a, b});
    IncomingIs(b);
    sent, received, chunks := SendThenReceive(a, iov, lengths, world + {a, b});
    FlowsIn(world + {a, b});
    IncomingIs(b);
    NewChannelDelivers(NewChannel(b), iov, lengths);
  }

  lemma NewChannelDelivers(c: Channel, iov: seq<seq<Byte>>, lengths: seq<nat>)
    requires c == Channel(BUFFER_SIZE, [], [], [], true)
    ensures var r := Step(Step(c, Send(iov)), Receive(lengths));
      && r.delivered == Delivered(Accepted(iov, BUFFER_SIZE), lengths) && r.accepted == Accepted(iov, BUFFER_SIZE)
      && |r.accepted| == Min(|Flat(iov)|, BUFFER_SIZE)
  {
    hide Flat, Sum, Delivered;
    assert [] + Accepted(iov, BUFFER_SIZE) == Accepted(iov, BUFFER_SIZE);
  }

  lemma IncomingIs(s: LocalSocket)
    requires s.Flows()
    ensures s.Incoming().delivered == s.delivered && s.Incoming().accepted == s.accepted
  {
  }
}
