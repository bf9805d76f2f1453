/** A TCP socket wrapper: an OS descriptor (-1 for none), a host, a port and a
    kind tag. Every client operation (recv, send, connect) and every server
    operation (bind, listen, accept) first creates the descriptor lazily and
    then checks the kind, or sets it when it is still UNKNOWN.

    The operating system is not modelled: each system call is a parameter
    holding the value the call returned. The behaviour of each operation is
    given by a step function over SocketState values. The class TcpSocket
    updates its fields in place and is proved against those functions. */
module TcpSockets {
  import opened Outcomes

  newtype u16 = x: int | 0 <= x < 0x1_0000
  newtype u32 = x: int | 0 <= x < 0x1_0000_0000

  /** The descriptor value that stands for "no OS socket". */
  const NoFd: int := -1

  /** 2^64: the range of std::size_t on the 64-bit hosts the model assumes. */
  const SizeModulus: int := 0x1_0000_0000_0000_0000

  datatype Kind = Unknown | Client | Server

  datatype SocketState = SocketState(fd: int, host: string, port: u32, kind: Kind)

  /** The state a socket is left in by an operation, and what the operation reports. */
  datatype Transition<+T> = Transition(next: SocketState, result: Result<T>)

  /** The state of a default-constructed socket. */
  function Initial(): (r: SocketState)
    ensures r.fd == NoFd && r.host == "" && r.port == 0 && r.kind == Unknown
  {
    SocketState(NoFd, "", 0, Unknown)
  }

  /** The state after close, and the state a move leaves behind in its source:
      no descriptor, kind UNKNOWN, host and port kept. */
  function Released(s: SocketState): (r: SocketState)
    ensures r.fd == NoFd && r.kind == Unknown
    ensures r.host == s.host && r.port == s.port
  {
    s.(fd := NoFd, kind := Unknown)
  }

  /** Whether a socket of kind k may run an operation of family t. */
  predicate Allows(k: Kind, t: Kind) {
    k == Unknown || k == t
  }

  /** create_socket_if_necessary, where osFd is what socket() would return. */
  function CreateIfNecessary(s: SocketState, osFd: int): (tr: Transition<()>)
    ensures tr.next.host == s.host && tr.next.port == s.port
    ensures s.fd != NoFd ==> tr == Transition(s, Ok(()))
    ensures s.fd == NoFd ==> tr.next.fd == osFd && tr.next.kind == Unknown
    ensures tr.result.Ok? <==> tr.next.fd != NoFd
    ensures tr.result.Err? ==> tr.result.error == SocketFailure
  {
    if s.fd != NoFd then Transition(s, Ok(()))
    else
      var created := s.(fd := osFd, kind := Unknown);
      if osFd == NoFd then Transition(created, Err(SocketFailure))
      else Transition(created, Ok(()))
  }

  /** check_or_set_type: fails, changing nothing, when the socket already has
      the other kind; otherwise records t as the kind. */
  function CheckOrSetTypeStep(s: SocketState, t: Kind): (tr: Transition<()>)
    ensures tr.result.Err? <==> s.kind != Unknown && s.kind != t
    ensures tr.result.Ok? ==> tr.next == s.(kind := t)
    ensures tr.result.Err? ==> tr == Transition(s, Err(InvalidOperation))
  {
    if s.kind != Unknown && s.kind != t then Transition(s, Err(InvalidOperation))
    else Transition(s.(kind := t), Ok(()))
  }

  /** The preamble every client or server operation runs: create the
      descriptor if there is none, then check or set the kind. A socket
      without a descriptor has its kind reset, so only the descriptor
      creation can fail for it. */
  function PrepareStep(s: SocketState, osFd: int, t: Kind): (tr: Transition<()>)
    ensures tr.next.host == s.host && tr.next.port == s.port
    ensures tr.result.Ok? <==> if s.fd == NoFd then osFd != NoFd else Allows(s.kind, t)
    ensures tr.result.Ok? ==> tr.next.fd != NoFd && tr.next.kind == t
    ensures s.fd != NoFd ==> tr.next.fd == s.fd
    ensures s.fd == NoFd && osFd != NoFd ==> tr == Transition(s.(fd := osFd, kind := t), Ok(()))
    ensures s.fd == NoFd && osFd == NoFd ==> tr == Transition(s.(kind := Unknown), Err(SocketFailure))
    ensures s.fd != NoFd && !Allows(s.kind, t) ==> tr == Transition(s, Err(InvalidOperation))
  {
    var created := CreateIfNecessary(s, osFd);
    if created.result.Err? then created
    else CheckOrSetTypeStep(created.next, t)
  }

  /** The buffer recv returns: size_to_read characters, zero-initialised,
      with the characters the OS delivered written over its head. */
  function Received(size: nat, delivered: seq<char>): (data: seq<char>)
    ensures |data| == size
    ensures forall i :: 0 <= i < size ==> data[i] == if i < |delivered| then delivered[i] else '\0'
  {
    if size <= |delivered| then delivered[..size]
    else delivered + seq(size - |delivered|, _ => '\0')
  }

  /** ::send returns an ssize_t; send returns it as a std::size_t. */
  function AsSize(n: int): (r: nat)
    ensures r < SizeModulus
    ensures 0 <= n < SizeModulus ==> r == n
  {
    n % SizeModulus
  }

  /** recv: rdSize is what ::recv returned, delivered what it wrote. */
  function RecvStep(s: SocketState, osFd: int, size: nat, rdSize: int, delivered: seq<char>): (tr: Transition<seq<char>>)
    ensures tr.next == PrepareStep(s, osFd, Client).next
    ensures tr.result.Ok? <==> PrepareStep(s, osFd, Client).result.Ok? && rdSize != -1 && rdSize != 0
    ensures tr.result.Ok? ==> |tr.result.value| == size && tr.next.kind == Client
    ensures tr.result.Ok? ==> tr.result.value == Received(size, delivered)
    ensures PrepareStep(s, osFd, Client).result.Ok? && rdSize == 0 ==> tr.result == Err(PeerClosed)
    ensures PrepareStep(s, osFd, Client).result.Ok? && rdSize == -1 ==> tr.result == Err(RecvFailure)
    ensures PrepareStep(s, osFd, Client).result.Err? ==> tr.result == Err(PrepareStep(s, osFd, Client).result.error)
  {
    var p := PrepareStep(s, osFd, Client);
    if p.result.Err? then Transition(p.next, Err(p.result.error))
    else if rdSize == -1 then Transition(p.next, Err(RecvFailure))
    else if rdSize == 0 then Transition(p.next, Err(PeerClosed))
    else Transition(p.next, Ok(Received(size, delivered)))
  }

  /** send: wrSize is what ::send returned. */
  function SendStep(s: SocketState, osFd: int, wrSize: int): (tr: Transition<nat>)
    ensures tr.next == PrepareStep(s, osFd, Client).next
    ensures tr.result.Ok? <==> PrepareStep(s, osFd, Client).result.Ok? && wrSize != -1
    ensures tr.result.Ok? ==> tr.next.kind == Client
    ensures tr.result.Ok? && 0 <= wrSize < SizeModulus ==> tr.result.value == wrSize
    ensures PrepareStep(s, osFd, Client).result.Ok? && wrSize == -1 ==> tr.result == Err(SendFailure)
    ensures PrepareStep(s, osFd, Client).result.Err? ==> tr.result == Err(PrepareStep(s, osFd, Client).result.error)
  {
    var p := PrepareStep(s, osFd, Client);
    if p.result.Err? then Transition(p.next, Err(p.result.error))
    else if wrSize == -1 then Transition(p.next, Err(SendFailure))
    else Transition(p.next, Ok(AsSize(wrSize)))
  }

  /** connect: resolved says whether gethostbyname found the host, rc is what
      ::connect returned. The host and port are not recorded in the socket. */
  function ConnectStep(s: SocketState, osFd: int, resolved: bool, rc: int): (tr: Transition<()>)
    ensures tr.next == PrepareStep(s, osFd, Client).next
    ensures tr.next.host == s.host && tr.next.port == s.port
    ensures tr.result.Ok? <==> PrepareStep(s, osFd, Client).result.Ok? && resolved && rc != -1
    ensures tr.result.Ok? ==> tr.next.kind == Client
    ensures PrepareStep(s, osFd, Client).result.Ok? && !resolved ==> tr.result == Err(HostNotFound)
    ensures PrepareStep(s, osFd, Client).result.Ok? && resolved && rc == -1 ==> tr.result == Err(ConnectFailure)
    ensures PrepareStep(s, osFd, Client).result.Err? ==> tr.result == Err(PrepareStep(s, osFd, Client).result.error)
  {
    var p := PrepareStep(s, osFd, Client);
    if p.result.Err? then p
    else if !resolved then Transition(p.next, Err(HostNotFound))
    else if rc == -1 then Transition(p.next, Err(ConnectFailure))
    else Transition(p.next, Ok(()))
  }

  /** bind: resolved says whether gethostbyname found the host, rc is what
      ::bind returned. The host and port are not recorded in the socket. */
  function BindStep(s: SocketState, osFd: int, resolved: bool, rc: int): (tr: Transition<()>)
    ensures tr.next == PrepareStep(s, osFd, Server).next
    ensures tr.next.host == s.host && tr.next.port == s.port
    ensures tr.result.Ok? <==> PrepareStep(s, osFd, Server).result.Ok? && resolved && rc != -1
    ensures tr.result.Ok? ==> tr.next.kind == Server
    ensures PrepareStep(s, osFd, Server).result.Ok? && !resolved ==> tr.result == Err(HostNotFound)
    ensures PrepareStep(s, osFd, Server).result.Ok? && resolved && rc == -1 ==> tr.result == Err(BindFailure)
    ensures PrepareStep(s, osFd, Server).result.Err? ==> tr.result == Err(PrepareStep(s, osFd, Server).result.error)
  {
    var p := PrepareStep(s, osFd, Server);
    if p.result.Err? then p
    else if !resolved then Transition(p.next, Err(HostNotFound))
    else if rc == -1 then Transition(p.next, Err(BindFailure))
    else Transition(p.next, Ok(()))
  }

  /** listen: rc is what ::listen returned. */
  function ListenStep(s: SocketState, osFd: int, rc: int): (tr: Transition<()>)
    ensures tr.next == PrepareStep(s, osFd, Server).next
    ensures tr.result.Ok? <==> PrepareStep(s, osFd, Server).result.Ok? && rc != -1
    ensures tr.result.Ok? ==> tr.next.kind == Server
    ensures PrepareStep(s, osFd, Server).result.Ok? && rc == -1 ==> tr.result == Err(ListenFailure)
    ensures PrepareStep(s, osFd, Server).result.Err? ==> tr.result == Err(PrepareStep(s, osFd, Server).result.error)
  {
    var p := PrepareStep(s, osFd, Server);
    if p.result.Err? then p
    else if rc == -1 then Transition(p.next, Err(ListenFailure))
    else Transition(p.next, Ok(()))
  }

  /** Byte swap of a 16-bit value. */
  function ByteSwap(x: u16): (r: u16)
    ensures r as int % 0x100 == x as int / 0x100 && r as int / 0x100 == x as int % 0x100
  {
    ((x as int % 0x100) * 0x100 + x as int / 0x100) as u16
  }

  /** htons and ntohs on the little-endian host the model assumes: both swap
      the two bytes. */
  function NetworkOrder(x: u16): (r: u16)
    ensures ByteSwap(r) == x
  {
    ByteSwapInvolution(x);
    ByteSwap(x)
  }

  lemma ByteSwapInvolution(x: u16)
    ensures ByteSwap(ByteSwap(x)) == x
  {
    var lo, hi := x as int % 0x100, x as int / 0x100;
    var y := lo * 0x100 + hi;
    assert y % 0x100 == hi && y / 0x100 == lo;
  }

  /** The port accept records, as written: sockaddr_in.sin_port, which holds
      the peer's port in network byte order, stored without conversion. */
  function AcceptedPortAsWritten(peerPort: u16): (r: u32)
    ensures r < 0x1_0000 && NetworkOrder(r as u16) == peerPort
  {
    NetworkOrder(peerPort) as u32
  }

  lemma AcceptedPortAsWrittenIsSwapped()
    ensures AcceptedPortAsWritten(8080) == 36895
    ensures AcceptedPortAsWritten(8080) != 8080
  {
    assert ByteSwap(8080) == 36895;
  }

  /** The port accept records once sin_port is converted back with ntohs. */
  function AcceptedPort(peerPort: u16): (r: u32)
    ensures r == peerPort as u32
  {
    ByteSwapInvolution(peerPort);
    NetworkOrder(NetworkOrder(peerPort)) as u32
  }

  /** accept: clientFd is what ::accept returned for a peer at peerPort. The
      result is a client socket with no host recorded. */
  function AcceptStep(s: SocketState, osFd: int, clientFd: int, peerPort: u16): (tr: Transition<SocketState>)
    ensures tr.next == PrepareStep(s, osFd, Server).next
    ensures tr.result.Ok? <==> PrepareStep(s, osFd, Server).result.Ok? && clientFd != NoFd
    ensures tr.result.Ok? ==> tr.next.kind == Server
    ensures tr.result.Ok? ==> tr.result.value == SocketState(clientFd, "", peerPort as u32, Client)
    ensures PrepareStep(s, osFd, Server).result.Ok? && clientFd == NoFd ==> tr.result == Err(AcceptFailure)
    ensures PrepareStep(s, osFd, Server).result.Err? ==> tr.result == Err(PrepareStep(s, osFd, Server).result.error)
  {
    var p := PrepareStep(s, osFd, Server);
    if p.result.Err? then Transition(p.next, Err(p.result.error))
    else if clientFd == NoFd then Transition(p.next, Err(AcceptFailure))
    else Transition(p.next, Ok(SocketState(clientFd, "", AcceptedPort(peerPort), Client)))
  }

  /** operator==: two sockets are equal when they have the same descriptor and kind. */
  predicate Same(a: SocketState, b: SocketState) {
    a.fd == b.fd && a.kind == b.kind
  }

  // ---------------------------------------------------------------------
  // Properties of the kind discipline
  // ---------------------------------------------------------------------

  /** Repeating a successful check_or_set_type with the same kind succeeds
      and changes nothing. */
  lemma CheckOrSetTypeIdempotent(s: SocketState, t: Kind)
    requires CheckOrSetTypeStep(s, t).result.Ok?
    ensures CheckOrSetTypeStep(CheckOrSetTypeStep(s, t).next, t) == CheckOrSetTypeStep(s, t)
  {
  }

  /** create_socket_if_necessary is idempotent once it has succeeded, whatever
      socket() would return the second time. */
  lemma CreateIfNecessaryIdempotent(s: SocketState, osFd: int, osFd2: int)
    requires CreateIfNecessary(s, osFd).result.Ok?
    ensures CreateIfNecessary(CreateIfNecessary(s, osFd).next, osFd2)
         == Transition(CreateIfNecessary(s, osFd).next, Ok(()))
  {
  }

  /** A socket that has run a client operation rejects every server operation,
      with InvalidOperation and without any change, and conversely. */
  lemma FamiliesExclude(s: SocketState, osFd: int, resolved: bool, rc: int, clientFd: int, peerPort: u16,
                        size: nat, rdSize: int, delivered: seq<char>, wrSize: int)
    requires s.fd != NoFd
    ensures s.kind == Client ==>
      BindStep(s, osFd, resolved, rc) == Transition(s, Err(InvalidOperation)) &&
      ListenStep(s, osFd, rc) == Transition(s, Err(InvalidOperation)) &&
      AcceptStep(s, osFd, clientFd, peerPort) == Transition(s, Err(InvalidOperation))
    ensures s.kind == Server ==>
      ConnectStep(s, osFd, resolved, rc) == Transition(s, Err(InvalidOperation)) &&
      SendStep(s, osFd, wrSize) == Transition(s, Err(InvalidOperation)) &&
      RecvStep(s, osFd, size, rdSize, delivered) == Transition(s, Err(InvalidOperation))
  {
  }

  /** After a successful client operation the socket is a CLIENT socket with a
      descriptor, and a following server operation is refused. */
  lemma ClientUseLocksKind(s: SocketState, osFd: int, resolved: bool, rc: int, osFd2: int, rc2: int)
    requires ConnectStep(s, osFd, resolved, rc).result.Ok?
    ensures ConnectStep(s, osFd, resolved, rc).next.kind == Client
    ensures ListenStep(ConnectStep(s, osFd, resolved, rc).next, osFd2, rc2).result == Err(InvalidOperation)
  {
  }

  /** After a successful server operation the socket is a SERVER socket with a
      descriptor, and a following client operation is refused. */
  lemma ServerUseLocksKind(s: SocketState, osFd: int, resolved: bool, rc: int, osFd2: int, wrSize: int)
    requires BindStep(s, osFd, resolved, rc).result.Ok?
    ensures BindStep(s, osFd, resolved, rc).next.kind == Server
    ensures SendStep(BindStep(s, osFd, resolved, rc).next, osFd2, wrSize).result == Err(InvalidOperation)
  {
  }

  /** close resets the discipline: after it, an operation of either family may
      proceed as soon as socket() yields a descriptor. */
  lemma CloseReopens(s: SocketState, osFd: int, t: Kind)
    requires osFd != NoFd
    ensures PrepareStep(Released(s), osFd, t).result.Ok?
    ensures PrepareStep(Released(s), osFd, t).next == s.(fd := osFd, kind := t)
  {
  }

  /** close is idempotent. */
  lemma ReleasedIdempotent(s: SocketState)
    ensures Released(Released(s)) == Released(s)
  {
  }

  /** operator== is an equivalence and ignores host and port: in particular all
      closed or moved-from sockets compare equal. */
  lemma SameIsEquivalence(a: SocketState, b: SocketState, c: SocketState)
    ensures Same(a, a)
    ensures Same(a, b) ==> Same(b, a)
    ensures Same(a, b) && Same(b, c) ==> Same(a, c)
    ensures Same(Released(a), Released(b))
  {
  }

  // ---------------------------------------------------------------------
  // The socket object
  // ---------------------------------------------------------------------

  class TcpSocket {
    var fd: int
    var host: string
    var port: u32
    var kind: Kind

    function State(): SocketState
      reads this
    {
      SocketState(fd, host, port, kind)
    }

    /** A socket with no descriptor, no host, port 0 and kind UNKNOWN. */
    constructor ()
      ensures State() == Initial()
    {
      fd, host, port, kind := NoFd, "", 0, Unknown;
    }

    /** A socket built from an existing descriptor. */
    constructor FromFd(fd: int, host: string, port: u32, t: Kind)
      ensures State() == SocketState(fd, host, port, t)
    {
      this.fd, this.host, this.port, this.kind := fd, host, port, t;
    }

    /** Move construction: the new socket takes over the descriptor, host, port
        and kind; the source is left without descriptor and of kind UNKNOWN. */
    constructor Move(source: TcpSocket)
      modifies source
      ensures State() == old(source.State())
      ensures source.State() == Released(old(source.State()))
      ensures Same(State(), old(source.State())) && Same(source.State(), Initial())
    {
      fd, host, port, kind := source.fd, source.host, source.port, source.kind;
      new;
      source.fd := NoFd;
      source.kind := Unknown;
    }

    method CreateSocketIfNecessary(osFd: int) returns (r: Result<()>)
      modifies this
      ensures Transition(State(), r) == CreateIfNecessary(old(State()), osFd)
    {
      if fd != NoFd {
        return Ok(());
      }
      fd := osFd;
      kind := Unknown;
      if fd == NoFd {
        return Err(SocketFailure);
      }
      return Ok(());
    }

    method CheckOrSetType(t: Kind) returns (r: Result<()>)
      modifies this
      ensures Transition(State(), r) == CheckOrSetTypeStep(old(State()), t)
    {
      if kind != Unknown && kind != t {
        return Err(InvalidOperation);
      }
      kind := t;
      return Ok(());
    }

    /** The shared preamble of the six operations. */
    method Prepare(osFd: int, t: Kind) returns (r: Result<()>)
      modifies this
      ensures Transition(State(), r) == PrepareStep(old(State()), osFd, t)
    {
      r := CreateSocketIfNecessary(osFd);
      if r.Ok? {
        r := CheckOrSetType(t);
      }
    }

    method Recv(sizeToRead: nat, osFd: int, rdSize: int, delivered: seq<char>) returns (r: Result<seq<char>>)
      modifies this
      ensures Transition(State(), r) == RecvStep(old(State()), osFd, sizeToRead, rdSize, delivered)
      ensures r.Ok? ==> |r.value| == sizeToRead && kind == Client
    {
      var ready := Prepare(osFd, Client);
      if ready.Err? {
        return Err(ready.error);
      }
      var data := Received(sizeToRead, delivered);
      if rdSize == -1 {
        return Err(RecvFailure);
      }
      if rdSize == 0 {
        return Err(PeerClosed);
      }
      return Ok(data);
    }

    method Send(data: seq<char>, sizeToWrite: nat, osFd: int, wrSize: int) returns (r: Result<nat>)
      modifies this
      ensures Transition(State(), r) == SendStep(old(State()), osFd, wrSize)
    {
      var ready := Prepare(osFd, Client);
      if ready.Err? {
        return Err(ready.error);
      }
      if wrSize == -1 {
        return Err(SendFailure);
      }
      return Ok(AsSize(wrSize));
    }

    method Connect(host: string, port: u32, osFd: int, resolved: bool, rc: int) returns (r: Result<()>)
      modifies this
      ensures Transition(State(), r) == ConnectStep(old(State()), osFd, resolved, rc)
    {
      r := Prepare(osFd, Client);
      if r.Err? {
        return;
      }
      if !resolved {
        return Err(HostNotFound);
      }
      if rc == -1 {
        return Err(ConnectFailure);
      }
    }

    method Bind(host: string, port: u32, osFd: int, resolved: bool, rc: int) returns (r: Result<()>)
      modifies this
      ensures Transition(State(), r) == BindStep(old(State()), osFd, resolved, rc)
    {
      r := Prepare(osFd, Server);
      if r.Err? {
        return;
      }
      if !resolved {
        return Err(HostNotFound);
      }
      if rc == -1 {
        return Err(BindFailure);
      }
    }

    method Listen(maxConnectionQueue: nat, osFd: int, rc: int) returns (r: Result<()>)
      modifies this
      ensures Transition(State(), r) == ListenStep(old(State()), osFd, rc)
    {
      r := Prepare(osFd, Server);
      if r.Err? {
        return;
      }
      if rc == -1 {
        return Err(ListenFailure);
      }
    }

    method Accept(osFd: int, clientFd: int, peerPort: u16) returns (r: Result<SocketState>)
      modifies this
      ensures Transition(State(), r) == AcceptStep(old(State()), osFd, clientFd, peerPort)
    {
      var ready := Prepare(osFd, Server);
      if ready.Err? {
        return Err(ready.error);
      }
      if clientFd == NoFd {
        return Err(AcceptFailure);
      }
      return Ok(SocketState(clientFd, "", AcceptedPort(peerPort), Client));
    }

    /** close: calls the OS close only when there is a descriptor, and always
        leaves the socket without descriptor and of kind UNKNOWN. */
    method Close() returns (osClosed: bool)
      modifies this
      ensures osClosed <==> old(fd) != NoFd
      ensures State() == Released(old(State()))
    {
      osClosed := fd != NoFd;
      fd := NoFd;
      kind := Unknown;
    }

    function GetHost(): (r: string)
      reads this
      ensures r == State().host
    {
      host
    }

    function GetPort(): (r: u32)
      reads this
      ensures r == State().port
    {
      port
    }

    function GetType(): (r: Kind)
      reads this
      ensures r == State().kind
    {
      kind
    }

    function GetFd(): (r: int)
      reads this
      ensures r == State().fd
    {
      fd
    }

    /** set_type: overrides the kind and nothing else. */
    method SetType(t: Kind)
      modifies this
      ensures State() == old(State()).(kind := t)
    {
      kind := t;
    }

    /** operator==: the descriptors and the kinds agree; host and port are
        not compared. */
    function Equals(other: TcpSocket): (r: bool)
      reads this, other
      ensures r <==> fd == other.fd && kind == other.kind
    {
      Same(State(), other.State())
    }

    /** operator!=: the negation of operator==. */
    function NotEquals(other: TcpSocket): (r: bool)
      reads this, other
      ensures r <==> fd != other.fd || kind != other.kind
    {
      !Equals(other)
    }
  }
}
