/** A TCP server: a listening socket, a running flag, an optional admission
    callback and the ordered list of the clients it accepted.

    Clients are opaque objects: a fresh TcpClient is allocated for every
    accepted connection, so two list entries are the same client exactly
    when they are the same shared handle. Calling disconnect on a client the
    server accepted runs the disconnection handler the server installed on
    it, which is the server's own OnClientDisconnected. */
module TcpServers {
  import opened Outcomes
  import opened TcpSockets

  /** The backlog passed to listen. */
  const ConnectionQueueSize: nat := 1024

  /** A connected peer, built from the socket accept returned. */
  class TcpClient {
    const socket: SocketState

    constructor (socket: SocketState)
      ensures this.socket == socket
    {
      this.socket := socket;
    }
  }

  /** Whether the admission callback keeps a new client: always when there is
      no callback, otherwise when the callback says so. */
  predicate Admits(callback: Option<TcpClient -> bool>, client: TcpClient) {
    callback.None? || callback.value(client)
  }

  ghost predicate Distinct<T>(s: seq<T>) {
    forall i, j :: 0 <= i < j < |s| ==> s[i] != s[j]
  }

  /** The list with the first occurrence of x erased, as std::find followed
      by std::list::erase leaves it. */
  function RemoveFirst<T(==)>(s: seq<T>, x: T): (r: seq<T>)
    ensures x !in s ==> r == s
    ensures x in s ==> |r| == |s| - 1
    ensures multiset(r) == multiset(s) - multiset{x}
  {
    if s == [] then []
    else
      assert s == [s[0]] + s[1..];
      if s[0] == x then s[1..]
      else [s[0]] + RemoveFirst(s[1..], x)
  }

  /** std::find: the index of the first occurrence of x, or |s| when there is none. */
  method Find<T(==)>(s: seq<T>, x: T) returns (i: nat)
    ensures i <= |s|
    ensures i < |s| ==> s[i] == x
    ensures forall j :: 0 <= j < i ==> s[j] != x
  {
    i := 0;
    while i < |s| && s[i] != x
      invariant i <= |s|
      invariant forall j :: 0 <= j < i ==> s[j] != x
    {
      i := i + 1;
    }
  }

  /** Erasing at the first occurrence removes exactly that element and keeps
      the others in their order. */
  lemma {:induction false} RemoveFirstAt<T>(s: seq<T>, x: T, i: nat)
    requires i < |s| && s[i] == x
    requires forall j :: 0 <= j < i ==> s[j] != x
    ensures RemoveFirst(s, x) == s[..i] + s[i + 1..]
  {
    if i == 0 {
      assert s[..0] + s[1..] == s[1..];
    } else {
      var t := s[1..];
      assert forall j :: 0 <= j < i - 1 ==> t[j] != x by {
        forall j | 0 <= j < i - 1 ensures t[j] != x {
          assert t[j] == s[j + 1];
        }
      }
      RemoveFirstAt(t, x, i - 1);
      assert RemoveFirst(s, x) == [s[0]] + (t[..i - 1] + t[i..]);
      ConsSplit(s, i);
    }
  }

  /** Putting the head back in front of the tail's split at i - 1. */
  lemma ConsSplit<T>(s: seq<T>, i: nat)
    requires 0 < i < |s|
    ensures [s[0]] + (s[1..][..i - 1] + s[1..][i..]) == s[..i] + s[i + 1..]
  {
    assert s[1..][..i - 1] == s[1..i];
    assert s[1..][i..] == s[i + 1..];
    assert [s[0]] + s[1..i] == s[..i];
  }

  /** Removing a client from a list without duplicates leaves a list without
      duplicates that no longer holds it. */
  lemma {:induction false} RemoveFirstKeepsDistinct<T>(s: seq<T>, x: T)
    requires Distinct(s)
    ensures Distinct(RemoveFirst(s, x))
    ensures x !in RemoveFirst(s, x)
  {
    if s != [] && s[0] != x {
      assert Distinct(s[1..]);
      RemoveFirstKeepsDistinct(s[1..], x);
      var r := RemoveFirst(s[1..], x);
      assert s[0] !in s[1..];
      assert s[0] !in r by {
        assert multiset(r)[s[0]] <= multiset(s[1..])[s[0]] == 0;
      }
    } else if s != [] {
      assert Distinct(s[1..]);
      assert s[0] !in s[1..];
    }
  }

  /** In a list without duplicates every element occurs exactly once. */
  lemma {:induction false} DistinctOccursOnce<T>(s: seq<T>)
    requires Distinct(s)
    ensures forall x :: x in s ==> multiset(s)[x] == 1
  {
    if s != [] {
      assert Distinct(s[1..]);
      DistinctOccursOnce(s[1..]);
      assert s == [s[0]] + s[1..];
      assert s[0] !in s[1..];
    }
  }

  class TcpServer {
    /** The listening socket (m_socket). */
    const socket: TcpSocket
    var running: bool
    var onNewConnection: Option<TcpClient -> bool>
    var clients: seq<TcpClient>
    /** Every call to a client's disconnect made by this server, in order. */
    ghost var disconnected: seq<TcpClient>

    /** The registry never holds the same client twice, and a server that is
        not running holds no clients. */
    ghost predicate Valid()
      reads this
    {
      Distinct(clients) && (!running ==> clients == [])
    }

    /** A new server is not running, has no admission callback, no clients
        and a fresh socket. */
    constructor ()
      ensures Valid() && fresh(socket)
      ensures !running && onNewConnection.None? && clients == [] && disconnected == []
      ensures socket.State() == Initial()
    {
      socket := new TcpSocket();
      running := false;
      onNewConnection := None;
      clients := [];
      disconnected := [];
    }

    /** start: refuses to run twice; otherwise binds and listens, and only when
        both succeed stores the callback and sets the server running. The
        socket keeps whatever bind or listen did to it. osFd is what socket()
        returns, resolved whether the host resolves, bindRc and listenRc what
        ::bind and ::listen return. */
    method Start(host: string, port: u32, callback: Option<TcpClient -> bool>,
                 osFd: int, resolved: bool, bindRc: int, listenRc: int) returns (r: Result<()>)
      requires Valid()
      modifies this, socket
      ensures Valid()
      ensures clients == old(clients) && disconnected == old(disconnected)
      ensures old(running) ==>
        r == Err(AlreadyRunning) && running &&
        socket.State() == old(socket.State()) && onNewConnection == old(onNewConnection)
      ensures !old(running) ==>
        var bound := BindStep(old(socket.State()), osFd, resolved, bindRc);
        var listening := ListenStep(bound.next, osFd, listenRc);
        (bound.result.Err? ==> r == bound.result && socket.State() == bound.next) &&
        (bound.result.Ok? ==> r == listening.result && socket.State() == listening.next) &&
        running == r.Ok? &&
        (r.Ok? ==> onNewConnection == callback && socket.State().kind == Server && socket.State().fd != NoFd) &&
        (r.Err? ==> onNewConnection == old(onNewConnection))
    {
      if running {
        return Err(AlreadyRunning);
      }
      r := socket.Bind(host, port, osFd, resolved, bindRc);
      if r.Err? {
        return;
      }
      r := socket.Listen(ConnectionQueueSize, osFd, listenRc);
      if r.Err? {
        return;
      }
      // Tracking the socket with the io service and installing
      // OnReadAvailable as its read callback are not part of this model.
      onNewConnection := callback;
      running := true;
    }

    /** tcp_client::disconnect on a client this server accepted: the client
        runs the disconnection handler the server installed on it. */
    method Disconnect(client: TcpClient)
      requires Distinct(clients)
      modifies this
      ensures Distinct(clients) && (old(Valid()) ==> Valid())
      ensures disconnected == old(disconnected) + [client]
      ensures running == old(running) && onNewConnection == old(onNewConnection)
      ensures clients == if old(running) then RemoveFirst(old(clients), client) else old(clients)
    {
      disconnected := disconnected + [client];
      OnClientDisconnected(client);
    }

    /** stop: a no-op on a stopped server. Otherwise it clears the running flag
        first, closes the listening socket, disconnects every client once, in
        order, and empties the registry. Because the flag is already clear,
        the handler each disconnect runs leaves the registry alone. */
    method Stop()
      requires Valid()
      modifies this, socket
      ensures Valid()
      ensures !running && onNewConnection == old(onNewConnection)
      ensures !old(running) ==>
        clients == old(clients) && disconnected == old(disconnected) && socket.State() == old(socket.State())
      ensures old(running) ==>
        clients == [] && socket.State() == Released(old(socket.State())) &&
        disconnected == old(disconnected) + old(clients) &&
        forall c :: c in old(clients) ==> multiset(disconnected[|old(disconnected)|..])[c] == 1
    {
      if !running {
        return;
      }
      running := false;
      // Untracking the socket from the io service is not part of this model.
      var osClosed := socket.Close();
      var i := 0;
      while i < |clients|
        invariant Distinct(clients)
        invariant 0 <= i <= |clients|
        invariant !running && onNewConnection == old(onNewConnection)
        invariant clients == old(clients)
        invariant disconnected == old(disconnected) + clients[..i]
        invariant socket.State() == Released(old(socket.State()))
      {
        Disconnect(clients[i]);
        i := i + 1;
      }
      assert clients[..i] == clients;
      assert disconnected[|old(disconnected)|..] == clients;
      DistinctOccursOnce(clients);
      clients := [];
    }

    /** The destructor: stops the server. */
    method Destroy()
      requires Valid()
      modifies this, socket
      ensures Valid()
      ensures !running && onNewConnection == old(onNewConnection)
      ensures !old(running) ==>
        clients == old(clients) && disconnected == old(disconnected) && socket.State() == old(socket.State())
      ensures old(running) ==>
        clients == [] && socket.State() == Released(old(socket.State())) &&
        disconnected == old(disconnected) + old(clients) &&
        forall c :: c in old(clients) ==> multiset(disconnected[|old(disconnected)|..])[c] == 1
    {
      Stop();
    }

    /** The read callback of the listening socket: accept one connection. On
        success a new client is appended at the end of the registry exactly
        when the admission callback keeps it; on failure the server stops.
        osFd is what socket() would return, clientFd what ::accept returns
        and peerPort the port of the peer. The new client is returned as a
        ghost value so that the contract can name it. start installs the
        callback just before it sets the running flag, and stop untracks the
        socket just after it clears the flag; each call is taken as atomic,
        so the callback never finds the server stopped. */
    method OnReadAvailable(osFd: int, clientFd: int, peerPort: u16) returns (ghost client: TcpClient?)
      requires Valid() && running
      modifies this, socket
      ensures Valid()
      ensures onNewConnection == old(onNewConnection)
      ensures var accepted := AcceptStep(old(socket.State()), osFd, clientFd, peerPort);
        if accepted.result.Err? then
          !running && clients == [] && socket.State() == Released(accepted.next) &&
          disconnected == old(disconnected) + old(clients)
        else
          running && socket.State() == accepted.next && disconnected == old(disconnected) &&
          client != null && fresh(client) && client.socket == accepted.result.value &&
          clients == old(clients) + if Admits(onNewConnection, client) then [client] else []
    {
      var accepted := socket.Accept(osFd, clientFd, peerPort);
      if accepted.Err? {
        Stop();
        return null;
      }
      var newClient := new TcpClient(accepted.value);
      client := newClient;
      if Admits(onNewConnection, newClient) {
        // The disconnection handler installed here is OnClientDisconnected(newClient).
        clients := clients + [newClient];
      }
    }

    /** The disconnection handler: while the server runs, erase the first
        occurrence of the client; when it is not running, do nothing. */
    method OnClientDisconnected(client: TcpClient)
      requires Distinct(clients)
      modifies this
      ensures Distinct(clients) && (old(Valid()) ==> Valid())
      ensures running == old(running) && onNewConnection == old(onNewConnection)
      ensures disconnected == old(disconnected)
      ensures clients == if old(running) then RemoveFirst(old(clients), client) else old(clients)
      ensures old(running) ==> client !in clients
    {
      if !running {
        return;
      }
      var i := Find(clients, client);
      RemoveFirstKeepsDistinct(clients, client);
      if i < |clients| {
        RemoveFirstAt(clients, client, i);
        clients := clients[..i] + clients[i + 1..];
      }
    }

    function IsRunning(): (r: bool)
      reads this
      ensures r == running
    {
      running
    }

    function GetSocket(): (r: TcpSocket)
      ensures r == socket
    {
      socket
    }

    function GetClients(): (r: seq<TcpClient>)
      reads this
      ensures r == clients
    {
      clients
    }

    /** Two servers are equal when their listening sockets are: same
        descriptor and same kind, whatever their clients and running flags. */
    function Equals(other: TcpServer): (r: bool)
      reads socket, other.socket
      ensures r <==> Same(socket.State(), other.socket.State())
    {
      socket.Equals(other.socket)
    }

    function NotEquals(other: TcpServer): (r: bool)
      reads socket, other.socket
      ensures r <==> !Same(socket.State(), other.socket.State())
    {
      !Equals(other)
    }
  }
}
