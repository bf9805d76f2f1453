/** Two runs of a server, stated as methods whose contracts follow from the
    server's own contracts alone. */
module ServerScenarios {
  import opened Outcomes
  import opened TcpSockets
  import opened TcpServers

  /** A server whose admission callback rejects every connection keeps an
      empty registry, whatever ::accept returns for each pending
      connection. */
  method RejectAllKeepsRegistryEmpty(listenFd: int, acceptResults: seq<int>) returns (registered: seq<TcpClient>)
    requires listenFd != NoFd
    ensures registered == []
  {
    var server := new TcpServer();
    var reject := (c: TcpClient) => false;
    var started := server.Start("0.0.0.0", 8080, Some(reject), listenFd, true, 0, 0);
    assert started.Ok?;
    var k := 0;
    while k < |acceptResults|
      invariant k <= |acceptResults|
      invariant fresh(server) && fresh(server.socket)
      invariant server.Valid()
      invariant server.clients == [] && server.onNewConnection == Some(reject)
    {
      // A failed ::accept stops the server, which uninstalls the read callback.
      if server.running {
        ghost var candidate := server.OnReadAvailable(listenFd, acceptResults[k], 50000);
      }
      k := k + 1;
    }
    registered := server.clients;
  }

  /** Three peers are accepted by a server without admission callback; stop
      then disconnects each of them once, in the order of the registry, and
      leaves the registry empty, even though each disconnection runs the
      server's handler. The log is the sequence of disconnected clients. */
  method StopDisconnectsEveryPeer(listenFd: int) returns (before: seq<TcpClient>, after: seq<TcpClient>, ghost log: seq<TcpClient>)
    requires listenFd != NoFd
    ensures |before| == 3 && Distinct(before)
    ensures log == before && after == []
  {
    var server := new TcpServer();
    var started := server.Start("127.0.0.1", 8080, None, listenFd, true, 0, 0);
    assert started.Ok?;
    ghost var a := server.OnReadAvailable(listenFd, 10, 50001);
    ghost var b := server.OnReadAvailable(listenFd, 11, 50002);
    ghost var c := server.OnReadAvailable(listenFd, 12, 50003);
    assert server.clients == [a, b, c];
    before := server.clients;
    server.Stop();
    assert server.disconnected == [a, b, c];
    assert !server.running && server.socket.fd == NoFd;
    after := server.clients;
    log := server.disconnected;
  }
}
