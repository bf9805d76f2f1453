# tacopie TCP socket and server: a Dafny model

This project models the two state machines of tacopie's networking layer that
sit directly on the operating system's socket calls:

- **tcp_socket** (`TcpSockets`). A socket holds a descriptor (-1 for none), a
  host, a port and a kind: UNKNOWN, CLIENT or SERVER. Every operation first
  creates the descriptor lazily (`create_socket_if_necessary`). It then checks
  the kind, or sets it if the kind is still UNKNOWN (`check_or_set_type`).
  Client operations (recv, send, connect) and server operations (bind,
  listen, accept) therefore exclude each other until `close` resets the socket.
- **tcp_server** (`TcpServers`). A server holds a listening socket, a running
  flag, an optional admission callback and the ordered list of the clients it
  accepted.
  - `start` refuses to run twice.
  - `stop` clears the flag first, closes the socket, disconnects every client
    and empties the list.
  - A pending connection is accepted and kept only if the admission callback
    allows it.
  - A failed accept stops the server.
  - A disconnecting client is erased from the list, but only while the
    server runs.

Every system call is a parameter holding the value the call returned:
`osFd` for `socket()`, `rc` for `::connect`/`::bind`/`::listen`, `resolved`
for `gethostbyname`, `rdSize` and `delivered` for `::recv`, `wrSize` for
`::send`, and `clientFd` and `peerPort` for `::accept`.

Each socket operation is specified by a step function over `SocketState`
values, such as `RecvStep` or `BindStep`. A step function yields a
`Transition`: the new state and a `Result`. The class `TcpSocket` updates its
fields in place, and each of its methods is proved to end in the state and
result that its step function gives. Lemmas state the kind discipline over
the step functions.

The class `TcpServer` keeps its clients in a `seq<TcpClient>`. Each accepted
connection gets a freshly allocated `TcpClient`, so list entries compare by
identity, as the library's `shared_ptr` handles do. The admission callback is
a pure predicate `TcpClient -> bool`.

Calling a client's `disconnect` is modelled by `TcpServer.Disconnect`. It
records the call in the ghost log `disconnected` and then runs the handler the
server installed on that client, which is `OnClientDisconnected`. This is how
the model proves that `stop` leaves the handler without effect: the handler
finds the flag already cleared.

The getters (`GetHost`, `GetPort`, `GetType`, `GetFd`, `IsRunning`,
`GetSocket`, `GetClients`) and the comparison operators (`Equals`,
`NotEquals` on both classes) are plain functions. The two operators compare
the descriptor and the kind only; on servers they compare the listening
sockets only.

The read callback of the listening socket is installed by `start` just before
it sets the running flag, and `stop` untracks the socket just after it clears
the flag. The model takes each call to `start` and `stop` as atomic, so the
callback never finds the server stopped: `OnReadAvailable` runs only on a
running server, and a server that is not running holds no clients.

Where the code departs from the library's intended design, the model follows the code:

- A failed `start` does not leave the server in its pre-call state. If bind
  or listen fails after the descriptor was created, the socket keeps that
  descriptor and may keep kind SERVER.
- `recv` does not report a short read by its length. It always returns a
  buffer of exactly `size_to_read` characters, zero-filled beyond what the OS
  wrote.
- The server stops on any failure inside `on_read_available`, not only on a
  failing `::accept`. This includes `socket()` failing and the kind check
  failing.

## Model

| member | source | states |
|---|---|---|
| `TcpSockets.TcpSocket.constructor` | sources/network/tcp_socket.cpp:18-22 | a new socket has fd -1, empty host, port 0 and kind UNKNOWN |
| `TcpSockets.TcpSocket.FromFd` | sources/network/tcp_socket.cpp:29-33 | a socket built from a descriptor holds exactly the given fd, host, port and kind |
| `TcpSockets.TcpSocket.Move` | sources/network/tcp_socket.cpp:39-48 | the new socket takes the source's fd, host, port and kind and compares equal to the source as it was; the source keeps host and port but is left with fd -1 and kind UNKNOWN, equal to a fresh socket |
| `TcpSockets.Released` | sources/network/tcp_socket.cpp:157-158 | the state close (and a move) leaves: fd -1 and kind UNKNOWN, host and port kept |
| `TcpSockets.CreateIfNecessary` | sources/network/tcp_socket.cpp:166-174 | with a descriptor nothing changes and the call succeeds; without one the OS descriptor is installed and the kind reset to UNKNOWN; it succeeds exactly when a descriptor is there afterwards, and fails with SocketFailure otherwise |
| `TcpSockets.TcpSocket.CreateSocketIfNecessary` | sources/network/tcp_socket.cpp:166-174 | updates the fields in place to the state, and returns the result, given by `CreateIfNecessary` |
| `TcpSockets.CreateIfNecessaryIdempotent` | sources/network/tcp_socket.cpp:167 | once descriptor creation has succeeded, calling it again changes nothing and succeeds, whatever `socket()` would return |
| `TcpSockets.CheckOrSetTypeStep` | sources/network/tcp_socket.cpp:182-186 | fails, with InvalidOperation and no change, exactly when the kind is neither UNKNOWN nor the requested one; on success the kind becomes the requested one and nothing else changes |
| `TcpSockets.TcpSocket.CheckOrSetType` | sources/network/tcp_socket.cpp:182-186 | updates the kind in place as `CheckOrSetTypeStep` says |
| `TcpSockets.CheckOrSetTypeIdempotent` | sources/network/tcp_socket.cpp:182-186 | repeating a successful check with the same kind succeeds and changes nothing |
| `TcpSockets.PrepareStep` | sources/network/tcp_socket.cpp:56-57 | the preamble of every operation succeeds exactly when socket() yields a descriptor (no descriptor before) or the kind allows the family (descriptor before); on success the socket has a descriptor and the requested kind; host and port are never changed; an existing descriptor is kept; a socket of the other kind is refused unchanged; without a descriptor before, a success leaves exactly socket()'s descriptor and the requested kind, and a failed socket() leaves -1, kind UNKNOWN and SocketFailure |
| `TcpSockets.TcpSocket.Prepare` | sources/network/tcp_socket.cpp:56-57 | runs creation then the kind check in place, as `PrepareStep` says |
| `TcpSockets.Received` | sources/network/tcp_socket.cpp:59-61 | the recv buffer has exactly size_to_read characters: those the OS delivered at its head, '\0' after them |
| `TcpSockets.RecvStep` | sources/network/tcp_socket.cpp:54-68 | recv succeeds exactly when the preamble succeeds and ::recv returns neither -1 nor 0; -1 gives RecvFailure, 0 gives PeerClosed; a success returns exactly the buffer `Received` describes (size_to_read characters, the delivered ones first) and leaves a CLIENT socket; a failed preamble's error is passed through |
| `TcpSockets.TcpSocket.Recv` | sources/network/tcp_socket.cpp:54-68 | updates the socket and returns the result as `RecvStep` says |
| `TcpSockets.AsSize` | sources/network/tcp_socket.cpp:79 | the ssize_t count converted to std::size_t: below 2^64, and equal to the count when that is in range |
| `TcpSockets.SendStep` | sources/network/tcp_socket.cpp:70-80 | send succeeds exactly when the preamble succeeds and ::send does not return -1; a success reports the count ::send returned and leaves a CLIENT socket; -1 gives SendFailure and a failed preamble's error is passed through |
| `TcpSockets.TcpSocket.Send` | sources/network/tcp_socket.cpp:70-80 | updates the socket and returns the result as `SendStep` says |
| `TcpSockets.ConnectStep` | sources/network/tcp_socket.cpp:82-98 | connect succeeds exactly when the preamble succeeds, the host resolves and ::connect does not return -1; it leaves a CLIENT socket and does not record host or port; an unresolved host gives HostNotFound, -1 gives ConnectFailure, and a failed preamble's error is passed through |
| `TcpSockets.TcpSocket.Connect` | sources/network/tcp_socket.cpp:82-98 | updates the socket and returns the result as `ConnectStep` says |
| `TcpSockets.BindStep` | sources/network/tcp_socket.cpp:104-120 | bind succeeds exactly when the preamble succeeds, the host resolves and ::bind does not return -1; it leaves a SERVER socket and does not record host or port; an unresolved host gives HostNotFound, -1 gives BindFailure, and a failed preamble's error is passed through |
| `TcpSockets.TcpSocket.Bind` | sources/network/tcp_socket.cpp:104-120 | updates the socket and returns the result as `BindStep` says |
| `TcpSockets.ListenStep` | sources/network/tcp_socket.cpp:122-128 | listen succeeds exactly when the preamble succeeds and ::listen does not return -1; it leaves a SERVER socket; -1 gives ListenFailure and a failed preamble's error is passed through |
| `TcpSockets.TcpSocket.Listen` | sources/network/tcp_socket.cpp:122-128 | updates the socket and returns the result as `ListenStep` says |
| `TcpSockets.AcceptStep` | sources/network/tcp_socket.cpp:130-144 | accept succeeds exactly when the preamble succeeds and ::accept does not return -1; it leaves a SERVER socket and yields a CLIENT socket with the new descriptor, empty host and the peer's port (with the byte-order correction of the finding below); -1 gives AcceptFailure and a failed preamble's error is passed through |
| `TcpSockets.TcpSocket.Accept` | sources/network/tcp_socket.cpp:130-144 | updates the listening socket and returns the accepted socket as `AcceptStep` says (port corrected as in the finding below) |
| `TcpSockets.AcceptedPort` | sources/network/tcp_socket.cpp:143 | the accepted socket's port, with sin_port converted back from network byte order, is the peer's port |
| `TcpSockets.AcceptedPortAsWritten` | sources/network/tcp_socket.cpp:143 | the port accept stores as written is the peer's port in network byte order: converting it back gives the peer's port |
| `TcpSockets.AcceptedPortAsWrittenIsSwapped` | sources/network/tcp_socket.cpp:143 | storing sin_port unconverted, as written, records a peer on port 8080 as port 36895 |
| `TcpSockets.FamiliesExclude` | sources/network/tcp_socket.cpp:183 | on a CLIENT socket with a descriptor bind, listen and accept fail with InvalidOperation and change nothing, whatever the OS would return; on a SERVER socket recv, send and connect do, for any size and any OS result |
| `TcpSockets.ClientUseLocksKind` | sources/network/tcp_socket.cpp:84-85 | after a successful connect the socket is CLIENT and a following listen is refused, whatever the OS would return |
| `TcpSockets.ServerUseLocksKind` | sources/network/tcp_socket.cpp:106-107 | after a successful bind the socket is SERVER and a following send is refused, whatever the OS would return |
| `TcpSockets.CloseReopens` | sources/network/tcp_socket.cpp:150-174 | after close an operation of either family may run again: its preamble succeeds as soon as socket() yields a descriptor |
| `TcpSockets.ReleasedIdempotent` | sources/network/tcp_socket.cpp:150-159 | closing twice leaves the same state as closing once |
| `TcpSockets.TcpSocket.Close` | sources/network/tcp_socket.cpp:150-159 | calls the OS close exactly when there was a descriptor, and always leaves fd -1 and kind UNKNOWN with host and port kept |
| `TcpSockets.TcpSocket.SetType` | sources/network/tcp_socket.cpp:216-219 | overrides the kind and changes nothing else |
| `TcpSockets.TcpSocket.GetHost` | sources/network/tcp_socket.cpp:192-195 | returns the socket's host |
| `TcpSockets.TcpSocket.GetPort` | sources/network/tcp_socket.cpp:197-200 | returns the socket's port |
| `TcpSockets.TcpSocket.GetType` | sources/network/tcp_socket.cpp:206-209 | returns the socket's kind |
| `TcpSockets.TcpSocket.GetFd` | sources/network/tcp_socket.cpp:225-228 | returns the socket's descriptor |
| `TcpSockets.TcpSocket.Equals` | sources/network/tcp_socket.cpp:233-236 | two sockets are equal exactly when descriptor and kind agree, whatever their hosts and ports |
| `TcpSockets.TcpSocket.NotEquals` | sources/network/tcp_socket.cpp:238-241 | two sockets differ exactly when descriptor or kind differ |
| `TcpSockets.SameIsEquivalence` | sources/network/tcp_socket.cpp:233-241 | socket equality (same descriptor and kind) is reflexive, symmetric and transitive, and any two closed sockets compare equal |
| `TcpServers.TcpClient.constructor` | sources/network/tcp_server.cpp:68 | a client holds the socket accept returned |
| `TcpServers.TcpServer.constructor` | sources/network/tcp_server.cpp:13-16 | a new server is not running, has no admission callback, no clients and a fresh socket |
| `TcpServers.TcpServer.Destroy` | sources/network/tcp_server.cpp:18-21 | destroying a server has exactly the effect of stop, including that each listed client is disconnected exactly once |
| `TcpServers.TcpServer.Start` | sources/network/tcp_server.cpp:27-41 | on a running server it fails with AlreadyRunning and changes nothing; otherwise the socket goes through bind then listen; the server runs exactly when both succeed and then stores the callback, holds a SERVER socket with a descriptor, and keeps its client list |
| `TcpServers.TcpServer.Stop` | sources/network/tcp_server.cpp:43-57 | a no-op on a stopped server (so a second stop changes nothing); otherwise afterwards the server is not running, its socket is closed, every listed client was disconnected exactly once in list order, and the list is empty |
| `TcpServers.TcpServer.Disconnect` | sources/network/tcp_server.cpp:53 | a client's disconnect runs the server's handler: while the server runs it erases the client's first occurrence, after the flag is cleared it leaves the list alone |
| `TcpServers.TcpServer.OnReadAvailable` | sources/network/tcp_server.cpp:63-84 | runs only on a running server, whose callback start installed; on a successful accept the server keeps running and a fresh client holding the accepted socket is appended at the end exactly when there is no callback or the callback returns true, and the list is otherwise unchanged; on a failed accept the server ends up exactly as stop leaves it |
| `TcpServers.TcpServer.OnClientDisconnected` | sources/network/tcp_server.cpp:90-102 | while running, erases only the first occurrence of the client and keeps the rest in order; a no-op when the client is absent or the server is not running |
| `TcpServers.TcpServer.IsRunning` | sources/network/tcp_server.cpp:108-111 | returns the running flag |
| `TcpServers.TcpServer.GetSocket` | sources/network/tcp_server.cpp:117-125 | returns the server's own listening socket |
| `TcpServers.TcpServer.GetClients` | sources/network/tcp_server.cpp:131-134 | returns the registry of accepted clients, in order |
| `TcpServers.TcpServer.Equals` | sources/network/tcp_server.cpp:139-142 | two servers are equal exactly when their listening sockets have the same descriptor and kind, whatever their clients and running flags |
| `TcpServers.TcpServer.NotEquals` | sources/network/tcp_server.cpp:144-147 | two servers differ exactly when their listening sockets differ in descriptor or kind |
| `TcpServers.Find` | sources/network/tcp_server.cpp:99 | returns the index of the first occurrence, or the length when the client is absent |
| `TcpServers.RemoveFirst` | sources/network/tcp_server.cpp:99-101 | erasing the first occurrence: unchanged when absent, one shorter when present, removing exactly one copy of that client |
| `TcpServers.RemoveFirstAt` | sources/network/tcp_server.cpp:99-101 | erasing at the index find returns gives the list without that element, the others in order |
| `TcpServers.RemoveFirstKeepsDistinct` | sources/network/tcp_server.cpp:99-101 | erasing from a list without duplicates keeps it without duplicates and removes the client entirely |
| `TcpServers.DistinctOccursOnce` | sources/network/tcp_server.cpp:53-54 | in a list without duplicates, as the registry always is, each client occurs exactly once |
| `ServerScenarios.RejectAllKeepsRegistryEmpty` | sources/network/tcp_server.cpp:68-78 | with an admission callback that rejects every client, the registry stays empty whatever accept returns |
| `ServerScenarios.StopDisconnectsEveryPeer` | sources/network/tcp_server.cpp:43-57 | three distinct peers are accepted; stop disconnects exactly those three, each once and in registry order, and the registry ends empty although each disconnection runs the server's handler |

## Findings

| source | as written | input that shows it | evidently intended | confidence | as-written member | corrected member |
|---|---|---|---|---|---|---|
| sources/network/tcp_socket.cpp:143 | the accepted socket's port is `client_info.sin_port`, which holds the port in network byte order, stored without `ntohs` | on a little-endian host a peer on port 8080 (0x1F90) is recorded as port 36895 (0x901F) | the peer's port in host byte order, as bind converts with `htons` at line 116 | medium, not executed | `TcpSockets.AcceptedPortAsWritten`, `TcpSockets.AcceptedPortAsWrittenIsSwapped` | `TcpSockets.AcceptedPort` |

`AcceptStep`, and through it the rest of the model, uses the corrected port.

## Left out

- The system calls (`socket`, `::recv`, `::send`, `::connect`, `::bind`, `::listen`, `::accept`, `::close`, `gethostbyname`) are foreign code and I/O. Each becomes a parameter holding its return value. `sockaddr_in` construction (`memset`, `memcpy`, `htons`) is not modelled, and the host and port given to connect and bind reach only the OS.
- `TcpSockets.RecvStep`: the count `::recv` returns is not tied to the characters it delivered; the two are independent parameters.
- Host byte order and word size: the model assumes a little-endian host with a 64-bit `std::size_t`. On a big-endian host `htons` is the identity and the finding above does not arise.
- The io service calls are opaque and are left out: `track`, `untrack` and `set_rd_callback` in start and stop. The io service is not part of this model.
- The internals of `tcp_client` are not part of this model. Its disconnect is modelled only as running the handler the server installed. What happens to a rejected client when its last handle is dropped is not modelled.
- The mutex `m_clients_mtx`, thread-pool dispatch and the unlocked `push_back` in `on_read_available` are about concurrency. The model covers single-threaded interleavings only.
- Logging is left out. Exceptions become `Err` results, and the caller sees the state as it was when the exception was thrown.
- `TcpSockets.AcceptStep`: yields the peer's port after the byte-order correction of the finding above; the code at line 143 stores `sin_port` unconverted, which `AcceptedPortAsWritten` models.
- `TcpSockets.TcpSocket.Accept`: returns the socket `AcceptStep` gives, so it too records the corrected port rather than the unconverted `sin_port`.
- `TcpServers.TcpServer.OnReadAvailable`: the admission callback is a pure predicate, so the model does not cover a callback that throws, nor one with side effects. The method requires a running server; a dispatch that lands between installing the callback and setting the flag in start (tcp_server.cpp lines 35-38), or between clearing the flag and untracking in stop (lines 47-49), is not covered, and there it would append to the list of a stopped server.
- The listen backlog `__TACOPIE_CONNECTION_QUEUE_SIZE` comes from a header that is not part of this model. It is set to 1024, the library default, and is passed on to the OS only.
- `get_socket` returns a reference that callers may mutate. The model returns the `TcpSocket` object and does not model changes made through it.
