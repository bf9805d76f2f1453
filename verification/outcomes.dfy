/** Results of the socket and server operations. Where the library throws a
    tacopie_error, the model returns Err with the reason below. */
module Outcomes {

  datatype Error =
    | SocketFailure       // socket() returned -1
    | InvalidOperation    // an operation of one family on a socket of the other kind
    | RecvFailure         // ::recv returned -1
    | PeerClosed          // ::recv returned 0: the remote host closed the connection
    | SendFailure         // ::send returned -1
    | HostNotFound        // gethostbyname() found no address
    | ConnectFailure      // ::connect returned -1
    | BindFailure         // ::bind returned -1
    | ListenFailure       // ::listen returned -1
    | AcceptFailure       // ::accept returned -1
    | AlreadyRunning      // tcp_server::start on a server that is running

  datatype Result<+T> = Ok(value: T) | Err(error: Error)

  datatype Option<+T> = None | Some(value: T)
}
