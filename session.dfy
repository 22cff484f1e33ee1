/** Session (fr.jazer.session.Session): one client or server-side connection with
    a socket and a connection status. Opening a socket is an oracle: the caller says
    whether `new Socket(address, port)` would connect. The handshake check is the
    source's stub and always passes. */
module Sessions {
  import opened Common

  datatype ConnexionStatus = Connected | Disconnected | Destroyed

  datatype SessionType = ServerSide | ClientSide

  /** A socket as the session sees it: the peer it was opened to and whether it is connected. */
  datatype Socket = Socket(address: string, port: int, connected: bool)

  class Session {
    var socket: Option<Socket>
    const sessionType: SessionType
    var status: ConnexionStatus

    /** `new Session()`: a client-side session, disconnected, without socket. */
    constructor Client()
      ensures sessionType == ClientSide && status == Disconnected && socket == None
    {
      sessionType := ClientSide;
      status := Disconnected;
      socket := None;
    }

    /** `new Session(socket, type)`: starts Connected exactly when the socket is
        non-null and connected, Disconnected otherwise. */
    constructor FromSocket(socket: Option<Socket>, sessionType: SessionType)
      ensures this.socket == socket && this.sessionType == sessionType
      ensures status == if socket.Some? && socket.value.connected then Connected else Disconnected
    {
      this.socket := socket;
      this.sessionType := sessionType;
      status := Disconnected;
      new;
      if socket.Some? && socket.value.connected {
        var _ := SetStatus(Connected);
      }
    }

    predicate IsConnected()
      reads this
      ensures IsConnected() <==> status == Connected
    {
      status == Connected
    }

    /** The handshake stub: every socket passes. */
    function IntegrityCheck(s: Socket): (ok: bool)
      ensures ok
    {
      true
    }

    /** Assigns a status that differs from the current one and reports whether it did. */
    method SetStatus(s: ConnexionStatus) returns (changed: bool)
      modifies this`status
      ensures changed <==> old(status) != s
      ensures status == s
    {
      if status == s {
        return false;
      }
      status := s;
      return true;
    }

    /** `connect(address, port, certConfig)`. A server-side or already connected session
        is left alone (there is no guard against Destroyed). A certificate configuration
        makes the socket construction throw an IOException, which is caught: nothing
        changes. Without one, `new Socket(address, port)` throws an uncaught
        IllegalArgumentException for a port outside 0..65535. Otherwise the socket is
        replaced and the status becomes Connected only when the new socket connects
        (`reachable`) and passes the integrity check. Returns the status after the call. */
    method Connect(address: string, port: int, secured: bool, reachable: bool) returns (r: Outcome<ConnexionStatus>)
      modifies this`socket, this`status
      ensures r.Returned? ==> r.value == status
      ensures sessionType == ServerSide || old(status) == Connected || secured ==>
                r.Returned? && socket == old(socket) && status == old(status)
      ensures sessionType == ClientSide && old(status) != Connected && !secured && !ValidPort(port) ==>
                r == Threw(IllegalArgument) && socket == old(socket) && status == old(status)
      ensures sessionType == ClientSide && old(status) != Connected && !secured && ValidPort(port) && !reachable ==>
                r.Returned? && socket == old(socket) && status == old(status)
      ensures sessionType == ClientSide && old(status) != Connected && !secured && ValidPort(port) && reachable ==>
                r.Returned? && socket == Some(Socket(address, port, true)) && status == Connected
    {
      if sessionType == ServerSide || IsConnected() {
        return Returned(status);
      }
      if !secured {
        if !ValidPort(port) {
          return Threw(IllegalArgument);
        }
        if reachable {
          var newSocket := Socket(address, port, true);
          if newSocket.connected && IntegrityCheck(newSocket) {
            socket := Some(newSocket);
            var _ := SetStatus(Connected);
          }
        }
      }
      r := Returned(status);
    }

    /** `reconnect()`: with no socket, returns the status unchanged. A held socket that
        never connected has no peer address, and reading it throws a
        NullPointerException. Otherwise connects again, without certificate
        configuration, to the peer of the held socket. */
    method Reconnect(reachable: bool) returns (r: Outcome<ConnexionStatus>)
      modifies this`socket, this`status
      ensures r.Returned? ==> r.value == status
      ensures old(socket).None? ==> r.Returned? && socket == old(socket) && status == old(status)
      ensures old(socket).Some? && !old(socket).value.connected ==>
                r == Threw(NullPointer) && socket == old(socket) && status == old(status)
      ensures old(socket).Some? && old(socket).value.connected ==>
                var peer := old(socket).value;
                (sessionType == ServerSide || old(status) == Connected ==>
                   r.Returned? && socket == old(socket) && status == old(status)) &&
                (sessionType == ClientSide && old(status) != Connected && !ValidPort(peer.port) ==>
                   r == Threw(IllegalArgument) && socket == old(socket) && status == old(status)) &&
                (sessionType == ClientSide && old(status) != Connected && ValidPort(peer.port) && !reachable ==>
                   r.Returned? && socket == old(socket) && status == old(status)) &&
                (sessionType == ClientSide && old(status) != Connected && ValidPort(peer.port) && reachable ==>
                   r.Returned? && socket == Some(peer) && status == Connected)
    {
      if socket.None? {
        return Returned(status);
      }
      if !socket.value.connected {
        return Threw(NullPointer);
      }
      r := Connect(socket.value.address, socket.value.port, false, reachable);
    }
  }
}
