/** SessionServer (fr.jazer.session.SessionServer): a listening socket, a status
    machine CLOSED / OPENED / DESTROYED, a stream of statuses to which the server
    itself listens, and a stream of the sessions it accepts. Binding and accepting
    are oracles given by the caller, the accept thread is the `Listener` state, the
    clock is the `now` parameter, and the watchdog the CLOSED transition schedules
    is the method `TimeoutCheck`, called with the value of `lastOpen` the watchdog
    read when it started. */
module SessionServers {
  import opened Common
  import opened VirtualStreams
  import Sessions

  datatype ServerStatus = Closed | Opened | Destroyed

  /** A bound listening socket on `port`, and whether it has been closed. */
  datatype ServerSocket = ServerSocket(port: int, closed: bool)

  /** The receivers of the status stream: the server itself, or a listener added by a client. */
  datatype StatusReceiver = ThisServer | StatusListener(id: nat)

  /** The accept thread: never created (Java's null), running, or finished. */
  datatype Listener = NoListener | Running | Finished

  /** What the handling of one status change did. */
  datatype Reaction =
    | Crashed            // a null server or listener is dereferenced: the handler throws
    | WatchdogArmed      // the server is closed and a timeout check is scheduled
    | ListenerStarted
    | ListenerRejected   // a listener is already alive
    | StreamsClosed      // the destroy branch ran
    | Ignored

  const DefaultSessionTimeOut: int := 20000

  /** The watchdog's test as the source writes it (SessionServer.java:169): the
      server is not destroyed and was not closed again since the snapshot. */
  predicate WatchdogFiresAsWritten(status: ServerStatus, lastOpen: int, snapshot: int)
  {
    status != Destroyed && lastOpen == snapshot
  }

  /** The test the timeout evidently intends: the server is still closed, and has not
      been closed again since the snapshot. A server reopened in the meantime is spared. */
  predicate WatchdogFires(status: ServerStatus, lastOpen: int, snapshot: int)
  {
    status == Closed && lastOpen == snapshot
  }

  /** The sessions accepted from `sockets`, in order: server-side sessions on those
      sockets, connected exactly when their socket is. */
  ghost predicate AcceptedFrom(sessions: seq<Sessions.Session>, sockets: seq<Sessions.Socket>)
    reads set k | 0 <= k < |sessions| :: sessions[k]
  {
    |sessions| == |sockets| &&
    forall k :: 0 <= k < |sessions| ==>
      sessions[k].sessionType == Sessions.ServerSide && sessions[k].socket == Some(sockets[k]) &&
      sessions[k].status == (if sockets[k].connected then Sessions.Connected else Sessions.Disconnected)
  }

  /** The notifications of emitting `values` one after the other to `receivers`:
      for each value in turn, one per receiver in list order. */
  ghost function Broadcasts<R, T>(receivers: seq<R>, values: seq<T>): seq<Notification<R, T>>
    decreases |values|
  {
    if values == [] then []
    else
      Broadcasts(receivers, values[..|values| - 1]) +
      seq(|receivers|, i requires 0 <= i < |receivers| => Notification(receivers[i], values[|values| - 1]))
  }

  class SessionServer {
    var server: Option<ServerSocket>
    var status: ServerStatus
    var sessionTimeOut: int
    var lastOpen: int
    var clientListener: Listener
    const sessionsFlux: VirtualStream<Sessions.Session, nat>
    const statusFlux: VirtualStream<ServerStatus, StatusReceiver>

    /** A closed server with no socket and no listener; it listens to its own status stream. */
    constructor ()
      ensures server == None && status == Closed && clientListener == NoListener
      ensures sessionTimeOut == DefaultSessionTimeOut && lastOpen == 0
      ensures fresh(sessionsFlux) && fresh(statusFlux)
      ensures sessionsFlux.queue == [] && sessionsFlux.receivers == [] && !sessionsFlux.closed
      ensures statusFlux.queue == [] && statusFlux.receivers == [ThisServer] && !statusFlux.closed
    {
      server := None;
      status := Closed;
      sessionTimeOut := DefaultSessionTimeOut;
      lastOpen := 0;
      clientListener := NoListener;
      sessionsFlux := new VirtualStream();
      statusFlux := new VirtualStream();
      new;
      statusFlux.AddReceiver(ThisServer);
    }

    predicate IsOpened()
      reads this
      ensures IsOpened() <==> status == Opened
    {
      status == Opened
    }

    /** Emits `s` on the status stream, then assigns it: the status queue records
        every status set, in order. */
    method SetStatus(s: ServerStatus) returns (sent: seq<Notification<StatusReceiver, ServerStatus>>)
      modifies this`status, statusFlux`queue
      ensures status == s
      ensures statusFlux.queue == old(statusFlux.queue) + [s]
      ensures NotifiesInOrder(sent, statusFlux.receivers, s)
    {
      sent := statusFlux.EmitValue(s);
      status := s;
    }

    /** `openSession(port, certConfig)`. An opened or destroyed server is left alone.
        Without a certificate configuration (`secured`), `new ServerSocket(port)`
        throws an uncaught IllegalArgumentException for a port outside 0..65535.
        Otherwise the socket is stored and the server becomes OPENED when it binds
        (`bound`); a failure to build it (IOException, certificate errors) is caught
        and changes nothing. Returns the status after the call. */
    method OpenSession(port: int, secured: bool, bound: bool)
      returns (r: Outcome<ServerStatus>, sent: seq<Notification<StatusReceiver, ServerStatus>>)
      modifies this`server, this`status, statusFlux`queue
      ensures r.Returned? ==> r.value == status
      ensures old(status) == Opened || old(status) == Destroyed ==>
                r.Returned? && server == old(server) && status == old(status) &&
                statusFlux.queue == old(statusFlux.queue) && sent == []
      ensures old(status) == Closed && !secured && !ValidPort(port) ==>
                r == Threw(IllegalArgument) && server == old(server) && status == old(status) &&
                statusFlux.queue == old(statusFlux.queue) && sent == []
      ensures old(status) == Closed && (secured || ValidPort(port)) && !bound ==>
                r.Returned? && server == old(server) && status == old(status) &&
                statusFlux.queue == old(statusFlux.queue) && sent == []
      ensures old(status) == Closed && (secured || ValidPort(port)) && bound ==>
                r.Returned? && server == Some(ServerSocket(port, false)) && status == Opened &&
                statusFlux.queue == old(statusFlux.queue) + [Opened] &&
                NotifiesInOrder(sent, statusFlux.receivers, Opened)
    {
      sent := [];
      if IsOpened() || status == Destroyed {
        return Returned(status), sent;
      }
      if !secured && !ValidPort(port) {
        return Threw(IllegalArgument), sent;
      }
      if bound {
        server := Some(ServerSocket(port, false));
        sent := SetStatus(Opened);
      }
      r := Returned(status);
    }

    /** Exactly two transitions, CLOSED then DESTROYED, each emitted on the status stream. */
    method Destroy() returns (sent: seq<Notification<StatusReceiver, ServerStatus>>)
      modifies this`status, statusFlux`queue
      ensures status == Destroyed
      ensures statusFlux.queue == old(statusFlux.queue) + [Closed, Destroyed]
      ensures |sent| == 2 * |statusFlux.receivers|
      ensures NotifiesInOrder(sent[..|statusFlux.receivers|], statusFlux.receivers, Closed)
      ensures NotifiesInOrder(sent[|statusFlux.receivers|..], statusFlux.receivers, Destroyed)
    {
      var first := SetStatus(Closed);
      var second := SetStatus(Destroyed);
      sent := first + second;
      assert sent[..|first|] == first && sent[|first|..] == second;
    }

    method SetSessionTimeOut(timeOut: int)
      modifies this`sessionTimeOut
      ensures sessionTimeOut == timeOut
    {
      sessionTimeOut := timeOut;
    }

    method AddStatusListener(id: nat)
      modifies statusFlux`receivers
      ensures statusFlux.receivers == old(statusFlux.receivers) + [StatusListener(id)]
    {
      statusFlux.AddReceiver(StatusListener(id));
    }

    method RemoveStatusListener(id: nat)
      modifies statusFlux`receivers
      ensures statusFlux.receivers == RemoveFirst(old(statusFlux.receivers), StatusListener(id))
    {
      statusFlux.RemoveReceiver(StatusListener(id));
    }

    method NextStatus() returns (r: Pull<ServerStatus>)
      modifies statusFlux`queue
      ensures statusFlux.closed ==> r == Null && statusFlux.queue == old(statusFlux.queue)
      ensures !statusFlux.closed && old(statusFlux.queue) != [] ==>
                r == Taken(old(statusFlux.queue)[0]) && statusFlux.queue == old(statusFlux.queue)[1..]
      ensures !statusFlux.closed && old(statusFlux.queue) == [] ==> r == Blocked && statusFlux.queue == []
    {
      r := statusFlux.ReadASlash();
    }

    method SlashStatus(s: ServerStatus)
      modifies statusFlux`queue
      ensures statusFlux.queue == RemoveFirst(old(statusFlux.queue), s)
    {
      var _ := statusFlux.Slash(s);
    }

    method AddSessionListener(id: nat)
      modifies sessionsFlux`receivers
      ensures sessionsFlux.receivers == old(sessionsFlux.receivers) + [id]
    {
      sessionsFlux.AddReceiver(id);
    }

    method RemoveSessionListener(id: nat)
      modifies sessionsFlux`receivers
      ensures sessionsFlux.receivers == RemoveFirst(old(sessionsFlux.receivers), id)
    {
      sessionsFlux.RemoveReceiver(id);
    }

    method NextSession() returns (r: Pull<Sessions.Session>)
      modifies sessionsFlux`queue
      ensures sessionsFlux.closed ==> r == Null && sessionsFlux.queue == old(sessionsFlux.queue)
      ensures !sessionsFlux.closed && old(sessionsFlux.queue) != [] ==>
                r == Taken(old(sessionsFlux.queue)[0]) && sessionsFlux.queue == old(sessionsFlux.queue)[1..]
      ensures !sessionsFlux.closed && old(sessionsFlux.queue) == [] ==> r == Blocked && sessionsFlux.queue == []
    {
      r := sessionsFlux.ReadASlash();
    }

    method SlashSession(session: Sessions.Session)
      modifies sessionsFlux`queue
      ensures sessionsFlux.queue == RemoveFirst(old(sessionsFlux.queue), session)
    {
      var _ := sessionsFlux.Slash(session);
    }

    /** `onChanged(value)`, the server's own reaction to a status it emitted.
        CLOSED: closes the socket, interrupts the listener (which ends when its
        pending `accept` fails, see `OnAcceptFailure`), records `now` in `lastOpen`
        and arms the watchdog; a null socket or listener makes it throw partway.
        OPENED: starts a listener unless one is alive. Otherwise, when the FIELD
        `status` is DESTROYED: closes each stream not yet closed, the status stream
        after dropping the server from its receivers, the sessions stream with a
        fresh client session as terminal. */
    method OnChanged(value: ServerStatus, now: int)
      returns (reaction: Reaction,
               statusSent: seq<Notification<StatusReceiver, ServerStatus>>,
               sessionsSent: seq<Notification<nat, Sessions.Session>>)
      modifies this`server, this`lastOpen, this`clientListener
      modifies statusFlux`queue, statusFlux`receivers, statusFlux`closed
      modifies sessionsFlux`queue, sessionsFlux`closed
      ensures value != Destroyed || status != Destroyed ==>
                unchanged(statusFlux, sessionsFlux) && statusSent == [] && sessionsSent == []
      ensures value == Closed && old(server).None? ==>
                reaction == Crashed && unchanged(this)
      ensures value == Closed && old(server).Some? && old(clientListener) == NoListener ==>
                reaction == Crashed && server == Some(old(server).value.(closed := true)) &&
                lastOpen == old(lastOpen) && clientListener == NoListener
      ensures value == Closed && old(server).Some? && old(clientListener) != NoListener ==>
                reaction == WatchdogArmed && server == Some(old(server).value.(closed := true)) &&
                lastOpen == now && clientListener == old(clientListener)
      ensures value == Opened && old(clientListener) == Running ==>
                reaction == ListenerRejected && unchanged(this)
      ensures value == Opened && old(clientListener) != Running ==>
                reaction == ListenerStarted && clientListener == Running &&
                server == old(server) && lastOpen == old(lastOpen)
      ensures value == Destroyed && status != Destroyed ==> reaction == Ignored && unchanged(this)
      ensures value == Destroyed && status == Destroyed ==>
                reaction == StreamsClosed && unchanged(this) &&
                statusFlux.closed && sessionsFlux.closed &&
                (old(statusFlux.closed) ==> unchanged(statusFlux) && statusSent == []) &&
                (!old(statusFlux.closed) ==>
                   statusFlux.receivers == RemoveFirst(old(statusFlux.receivers), ThisServer) &&
                   statusFlux.queue == old(statusFlux.queue) + [Destroyed] &&
                   NotifiesInOrder(statusSent, statusFlux.receivers, Destroyed)) &&
                (old(sessionsFlux.closed) ==> unchanged(sessionsFlux) && sessionsSent == []) &&
                (!old(sessionsFlux.closed) ==>
                   |sessionsFlux.queue| == |old(sessionsFlux.queue)| + 1 &&
                   sessionsFlux.queue[..|old(sessionsFlux.queue)|] == old(sessionsFlux.queue) &&
                   var terminal := sessionsFlux.queue[|old(sessionsFlux.queue)|];
                   fresh(terminal) && terminal.sessionType == Sessions.ClientSide &&
                   terminal.status == Sessions.Disconnected && terminal.socket == None &&
                   NotifiesInOrder(sessionsSent, sessionsFlux.receivers, terminal))
    {
      statusSent, sessionsSent := [], [];
      if value == Closed {
        if server.None? {
          return Crashed, statusSent, sessionsSent;
        }
        server := Some(server.value.(closed := true));
        if clientListener == NoListener {
          return Crashed, statusSent, sessionsSent;
        }
        lastOpen := now;
        reaction := WatchdogArmed;
      } else if value == Opened {
        if clientListener == Running {
          return ListenerRejected, statusSent, sessionsSent;
        }
        clientListener := Running;
        reaction := ListenerStarted;
      } else if status == Destroyed {
        var statusClosed := statusFlux.IsClosed();
        if !statusClosed {
          statusFlux.RemoveReceiver(ThisServer);
          statusSent := statusFlux.Close(Destroyed);
        }
        var sessionsClosed := sessionsFlux.IsClosed();
        if !sessionsClosed {
          var terminal := new Sessions.Session.Client();
          sessionsSent := sessionsFlux.Close(terminal);
        }
        reaction := StreamsClosed;
      } else {
        reaction := Ignored;
      }
    }

    /** The watchdog, `sessionTimeOut` milliseconds after it was armed; `snapshot`
        is the `lastOpen` it read when it started. The server is destroyed only when
        it is still closed and has not been closed again since (the corrected test). */
    method TimeoutCheck(snapshot: int) returns (sent: seq<Notification<StatusReceiver, ServerStatus>>)
      modifies this`status, statusFlux`queue
      ensures WatchdogFires(old(status), lastOpen, snapshot) ==>
                status == Destroyed && statusFlux.queue == old(statusFlux.queue) + [Destroyed] &&
                NotifiesInOrder(sent, statusFlux.receivers, Destroyed)
      ensures !WatchdogFires(old(status), lastOpen, snapshot) ==>
                status == old(status) && statusFlux.queue == old(statusFlux.queue) && sent == []
    {
      sent := [];
      if WatchdogFires(status, lastOpen, snapshot) {
        sent := SetStatus(Destroyed);
      }
    }

    /** The watchdog as the source writes it: it destroys any server that is not yet
        destroyed, an opened one included, when `lastOpen` still equals the snapshot. */
    method TimeoutCheckAsWritten(snapshot: int) returns (sent: seq<Notification<StatusReceiver, ServerStatus>>)
      modifies this`status, statusFlux`queue
      ensures WatchdogFiresAsWritten(old(status), lastOpen, snapshot) ==>
                status == Destroyed && statusFlux.queue == old(statusFlux.queue) + [Destroyed] &&
                NotifiesInOrder(sent, statusFlux.receivers, Destroyed)
      ensures !WatchdogFiresAsWritten(old(status), lastOpen, snapshot) ==>
                status == old(status) && statusFlux.queue == old(statusFlux.queue) && sent == []
    {
      sent := [];
      if WatchdogFiresAsWritten(status, lastOpen, snapshot) {
        sent := SetStatus(Destroyed);
      }
    }

    /** The error rule of the accept loop: when `accept` throws, the server is forced
        CLOSED only if it is still opened, and the failure is only logged otherwise.
        Either way the listener thread ends. */
    method OnAcceptFailure() returns (sent: seq<Notification<StatusReceiver, ServerStatus>>)
      modifies this`status, this`clientListener, statusFlux`queue
      ensures clientListener == Finished
      ensures old(status) == Opened ==>
                status == Closed && statusFlux.queue == old(statusFlux.queue) + [Closed] &&
                NotifiesInOrder(sent, statusFlux.receivers, Closed)
      ensures old(status) != Opened ==>
                status == old(status) && statusFlux.queue == old(statusFlux.queue) && sent == []
    {
      sent := [];
      if IsOpened() {
        sent := SetStatus(Closed);
      }
      clientListener := Finished;
    }

    /** The accept loop: while the server is opened, each socket `accept` returns
        becomes a server-side session emitted on the sessions stream. `incoming` are
        the sockets accepted before `accept` throws, which it does once the socket
        is closed; the error rule then applies. A server not opened at the start
        accepts nothing and the loop ends normally. */
    method AcceptLoop(incoming: seq<Sessions.Socket>)
      returns (sessionsSent: seq<Notification<nat, Sessions.Session>>,
               statusSent: seq<Notification<StatusReceiver, ServerStatus>>)
      modifies this`status, this`clientListener, sessionsFlux`queue, statusFlux`queue
      ensures clientListener == Finished
      ensures old(status) != Opened ==>
                status == old(status) && sessionsFlux.queue == old(sessionsFlux.queue) &&
                statusFlux.queue == old(statusFlux.queue) && sessionsSent == [] && statusSent == []
      ensures old(status) == Opened ==>
                |sessionsFlux.queue| == |old(sessionsFlux.queue)| + |incoming| &&
                sessionsFlux.queue[..|old(sessionsFlux.queue)|] == old(sessionsFlux.queue) &&
                AcceptedFrom(sessionsFlux.queue[|old(sessionsFlux.queue)|..], incoming) &&
                (forall k :: |old(sessionsFlux.queue)| <= k < |sessionsFlux.queue| ==> fresh(sessionsFlux.queue[k])) &&
                sessionsSent == Broadcasts(sessionsFlux.receivers, sessionsFlux.queue[|old(sessionsFlux.queue)|..]) &&
                status == Closed && statusFlux.queue == old(statusFlux.queue) + [Closed] &&
                NotifiesInOrder(statusSent, statusFlux.receivers, Closed)
    {
      sessionsSent, statusSent := [], [];
      if !IsOpened() {
        clientListener := Finished;
        return;
      }
      ghost var q0 := sessionsFlux.queue;
      var i := 0;
      while i < |incoming|
        invariant 0 <= i <= |incoming|
        invariant status == Opened && statusFlux.queue == old(statusFlux.queue)
        invariant |sessionsFlux.queue| == |q0| + i
        invariant sessionsFlux.queue[..|q0|] == q0
        invariant AcceptedFrom(sessionsFlux.queue[|q0|..], incoming[..i])
        invariant forall k :: |q0| <= k < |sessionsFlux.queue| ==> fresh(sessionsFlux.queue[k])
        invariant sessionsSent == Broadcasts(sessionsFlux.receivers, sessionsFlux.queue[|q0|..])
      {
        var session := new Sessions.Session.FromSocket(Some(incoming[i]), Sessions.ServerSide);
        ghost var before := sessionsFlux.queue;
        var sent := sessionsFlux.EmitValue(session);
        ghost var values := sessionsFlux.queue[|q0|..];
        assert values[..|values| - 1] == before[|q0|..];
        assert values[|values| - 1] == session;
        ghost var rs := sessionsFlux.receivers;
        assert sent == seq(|rs|, j requires 0 <= j < |rs| => Notification(rs[j], session));
        sessionsSent := sessionsSent + sent;
        assert incoming[..i + 1] == incoming[..i] + [incoming[i]];
        i := i + 1;
      }
      assert incoming[..i] == incoming;
      statusSent := OnAcceptFailure();
    }
  }

  /** A server opened, closed by a failing `accept` at time `t` (which arms the
      watchdog with snapshot `t`) and reopened with a new listener before the timeout.
      Opening does not write `lastOpen`, so when the watchdog as written wakes, it
      destroys the running server. */
  method ReopenedServerDestroyedAsWritten(t: int) returns (s: SessionServer, before: ServerStatus)
    ensures before == Opened && s.clientListener == Running
    ensures s.status == Destroyed
  {
    s := new SessionServer();
    var _, _ := s.OpenSession(8080, false, true);
    var _, _, _ := s.OnChanged(Opened, 0);
    var _ := s.OnAcceptFailure();
    var armed, _, _ := s.OnChanged(Closed, t);
    assert armed == WatchdogArmed && s.lastOpen == t;
    var _, _ := s.OpenSession(8080, false, true);
    var _, _, _ := s.OnChanged(Opened, 0);
    before := s.status;
    var _ := s.TimeoutCheckAsWritten(t);
  }

  /** The same run with the corrected watchdog: the reopened server survives it. */
  method ReopenedServerSpared(t: int) returns (s: SessionServer)
    ensures s.status == Opened && s.clientListener == Running
  {
    s := new SessionServer();
    var _, _ := s.OpenSession(8080, false, true);
    var _, _, _ := s.OnChanged(Opened, 0);
    var _ := s.OnAcceptFailure();
    var _, _, _ := s.OnChanged(Closed, t);
    var _, _ := s.OpenSession(8080, false, true);
    var _, _, _ := s.OnChanged(Opened, 0);
    var _ := s.TimeoutCheck(t);
  }
}
