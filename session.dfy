/**
 * The connection state the window keeps, as a value: whether `self.sock`
 * holds a socket, the text of the status label, and the log of commands the
 * socket accepted. The socket's behaviour is not modelled; each operation
 * takes the outcome of its socket call as a parameter.
 */
module Session {
  import opened Wrappers

  const DisconnectedStatus: string := "Status: Disconnected"
  const ConnectedStatus: string := "Status: Connected"
  const FailedStatusPrefix: string := "Status: Connection failed - "
  const LostStatus: string := "Status: Connection lost"

  /** The label text after a socket error whose message is `reason`. */
  function FailedStatus(reason: string): (r: string)
    ensures FailedStatusPrefix <= r && r[|FailedStatusPrefix|..] == reason
    ensures r != ConnectedStatus && r != DisconnectedStatus && r != LostStatus
  {
    var r := FailedStatusPrefix + reason;
    // The first position where each other label differs from the failure
    // prefix: "Status: Connecti|on" against "Status: Connecte|d" (15),
    // "Status: |Connection" against "Status: |Disconnected" (8) and
    // "Status: Connection |failed" against "Status: Connection |lost" (19).
    assert r[15] != ConnectedStatus[15];
    assert r[8] != DisconnectedStatus[8];
    assert r[19] != LostStatus[19];
    r
  }

  /** The four label texts the window can show. */
  predicate KnownStatus(status: string) {
    status == DisconnectedStatus || status == ConnectedStatus ||
    status == LostStatus || FailedStatusPrefix <= status
  }

  /** Where a connection attempt stops. */
  datatype ConnectOutcome =
    | SocketError(reason: string)    // creating the socket object raises
    | ConnectError(reason: string)   // `connect` raises
    | GreetingError(reason: string)  // `recv` of the greeting raises
    | Established(greeting: string)  // the greeting arrives; it is only logged

  /** What `sendall` does with one command. */
  datatype SendOutcome = Accepted | SendError(reason: string)

  datatype State = State(hasSock: bool, status: string, sent: seq<string>)

  /** Before the first connection attempt. */
  const Initial: State := State(false, DisconnectedStatus, [])

  /**
   * The facts every reachable state keeps: "Connected" and "Connection lost"
   * are shown only with a socket, "Disconnected" only before any socket
   * exists, and a command is only ever transmitted through a socket.
   */
  predicate Coherent(s: State) {
    KnownStatus(s.status) &&
    (s.status == ConnectedStatus ==> s.hasSock) &&
    (s.status == LostStatus ==> s.hasSock) &&
    (s.status == DisconnectedStatus ==> !s.hasSock) &&
    (s.sent != [] ==> s.hasSock)
  }

  /**
   * `connect_to_server`. The socket is stored before `connect` is called, so
   * it stays present after a failed connect; only a failure to create the
   * socket leaves `self.sock` as it was.
   */
  function AfterConnect(s: State, o: ConnectOutcome): (t: State)
    ensures t.sent == s.sent
    ensures t.hasSock <==> s.hasSock || !o.SocketError?
    ensures t.status == ConnectedStatus <==> o.Established?
    ensures !o.Established? ==> FailedStatusPrefix <= t.status && t.status[|FailedStatusPrefix|..] == o.reason
  {
    match o
    case SocketError(reason) => s.(status := FailedStatus(reason))
    case ConnectError(reason) => State(true, FailedStatus(reason), s.sent)
    case GreetingError(reason) => State(true, FailedStatus(reason), s.sent)
    case Established(_) => State(true, ConnectedStatus, s.sent)
  }

  /**
   * `send_command`. Without a socket nothing happens. With one the command is
   * offered to the socket exactly once; an error changes the label to
   * "Connection lost" and keeps the socket.
   */
  function AfterSend(s: State, command: string, o: SendOutcome): (t: State)
    ensures t.hasSock == s.hasSock
    ensures !s.hasSock ==> t == s
    ensures s.hasSock && o.Accepted? ==> t.sent == s.sent + [command] && t.status == s.status
    ensures s.hasSock && o.SendError? ==> t.sent == s.sent && t.status == LostStatus
  {
    if !s.hasSock then s
    else if o.Accepted? then s.(sent := s.sent + [command])
    else s.(status := LostStatus)
  }

  /** A control that may or may not produce a command, followed by `send_command` when it does. */
  function AfterOptionalSend(s: State, command: Option<string>, o: SendOutcome): (t: State)
    ensures command.None? ==> t == s
    ensures command.Some? ==> t == AfterSend(s, command.value, o)
  {
    if command.Some? then AfterSend(s, command.value, o) else s
  }

  /** A series of `send_command` calls, each with the outcome of its `sendall`. */
  function Run(s: State, calls: seq<(string, SendOutcome)>): State
    decreases |calls|
  {
    if calls == [] then s
    else Run(AfterSend(s, calls[0].0, calls[0].1), calls[1..])
  }

  /** The commands of the calls whose `sendall` succeeded, in call order. */
  function AcceptedCommands(calls: seq<(string, SendOutcome)>): (r: seq<string>)
    ensures |r| <= |calls|
  {
    if calls == [] then []
    else (if calls[0].1.Accepted? then [calls[0].0] else []) + AcceptedCommands(calls[1..])
  }

  predicate SomeSendFailed(calls: seq<(string, SendOutcome)>) {
    exists i :: 0 <= i < |calls| && calls[i].1.SendError?
  }

  // ---------------------------------------------------------------------
  // Lemmas

  lemma InitialCoherent()
    ensures Coherent(Initial)
    ensures !Initial.hasSock && Initial.status == "Status: Disconnected" && Initial.sent == []
  {
  }

  lemma AfterConnectCoherent(s: State, o: ConnectOutcome)
    requires Coherent(s)
    ensures Coherent(AfterConnect(s, o))
  {
  }

  lemma AfterSendCoherent(s: State, command: string, o: SendOutcome)
    requires Coherent(s)
    ensures Coherent(AfterSend(s, command, o))
  {
  }

  /** A series of sends never drops the socket, and without a socket it changes nothing. */
  lemma {:induction false} RunKeepsSocket(s: State, calls: seq<(string, SendOutcome)>)
    ensures Run(s, calls).hasSock == s.hasSock
    ensures !s.hasSock ==> Run(s, calls) == s
    decreases |calls|
  {
    if calls != [] {
      RunKeepsSocket(AfterSend(s, calls[0].0, calls[0].1), calls[1..]);
    }
  }

  /**
   * With a socket, a series of sends appends exactly the accepted commands to
   * the log, in call order and at most one per call.
   */
  lemma {:induction false} RunLog(s: State, calls: seq<(string, SendOutcome)>)
    requires s.hasSock
    ensures Run(s, calls).sent == s.sent + AcceptedCommands(calls)
    decreases |calls|
  {
    if calls != [] {
      var t := AfterSend(s, calls[0].0, calls[0].1);
      RunLog(t, calls[1..]);
      assert t.sent == s.sent + (if calls[0].1.Accepted? then [calls[0].0] else []);
    }
  }

  /** Some call of a series failed if and only if the first one did or some later one did. */
  lemma SomeSendFailedCons(calls: seq<(string, SendOutcome)>)
    requires calls != []
    ensures SomeSendFailed(calls) <==> calls[0].1.SendError? || SomeSendFailed(calls[1..])
  {
  }

  /**
   * With a socket, the label reads "Connection lost" after a series of sends
   * if and only if one of them failed; otherwise it is unchanged.
   */
  lemma {:induction false} RunStatus(s: State, calls: seq<(string, SendOutcome)>)
    requires s.hasSock
    ensures Run(s, calls).status == (if SomeSendFailed(calls) then LostStatus else s.status)
    decreases |calls|
  {
    if calls != [] {
      var t := AfterSend(s, calls[0].0, calls[0].1);
      RunStatus(t, calls[1..]);
      SomeSendFailedCons(calls);
    }
  }

  /** When every send succeeds, every command is transmitted, each once and in order. */
  lemma {:induction false} AllAccepted(calls: seq<(string, SendOutcome)>)
    requires forall i :: 0 <= i < |calls| ==> calls[i].1.Accepted?
    ensures AcceptedCommands(calls) == seq(|calls|, i requires 0 <= i < |calls| => calls[i].0)
  {
    if calls != [] {
      AllAccepted(calls[1..]);
    }
  }

  /** A series of sends keeps a coherent state coherent. */
  lemma {:induction false} RunCoherent(s: State, calls: seq<(string, SendOutcome)>)
    requires Coherent(s)
    ensures Coherent(Run(s, calls))
    decreases |calls|
  {
    if calls != [] {
      AfterSendCoherent(s, calls[0].0, calls[0].1);
      RunCoherent(AfterSend(s, calls[0].0, calls[0].1), calls[1..]);
    }
  }

  /**
   * A failed connect still leaves a socket, so the next command is offered to
   * it. If it is accepted it is transmitted while the label still reports the
   * failure; if it fails the label changes to "Connection lost", although no
   * connection was ever made.
   */
  lemma SendAfterFailedConnect(reason: string, command: string, error: string)
    ensures AfterConnect(Initial, ConnectError(reason)).hasSock
    ensures AfterSend(AfterConnect(Initial, ConnectError(reason)), command, Accepted) ==
      State(true, FailedStatus(reason), [command])
    ensures AfterSend(AfterConnect(Initial, ConnectError(reason)), command, SendError(error)) ==
      State(true, LostStatus, [])
  {
  }

  /**
   * A send error does not drop the socket: the next command is offered again
   * and, once accepted, is transmitted while the label still reads
   * "Connection lost".
   */
  lemma SendAfterLostConnection(s: State, first: string, next: string, reason: string)
    requires s.hasSock
    ensures AfterSend(AfterSend(s, first, SendError(reason)), next, Accepted) ==
      State(true, LostStatus, s.sent + [next])
  {
  }
}
