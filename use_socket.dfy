/** The connection-status hook of the chat client: a pair `{isConnected, transport}` that
    three socket events update. Each transition hands back the previous state when nothing
    would change; as values, the lemmas below say when the result equals that state. */
module UseSocket {

  /** The transport shown while no connection exists. */
  const NotAvailable: string := "N/A"

  datatype SocketState = SocketState(isConnected: bool, transport: string)

  /** The state is consistent when "N/A" is shown exactly when there is no connection. */
  predicate Consistent(s: SocketState) {
    s.transport == NotAvailable <==> !s.isConnected
  }

  /** The hook's initial state, read from the socket. `engineTransport` stands for
      `socket.io.engine.transport.name`. */
  function InitialState(connected: bool, engineTransport: string): (s: SocketState)
    ensures s.isConnected == connected
    ensures connected ==> s.transport == engineTransport
    ensures !connected ==> s.transport == NotAvailable
    ensures engineTransport != NotAvailable ==> Consistent(s)
  {
    SocketState(connected, if connected then engineTransport else NotAvailable)
  }

  /** `onConnect`: connected on the engine's current transport. */
  function OnConnect(prev: SocketState, engineTransport: string): (r: SocketState)
    ensures r.isConnected && r.transport == engineTransport
  {
    if !prev.isConnected || prev.transport != engineTransport
    then SocketState(true, engineTransport)
    else prev
  }

  /** `onDisconnect`: a connected state drops to "not connected, N/A". */
  function OnDisconnect(prev: SocketState): (r: SocketState)
    ensures !r.isConnected
    ensures prev.isConnected ==> r == SocketState(false, NotAvailable)
  {
    if prev.isConnected then SocketState(false, NotAvailable) else prev
  }

  /** `onTransportUpgrade`: only the transport changes. */
  function OnTransportUpgrade(prev: SocketState, name: string): (r: SocketState)
    ensures r.isConnected == prev.isConnected && r.transport == name
  {
    if prev.transport != name then prev.(transport := name) else prev
  }

  /** Each transition hands back its input exactly when that input already is the target. */
  lemma OnConnectUnchangedIff(prev: SocketState, engineTransport: string)
    ensures OnConnect(prev, engineTransport) == prev <==> prev.isConnected && prev.transport == engineTransport
  {
  }

  lemma OnDisconnectUnchangedIff(prev: SocketState)
    ensures OnDisconnect(prev) == prev <==> !prev.isConnected
  {
  }

  lemma OnTransportUpgradeUnchangedIff(prev: SocketState, name: string)
    ensures OnTransportUpgrade(prev, name) == prev <==> prev.transport == name
  {
  }

  /** All three transitions are idempotent. */
  lemma TransitionsIdempotent(s: SocketState, t: string)
    ensures OnConnect(OnConnect(s, t), t) == OnConnect(s, t)
    ensures OnDisconnect(OnDisconnect(s)) == OnDisconnect(s)
    ensures OnTransportUpgrade(OnTransportUpgrade(s, t), t) == OnTransportUpgrade(s, t)
  {
  }

  /** The guard in `onConnect` only preserves identity: as a value the result never depends
      on the previous state. `onDisconnect` does depend on it: a disconnected state keeps
      whatever transport it showed. */
  lemma OnConnectForgetsPrevious(a: SocketState, b: SocketState, t: string)
    ensures OnConnect(a, t) == OnConnect(b, t)
  {
  }

  lemma OnDisconnectKeepsStaleTransport(t: string)
    requires t != NotAvailable
    ensures OnDisconnect(SocketState(false, t)).transport == t
  {
  }

  // ---------------------------------------------------------------- event traces

  /** The socket events the hook subscribes to. */
  datatype Event = Connect(engineTransport: string) | Disconnect | Upgrade(name: string)

  function Step(s: SocketState, e: Event): SocketState {
    match e
    case Connect(t) => OnConnect(s, t)
    case Disconnect => OnDisconnect(s)
    case Upgrade(n) => OnTransportUpgrade(s, n)
  }

  function Run(s: SocketState, events: seq<Event>): (r: SocketState)
    decreases |events|
  {
    if events == [] then s else Run(Step(s, events[0]), events[1..])
  }

  /** An event the engine can deliver in state `s`: transport names are real names (never
      "N/A") and an upgrade only happens on an open connection. */
  predicate Deliverable(s: SocketState, e: Event) {
    match e
    case Connect(t) => t != NotAvailable
    case Disconnect => true
    case Upgrade(n) => n != NotAvailable && s.isConnected
  }

  predicate Admissible(s: SocketState, events: seq<Event>)
    decreases |events|
  {
    events == [] || (Deliverable(s, events[0]) && Admissible(Step(s, events[0]), events[1..]))
  }

  /** One deliverable event keeps the state consistent. */
  lemma StepKeepsConsistent(s: SocketState, e: Event)
    requires Consistent(s) && Deliverable(s, e)
    ensures Consistent(Step(s, e))
  {
  }

  /** Any admissible run from a consistent state, in particular from the initial state, ends
      consistent: the hook shows "N/A" exactly while it is disconnected. */
  lemma {:induction false} RunKeepsConsistent(s: SocketState, events: seq<Event>)
    requires Consistent(s) && Admissible(s, events)
    ensures Consistent(Run(s, events))
    decreases |events|
  {
    if events != [] {
      StepKeepsConsistent(s, events[0]);
      RunKeepsConsistent(Step(s, events[0]), events[1..]);
    }
  }

  /** An upgrade that reached a disconnected state would break consistency: the state would
      show a transport while disconnected. */
  lemma UpgradeWhileDisconnectedBreaksConsistency(s: SocketState, name: string)
    requires !s.isConnected && name != NotAvailable
    ensures !Consistent(OnTransportUpgrade(s, name))
  {
  }
}
