/** LinkState: the connect / accept / disconnect machine of one end of a link, and the
    client-server handshake between two such ends. */
module LinkState {

  datatype ELinkState = Unknown | Connecting | Connected | Disconnected

  datatype Side = Side(state: ELinkState, wasAccepted: bool, remoteConnectReceived: bool)

  const FRESH := Side(Unknown, false, false)

  // ---- The transitions, each one a spin-locked section ----

  predicate MayConnect(s: Side) {
    s.state == Unknown
  }

  function Connect(s: Side): Side {
    if MayConnect(s) then s.(state := Connecting) else s
  }

  predicate MayAccept(s: Side) {
    s.wasAccepted || s.state == Unknown || s.state == Connecting
  }

  function Accept(s: Side): Side {
    if MayAccept(s) then s.(state := Connected, wasAccepted := true) else s
  }

  predicate MayReceiveConnect(s: Side) {
    s.state != Disconnected && !s.remoteConnectReceived
  }

  function ReceiveConnect(s: Side): Side {
    if MayReceiveConnect(s) then s.(remoteConnectReceived := true) else s
  }

  /** disconnect() returns true exactly when it found the link connected. */
  function Disconnect(s: Side): Side {
    s.(state := Disconnected)
  }

  class LinkStateComponent {
    var state: ELinkState
    var wasAccepted: bool
    var remoteConnectReceived: bool

    ghost function View(): Side
      reads this
    {
      Side(state, wasAccepted, remoteConnectReceived)
    }

    constructor ()
      ensures View() == FRESH
    {
      state, wasAccepted, remoteConnectReceived := Unknown, false, false;
    }

    method TryConnect() returns (ok: bool)
      modifies this
      ensures ok == MayConnect(old(View())) && View() == Connect(old(View()))
    {
      if state != Unknown {
        return false;
      }
      state := Connecting;
      return true;
    }

    method TryAccept() returns (ok: bool)
      modifies this
      ensures ok == MayAccept(old(View())) && View() == Accept(old(View()))
    {
      if !wasAccepted && !(state == Unknown || state == Connecting) {
        return false;
      }
      state, wasAccepted := Connected, true;
      return true;
    }

    method CanReceiveConnect() returns (ok: bool)
      modifies this
      ensures ok == MayReceiveConnect(old(View())) && View() == ReceiveConnect(old(View()))
    {
      if state == Disconnected || remoteConnectReceived {
        return false;
      }
      remoteConnectReceived := true;
      return true;
    }

    method TryDisconnect() returns (disconnected: bool)
      modifies this
      ensures disconnected == (old(state) == Connected) && View() == Disconnect(old(View()))
    {
      disconnected := state == Connected;
      state := Disconnected;
    }
  }

  /** On its own the class does not keep a disconnected link down: accept() revives it exactly when
      it had been accepted before. */
  lemma AcceptRevives(s: Side)
    requires s.state == Disconnected
    ensures Accept(s).state == Disconnected <==> !s.wasAccepted
  {
  }

  // ---- The handshake ----

  /** RPCs between the ends; each is delivered exactly once, in any order. */
  datatype Msg = ConnectMsg | AcceptedMsg | DisconnectMsg

  /** The client calls connect(); the host is boss of a client-server session. The counters are
      the number of times accept() and disconnect() returned true on each end. `silent` records a
      local disconnect() of an end that was not connected, which tells the peer nothing. */
  datatype Sys = Sys(
    client: Side, host: Side,
    toHost: multiset<Msg>, toClient: multiset<Msg>,
    pending: nat,                      // connect handlers on the host between their two locked sections
    clientAccepts: nat, hostAccepts: nat,
    clientDisconnects: nat, hostDisconnects: nat,
    silent: bool)

  const INITIAL := Sys(FRESH, FRESH, multiset{}, multiset{}, 0, 0, 0, 0, 0, false)

  datatype Step =
    | ClientConnect            // LinkState::connect on the client
    | HostReceivesConnect      // linkStateConnect up to canReceiveConnect()
    | HostAccepts              // linkStateConnect from accept() on
    | ClientReceivesAccepted   // linkStateAccepted
    | ClientDisconnect         // a local disconnect() call
    | HostDisconnect
    | ClientReceivesDisconnect // linkStateDisconnect
    | HostReceivesDisconnect

  predicate Enabled(s: Sys, step: Step) {
    match step
    case ClientConnect => true
    case HostReceivesConnect => ConnectMsg in s.toHost
    case HostAccepts => s.pending > 0
    case ClientReceivesAccepted => AcceptedMsg in s.toClient
    case ClientDisconnect => true
    case HostDisconnect => true
    case ClientReceivesDisconnect => DisconnectMsg in s.toClient
    case HostReceivesDisconnect => DisconnectMsg in s.toHost
  }

  function One(b: bool): nat {
    if b then 1 else 0
  }

  function Only(b: bool, m: Msg): multiset<Msg> {
    if b then multiset{m} else multiset{}
  }

  function Apply(s: Sys, step: Step): Sys
    requires Enabled(s, step)
  {
    match step
    case ClientConnect =>
      s.(client := Connect(s.client), toHost := s.toHost + Only(MayConnect(s.client), ConnectMsg))
    case HostReceivesConnect =>
      s.(toHost := s.toHost - multiset{ConnectMsg}, host := ReceiveConnect(s.host),
         pending := s.pending + One(MayReceiveConnect(s.host)))
    case HostAccepts =>
      s.(pending := s.pending - 1, host := Accept(s.host), hostAccepts := s.hostAccepts + One(MayAccept(s.host)),
         toClient := s.toClient + Only(MayAccept(s.host), AcceptedMsg))
    case ClientReceivesAccepted =>
      s.(toClient := s.toClient - multiset{AcceptedMsg}, client := Accept(s.client),
         clientAccepts := s.clientAccepts + One(MayAccept(s.client)))
    case ClientDisconnect =>
      var up := s.client.state == Connected;
      s.(client := Disconnect(s.client), clientDisconnects := s.clientDisconnects + One(up),
         toHost := s.toHost + Only(up, DisconnectMsg), silent := s.silent || (!up && s.client.state != Disconnected))
    case HostDisconnect =>
      var up := s.host.state == Connected;
      s.(host := Disconnect(s.host), hostDisconnects := s.hostDisconnects + One(up),
         toClient := s.toClient + Only(up, DisconnectMsg), silent := s.silent || (!up && s.host.state != Disconnected))
    case ClientReceivesDisconnect =>
      s.(toClient := s.toClient - multiset{DisconnectMsg}, client := Disconnect(s.client),
         clientDisconnects := s.clientDisconnects + One(s.client.state == Connected))
    case HostReceivesDisconnect =>
      s.(toHost := s.toHost - multiset{DisconnectMsg}, host := Disconnect(s.host),
         hostDisconnects := s.hostDisconnects + One(s.host.state == Connected))
  }

  predicate Legal(s: Sys, steps: seq<Step>)
    decreases |steps|
  {
    steps == [] || (Enabled(s, steps[0]) && Legal(Apply(s, steps[0]), steps[1..]))
  }

  function Exec(s: Sys, steps: seq<Step>): Sys
    requires Legal(s, steps)
    decreases |steps|
  {
    if steps == [] then s else Exec(Apply(s, steps[0]), steps[1..])
  }

  /** One end: it was connected at most once, and disconnect() found it so at most once. */
  predicate SideOk(s: Side, accepts: nat, disconnects: nat) {
    && accepts == One(s.wasAccepted)
    && disconnects <= accepts
    && (s.state == Connected ==> s.wasAccepted && disconnects == 0)
    && (s.wasAccepted ==> s.state == Connected || s.state == Disconnected)
    && (disconnects == 1 ==> s.state == Disconnected)
  }

  predicate Inv(s: Sys) {
    && SideOk(s.client, s.clientAccepts, s.clientDisconnects)
    && SideOk(s.host, s.hostAccepts, s.hostDisconnects)
    && s.host.state != Connecting
    // at most one connect request exists, in flight or received; at most one handler acts on it
    && s.toHost[ConnectMsg] + One(s.host.remoteConnectReceived) <= One(s.client.state != Unknown)
    && s.pending + s.hostAccepts <= One(s.host.remoteConnectReceived)
    // at most one accept message exists, and only after the host accepted
    && s.toClient[AcceptedMsg] + s.clientAccepts <= s.hostAccepts
    && s.toHost[AcceptedMsg] == 0 && s.toClient[ConnectMsg] == 0
  }

  /** While no end went down silently, an end that is down has told the other or was told by it,
      and a client that is still connecting has its request or its answer under way. */
  predicate InStep(s: Sys) {
    if s.silent then s.client.state == Disconnected || s.host.state == Disconnected else
      && (s.host.state == Disconnected && s.client.state != Disconnected ==> s.toClient[DisconnectMsg] > 0)
      && (s.client.state == Disconnected && s.host.state != Disconnected ==> s.toHost[DisconnectMsg] > 0)
      && (s.client.state == Connecting && s.host.state != Disconnected ==>
            s.toHost[ConnectMsg] > 0 || s.pending > 0 || s.toClient[AcceptedMsg] > 0)
      && (s.client.state == Unknown ==> s.host.state == Unknown)
      && (s.pending > 0 ==> s.host.state == Unknown)
      && (s.toHost[DisconnectMsg] > 0 ==> s.client.state == Disconnected && s.clientAccepts == 1)
      && (s.toClient[DisconnectMsg] > 0 ==> s.host.state == Disconnected && s.hostAccepts == 1)
  }

  predicate OnClient(step: Step) {
    step.ClientConnect? || step.ClientReceivesAccepted? || step.ClientDisconnect? || step.ClientReceivesDisconnect?
  }

  lemma ClientStepInv(s: Sys, step: Step)
    requires Inv(s) && Enabled(s, step) && OnClient(step)
    ensures Inv(Apply(s, step))
  {
  }

  lemma HostStepInv(s: Sys, step: Step)
    requires Inv(s) && Enabled(s, step) && !OnClient(step)
    ensures Inv(Apply(s, step))
  {
  }

  lemma StepInv(s: Sys, step: Step)
    requires Inv(s) && Enabled(s, step)
    ensures Inv(Apply(s, step))
  {
    if OnClient(step) {
      ClientStepInv(s, step);
    } else {
      HostStepInv(s, step);
    }
  }

  lemma ClientStepInStep(s: Sys, step: Step)
    requires Inv(s) && InStep(s) && Enabled(s, step) && OnClient(step)
    ensures InStep(Apply(s, step))
  {
  }

  lemma HostStepInStep(s: Sys, step: Step)
    requires Inv(s) && InStep(s) && Enabled(s, step) && !OnClient(step)
    ensures InStep(Apply(s, step))
  {
  }

  lemma StepInStep(s: Sys, step: Step)
    requires Inv(s) && InStep(s) && Enabled(s, step)
    ensures InStep(Apply(s, step))
  {
    if OnClient(step) {
      ClientStepInStep(s, step);
    } else {
      HostStepInStep(s, step);
    }
  }

  lemma {:induction false} RunInv(s: Sys, steps: seq<Step>)
    requires Inv(s) && InStep(s) && Legal(s, steps)
    ensures Inv(Exec(s, steps)) && InStep(Exec(s, steps))
    decreases |steps|
  {
    if steps != [] {
      StepInv(s, steps[0]);
      StepInStep(s, steps[0]);
      RunInv(Apply(s, steps[0]), steps[1..]);
    }
  }

  /** In every interleaving: the client is connected only if the host has accepted, each end
      accepts at most once, and disconnect() returns true at most once per end. */
  lemma HandshakeSafe(steps: seq<Step>)
    requires Legal(INITIAL, steps)
    ensures var s := Exec(INITIAL, steps);
            && (s.client.state == Connected ==> s.hostAccepts == 1)
            && s.clientAccepts <= 1 && s.hostAccepts <= 1
            && s.clientDisconnects <= 1 && s.hostDisconnects <= 1
            && s.clientDisconnects <= s.clientAccepts <= s.hostAccepts
  {
    RunInv(INITIAL, steps);
  }

  /** Within the handshake a disconnected end stays disconnected for ever. */
  lemma {:induction false} DisconnectedAbsorbs(s: Sys, steps: seq<Step>)
    requires Inv(s) && Legal(s, steps)
    ensures s.client.state == Disconnected ==> Exec(s, steps).client.state == Disconnected
    ensures s.host.state == Disconnected ==> Exec(s, steps).host.state == Disconnected
    decreases |steps|
  {
    if steps != [] {
      StepInv(s, steps[0]);
      DisconnectedAbsorbs(Apply(s, steps[0]), steps[1..]);
    }
  }

  predicate Quiet(s: Sys) {
    s.toHost == multiset{} && s.toClient == multiset{} && s.pending == 0
  }

  /** What the local disconnect() calls so far, on the client and on the host, say about the ends.
      After a silent one, an end is down only if it was called there. */
  predicate Called(s: Sys, onClient: bool, onHost: bool) {
    && (onClient ==> s.client.state == Disconnected)
    && (onHost ==> s.host.state == Disconnected)
    && (s.silent ==> onClient || onHost)
    && (s.silent && !onClient ==> s.client.state != Disconnected && s.toClient[DisconnectMsg] == 0)
    && (s.silent && !onHost ==> s.host.state != Disconnected && s.toHost[DisconnectMsg] == 0)
    && (!s.silent && !onClient && s.client.state == Disconnected ==> s.host.state == Disconnected)
    && (!s.silent && !onHost && s.host.state == Disconnected ==> s.client.state == Disconnected)
  }

  lemma StepCalled(s: Sys, step: Step, onClient: bool, onHost: bool)
    requires Inv(s) && InStep(s) && Enabled(s, step) && Called(s, onClient, onHost)
    ensures Called(Apply(s, step), onClient || step == ClientDisconnect, onHost || step == HostDisconnect)
  {
  }

  lemma {:induction false} RunCalled(s: Sys, steps: seq<Step>, onClient: bool, onHost: bool)
    requires Inv(s) && InStep(s) && Legal(s, steps) && Called(s, onClient, onHost)
    ensures Called(Exec(s, steps), onClient || ClientDisconnect in steps, onHost || HostDisconnect in steps)
    decreases |steps|
  {
    if steps != [] {
      StepInv(s, steps[0]);
      StepInStep(s, steps[0]);
      StepCalled(s, steps[0], onClient, onHost);
      RunCalled(Apply(s, steps[0]), steps[1..],
                onClient || steps[0] == ClientDisconnect, onHost || steps[0] == HostDisconnect);
      assert steps == [steps[0]] + steps[1..];
    }
  }

  /** When everything sent has been handled, both ends agree on the state of the link if and only if
      no end was disconnected before it was connected, or disconnect() was called on both. */
  lemma QuietAgreement(steps: seq<Step>)
    requires Legal(INITIAL, steps)
    ensures var s := Exec(INITIAL, steps);
            Quiet(s) ==>
              (s.client.state == s.host.state <==>
                 !s.silent || (ClientDisconnect in steps && HostDisconnect in steps))
  {
    RunInv(INITIAL, steps);
    RunCalled(INITIAL, steps, false, false);
  }

  /** What the calls so far say: without a connect() nothing was ever asked or answered, and without a
      disconnect() no end is down or about to be. */
  predicate Asked(s: Sys, connects: bool, disconnects: bool) {
    && (if connects then s.client.state != Unknown
        else s.client.state != Connecting && s.client.state != Connected
             && s.toHost[ConnectMsg] == 0 && !s.host.remoteConnectReceived)
    && (!disconnects ==>
          && s.client.state != Disconnected && s.host.state != Disconnected
          && s.toHost[DisconnectMsg] == 0 && s.toClient[DisconnectMsg] == 0 && !s.silent)
  }

  lemma StepAsked(s: Sys, step: Step, connects: bool, disconnects: bool)
    requires Inv(s) && Enabled(s, step) && Asked(s, connects, disconnects)
    ensures Asked(Apply(s, step), connects || step == ClientConnect,
                  disconnects || step == ClientDisconnect || step == HostDisconnect)
  {
  }

  lemma {:induction false} RunAsked(s: Sys, steps: seq<Step>, connects: bool, disconnects: bool)
    requires Inv(s) && Legal(s, steps) && Asked(s, connects, disconnects)
    ensures Asked(Exec(s, steps), connects || ClientConnect in steps,
                  disconnects || ClientDisconnect in steps || HostDisconnect in steps)
    decreases |steps|
  {
    if steps != [] {
      StepInv(s, steps[0]);
      StepAsked(s, steps[0], connects, disconnects);
      RunAsked(Apply(s, steps[0]), steps[1..], connects || steps[0] == ClientConnect,
               disconnects || steps[0] == ClientDisconnect || steps[0] == HostDisconnect);
      assert steps == [steps[0]] + steps[1..];
    }
  }

  /** When everything sent has been handled, both ends are connected if and only if connect() was
      called and disconnect() was not, on either end. */
  lemma QuietConnected(steps: seq<Step>)
    requires Legal(INITIAL, steps)
    ensures var s := Exec(INITIAL, steps);
            Quiet(s) ==>
              (s.client.state == Connected && s.host.state == Connected <==>
                 ClientConnect in steps && ClientDisconnect !in steps && HostDisconnect !in steps)
  {
    RunInv(INITIAL, steps);
    RunCalled(INITIAL, steps, false, false);
    RunAsked(INITIAL, steps, false, false);
  }

  /** The exception is real: a client that disconnects while connecting tells nobody, and the host
      stays connected to it. */
  lemma SilentDisconnectLeavesHalfOpen() returns (steps: seq<Step>)
    ensures Legal(INITIAL, steps) && HalfOpen(Exec(INITIAL, steps))
  {
    var s := Apply(INITIAL, ClientConnect);
    steps := ThenDisconnects(s);
    steps := Before(INITIAL, ClientConnect, steps);
  }

  /** Nothing is under way, the client is down and the host is connected to it. */
  predicate HalfOpen(s: Sys) {
    Quiet(s) && s.client.state == Disconnected && s.host.state == Connected
  }

  /** The client is down and was never accepted; the host has these messages and handlers to go. */
  predicate ClientGone(s: Sys, toHost: multiset<Msg>, toClient: multiset<Msg>, pending: nat) {
    s.client == Side(Disconnected, false, false) && s.toHost == toHost && s.toClient == toClient && s.pending == pending
  }

  lemma ThenDisconnects(s: Sys) returns (steps: seq<Step>)
    requires s.client == Side(Connecting, false, false) && s.host == FRESH
    requires s.toHost == multiset{ConnectMsg} && s.toClient == multiset{} && s.pending == 0
    ensures Legal(s, steps) && HalfOpen(Exec(s, steps))
  {
    var next := Apply(s, ClientDisconnect);
    assert next.toHost == multiset{ConnectMsg};
    steps := ThenHostReceives(next);
    steps := Before(s, ClientDisconnect, steps);
  }

  lemma ThenHostReceives(s: Sys) returns (steps: seq<Step>)
    requires ClientGone(s, multiset{ConnectMsg}, multiset{}, 0) && s.host == FRESH
    ensures Legal(s, steps) && HalfOpen(Exec(s, steps))
  {
    var next := Apply(s, HostReceivesConnect);
    assert next.toHost == multiset{};
    steps := ThenHostAccepts(next);
    steps := Before(s, HostReceivesConnect, steps);
  }

  lemma ThenHostAccepts(s: Sys) returns (steps: seq<Step>)
    requires ClientGone(s, multiset{}, multiset{}, 1) && s.host.state == Unknown
    ensures Legal(s, steps) && HalfOpen(Exec(s, steps))
  {
    var next := Apply(s, HostAccepts);
    assert next.toClient == multiset{AcceptedMsg};
    steps := ThenAcceptIsRefused(next);
    steps := Before(s, HostAccepts, steps);
  }

  lemma ThenAcceptIsRefused(s: Sys) returns (steps: seq<Step>)
    requires ClientGone(s, multiset{}, multiset{AcceptedMsg}, 0) && s.host.state == Connected
    ensures Legal(s, steps) && HalfOpen(Exec(s, steps))
  {
    var next := Apply(s, ClientReceivesAccepted);
    assert next.toClient == multiset{};
    steps := Before(s, ClientReceivesAccepted, []);
  }

  lemma Before(s: Sys, step: Step, rest: seq<Step>) returns (steps: seq<Step>)
    requires Enabled(s, step) && Legal(Apply(s, step), rest)
    ensures Legal(s, steps) && Exec(s, steps) == Exec(Apply(s, step), rest)
  {
    steps := [step] + rest;
    assert steps[1..] == rest;
  }
}
