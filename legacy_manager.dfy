/** The first-generation connectivity state machine of
    auto_tcp_network/network_manager.py: three states, a `shutdown` trigger
    valid from every state, and invalid triggers that raise instead of
    being ignored. Roles are stopped and started synchronously on state
    entry. */
module LegacyManager {
  import opened Common
  import opened Framing
  import opened Machine

  datatype State = Initializing | Searching | Connected

  /** `search`, `shutdown`, and the internal `_connected` and
      `_disconnected`. */
  datatype Trigger = Search | QuorumMet | QuorumLost | Shutdown

  /** The `'*'` source. */
  const AnyState: set<State> := {Initializing, Searching, Connected}

  /** `__TRANSITIONS`, in declaration order. */
  const Transitions: seq<Transition<Trigger, State>> := [
    Transition(Search, {Initializing}, Searching),
    Transition(QuorumMet, {Searching}, Connected),
    Transition(QuorumLost, {Connected}, Searching),
    Transition(Shutdown, AnyState, Initializing)
  ]

  function Next(s: State, t: Trigger): Option<State> {
    Lookup(Transitions, s, t)
  }

  /** The table changes state for exactly these (trigger, source) pairs;
      `shutdown` works from every state. */
  lemma NextTable(s: State, t: Trigger)
    ensures Next(s, t) ==
      if t == Search && s == Initializing then Some(Searching)
      else if t == QuorumMet && s == Searching then Some(Connected)
      else if t == QuorumLost && s == Connected then Some(Searching)
      else if t == Shutdown then Some(Initializing)
      else None
  {
    var table := Transitions;
    assert LookupFrom(table, 3, s, t) == if t == Shutdown then Some(Initializing) else None;
    assert LookupFrom(table, 2, s, t) ==
      if t == QuorumLost && s == Connected then Some(Searching)
      else LookupFrom(table, 3, s, t);
    assert LookupFrom(table, 1, s, t) ==
      if t == QuorumMet && s == Searching then Some(Connected)
      else LookupFrom(table, 2, s, t);
  }

  /** A start or stop call the manager makes on a role. */
  datatype RoleCall = StartRole(role: Role) | StopRole(role: Role)

  class NetworkManager {
    var state: State
    /** `__threshold`, once assigned */
    var threshold: nat
    /** `__init__` never assigns `__threshold`; the first `_stop` does. */
    var thresholdSet: bool
    /** `__connection_count` */
    var count: map<Role, nat>
    var clientRunning: bool
    const hasServer: bool
    var serverRunning: bool
    const discoveryTimeout: real
    /** Start and stop calls made on the roles, in order. */
    var roleCalls: seq<RoleCall>
    /** Arguments handed to the client role's `send`, in order. */
    var forwarded: seq<(Payload, int)>

    /** Bookkeeping that holds at every step. */
    ghost predicate Inv()
      reads this
    {
      && ClientRole in count && ServerRole in count
      && (serverRunning ==> hasServer)
      && (thresholdSet ==> threshold == StartedWeight(clientRunning, serverRunning))
    }

    /** Between operations: the threshold is unassigned only before the
        first search, the client runs exactly outside initializing, and the
        server only beside it. */
    ghost predicate Valid()
      reads this
    {
      && Inv()
      && (!thresholdSet ==> state == Initializing)
      && clientRunning == (state != Initializing)
      && (serverRunning ==> clientRunning)
    }

    constructor (hasServer: bool, timeout: real, randomize: bool, u: real)
      requires 0.0 <= u < 1.0
      ensures Valid() && state == Initializing && !thresholdSet
      ensures count == map[ClientRole := 0, ServerRole := 0]
      ensures this.hasServer == hasServer && !clientRunning && !serverRunning
      ensures discoveryTimeout == JitteredTimeout(timeout, randomize, u)
      ensures roleCalls == [] && forwarded == []
    {
      state := Initializing;
      threshold, thresholdSet := 0, false;
      count := map[ClientRole := 0, ServerRole := 0];
      clientRunning, serverRunning := false, false;
      this.hasServer := hasServer;
      discoveryTimeout := JitteredTimeout(timeout, randomize, u);
      roleCalls, forwarded := [], [];
    }

    /** The constructor's check: without a client role it raises
        AttributeError. */
    static method Create(clientGiven: bool, hasServer: bool, timeout: real, randomize: bool, u: real)
      returns (m: NetworkManager?, error: Option<Error>)
      requires 0.0 <= u < 1.0
      ensures clientGiven <==> m != null
      ensures !clientGiven ==> error == Some(MissingClient)
      ensures m != null ==> error.None? && fresh(m) && m.Valid() && m.state == Initializing
                            && !m.thresholdSet && m.hasServer == hasServer
                            && !m.clientRunning && !m.serverRunning
                            && m.count == map[ClientRole := 0, ServerRole := 0]
                            && m.roleCalls == [] && m.forwarded == []
                            && m.discoveryTimeout == JitteredTimeout(timeout, randomize, u)
    {
      if !clientGiven {
        return null, Some(MissingClient);
      }
      m := new NetworkManager(hasServer, timeout, randomize, u);
      error := None;
    }

    /** `_stop`: stops the client, then the server if it runs, zeroing the
        count of each role it stops, and invalidates the threshold. */
    method StopRoles()
      requires Inv()
      modifies this`count, this`clientRunning, this`serverRunning, this`threshold,
               this`thresholdSet, this`roleCalls
      ensures Inv() && !clientRunning && !serverRunning && thresholdSet && threshold == 0
      ensures count[ClientRole] == (if old(clientRunning) then 0 else old(count[ClientRole]))
      ensures count[ServerRole] == (if old(serverRunning) then 0 else old(count[ServerRole]))
      ensures count.Keys == old(count.Keys)
      ensures roleCalls == old(roleCalls)
                           + (if old(clientRunning) then [StopRole(ClientRole)] else [])
                           + (if old(serverRunning) then [StopRole(ServerRole)] else [])
    {
      if clientRunning {
        count := count[ClientRole := 0];
        clientRunning := false;
        roleCalls := roleCalls + [StopRole(ClientRole)];
      }
      if hasServer {
        if serverRunning {
          count := count[ServerRole := 0];
          serverRunning := false;
          roleCalls := roleCalls + [StopRole(ServerRole)];
        }
      }
      threshold, thresholdSet := 0, true;
    }

    /** `_start_client`: a stopped client gets a zero count, adds 1 to the
        threshold and is started. */
    method StartClient()
      requires Inv() && thresholdSet
      modifies this`count, this`clientRunning, this`threshold, this`roleCalls
      ensures Inv() && clientRunning
      ensures !old(clientRunning) ==>
                count == old(count)[ClientRole := 0] && threshold == old(threshold) + 1
                && roleCalls == old(roleCalls) + [StartRole(ClientRole)]
      ensures old(clientRunning) ==>
                count == old(count) && threshold == old(threshold) && roleCalls == old(roleCalls)
    {
      if !clientRunning {
        count := count[ClientRole := 0];
        threshold := threshold + 1;
        clientRunning := true;
        roleCalls := roleCalls + [StartRole(ClientRole)];
      }
    }

    /** `_start_server`: a present, stopped server gets a zero count, adds
        2 to the threshold and is started; without a server nothing
        happens. */
    method StartServer()
      requires Inv() && thresholdSet
      modifies this`count, this`serverRunning, this`threshold, this`roleCalls
      ensures Inv() && threshold <= 3
      ensures hasServer && !old(serverRunning) ==>
                serverRunning && count == old(count)[ServerRole := 0]
                && threshold == old(threshold) + 2
                && roleCalls == old(roleCalls) + [StartRole(ServerRole)]
      ensures !(hasServer && !old(serverRunning)) ==>
                serverRunning == old(serverRunning) && count == old(count)
                && threshold == old(threshold) && roleCalls == old(roleCalls)
    {
      if hasServer {
        if !serverRunning {
          count := count[ServerRole := 0];
          threshold := threshold + 2;
          serverRunning := true;
          roleCalls := roleCalls + [StartRole(ServerRole)];
        }
      }
    }

    /** Applies trigger `t`. An invalid trigger raises MachineError and
        changes nothing; otherwise the state changes and its entry actions
        run: `_stop` on entering initializing, `_stop` then `_start_client`
        on entering searching. */
    method Fire(t: Trigger) returns (o: Outcome)
      requires Valid()
      modifies this`state, this`count, this`clientRunning, this`serverRunning, this`threshold,
               this`thresholdSet, this`roleCalls
      ensures Valid()
      ensures o.Fail? <==> Next(old(state), t).None?
      ensures o.Fail? ==>
                o.error == InvalidTrigger && state == old(state) && count == old(count)
                && threshold == old(threshold) && thresholdSet == old(thresholdSet)
                && clientRunning == old(clientRunning) && serverRunning == old(serverRunning)
                && roleCalls == old(roleCalls)
      ensures o.Pass? ==> state == Next(old(state), t).value
      ensures o.Pass? && state == Initializing ==>
                thresholdSet && threshold == 0 && !serverRunning
                && roleCalls == old(roleCalls)
                                + (if old(clientRunning) then [StopRole(ClientRole)] else [])
                                + (if old(serverRunning) then [StopRole(ServerRole)] else [])
                && count[ClientRole] == (if old(clientRunning) then 0 else old(count[ClientRole]))
                && count[ServerRole] == (if old(serverRunning) then 0 else old(count[ServerRole]))
      ensures o.Pass? && state == Searching ==>
                threshold == 1 && !serverRunning && count[ClientRole] == 0
                && count[ServerRole] == (if old(serverRunning) then 0 else old(count[ServerRole]))
                && roleCalls == old(roleCalls)
                                + (if old(clientRunning) then [StopRole(ClientRole)] else [])
                                + (if old(serverRunning) then [StopRole(ServerRole)] else [])
                                + [StartRole(ClientRole)]
      ensures o.Pass? && state == Connected ==>
                count == old(count) && threshold == old(threshold) && thresholdSet == old(thresholdSet)
                && serverRunning == old(serverRunning) && roleCalls == old(roleCalls)
    {
      NextTable(state, t);
      match Next(state, t)
      case None =>
        return Fail(InvalidTrigger);
      case Some(dest) =>
        state := dest;
        if dest == Initializing {
          StopRoles();
        } else if dest == Searching {
          StopRoles();
          StartClient();
        }
        o := Pass;
    }

    /** The external `search` trigger. */
    method Search() returns (o: Outcome)
      requires Valid()
      modifies this`state, this`count, this`clientRunning, this`serverRunning, this`threshold,
               this`thresholdSet, this`roleCalls
      ensures Valid()
      ensures o.Pass? <==> old(state) == Initializing
      ensures o.Pass? ==>
                state == Searching && threshold == 1 && !serverRunning
                && count == old(count)[ClientRole := 0]
                && roleCalls == old(roleCalls) + [StartRole(ClientRole)]
      ensures o.Fail? ==>
                o.error == InvalidTrigger && state == old(state) && count == old(count)
                && threshold == old(threshold) && thresholdSet == old(thresholdSet)
                && clientRunning == old(clientRunning) && serverRunning == old(serverRunning)
                && roleCalls == old(roleCalls)
    {
      NextTable(state, Trigger.Search);
      o := Fire(Trigger.Search);
      if o.Pass? {
        // The two maps agree on both roles, and a role is one of the two.
        var m := old(count)[ClientRole := 0];
        forall k: Role ensures (k in count <==> k in m) && (k in count ==> count[k] == m[k]) {
          assert k == ClientRole || k == ServerRole;
        }
      }
    }

    /** The external `shutdown` trigger, valid from every state. */
    method Shutdown()
      requires Valid()
      modifies this`state, this`count, this`clientRunning, this`serverRunning, this`threshold,
               this`thresholdSet, this`roleCalls
      ensures Valid() && state == Initializing && thresholdSet && threshold == 0
      ensures !clientRunning && !serverRunning
      ensures count[ClientRole] == (if old(clientRunning) then 0 else old(count[ClientRole]))
      ensures count[ServerRole] == (if old(serverRunning) then 0 else old(count[ServerRole]))
      ensures roleCalls == old(roleCalls)
                           + (if old(clientRunning) then [StopRole(ClientRole)] else [])
                           + (if old(serverRunning) then [StopRole(ServerRole)] else [])
    {
      NextTable(state, Trigger.Shutdown);
      var o := Fire(Trigger.Shutdown);
    }

    /** Expiry of the discovery timer armed in searching: the server role
        is started if there is one. */
    method DiscoveryTimeout()
      requires Valid()
      modifies this`count, this`serverRunning, this`threshold, this`roleCalls
      ensures Valid()
      ensures old(state) == Searching && hasServer && !old(serverRunning) ==>
                serverRunning && threshold == 3 && count == old(count)[ServerRole := 0]
                && roleCalls == old(roleCalls) + [StartRole(ServerRole)]
      ensures !(old(state) == Searching && hasServer && !old(serverRunning)) ==>
                serverRunning == old(serverRunning) && threshold == old(threshold)
                && count == old(count) && roleCalls == old(roleCalls)
    {
      if state == Searching {
        StartServer();
      }
    }

    /** `__connection_changed`: before any search the threshold is
        unassigned, and reading it for the debug message raises before the
        count is written. Otherwise the count is overwritten, then
        `_connected` fires when the total reaches the threshold and
        `_disconnected` when it is below, whatever the state; a trigger
        invalid in the state raises, and a threshold of 0 (after a
        shutdown) raises before either fires. */
    method ConnectionChanged(r: Role, n: nat) returns (o: Outcome)
      requires Valid()
      modifies this`state, this`count, this`clientRunning, this`serverRunning, this`threshold,
               this`thresholdSet, this`roleCalls
      ensures Valid()
      ensures old(state) == Initializing ==>
                o == Fail(if old(thresholdSet) then NoThreshold else ThresholdUnset)
                && state == Initializing
                && count == (if old(thresholdSet) then old(count)[r := n] else old(count))
      ensures old(state) != Initializing ==>
                var total := old(count)[r := n][ClientRole] + old(count)[r := n][ServerRole];
                (o.Pass? <==> (old(state) == Searching && total >= old(threshold))
                              || (old(state) == Connected && total < old(threshold)))
                && (o.Fail? ==> o.error == InvalidTrigger && state == old(state))
                && (o.Pass? && old(state) == Searching ==> state == Connected)
      ensures !(o.Pass? && old(state) == Connected) ==>
                count == (if old(thresholdSet) then old(count)[r := n] else old(count))
                && threshold == old(threshold)
                && thresholdSet == old(thresholdSet) && clientRunning == old(clientRunning)
                && serverRunning == old(serverRunning) && roleCalls == old(roleCalls)
      ensures o.Pass? && old(state) == Connected ==>
                state == Searching && threshold == 1 && !serverRunning
                && count[ClientRole] == 0
                && count[ServerRole] == (if old(serverRunning) then 0 else old(count)[r := n][ServerRole])
                && roleCalls == old(roleCalls) + [StopRole(ClientRole)]
                                + (if old(serverRunning) then [StopRole(ServerRole)] else [])
                                + [StartRole(ClientRole)]
    {
      if !thresholdSet {
        return Fail(ThresholdUnset);
      }
      count := count[r := n];
      var total := count[ClientRole] + count[ServerRole];
      if threshold == 0 {
        return Fail(NoThreshold);
      }
      if total >= threshold {
        NextTable(state, QuorumMet);
        o := Fire(QuorumMet);
      } else {
        NextTable(state, QuorumLost);
        o := Fire(QuorumLost);
      }
    }

    /** `send`: raises SystemError unless connected. */
    method Send(data: Payload, length: int) returns (o: Outcome)
      modifies this`forwarded
      ensures o.Pass? <==> state == Connected
      ensures o.Fail? ==> o.error == NotConnected
      ensures forwarded == if o.Pass? then old(forwarded) + [(data, length)] else old(forwarded)
    {
      if state != Connected {
        return Fail(NotConnected);
      }
      forwarded := forwarded + [(data, length)];
      o := Pass;
    }
  }
}
