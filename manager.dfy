/** The connectivity state machine of network_tcp_auto/network_manager.py.
    The machine is the declarative transition list the `transitions`
    library interprets, with invalid triggers ignored; the manager object
    starts and stops roles on state entry, keeps the quorum threshold and
    the per-role connection counts, and publishes every state it enters. */
module Manager {
  import opened Common
  import opened Framing
  import opened Machine

  datatype State = Initialized | Searching | Connected | Disconnecting | Stopping

  /** `start`, `stop`, and the internal `_connected`, `_disconnected` and
      `_stopped`. */
  datatype Trigger = Start | Stop | QuorumMet | QuorumLost | StopDone

  /** `__TRANSITIONS`, in declaration order. */
  const Transitions: seq<Transition<Trigger, State>> := [
    Transition(Start, {Initialized}, Searching),
    Transition(QuorumMet, {Searching}, Connected),
    Transition(QuorumLost, {Connected}, Disconnecting),
    Transition(Stop, {Searching, Connected}, Stopping),
    Transition(StopDone, {Stopping}, Initialized),
    Transition(StopDone, {Disconnecting}, Searching)
  ]

  function Next(s: State, t: Trigger): Option<State> {
    Lookup(Transitions, s, t)
  }

  /** The table changes state for exactly six (trigger, source) pairs. */
  lemma NextTable(s: State, t: Trigger)
    ensures Next(s, t) ==
      if t == Start && s == Initialized then Some(Searching)
      else if t == QuorumMet && s == Searching then Some(Connected)
      else if t == QuorumLost && s == Connected then Some(Disconnecting)
      else if t == Stop && (s == Searching || s == Connected) then Some(Stopping)
      else if t == StopDone && s == Stopping then Some(Initialized)
      else if t == StopDone && s == Disconnecting then Some(Searching)
      else None
  {
    var table := Transitions;
    assert LookupFrom(table, 5, s, t) ==
      if t == StopDone && s == Disconnecting then Some(Searching) else None;
    assert LookupFrom(table, 4, s, t) ==
      if t == StopDone && s == Stopping then Some(Initialized)
      else LookupFrom(table, 5, s, t);
    assert LookupFrom(table, 3, s, t) ==
      if t == Stop && (s == Searching || s == Connected) then Some(Stopping)
      else LookupFrom(table, 4, s, t);
    assert LookupFrom(table, 2, s, t) ==
      if t == QuorumLost && s == Connected then Some(Disconnecting)
      else LookupFrom(table, 3, s, t);
    assert LookupFrom(table, 1, s, t) ==
      if t == QuorumMet && s == Searching then Some(Connected)
      else LookupFrom(table, 2, s, t);
  }

  /** The idle state is re-entered only when a stop requested from outside
      completes; a lost quorum always leads back to searching. */
  lemma InitializedOnlyAfterStop(s: State, t: Trigger)
    ensures Next(s, t) == Some(Initialized) <==> s == Stopping && t == StopDone
    ensures Next(s, t) == Some(Searching) <==>
              (s == Initialized && t == Start) || (s == Disconnecting && t == StopDone)
  {
    NextTable(s, t);
  }

  class NetworkManager {
    var state: State
    /** `__threshold` */
    var threshold: nat
    /** `__connection_count` */
    var count: map<Role, nat>
    /** `is_running()` of the client role */
    var clientRunning: bool
    /** A server role was given to the constructor. */
    const hasServer: bool
    /** `is_running()` of the server role */
    var serverRunning: bool
    const discoveryTimeout: real
    /** States published through `connection_changed`, in order. */
    var published: seq<State>
    /** Payloads handed to the client role's `send`, in order. */
    var forwarded: seq<Payload>

    /** Bookkeeping that holds at every step, even mid-way through the stop
        process: the threshold is the weight of the started roles. */
    ghost predicate Inv()
      reads this
    {
      && ClientRole in count && ServerRole in count
      && (serverRunning ==> hasServer)
      && threshold == StartedWeight(clientRunning, serverRunning)
    }

    /** Between operations: the client runs exactly when the manager is not
        idle, and the server only beside it. */
    ghost predicate Valid()
      reads this
    {
      && Inv()
      && clientRunning == (state != Initialized)
      && (serverRunning ==> clientRunning)
    }

    function Total(): nat
      reads this
      requires ClientRole in count && ServerRole in count
    {
      count[ClientRole] + count[ServerRole]
    }

    constructor (hasServer: bool, timeout: real, randomize: bool, u: real)
      requires 0.0 <= u < 1.0
      ensures Valid() && state == Initialized && threshold == 0
      ensures count == map[ClientRole := 0, ServerRole := 0]
      ensures this.hasServer == hasServer && !serverRunning
      ensures discoveryTimeout == JitteredTimeout(timeout, randomize, u)
      ensures published == [] && forwarded == []
    {
      state := Initialized;
      threshold := 0;
      count := map[ClientRole := 0, ServerRole := 0];
      clientRunning, serverRunning := false, false;
      this.hasServer := hasServer;
      discoveryTimeout := JitteredTimeout(timeout, randomize, u);
      published, forwarded := [], [];
    }

    /** The constructor's check: without a client role it raises. */
    static method Create(clientGiven: bool, hasServer: bool, timeout: real, randomize: bool, u: real)
      returns (m: NetworkManager?, error: Option<Error>)
      requires 0.0 <= u < 1.0
      ensures clientGiven <==> m != null
      ensures !clientGiven ==> error == Some(MissingClient)
      ensures m != null ==> error.None? && fresh(m) && m.Valid() && m.state == Initialized
                            && m.threshold == 0 && m.hasServer == hasServer
                            && m.count == map[ClientRole := 0, ServerRole := 0]
                            && m.published == [] && m.forwarded == []
                            && m.discoveryTimeout == JitteredTimeout(timeout, randomize, u)
    {
      if !clientGiven {
        return null, Some(MissingClient);
      }
      m := new NetworkManager(hasServer, timeout, randomize, u);
      error := None;
    }

    predicate Present(r: Role)
      reads this
    {
      r == ClientRole || hasServer
    }

    predicate Running(r: Role)
      reads this
    {
      if r == ClientRole then clientRunning else serverRunning
    }

    /** `__start_service`: a present role that is not running gets a zero
        count, adds its weight to the threshold and is started. */
    method StartService(r: Role)
      requires Inv()
      modifies this`count, this`threshold, this`clientRunning, this`serverRunning
      ensures Inv() && threshold <= 3
      ensures Present(r) && !old(Running(r)) ==>
                Running(r) && count == old(count)[r := 0] && threshold == old(threshold) + Weight(r)
                && (r == ClientRole ==> serverRunning == old(serverRunning))
                && (r == ServerRole ==> clientRunning == old(clientRunning))
      ensures !(Present(r) && !old(Running(r))) ==>
                count == old(count) && threshold == old(threshold)
                && clientRunning == old(clientRunning) && serverRunning == old(serverRunning)
    {
      if Present(r) && !Running(r) {
        count := count[r := 0];
        threshold := threshold + Weight(r);
        if r == ClientRole {
          clientRunning := true;
        } else {
          serverRunning := true;
        }
      }
    }

    /** Applies trigger `t`: an invalid trigger is ignored; otherwise the
        state changes, the entry action runs (`_start_client` on entering
        searching; entering disconnecting or stopping schedules the stop
        process, which is `StopProcess` below) and the new state is
        published. */
    method Fire(t: Trigger)
      requires Inv()
      requires t != StopDone ==> Valid()
      requires t == StopDone ==>
                 (state == Disconnecting || state == Stopping) && !clientRunning && !serverRunning
      modifies this`state, this`count, this`threshold, this`clientRunning, this`serverRunning,
               this`published
      ensures Valid() && serverRunning == old(serverRunning)
      ensures Next(old(state), t).None? ==>
                state == old(state) && published == old(published) && count == old(count)
                && threshold == old(threshold) && clientRunning == old(clientRunning)
      ensures Next(old(state), t).Some? ==>
                state == Next(old(state), t).value && published == old(published) + [state]
      ensures Next(old(state), t).Some? && state == Searching && !old(clientRunning) ==>
                count == old(count)[ClientRole := 0] && threshold == old(threshold) + 1
      ensures Next(old(state), t).Some? && (state != Searching || old(clientRunning)) ==>
                count == old(count) && threshold == old(threshold)
    {
      NextTable(state, t);
      match Next(state, t)
      case None =>
      case Some(dest) =>
        state := dest;
        if dest == Searching {
          StartService(ClientRole);
        }
        published := published + [dest];
    }

    /** The external `start` trigger. */
    method Start()
      requires Valid()
      modifies this`state, this`count, this`threshold, this`clientRunning, this`serverRunning,
               this`published
      ensures Valid() && serverRunning == old(serverRunning)
      ensures old(state) == Initialized ==>
                state == Searching && threshold == 1 && count == old(count)[ClientRole := 0]
                && published == old(published) + [Searching]
      ensures old(state) != Initialized ==>
                state == old(state) && threshold == old(threshold) && count == old(count)
                && published == old(published)
    {
      Fire(Trigger.Start);
    }

    /** The external `stop` trigger; the roles are stopped later, by the
        stop process it schedules. */
    method Stop()
      requires Valid()
      modifies this`state, this`count, this`threshold, this`clientRunning, this`serverRunning,
               this`published
      ensures Valid() && serverRunning == old(serverRunning) && clientRunning == old(clientRunning)
      ensures threshold == old(threshold) && count == old(count)
      ensures old(state) == Searching || old(state) == Connected ==>
                state == Stopping && published == old(published) + [Stopping]
      ensures !(old(state) == Searching || old(state) == Connected) ==>
                state == old(state) && published == old(published)
    {
      Fire(Trigger.Stop);
    }

    /** Expiry of the discovery timer armed in searching: the server role
        is started as well; the state does not change. */
    method DiscoveryTimeout()
      requires Valid()
      modifies this`count, this`threshold, this`clientRunning, this`serverRunning
      ensures Valid() && clientRunning == old(clientRunning)
      ensures old(state) == Searching && hasServer && !old(serverRunning) ==>
                serverRunning && threshold == 3 && count == old(count)[ServerRole := 0]
      ensures !(old(state) == Searching && hasServer && !old(serverRunning)) ==>
                serverRunning == old(serverRunning) && threshold == old(threshold) && count == old(count)
    {
      if state == Searching {
        StartService(ServerRole);
      }
    }

    /** The stop process scheduled on entering disconnecting or stopping:
        stop the client, then the server, invalidate the threshold and fire
        `_stopped`. The roles' counts are left as they were. */
    method StopProcess()
      requires Valid() && (state == Disconnecting || state == Stopping)
      modifies this`state, this`count, this`threshold, this`clientRunning, this`serverRunning,
               this`published
      ensures Valid() && !serverRunning
      ensures old(state) == Stopping ==>
                state == Initialized && threshold == 0 && count == old(count)
                && published == old(published) + [Initialized]
      ensures old(state) == Disconnecting ==>
                state == Searching && threshold == 1 && count == old(count)[ClientRole := 0]
                && published == old(published) + [Searching]
    {
      if clientRunning {
        clientRunning := false;
      }
      if serverRunning {
        serverRunning := false;
      }
      threshold := 0;
      Fire(StopDone);
    }

    /** `__connection_changed`: the role's count is overwritten, then the
        total is compared with the threshold. A zero threshold is an error;
        that happens exactly when the manager is idle. */
    method ConnectionChanged(r: Role, n: nat) returns (o: Outcome)
      requires Valid()
      modifies this`state, this`count, this`threshold, this`clientRunning, this`serverRunning,
               this`published
      ensures Valid() && count == old(count)[r := n]
      ensures threshold == old(threshold) && clientRunning == old(clientRunning)
      ensures serverRunning == old(serverRunning)
      ensures o.Fail? <==> old(state) == Initialized
      ensures o.Fail? ==> o.error == NoThreshold
      ensures old(state) == Searching && Total() >= threshold ==>
                state == Connected && published == old(published) + [Connected]
      ensures old(state) == Connected && Total() < threshold ==>
                state == Disconnecting && published == old(published) + [Disconnecting]
      ensures !(old(state) == Searching && Total() >= threshold)
              && !(old(state) == Connected && Total() < threshold) ==>
                state == old(state) && published == old(published)
    {
      count := count[r := n];
      var total := count[ClientRole] + count[ServerRole];
      if threshold == 0 {
        return Fail(NoThreshold);
      }
      if total >= threshold {
        if state != Connected {
          Fire(QuorumMet);
        }
      } else {
        if state == Connected {
          Fire(QuorumLost);
        }
      }
      o := Pass;
    }

    /** `send`: forwarded to the client role only while connected;
        otherwise only a warning is logged. */
    method Send(data: Payload) returns (sent: bool)
      modifies this`forwarded
      ensures sent <==> state == Connected
      ensures forwarded == if sent then old(forwarded) + [data] else old(forwarded)
    {
      if state != Connected {
        return false;
      }
      forwarded := forwarded + [data];
      sent := true;
    }
  }
}
