/** Worked runs of the managers and the client: the unit tests of
    tests/unit/test_network_manager.py against the first-generation manager
    whose API they call, the same runs against the current manager, and
    the consequences of reusing the empty payload as the sentinel. */
module Scenarios {
  import opened Common
  import opened Framing
  import M = Manager
  import L = LegacyManager
  import C = TcpClient

  // ---- first-generation manager, as the unit tests drive it ----

  /** Constructing either generation without a client raises. */
  method MissingClientRejected() returns (e1: Option<Error>, e2: Option<Error>)
    ensures e1 == Some(MissingClient) && e2 == Some(MissingClient)
  {
    var m1, m2;
    m1, e1 := L.NetworkManager.Create(false, false, DefaultDiscoveryTimeout, true, 0.5);
    m2, e2 := M.NetworkManager.Create(false, false, DefaultDiscoveryTimeout, true, 0.5);
  }

  /** A client-only manager searches with only its client started, before
      and after the discovery timeout. */
  method LegacyClientOnlySearch() returns (s: L.State, client: bool, server: bool, threshold: nat)
    ensures s == L.Searching && client && !server && threshold == 1
  {
    var m, _ := L.NetworkManager.Create(true, false, DefaultDiscoveryTimeout, true, 0.5);
    var o := m.Search();
    m.DiscoveryTimeout();
    s, client, server, threshold := m.state, m.clientRunning, m.serverRunning, m.threshold;
  }

  /** A client-only manager connects on its client's single connection. */
  method LegacyClientOnlyConnected() returns (o: Outcome, s: L.State)
    ensures o == Pass && s == L.Connected
  {
    var m, _ := L.NetworkManager.Create(true, false, DefaultDiscoveryTimeout, true, 0.5);
    var _ := m.Search();
    o := m.ConnectionChanged(ClientRole, 1);
    s := m.state;
  }

  /** With a server role, the timeout starts the server too and raises the
      threshold to 3, while the state stays searching. */
  method LegacyClientServerTimeout() returns (s: L.State, client: bool, server: bool, threshold: nat)
    ensures s == L.Searching && client && server && threshold == 3
  {
    var m, _ := L.NetworkManager.Create(true, true, DefaultDiscoveryTimeout, true, 0.5);
    var _ := m.Search();
    m.DiscoveryTimeout();
    s, client, server, threshold := m.state, m.clientRunning, m.serverRunning, m.threshold;
  }

  /** Client and server: totals 1 and 2 stay below the threshold of 3 and
      fire `_disconnected` from searching, which raises and leaves the state
      alone; a total of 3 connects. */
  method LegacyClientServerQuorum()
    returns (o1: Outcome, s1: L.State, o2: Outcome, s2: L.State, o3: Outcome, s3: L.State)
    ensures o1 == Fail(InvalidTrigger) && s1 == L.Searching
    ensures o2 == Fail(InvalidTrigger) && s2 == L.Searching
    ensures o3 == Pass && s3 == L.Connected
  {
    var m, _ := L.NetworkManager.Create(true, true, DefaultDiscoveryTimeout, true, 0.5);
    var _ := m.Search();
    m.DiscoveryTimeout();
    o1 := m.ConnectionChanged(ClientRole, 1);
    s1 := m.state;
    o2 := m.ConnectionChanged(ServerRole, 1);
    s2 := m.state;
    o3 := m.ConnectionChanged(ServerRole, 2);
    s3 := m.state;
  }

  /** A count update before the first search reads a threshold that was
      never assigned; after a shutdown it reads 0. */
  method LegacyUpdateWithoutThreshold() returns (before: Outcome, after: Outcome)
    ensures before == Fail(ThresholdUnset) && after == Fail(NoThreshold)
  {
    var m, _ := L.NetworkManager.Create(true, false, DefaultDiscoveryTimeout, true, 0.5);
    before := m.ConnectionChanged(ClientRole, 1);
    var _ := m.Search();
    m.Shutdown();
    after := m.ConnectionChanged(ClientRole, 1);
  }

  /** A count reported before the first search is discarded: the update
      raises on the unassigned threshold before writing it, so a later
      client count of 0 stays below the threshold and the `_disconnected`
      it fires from searching raises. */
  method LegacyEarlyUpdateDiscarded() returns (early: Outcome, o: Outcome, s: L.State, serverCount: nat)
    ensures early == Fail(ThresholdUnset)
    ensures o == Fail(InvalidTrigger) && s == L.Searching && serverCount == 0
  {
    var m, _ := L.NetworkManager.Create(true, false, DefaultDiscoveryTimeout, true, 0.5);
    early := m.ConnectionChanged(ServerRole, 5);
    var _ := m.Search();
    o := m.ConnectionChanged(ClientRole, 0);
    s, serverCount := m.state, m.count[ServerRole];
  }

  /** Losing the quorum re-enters searching through `_stop` then
      `_start_client`: the client is stopped and restarted and the server
      stopped, leaving threshold 1. */
  method LegacyQuorumLost() returns (o: Outcome, s: L.State, threshold: nat, calls: seq<L.RoleCall>)
    ensures o == Pass && s == L.Searching && threshold == 1
    ensures calls == [L.StartRole(ClientRole), L.StartRole(ServerRole),
                      L.StopRole(ClientRole), L.StopRole(ServerRole), L.StartRole(ClientRole)]
  {
    var m, _ := L.NetworkManager.Create(true, true, DefaultDiscoveryTimeout, true, 0.5);
    var _ := m.Search();
    m.DiscoveryTimeout();
    var _ := m.ConnectionChanged(ClientRole, 1);
    var _ := m.ConnectionChanged(ServerRole, 2);
    o := m.ConnectionChanged(ServerRole, 0);
    s, threshold, calls := m.state, m.threshold, m.roleCalls;
  }

  // ---- current manager ----

  /** Client only: searching, with the server never started. */
  method ClientOnlySearch() returns (s: M.State, client: bool, server: bool, threshold: nat)
    ensures s == M.Searching && client && !server && threshold == 1
  {
    var m, _ := M.NetworkManager.Create(true, false, DefaultDiscoveryTimeout, true, 0.5);
    m.Start();
    m.DiscoveryTimeout();
    s, client, server, threshold := m.state, m.clientRunning, m.serverRunning, m.threshold;
  }

  /** Client only: one client connection meets the threshold of 1. */
  method ClientOnlyConnected() returns (o: Outcome, s: M.State, published: seq<M.State>)
    ensures o == Pass && s == M.Connected && published == [M.Searching, M.Connected]
  {
    var m, _ := M.NetworkManager.Create(true, false, DefaultDiscoveryTimeout, true, 0.5);
    m.Start();
    o := m.ConnectionChanged(ClientRole, 1);
    s, published := m.state, m.published;
  }

  /** Client and server: totals 1 and 2 stay searching, 3 connects. */
  method ClientServerQuorum() returns (threshold: nat, s1: M.State, s2: M.State, s3: M.State)
    ensures threshold == 3
    ensures s1 == M.Searching && s2 == M.Searching && s3 == M.Connected
  {
    var m, _ := M.NetworkManager.Create(true, true, DefaultDiscoveryTimeout, true, 0.5);
    m.Start();
    m.DiscoveryTimeout();
    threshold := m.threshold;
    var _ := m.ConnectionChanged(ClientRole, 1);
    s1 := m.state;
    var _ := m.ConnectionChanged(ServerRole, 1);
    s2 := m.state;
    var _ := m.ConnectionChanged(ServerRole, 2);
    s3 := m.state;
  }

  /** `stop` twice: the second is an ignored trigger, and the stop process
      brings the manager to rest with threshold 0. */
  method StopTwice() returns (s: M.State, threshold: nat, published: seq<M.State>)
    ensures s == M.Initialized && threshold == 0
    ensures published == [M.Searching, M.Stopping, M.Initialized]
  {
    var m, _ := M.NetworkManager.Create(true, true, DefaultDiscoveryTimeout, true, 0.5);
    m.Start();
    m.Stop();
    m.Stop();
    m.StopProcess();
    s, threshold, published := m.state, m.threshold, m.published;
  }

  /** A lost quorum passes through disconnecting back to searching, not to
      rest, with the threshold rebuilt to 1 by the restarted client. */
  method DisconnectResumesSearch() returns (s: M.State, threshold: nat, published: seq<M.State>)
    ensures s == M.Searching && threshold == 1
    ensures published == [M.Searching, M.Connected, M.Disconnecting, M.Searching]
  {
    var m, _ := M.NetworkManager.Create(true, false, DefaultDiscoveryTimeout, true, 0.5);
    m.Start();
    var _ := m.ConnectionChanged(ClientRole, 1);
    var _ := m.ConnectionChanged(ClientRole, 0);
    m.StopProcess();
    s, threshold, published := m.state, m.threshold, m.published;
  }

  /** The stop process does not reset the counts: after a lost quorum the
      server's last count survives, so with a server that reports nothing
      while stopping (as the test doubles do) a client count of 0 already
      meets the rebuilt threshold of 1. */
  method StaleServerCount() returns (server: bool, serverCount: nat, s: M.State)
    ensures !server && serverCount == 2 && s == M.Connected
  {
    var m, _ := M.NetworkManager.Create(true, true, DefaultDiscoveryTimeout, true, 0.5);
    m.Start();
    m.DiscoveryTimeout();
    var _ := m.ConnectionChanged(ClientRole, 1);
    var _ := m.ConnectionChanged(ServerRole, 2);
    var _ := m.ConnectionChanged(ClientRole, 0);
    m.StopProcess();
    var _ := m.ConnectionChanged(ClientRole, 0);
    server, serverCount, s := m.serverRunning, m.count[ServerRole], m.state;
  }

  /** `send` reaches the client role only while connected. */
  method SendOnlyWhenConnected(data: Payload) returns (before: bool, after: bool, forwarded: seq<Payload>)
    ensures !before && after && forwarded == [data]
  {
    var m, _ := M.NetworkManager.Create(true, false, DefaultDiscoveryTimeout, true, 0.5);
    m.Start();
    before := m.Send(data);
    var _ := m.ConnectionChanged(ClientRole, 1);
    after := m.Send(data);
    forwarded := m.forwarded;
  }

  // ---- client ----

  /** Messages queued while connected reach the peer in order when the
      peer closes the connection, and the client browses again. */
  method PeerClose(a: Payload, b: Payload)
    returns (wire: seq<Byte>, delivered: seq<Payload>, browsing: bool, pending: seq<Payload>)
    requires a != [] && b != [] && Fits(a) && Fits(b)
    ensures delivered == [a, b] && browsing && pending == []
    ensures wire == Frame(a) + Frame(b)
  {
    var c := new C.Client();
    c.Start();
    c.FoundService(C.Opened);
    var _ := c.Send(a);
    var _ := c.Send(b);
    var q: seq<Payload> := [a, b];
    assert c.queue == q;
    TwoQueued(a, b);
    wire := c.ServeConnection([]);
    WrittenPrefixDelivered(q);
    delivered := Deframe(wire);
    browsing, pending := c.browsing, c.queue;
  }

  /** Two non-empty messages that fit are both written, framed in order. */
  lemma TwoQueued(a: Payload, b: Payload)
    requires a != [] && b != [] && Fits(a) && Fits(b)
    ensures FirstStop([a, b]) == 2 && [a, b][..2] == [a, b]
    ensures Encode([a, b]) == Frame(a) + Frame(b)
  {
    var q: seq<Payload> := [a, b];
    assert q[1..] == [b] && [b][1..] == [];
    assert Encode([b]) == Frame(b) + Encode([]);
  }

  /** An empty `send` closes the connection like the sentinel; the read
      loop then queues a sentinel of its own, which stays behind and closes
      the next connection before anything is written, holding back what
      was sent on it. */
  method EmptySendStaleSentinel(a: Payload, b: Payload)
    returns (first: seq<Byte>, second: seq<Byte>, pending: seq<Payload>)
    requires a != [] && b != [] && Fits(a) && Fits(b)
    ensures first == Frame(a) && second == [] && pending == [b, []]
  {
    var c;
    c, first := EmptySendCloses(a);
    SentinelAhead(b);
    c.FoundService(C.Opened);
    var _ := c.Send(b);
    assert c.queue == [[], b];
    second := c.ServeConnection([]);
    pending := c.queue;
  }

  /** The first connection of the run above: the empty `send` closes it
      after the message before it, and the read loop's sentinel is left
      queued while the client browses again. */
  method EmptySendCloses(a: Payload) returns (c: C.Client, first: seq<Byte>)
    requires a != [] && Fits(a)
    ensures fresh(c) && c.Valid() && c.browsing && !c.shutdownInProgress
    ensures first == Frame(a) && c.queue == [[]] && c.maxsize == 0
  {
    c := new C.Client();
    c.Start();
    c.FoundService(C.Opened);
    var _ := c.Send(a);
    var _ := c.Send([]);
    SentinelBehind(a);
    assert c.queue == [a, []];
    first := c.ServeConnection([]);
  }

  /** An empty item behind one message: the write loop writes the message
      and closes, leaving nothing queued. */
  lemma SentinelBehind(a: Payload)
    requires a != [] && Fits(a)
    ensures FirstStop([a, []]) == 1 && EndAt([a, []]) == Closed
    ensures Encode([a, []][..1]) == Frame(a) && C.Remaining([a, []]) == []
  {
    EmptyPayloadIsSentinel([a], []);
    assert [a] + [[]] + [] == [a, []];
    assert [a, []][..1] == [a];
    assert Encode([a]) == Frame(a) + Encode([]);
    C.RemainingAfterStop([a, []]);
  }

  /** An empty item at the head: the write loop closes at once, writing
      nothing and leaving what follows queued. */
  lemma SentinelAhead(b: Payload)
    ensures FirstStop([[], b]) == 0 && EndAt([[], b]) == Closed
    ensures Encode([[], b][..0]) == [] && C.Remaining([[], b]) == [b]
  {
    C.RemainingAfterStop([[], b]);
    assert [[], b][1..] == [b];
  }
}
