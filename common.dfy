/** Shared vocabulary of the connectivity core: failure wrappers, the two
    roles with their quorum weights, and the jittered discovery timeout. */
module Common {

  datatype Option<+T> = None | Some(value: T)

  /** The exceptions the Python code raises, by cause. */
  datatype Error =
    | MissingClient     // AttributeError('Client must be specified')
    | ThresholdUnset    // AttributeError: __threshold read before any assignment
    | NoThreshold       // ValueError('No connection threshold set')
    | InvalidTrigger    // transitions.MachineError: trigger not valid in this state
    | NotConnected      // SystemError('System must be connected to send data')

  datatype Outcome = Pass | Fail(error: Error)

  /** A role is addressed by the name it reports with `connection_changed`. */
  datatype Role = ClientRole | ServerRole

  /** Connections a role must show before the node counts as connected:
      a client needs its one outbound link, a server two inbound ones. */
  function Weight(r: Role): (w: nat)
    ensures 1 <= w <= 2
    ensures w == 1 <==> r == ClientRole
  {
    match r
    case ClientRole => 1
    case ServerRole => 2
  }

  /** Threshold contributed by the roles that are currently started. */
  function StartedWeight(clientRunning: bool, serverRunning: bool): (w: nat)
    ensures w <= Weight(ClientRole) + Weight(ServerRole)
    ensures w == 0 <==> !clientRunning && !serverRunning
  {
    (if clientRunning then Weight(ClientRole) else 0)
    + (if serverRunning then Weight(ServerRole) else 0)
  }

  /** DISCOVERY_TIMEOUT_S */
  const DefaultDiscoveryTimeout: real := 10.0
  /** DISCOVERY_TIMEOUT_RAND_FACTOR */
  const RandFactor: real := 0.25

  /** The discovery timeout fixed at construction. With randomisation on,
      it is `random.uniform` between T·(1 − factor) and T·(1 + factor). */
  function JitteredTimeout(base: real, randomize: bool, u: real): (t: real)
    requires 0.0 <= u < 1.0
    ensures !randomize ==> t == base
    ensures randomize && base >= 0.0 ==>
              base * (1.0 - RandFactor) <= t <= base * (1.0 + RandFactor)
    ensures randomize && base < 0.0 ==>
              base * (1.0 + RandFactor) <= t <= base * (1.0 - RandFactor)
  {
    if randomize then
      Uniform(base * (1.0 - RandFactor), base * (1.0 + RandFactor), u)
    else
      base
  }

  /** `random.uniform(a, b)`, which is `a + (b - a) * random()`, for the
      draw `u` in [0, 1) passed in rather than generated: it lies between
      the two ends, whichever is the smaller. */
  function Uniform(a: real, b: real, u: real): (r: real)
    requires 0.0 <= u < 1.0
    ensures a <= b ==> a <= r <= b
    ensures b < a ==> b <= r <= a
  {
    a + Scaled(b - a, u)
  }

  /** `d * u` for a draw `u` in [0, 1) lies between 0 and `d`. */
  function Scaled(d: real, u: real): (r: real)
    requires 0.0 <= u < 1.0
    ensures 0.0 <= d ==> 0.0 <= r <= d
    ensures d < 0.0 ==> d <= r <= 0.0
  {
    var e := 1.0 - u;
    assert 0.0 < e;
    assert 0.0 <= d ==> 0.0 <= d * e;
    assert d < 0.0 ==> d * e <= 0.0;
    assert d * e == d - d * u;
    d * u
  }
}
