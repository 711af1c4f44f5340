/**
 Launching a local network: port ranges, node numbers and the registry that is saved
 after every launch. Ports and numbers are 16-bit; whether arithmetic on them traps or
 wraps is a property of the build, given as `overflowChecks`.
 */
module LocalNetwork {
  import opened Wrappers

  const U16_MAX: nat := 65535

  datatype PortRange = Single(port: nat) | Range(start: nat, end: nat)

  /** What `PortRange::parse` can produce. */
  predicate Parsed(r: PortRange)
  {
    match r
    case Single(port) => port <= U16_MAX
    case Range(start, end) => start < end <= U16_MAX
  }

  function First(r: PortRange): nat
  {
    match r
    case Single(port) => port
    case Range(start, _) => start
  }

  function LastPort(r: PortRange): nat
  {
    match r
    case Single(port) => port
    case Range(_, end) => end
  }

  /** The number of ports of the full range does not fit 16 bits. */
  predicate TooLong(r: PortRange)
  {
    r == Range(0, U16_MAX)
  }

  /** `PortRange::validate`, where the port count of the full range comes out as zero unless it traps. */
  predicate Validated(r: PortRange, count: nat)
  {
    match r
    case Single(_) => count == 1
    case Range(start, end) => count == (end - start + 1) % (U16_MAX + 1)
  }

  datatype NodeData = NodeData(number: nat, nodePort: Option<nat>, metricsPort: Option<nat>, rpcPort: nat, first: bool)

  function PortsOf(n: NodeData): set<nat>
  {
    {n.rpcPort} + (if n.nodePort.Some? then {n.nodePort.value} else {})
                + (if n.metricsPort.Some? then {n.metricsPort.value} else {})
  }

  function UsedPorts(nodes: seq<NodeData>): set<nat>
  {
    if nodes == [] then {} else UsedPorts(Front(nodes)) + PortsOf(Last(nodes))
  }

  /** No port of the range is registered. */
  predicate Available(r: PortRange, nodes: seq<NodeData>)
  {
    forall p | First(r) <= p <= LastPort(r) :: p !in UsedPorts(nodes)
  }

  method CheckPortAvailability(r: PortRange, nodes: seq<NodeData>) returns (ok: bool)
    ensures ok <==> Available(r, nodes)
  {
    var allPorts: seq<nat> := [];
    for i := 0 to |nodes|
      invariant (set p | p in allPorts) == UsedPorts(nodes[..i])
    {
      ghost var before := allPorts;
      if nodes[i].metricsPort.Some? {
        allPorts := allPorts + [nodes[i].metricsPort.value];
      }
      if nodes[i].nodePort.Some? {
        allPorts := allPorts + [nodes[i].nodePort.value];
      }
      allPorts := allPorts + [nodes[i].rpcPort];
      assert Front(nodes[..i + 1]) == nodes[..i];
      assert (set p | p in allPorts) == (set p | p in before) + PortsOf(nodes[i]);
    }
    assert nodes[..|nodes|] == nodes;
    assert forall p :: p in allPorts <==> p in UsedPorts(nodes);
    match r {
      case Single(port) =>
        return port !in allPorts;
      case Range(start, end) =>
        var i := start;
        while i <= end
          invariant start <= i <= end + 1 || i == start
          invariant forall p | start <= p < i :: p !in allPorts
        {
          if i in allPorts {
            return false;
          }
          i := i + 1;
        }
        return true;
    }
  }

  // ---------------------------------------------------------------- options and their meaning

  datatype Options = Options(
    join: bool,
    nodeCount: nat,
    enableMetricsServer: bool,
    nodePort: Option<PortRange>,
    metricsPort: Option<PortRange>,
    rpcPort: Option<PortRange>)

  predicate WellFormed(o: Options)
  {
    && o.nodeCount <= U16_MAX
    && (o.nodePort.Some? ==> Parsed(o.nodePort.value))
    && (o.metricsPort.Some? ==> Parsed(o.metricsPort.value))
    && (o.rpcPort.Some? ==> Parsed(o.rpcPort.value))
  }

  /** How many nodes are launched: the first node of a new network is launched in any case. */
  function Wanted(o: Options): nat
  {
    if !o.join && o.nodeCount == 0 then 1 else o.nodeCount
  }

  predicate Granted(r: Option<PortRange>, count: nat, nodes: seq<NodeData>)
  {
    r.Some? ==> Validated(r.value, count) && Available(r.value, nodes)
  }

  predicate AllGranted(o: Options, nodes: seq<NodeData>)
  {
    && Granted(o.nodePort, o.nodeCount, nodes)
    && Granted(o.metricsPort, o.nodeCount, nodes)
    && Granted(o.rpcPort, o.nodeCount, nodes)
  }

  /** `get_start_port_if_applicable`. */
  function StartPort(r: Option<PortRange>): Option<nat>
  {
    if r.Some? then Some(First(r.value)) else None
  }

  /** The port variable after `i` increments. */
  function PortAt(r: Option<PortRange>, i: nat): Option<nat>
  {
    if r.Some? then Some((First(r.value) + i) % (U16_MAX + 1)) else None
  }

  /** `(len as u16) + 1` without a trap. */
  function NumberAt(registered: nat): nat
  {
    (registered % (U16_MAX + 1) + 1) % (U16_MAX + 1)
  }

  predicate EndsAtTop(r: Option<PortRange>)
  {
    r.Some? && LastPort(r.value) == U16_MAX
  }

  predicate SomeEndsAtTop(o: Options)
  {
    EndsAtTop(o.nodePort) || EndsAtTop(o.metricsPort) || EndsAtTop(o.rpcPort)
  }

  predicate SomeTooLong(o: Options)
  {
    || (o.nodePort.Some? && TooLong(o.nodePort.value))
    || (o.metricsPort.Some? && TooLong(o.metricsPort.value))
    || (o.rpcPort.Some? && TooLong(o.rpcPort.value))
  }

  // ---------------------------------------------------------------- ports handed out

  /** Every node launched gets a port of a validated range. */
  lemma PortInRange(r: PortRange, o: Options, i: nat)
    requires Parsed(r) && Validated(r, o.nodeCount) && i < Wanted(o)
    ensures First(r) + i <= LastPort(r)
    ensures PortAt(Some(r), i) == Some(First(r) + i)
    ensures First(r) + i == U16_MAX ==> i + 1 == Wanted(o)
  {
  }

  lemma PortStep(r: Option<PortRange>, i: nat)
    ensures r.Some? ==> PortAt(r, i).value <= U16_MAX
    ensures r.Some? ==> PortAt(r, i + 1) == Some((PortAt(r, i).value + 1) % (U16_MAX + 1))
  {
  }

  /** A registered node holds the port, for whatever purpose. */
  predicate Holds(n: NodeData, p: nat)
  {
    n.rpcPort == p || n.nodePort == Some(p) || n.metricsPort == Some(p)
  }

  predicate SomeHolds(nodes: seq<NodeData>, p: nat)
  {
    exists i :: 0 <= i < |nodes| && Holds(nodes[i], p)
  }

  /** The ports gathered are exactly those some registered node holds. */
  lemma {:induction false} UsedPort(nodes: seq<NodeData>, p: nat)
    ensures p in UsedPorts(nodes) <==> SomeHolds(nodes, p)
  {
    if nodes != [] {
      UsedPort(Front(nodes), p);
      if p in UsedPorts(Front(nodes)) {
        var i :| 0 <= i < |Front(nodes)| && Holds(Front(nodes)[i], p);
        assert Holds(nodes[i], p);
      } else if p in PortsOf(Last(nodes)) {
        assert Holds(nodes[|nodes| - 1], p);
      }
      if i :| 0 <= i < |nodes| && Holds(nodes[i], p) {
        assert i < |nodes| - 1 ==> Holds(Front(nodes)[i], p);
      }
    }
  }

  /** A range is granted exactly when it has as many ports as nodes are asked for and no registered node holds
      any of them; the count of the full range comes out as zero. */
  lemma GrantedExactly(r: PortRange, count: nat, nodes: seq<NodeData>)
    requires Parsed(r)
    ensures Granted(Some(r), count, nodes) <==>
            && (if r == Range(0, 65535) then count == 0 else count == LastPort(r) - First(r) + 1)
            && (forall p | First(r) <= p <= LastPort(r) :: !SomeHolds(nodes, p))
  {
    forall p | First(r) <= p <= LastPort(r) ensures p in UsedPorts(nodes) <==> SomeHolds(nodes, p) {
      UsedPort(nodes, p);
    }
  }

  // ---------------------------------------------------------------- the surroundings

  /** What one launch meets: the ports found free for RPC and metrics, if they are asked for, and whether
      the node's version is found, its process starts and its RPC service answers. */
  datatype Answers = Answers(rpcPort: Option<nat>, metricsPort: Option<nat>, launchOk: bool)

  /** The answers to each launch, and whether saving the registry after so many launches succeeds. */
  datatype World = World(node: nat -> Answers, saveOk: nat -> bool)

  datatype Outcome = Completed | Rejected | RangeOverflow | LaunchFailed | SaveFailed | NumberOverflow | PortOverflow

  /** Why the launch with `i` predecessors in this call fails, if it does. */
  function LaunchProblem(o: Options, w: World, registered: nat, overflowChecks: bool, i: nat): Option<Outcome>
  {
    var a := w.node(i);
    if o.rpcPort.None? && a.rpcPort.None? then Some(LaunchFailed)
    else if o.metricsPort.None? && o.enableMetricsServer && a.metricsPort.None? then Some(LaunchFailed)
    else if overflowChecks && (registered + i) % (U16_MAX + 1) == U16_MAX then Some(NumberOverflow)
    else if !a.launchOk then Some(LaunchFailed)
    else None
  }

  /** The node a launch with `i` predecessors in this call records. */
  function NodeFor(o: Options, w: World, registered: nat, i: nat): NodeData
  {
    NodeData(
      NumberAt(registered + i),
      PortAt(o.nodePort, i),
      if o.metricsPort.Some? then PortAt(o.metricsPort, i)
      else if o.enableMetricsServer then w.node(i).metricsPort else None,
      if o.rpcPort.Some? then PortAt(o.rpcPort, i).value
      else if w.node(i).rpcPort.Some? then w.node(i).rpcPort.value else 0,
      !o.join && i == 0)
  }

  /** The launch with `i` predecessors finds the ports it needs, a number that does not overflow, and a node that
      starts and answers. */
  predicate LaunchWorks(o: Options, w: World, registered: nat, overflowChecks: bool, i: nat)
  {
    && (o.rpcPort.Some? || w.node(i).rpcPort.Some?)
    && (o.metricsPort.Some? || !o.enableMetricsServer || w.node(i).metricsPort.Some?)
    && !(overflowChecks && (registered + i) % 65536 == 65535)
    && w.node(i).launchOk
  }

  /** Why a launch fails: for want of a port, or of a running node, or on its number. */
  lemma LaunchProblemExactly(o: Options, w: World, registered: nat, overflowChecks: bool, i: nat)
    ensures LaunchProblem(o, w, registered, overflowChecks, i).None? <==>
            LaunchWorks(o, w, registered, overflowChecks, i)
    ensures LaunchProblem(o, w, registered, overflowChecks, i) == Some(NumberOverflow) ==>
              overflowChecks && (registered + i) % 65536 == 65535
    ensures LaunchProblem(o, w, registered, overflowChecks, i) == Some(LaunchFailed) ==>
              || (o.rpcPort.None? && w.node(i).rpcPort.None?)
              || (o.metricsPort.None? && o.enableMetricsServer && w.node(i).metricsPort.None?)
              || !w.node(i).launchOk
  {
  }

  /** The i-th node launched: its number, which ports it got from where, and that only the first node of a new
      network is marked as such. */
  predicate LaunchedAs(o: Options, w: World, registered: nat, i: nat, n: NodeData)
  {
    && (registered + i < 65535 ==> n.number == registered + i + 1)
    && (n.first <==> !o.join && i == 0)
    && (o.nodePort.None? ==> n.nodePort.None?)
    && (o.metricsPort.None? ==> n.metricsPort == if o.enableMetricsServer then w.node(i).metricsPort else None)
    && (o.rpcPort.None? ==> Some(n.rpcPort) == w.node(i).rpcPort)
    && (o.nodePort.Some? ==> n.nodePort == Some((First(o.nodePort.value) + i) % 65536))
    && (o.metricsPort.Some? ==> n.metricsPort == Some((First(o.metricsPort.value) + i) % 65536))
    && (o.rpcPort.Some? ==> n.rpcPort == (First(o.rpcPort.value) + i) % 65536)
  }

  /** The launch with `i` predecessors worked, and its node is in the registry at its place. */
  predicate Launched(o: Options, w: World, registry: seq<NodeData>, overflowChecks: bool, after: seq<NodeData>, i: nat)
  {
    && LaunchWorks(o, w, |registry|, overflowChecks, i)
    && |registry| + i < |after| && LaunchedAs(o, w, |registry|, i, after[|registry| + i])
  }

  lemma NodeForExactly(o: Options, w: World, registered: nat, overflowChecks: bool, i: nat)
    requires LaunchWorks(o, w, registered, overflowChecks, i)
    ensures LaunchedAs(o, w, registered, i, NodeFor(o, w, registered, i))
  {
    if registered + i < 65535 {
      NumberOn(registered, i);
    }
  }

  /** The registry once it has grown by `k` launches. */
  function RegistryAfter(registry: seq<NodeData>, o: Options, w: World, k: nat): seq<NodeData>
  {
    if k == 0 then registry else RegistryAfter(registry, o, w, k - 1) + [NodeFor(o, w, |registry|, k - 1)]
  }

  lemma {:induction false} RegistryGrown(registry: seq<NodeData>, o: Options, w: World, k: nat)
    ensures |RegistryAfter(registry, o, w, k)| == |registry| + k
    ensures registry <= RegistryAfter(registry, o, w, k)
    ensures forall i | 0 <= i < k :: RegistryAfter(registry, o, w, k)[|registry| + i] == NodeFor(o, w, |registry|, i)
  {
    if k > 0 {
      RegistryGrown(registry, o, w, k - 1);
    }
  }

  /** The port comes from the range, if one was asked for, and no node of the registry holds it. */
  predicate FromRange(port: Option<nat>, r: Option<PortRange>, registry: seq<NodeData>)
  {
    r.Some? ==> port.Some? && First(r.value) <= port.value <= LastPort(r.value) && port.value !in UsedPorts(registry)
  }

  lemma PortFresh(r: Option<PortRange>, o: Options, registry: seq<NodeData>, i: nat)
    requires r.Some? ==> Parsed(r.value)
    requires Granted(r, o.nodeCount, registry) && i < Wanted(o)
    ensures FromRange(PortAt(r, i), r, registry)
  {
    if r.Some? {
      PortInRange(r.value, o, i);
    }
  }

  lemma PortDistinct(r: Option<PortRange>, o: Options, registry: seq<NodeData>, i: nat, j: nat)
    requires r.Some? ==> Parsed(r.value)
    requires Granted(r, o.nodeCount, registry) && i < j < Wanted(o)
    ensures r.Some? ==> PortAt(r, i) != PortAt(r, j)
  {
    if r.Some? {
      PortInRange(r.value, o, i);
      PortInRange(r.value, o, j);
    }
  }

  lemma NumberOn(registered: nat, i: nat)
    requires registered + i < U16_MAX
    ensures NumberAt(registered + i) == registered + i + 1
  {
  }

  /** Every node launched holds ports of the granted ranges that no node was registered with before, and
      is numbered on from the registry. */
  lemma PortsAreFresh(o: Options, w: World, registry: seq<NodeData>, k: nat, i: nat)
    requires WellFormed(o) && AllGranted(o, registry) && i < k <= Wanted(o)
    ensures |RegistryAfter(registry, o, w, k)| == |registry| + k
    ensures var n := RegistryAfter(registry, o, w, k)[|registry| + i];
            && FromRange(n.nodePort, o.nodePort, registry)
            && FromRange(n.metricsPort, o.metricsPort, registry)
            && FromRange(Some(n.rpcPort), o.rpcPort, registry)
            && (|registry| + k <= U16_MAX ==> n.number == |registry| + i + 1)
  {
    RegistryGrown(registry, o, w, k);
    PortFresh(o.nodePort, o, registry, i);
    PortFresh(o.metricsPort, o, registry, i);
    PortFresh(o.rpcPort, o, registry, i);
    if |registry| + k <= U16_MAX {
      NumberOn(|registry|, i);
    }
  }

  /** No range hands out a port twice. */
  lemma PortsAreDistinct(o: Options, w: World, registry: seq<NodeData>, k: nat, i: nat, j: nat)
    requires WellFormed(o) && AllGranted(o, registry) && i < j < k <= Wanted(o)
    ensures |RegistryAfter(registry, o, w, k)| == |registry| + k
    ensures var after := RegistryAfter(registry, o, w, k);
            NoSharedPort(o, after[|registry| + i], after[|registry| + j])
  {
    RegistryGrown(registry, o, w, k);
    NodesDiffer(o, w, registry, i, j);
  }

  predicate NoSharedPort(o: Options, n: NodeData, m: NodeData)
  {
    && (o.nodePort.Some? ==> n.nodePort != m.nodePort)
    && (o.metricsPort.Some? ==> n.metricsPort != m.metricsPort)
    && (o.rpcPort.Some? ==> n.rpcPort != m.rpcPort)
  }

  lemma NodesDiffer(o: Options, w: World, registry: seq<NodeData>, i: nat, j: nat)
    requires WellFormed(o) && AllGranted(o, registry) && i < j < Wanted(o)
    ensures NoSharedPort(o, NodeFor(o, w, |registry|, i), NodeFor(o, w, |registry|, j))
  {
    PortDistinct(o.nodePort, o, registry, i, j);
    PortDistinct(o.metricsPort, o, registry, i, j);
    PortDistinct(o.rpcPort, o, registry, i, j);
  }

  // ---------------------------------------------------------------- how a run ends

  /** Whether the registry is saved with `k` nodes launched: a new network is not saved before its first. */
  predicate SaveDue(o: Options, k: nat)
  {
    o.join || k > 0
  }

  /** The increment behind the last launch traps. */
  predicate PortTrap(o: Options, overflowChecks: bool, k: nat)
  {
    overflowChecks && k == Wanted(o) && k > 0 && SomeEndsAtTop(o)
  }

  /** The ports are incremented before the save behind the first node of a new network, after all others. */
  predicate TrapPrecedesSave(o: Options, overflowChecks: bool, k: nat)
  {
    PortTrap(o, overflowChecks, k) && !o.join && k == 1
  }

  /** The first `k` launches and the saves before the last of them succeed. */
  predicate Progress(o: Options, w: World, registered: nat, overflowChecks: bool, k: nat)
  {
    && k <= Wanted(o)
    && (forall j | 0 <= j < k :: LaunchProblem(o, w, registered, overflowChecks, j).None?)
    && (forall j | 0 <= j < k && SaveDue(o, j) :: w.saveOk(j))
  }

  lemma ProgressStep(o: Options, w: World, registered: nat, overflowChecks: bool, k: nat)
    requires Progress(o, w, registered, overflowChecks, k) && k < Wanted(o)
    requires LaunchProblem(o, w, registered, overflowChecks, k).None? && (SaveDue(o, k) ==> w.saveOk(k))
    ensures Progress(o, w, registered, overflowChecks, k + 1)
  {
  }

  /** The registry has been saved and the next node can be launched, if one is wanted. */
  predicate Ready(o: Options, w: World, registered: nat, overflowChecks: bool, k: nat)
  {
    Progress(o, w, registered, overflowChecks, k) && w.saveOk(k) && !PortTrap(o, overflowChecks, k)
  }

  /** The call ends before the save behind the first node of a new network. */
  predicate NeverSaved(o: Options, overflowChecks: bool, k: nat)
  {
    !o.join && (k == 0 || TrapPrecedesSave(o, overflowChecks, k))
  }

  /** With all ranges granted, the call ends with `outcome` behind `k` launches. */
  predicate Ended(o: Options, w: World, registered: nat, overflowChecks: bool, k: nat, outcome: Outcome)
  {
    && Progress(o, w, registered, overflowChecks, k)
    && match outcome
       case Completed => k == Wanted(o) && w.saveOk(k) && !PortTrap(o, overflowChecks, k)
       case PortOverflow => PortTrap(o, overflowChecks, k) && (w.saveOk(k) || TrapPrecedesSave(o, overflowChecks, k))
       case SaveFailed => SaveDue(o, k) && !w.saveOk(k) && !TrapPrecedesSave(o, overflowChecks, k)
       case LaunchFailed => FailsAt(o, w, registered, overflowChecks, k, outcome)
       case NumberOverflow => FailsAt(o, w, registered, overflowChecks, k, outcome)
       case Rejected => false
       case RangeOverflow => false
  }

  lemma ReadyCompletes(o: Options, w: World, registered: nat, overflowChecks: bool, k: nat)
    requires Ready(o, w, registered, overflowChecks, k) && k >= o.nodeCount && SaveDue(o, k)
    ensures Ended(o, w, registered, overflowChecks, k, Completed)
  {
  }

  predicate FailsAt(o: Options, w: World, registered: nat, overflowChecks: bool, k: nat, outcome: Outcome)
  {
    && k < Wanted(o) && (SaveDue(o, k) ==> w.saveOk(k))
    && LaunchProblem(o, w, registered, overflowChecks, k) == Some(outcome)
  }

  /** The answers of the surroundings decide both the outcome and the number of nodes launched. */
  lemma EndedOnce(o: Options, w: World, registered: nat, overflowChecks: bool,
                  k: nat, outcome: Outcome, k': nat, outcome': Outcome)
    requires Ended(o, w, registered, overflowChecks, k, outcome)
    requires Ended(o, w, registered, overflowChecks, k', outcome')
    ensures k == k' && outcome == outcome'
  {
  }

  predicate AllLaunchesWork(o: Options, w: World, registered: nat, overflowChecks: bool)
  {
    forall j | 0 <= j < Wanted(o) :: LaunchProblem(o, w, registered, overflowChecks, j).None?
  }

  /** Every save due with at most `k` nodes launched succeeds. */
  predicate SavesWork(o: Options, w: World, k: int)
  {
    forall j: nat | j <= k && SaveDue(o, j) :: w.saveOk(j)
  }

  /** The launch with `i` predecessors is the first to fail, for the given reason, and no save fails before. */
  predicate FirstFailure(o: Options, w: World, registered: nat, overflowChecks: bool, i: nat, reason: Outcome)
  {
    && i < Wanted(o)
    && (forall j | 0 <= j < i :: LaunchProblem(o, w, registered, overflowChecks, j).None?)
    && LaunchProblem(o, w, registered, overflowChecks, i) == Some(reason)
    && SavesWork(o, w, i)
  }

  /** What the launches made, and the one that failed, met. */
  lemma LaunchesExactly(registry: seq<NodeData>, o: Options, w: World, overflowChecks: bool, k: nat, outcome: Outcome)
    requires Ended(o, w, |registry|, overflowChecks, k, outcome)
    ensures |RegistryAfter(registry, o, w, k)| == |registry| + k && registry <= RegistryAfter(registry, o, w, k)
    ensures forall i | 0 <= i < k :: Launched(o, w, registry, overflowChecks, RegistryAfter(registry, o, w, k), i)
    ensures outcome in {LaunchFailed, NumberOverflow} ==>
              LaunchProblem(o, w, |registry|, overflowChecks, k) == Some(outcome)
    ensures outcome == NumberOverflow ==> overflowChecks && (|registry| + k) % 65536 == 65535
    ensures outcome == LaunchFailed ==>
              || (o.rpcPort.None? && w.node(k).rpcPort.None?)
              || (o.metricsPort.None? && o.enableMetricsServer && w.node(k).metricsPort.None?)
              || !w.node(k).launchOk
  {
    RegistryGrown(registry, o, w, k);
    forall i | 0 <= i < k ensures Launched(o, w, registry, overflowChecks, RegistryAfter(registry, o, w, k), i) {
      LaunchProblemExactly(o, w, |registry|, overflowChecks, i);
      NodeForExactly(o, w, |registry|, overflowChecks, i);
    }
    LaunchProblemExactly(o, w, |registry|, overflowChecks, k);
  }

  /** When each outcome occurs. */
  lemma OutcomesExactly(o: Options, w: World, registered: nat, overflowChecks: bool, k: nat, outcome: Outcome)
    requires Ended(o, w, registered, overflowChecks, k, outcome)
    ensures outcome == Completed <==>
            && AllLaunchesWork(o, w, registered, overflowChecks) && SavesWork(o, w, Wanted(o))
            && !PortTrap(o, overflowChecks, Wanted(o))
    ensures outcome == PortOverflow <==>
            && AllLaunchesWork(o, w, registered, overflowChecks) && PortTrap(o, overflowChecks, Wanted(o))
            && SavesWork(o, w, if !o.join && Wanted(o) == 1 then 0 else Wanted(o))
    ensures outcome in {LaunchFailed, NumberOverflow} <==> FirstFailure(o, w, registered, overflowChecks, k, outcome)
    ensures forall i: nat, reason | FirstFailure(o, w, registered, overflowChecks, i, reason) ::
              i == k && reason == outcome
  {
    forall i: nat, reason | FirstFailure(o, w, registered, overflowChecks, i, reason)
      ensures i == k && reason == outcome
    {
      assert Ended(o, w, registered, overflowChecks, i, reason) by {
        assert FailsAt(o, w, registered, overflowChecks, i, reason);
      }
      EndedOnce(o, w, registered, overflowChecks, k, outcome, i, reason);
    }
    if AllLaunchesWork(o, w, registered, overflowChecks) && SavesWork(o, w, Wanted(o))
       && !PortTrap(o, overflowChecks, Wanted(o)) {
      EndedOnce(o, w, registered, overflowChecks, k, outcome, Wanted(o), Completed);
    }
    if AllLaunchesWork(o, w, registered, overflowChecks) && PortTrap(o, overflowChecks, Wanted(o))
       && SavesWork(o, w, if !o.join && Wanted(o) == 1 then 0 else Wanted(o)) {
      EndedOnce(o, w, registered, overflowChecks, k, outcome, Wanted(o), PortOverflow);
    }
  }

  // ---------------------------------------------------------------- the run

  /** Increments by one; `None` of the outer option is a trap. */
  method IncrementPortOption(port: Option<nat>, overflowChecks: bool) returns (r: Option<Option<nat>>)
    requires port.Some? ==> port.value <= U16_MAX
    ensures r.None? <==> overflowChecks && port == Some(U16_MAX)
    ensures r.Some? ==> r.value == if port.Some? then Some((port.value + 1) % (U16_MAX + 1)) else None
  {
    match port {
      case None =>
        return Some(None);
      case Some(p) =>
        if p == U16_MAX && overflowChecks {
          return None;
        }
        return Some(Some((p + 1) % (U16_MAX + 1)));
    }
  }

  /** Chooses the ports of one node and runs it. */
  method RunNode(o: Options, p: Ports, first: bool, registered: nat, a: Answers, overflowChecks: bool,
                 ghost w: World, ghost base: nat, ghost i: nat) returns (r: Result<NodeData, Outcome>)
    requires p == PortsAt(o, i) && a == w.node(i) && registered == base + i && (first <==> !o.join && i == 0)
    ensures r == match LaunchProblem(o, w, base, overflowChecks, i) {
                   case Some(problem) => Err(problem)
                   case None => Ok(NodeFor(o, w, base, i))
                 }
  {
    var rpcFree := p.rpc;
    if rpcFree.None? {
      rpcFree := a.rpcPort;
      if rpcFree.None? {
        return Err(LaunchFailed);
      }
    }
    var metricsFree := p.metrics;
    if metricsFree.None? && o.enableMetricsServer {
      metricsFree := a.metricsPort;
      if metricsFree.None? {
        return Err(LaunchFailed);
      }
    }
    if overflowChecks && registered % (U16_MAX + 1) == U16_MAX {
      return Err(NumberOverflow);
    }
    if !a.launchOk {
      return Err(LaunchFailed);
    }
    return Ok(NodeData(NumberAt(registered), p.node, metricsFree, rpcFree.value, first));
  }

  class Registry {
    var nodes: seq<NodeData>
    // The contents of the registry file.
    var saved: seq<NodeData>

    constructor (nodes: seq<NodeData>)
      ensures this.nodes == saved == nodes
    {
      this.nodes, saved := nodes, nodes;
    }

    method PushNode(n: NodeData)
      modifies this`nodes
      ensures nodes == old(nodes) + [n]
    {
      nodes := nodes + [n];
    }

    /** What a failed save leaves in the file is unknown. */
    method Save(answer: bool) returns (ok: bool)
      modifies this`saved
      ensures ok == answer
      ensures ok ==> saved == nodes
    {
      if answer {
        saved := nodes;
      } else {
        saved := *;
      }
      return answer;
    }

    /** One range: long enough and free, or the reason to give up. */
    method CheckRange(r: Option<PortRange>, count: nat, overflowChecks: bool) returns (problem: Option<Outcome>)
      ensures problem.None? <==> Granted(r, count, nodes) && !(overflowChecks && r.Some? && TooLong(r.value))
      ensures problem.Some? ==> problem.value == if overflowChecks && TooLong(r.value) then RangeOverflow else Rejected
    {
      match r {
        case None =>
          return None;
        case Some(range) =>
          if overflowChecks && TooLong(range) {
            return Some(RangeOverflow);
          }
          if !Validated(range, count) {
            return Some(Rejected);
          }
          var free := CheckPortAvailability(range, nodes);
          return if free then None else Some(Rejected);
      }
    }

    method CheckAllRanges(o: Options, overflowChecks: bool) returns (problem: Option<Outcome>)
      ensures problem.None? <==> AllGranted(o, nodes) && !(overflowChecks && SomeTooLong(o))
      ensures problem.Some? ==> problem.value == Rejected || problem.value == RangeOverflow
    {
      problem := CheckRange(o.nodePort, o.nodeCount, overflowChecks);
      if problem.Some? {
        return;
      }
      problem := CheckRange(o.metricsPort, o.nodeCount, overflowChecks);
      if problem.Some? {
        return;
      }
      problem := CheckRange(o.rpcPort, o.nodeCount, overflowChecks);
    }

    /** Launches one node and registers it; nothing is registered if the launch fails. */
    method LaunchOne(o: Options, w: World, ghost base: nat, k: nat, p: Ports, first: bool, overflowChecks: bool)
      returns (failure: Option<Outcome>)
      requires |nodes| == base + k && p == PortsAt(o, k) && (first <==> !o.join && k == 0)
      modifies this`nodes
      ensures failure == LaunchProblem(o, w, base, overflowChecks, k)
      ensures nodes == old(nodes) + if failure.None? then [NodeFor(o, w, base, k)] else []
    {
      var r := RunNode(o, p, first, |nodes|, w.node(k), overflowChecks, w, base, k);
      if r.Err? {
        return Some(r.error);
      }
      PushNode(r.value);
      failure := None;
    }

    /** One turn of the loop of `run_network`: launch, save, move the ports on. */
    method LaunchNext(o: Options, w: World, ghost before: seq<NodeData>, k: nat, p: Ports, overflowChecks: bool)
      returns (end: Option<Outcome>, p': Ports, ghost launched: nat)
      requires WellFormed(o) && AllGranted(o, before) && !(overflowChecks && SomeTooLong(o))
      requires k < Wanted(o) && SaveDue(o, k) && (k == 0 ==> o.join) && p == PortsAt(o, k)
      requires nodes == saved && |nodes| == |before| + k
      requires Ready(o, w, |before|, overflowChecks, k)
      modifies this
      ensures end.None? ==> launched == k + 1 && p' == PortsAt(o, k + 1)
      ensures end.None? ==> Ready(o, w, |before|, overflowChecks, k + 1)
      ensures end.Some? ==> k <= launched <= k + 1 && Ended(o, w, |before|, overflowChecks, launched, end.value)
      ensures end == Some(PortOverflow) ==> launched == k + 1
      ensures nodes == old(nodes) + if launched == k then [] else [NodeFor(o, w, |before|, k)]
      ensures end != Some(SaveFailed) ==> saved == nodes
    {
      p' := p;
      end := LaunchOne(o, w, |before|, k, p, false, overflowChecks);
      if end.Some? {
        return end, p', k;
      }
      launched := k + 1;
      ProgressStep(o, w, |before|, overflowChecks, k);
      var ok := Save(w.saveOk(k + 1));
      if !ok {
        return Some(SaveFailed), p', launched;
      }
      var moved := IncrementPorts(p, o, k, before, overflowChecks);
      if moved.None? {
        return Some(PortOverflow), p', launched;
      }
      p' := moved.value;
    }

    /** The loop of `run_network`: the nodes behind the first `done`, each saved before the next is launched. */
    method LaunchRest(o: Options, w: World, done: nat, ghost before: seq<NodeData>, p: Ports, overflowChecks: bool)
      returns (outcome: Outcome, ghost launched: nat)
      requires WellFormed(o) && AllGranted(o, before) && !(overflowChecks && SomeTooLong(o))
      requires done == (if o.join then 0 else 1) && p == PortsAt(o, done)
      requires nodes == saved == RegistryAfter(before, o, w, done) && |nodes| == |before| + done
      requires Ready(o, w, |before|, overflowChecks, done)
      modifies this
      ensures nodes == RegistryAfter(before, o, w, launched)
      ensures Ended(o, w, |before|, overflowChecks, launched, outcome) && launched >= done
      ensures outcome == PortOverflow ==> launched > done
      ensures outcome != SaveFailed ==> saved == nodes
    {
      var ports, k := p, done;
      while k < o.nodeCount
        invariant done <= k && ports == PortsAt(o, k)
        invariant nodes == saved == RegistryAfter(before, o, w, k) && |nodes| == |before| + k
        invariant Ready(o, w, |before|, overflowChecks, k)
      {
        var end;
        end, ports, launched := LaunchNext(o, w, before, k, ports, overflowChecks);
        if end.Some? {
          return end.value, launched;
        }
        k := k + 1;
      }
      ReadyCompletes(o, w, |before|, overflowChecks, k);
      return Completed, k;
    }

    /** The first node of a new network; its ports are moved on before anything is saved. */
    method LaunchFirst(o: Options, w: World, p: Ports, overflowChecks: bool)
      returns (end: Option<Outcome>, p': Ports, ghost launched: nat)
      requires WellFormed(o) && AllGranted(o, nodes) && !(overflowChecks && SomeTooLong(o))
      requires !o.join && p == PortsAt(o, 0)
      modifies this`nodes
      ensures launched <= 1 && nodes == RegistryAfter(old(nodes), o, w, launched)
      ensures end.None? ==> launched == 1 && p' == PortsAt(o, 1) && !PortTrap(o, overflowChecks, 1)
      ensures end.None? ==> Progress(o, w, |old(nodes)|, overflowChecks, 1)
      ensures end.Some? ==> Ended(o, w, |old(nodes)|, overflowChecks, launched, end.value) && end.value != SaveFailed
      ensures end.Some? ==> NeverSaved(o, overflowChecks, launched)
    {
      p', launched := p, 0;
      end := LaunchOne(o, w, |nodes|, 0, p, true, overflowChecks);
      if end.Some? {
        return;
      }
      launched := 1;
      assert nodes == RegistryAfter(old(nodes), o, w, 0) + [NodeFor(o, w, |old(nodes)|, 0)];
      var moved := IncrementPorts(p, o, 0, old(nodes), overflowChecks);
      if moved.None? {
        return Some(PortOverflow), p', launched;
      }
      p' := moved.value;
    }

    /** The part of `run_network` behind the checks of the ranges. */
    method LaunchAll(o: Options, w: World, overflowChecks: bool) returns (outcome: Outcome, ghost launched: nat)
      requires WellFormed(o) && AllGranted(o, nodes) && !(overflowChecks && SomeTooLong(o))
      modifies this
      ensures nodes == RegistryAfter(old(nodes), o, w, launched)
      ensures Ended(o, w, |old(nodes)|, overflowChecks, launched, outcome)
      ensures outcome != SaveFailed ==>
                saved == if NeverSaved(o, overflowChecks, launched) then old(saved) else nodes
    {
      var ports := Ports(StartPort(o.nodePort), StartPort(o.metricsPort), StartPort(o.rpcPort));
      StartPorts(o);
      var done := 0;
      launched := 0;
      if !o.join {
        var end;
        end, ports, launched := LaunchFirst(o, w, ports, overflowChecks);
        if end.Some? {
          return end.value, launched;
        }
        done := 1;
      }
      var ok := Save(w.saveOk(done));
      if !ok {
        return SaveFailed, launched;
      }
      RegistryGrown(old(nodes), o, w, launched);
      outcome, launched := LaunchRest(o, w, done, old(nodes), ports, overflowChecks);
    }

    /**
     `run_network`, up to the final validation of the network. With a range that is not granted it does
     nothing. Otherwise the answers of the surroundings decide the outcome and how many nodes are launched
     (see `OutcomesExactly`), and the registry has grown by exactly these. The file holds all of them, except
     that a new network is not in the file before the save behind its first node.
     */
    method RunNetwork(o: Options, w: World, overflowChecks: bool) returns (outcome: Outcome, ghost launched: nat)
      requires WellFormed(o)
      modifies this
      ensures nodes == RegistryAfter(old(nodes), o, w, launched)
      ensures outcome in {Rejected, RangeOverflow} <==> !AllGranted(o, old(nodes)) || (overflowChecks && SomeTooLong(o))
      ensures outcome in {Rejected, RangeOverflow} ==> launched == 0 && saved == old(saved)
      ensures outcome !in {Rejected, RangeOverflow} ==>
                Ended(o, w, |old(nodes)|, overflowChecks, launched, outcome)
      ensures outcome == Completed <==>
                && AllGranted(o, old(nodes)) && !(overflowChecks && SomeTooLong(o))
                && AllLaunchesWork(o, w, |old(nodes)|, overflowChecks) && SavesWork(o, w, Wanted(o))
                && !PortTrap(o, overflowChecks, Wanted(o))
      ensures outcome in {Completed, PortOverflow} ==>
                launched == if !o.join && o.nodeCount == 0 then 1 else o.nodeCount
      ensures |nodes| == |old(nodes)| + launched && old(nodes) <= nodes
      ensures forall i | 0 <= i < launched :: Launched(o, w, old(nodes), overflowChecks, nodes, i)
      ensures outcome == LaunchFailed ==>
                || (o.rpcPort.None? && w.node(launched).rpcPort.None?)
                || (o.metricsPort.None? && o.enableMetricsServer && w.node(launched).metricsPort.None?)
                || !w.node(launched).launchOk
      ensures outcome == NumberOverflow ==> overflowChecks && |nodes| % 65536 == 65535
      ensures outcome == SaveFailed ==> !w.saveOk(launched)
      ensures outcome !in {Rejected, RangeOverflow} ==> forall j | 0 < j < launched :: w.saveOk(j)
      ensures outcome !in {Rejected, RangeOverflow, SaveFailed} ==>
                saved == if NeverSaved(o, overflowChecks, launched) then old(saved) else nodes
    {
      var problem := CheckAllRanges(o, overflowChecks);
      if problem.Some? {
        return problem.value, 0;
      }
      outcome, launched := LaunchAll(o, w, overflowChecks);
      OutcomesExactly(o, w, |old(nodes)|, overflowChecks, launched, outcome);
      LaunchesExactly(old(nodes), o, w, overflowChecks, launched, outcome);
    }
  }

  lemma StartPorts(o: Options)
    requires WellFormed(o)
    ensures Ports(StartPort(o.nodePort), StartPort(o.metricsPort), StartPort(o.rpcPort)) == PortsAt(o, 0)
  {
  }

  /** The three port variables move on together. */
  datatype Ports = Ports(node: Option<nat>, metrics: Option<nat>, rpc: Option<nat>)

  function PortsAt(o: Options, i: nat): Ports
  {
    Ports(PortAt(o.nodePort, i), PortAt(o.metricsPort, i), PortAt(o.rpcPort, i))
  }

  /** A trap can only strike after the last node, and does so exactly when some range ends at 65535. */
  method IncrementPorts(p: Ports, ghost o: Options, ghost i: nat, ghost registry: seq<NodeData>, overflowChecks: bool)
    returns (r: Option<Ports>)
    requires WellFormed(o) && AllGranted(o, registry) && i < Wanted(o) && p == PortsAt(o, i)
    requires !(overflowChecks && SomeTooLong(o))
    ensures r.None? <==> PortTrap(o, overflowChecks, i + 1)
    ensures r.Some? ==> r.value == PortsAt(o, i + 1)
  {
    IncrementFacts(o.nodePort, o, i, registry);
    IncrementFacts(o.metricsPort, o, i, registry);
    IncrementFacts(o.rpcPort, o, i, registry);
    var node := IncrementPortOption(p.node, overflowChecks);
    if node.None? {
      return None;
    }
    var metrics := IncrementPortOption(p.metrics, overflowChecks);
    if metrics.None? {
      return None;
    }
    var rpc := IncrementPortOption(p.rpc, overflowChecks);
    if rpc.None? {
      return None;
    }
    return Some(Ports(node.value, metrics.value, rpc.value));
  }

  lemma IncrementFacts(r: Option<PortRange>, o: Options, i: nat, registry: seq<NodeData>)
    requires r.Some? ==> Parsed(r.value)
    requires Granted(r, o.nodeCount, registry) && i < Wanted(o)
    ensures r.Some? ==>
              PortAt(r, i).value <= U16_MAX && PortAt(r, i + 1) == Some((PortAt(r, i).value + 1) % (U16_MAX + 1))
    ensures PortAt(r, i) == Some(U16_MAX) ==> EndsAtTop(r) && i + 1 == Wanted(o)
    ensures EndsAtTop(r) && i + 1 == Wanted(o) && !TooLong(r.value) ==> PortAt(r, i) == Some(U16_MAX)
  {
    PortStep(r, i);
    if r.Some? {
      PortInRange(r.value, o, i);
    }
  }
}
