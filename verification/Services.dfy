/**
 The life of a node service: start, stop, remove, upgrade and the three-tier refresh
 of the registry. What the operating system, the service control and the node's RPC
 answer is passed in, so every crash and every control error between two calls is
 covered. Versions are compared by an arbitrary strict total order.
 */
module Services {
  import opened Wrappers

  datatype ServiceStatus = Added | Running | Stopped | Removed

  /** A version as stored: a semantic version, or text that does not parse as one. */
  datatype VersionText<V> = SemVer(version: V) | Unparsable(text: string)

  /** Where a service is found: its own binary, its data directory and its RPC address. */
  datatype Site = Site(binPath: string, dataDir: string, rpcAddr: string)

  /** The recorded data of one service that changes over its life. */
  datatype Node<V> = Node(status: ServiceStatus, pid: Option<nat>, version: VersionText<V>)

  datatype Error =
    | PidNotSet
    | PidNotFoundAfterStarting
    | ServiceAlreadyRunning
    | ServiceStatusMismatch
    | ControlError
    | RpcError
    | IoError
    | SemverError

  datatype UpgradeResult<V> =
    | NotRequired
    | Forced(from: V, to: V)
    | Upgraded(from: V, to: V)
    | UpgradedButNotStarted(from: V, to: V, error: Error)

  datatype UpgradeOptions<V> = UpgradeOptions(force: bool, startService: bool, target: V)

  /** The answer of `get_process_pid`. */
  datatype PidLookup = Found(pid: nat) | NotFound | LookupFailed

  /** What `on_start` learns: whether the RPC calls of a full refresh succeed, and the process's version. */
  datatype Probe<V> = Probe(rpcUp: bool, reported: Option<VersionText<V>>)

  /** What a `start` meets: the process found first, the service control, the process found after the
      start-up delay and the probe of it. */
  datatype StartAnswers<V> = StartAnswers(before: PidLookup, controlOk: bool, after: PidLookup, probe: Probe<V>)

  datatype StopAnswers = StopAnswers(found: PidLookup, controlOk: bool)

  datatype Uninstall = Uninstalled | RemovedManually | DoesNotExist | UninstallFailed

  datatype RemoveAnswers = RemoveAnswers(
    found: PidLookup, uninstall: Uninstall, keepDirectories: bool, directoriesOk: bool)

  datatype UpgradeAnswers<V> = UpgradeAnswers(
    stop: StopAnswers, copyOk: bool, uninstallOk: bool, installOk: bool, start: StartAnswers<V>)

  // ---------------------------------------------------------------- effects on the record

  function Started<V>(n: Node<V>, pid: nat, probe: Probe<V>): Node<V>
  {
    Node(Running, Some(pid), if probe.reported.Some? then probe.reported.value else n.version)
  }

  function Halted<V>(n: Node<V>): Node<V>
  {
    n.(status := Stopped, pid := None)
  }

  // ---------------------------------------------------------------- transitions

  /** The process an operation recorded through `on_start`, with the version it reported, if any. */
  datatype Sighting<V> = Unseen | Seen(reported: Option<VersionText<V>>)

  datatype Op<V> =
    | StartOp(sighting: Sighting<V>)
    | StopOp
    | RemoveOp
    | UpgradeOp(options: UpgradeOptions<V>)
    | RefreshOp(sighting: Sighting<V>)

  datatype Outcome<V> = Done | UpgradeDone(result: UpgradeResult<V>) | Failed(error: Error)

  predicate MarkedRunning<V>(n: Node<V>)
  {
    n.status == Running && n.pid.Some?
  }

  /** The version left in the record by a process with the given report. */
  function VersionSeen<V>(n: Node<V>, reported: Option<VersionText<V>>): VersionText<V>
  {
    if reported.Some? then reported.value else n.version
  }

  /** A process was seen and recorded. */
  predicate Recorded<V(==)>(n: Node<V>, reported: Option<VersionText<V>>, m: Node<V>)
  {
    MarkedRunning(m) && m.version == VersionSeen(n, reported)
  }

  predicate StartEffect<V(==)>(sighting: Sighting<V>, n: Node<V>, o: Outcome<V>, m: Node<V>)
  {
    match o
    case Done => if sighting.Seen? then Recorded(n, sighting.reported, m) else m == n && n.status == Running
    case UpgradeDone(_) => false
    case Failed(e) => m == n && e != PidNotSet
  }

  predicate StopEffect<V(==)>(n: Node<V>, o: Outcome<V>, m: Node<V>)
  {
    match o
    case Done => m == if n.status == Running then Halted(n) else n
    case UpgradeDone(_) => false
    case Failed(e) => m == n && n.status == Running && (e == PidNotSet <==> n.pid.None?)
  }

  predicate RemoveEffect<V(==)>(n: Node<V>, o: Outcome<V>, m: Node<V>)
  {
    match o
    case Done => n.status != Running && m == n.(status := Removed)
    case UpgradeDone(_) => false
    case Failed(e) =>
      if e == ServiceStatusMismatch then n.status == Running && m == Halted(n) else m == n && e != PidNotSet
  }

  predicate UpgradeNeeded<V(==)>(less: (V, V) -> bool, current: V, options: UpgradeOptions<V>)
  {
    options.force || !(current == options.target || less(options.target, current))
  }

  predicate UpgradeEffect<V(==)>(less: (V, V) -> bool, options: UpgradeOptions<V>,
                                 n: Node<V>, o: Outcome<V>, m: Node<V>)
  {
    match o
    case Done => false
    case Failed(e) =>
      && m.version == n.version
      && (m == n || (n.status == Running && m == Halted(n)))
      && (e == PidNotSet ==> n.status == Running && n.pid.None?)
    case UpgradeDone(result) =>
      n.version.SemVer? &&
      var current := n.version.version;
      if !UpgradeNeeded(less, current, options) then result == NotRequired && m == n
      else
        && m.version == SemVer(options.target)
        && match result
           case NotRequired => false
           case Forced(from, to) =>
             options.force && from == current && to == options.target && UpgradedState(options, n, m)
           case Upgraded(from, to) =>
             !options.force && from == current && to == options.target && UpgradedState(options, n, m)
           case UpgradedButNotStarted(from, to, e) =>
             && options.startService && from == current && to == options.target
             && m.status == Quiet(n).status && m.pid == Quiet(n).pid
  }

  /** A service after a successful `stop`. */
  function Quiet<V>(n: Node<V>): Node<V>
  {
    if n.status == Running then Halted(n) else n
  }

  predicate UpgradedState<V>(options: UpgradeOptions<V>, n: Node<V>, m: Node<V>)
  {
    if options.startService then MarkedRunning(m) else m.status == Quiet(n).status && m.pid == Quiet(n).pid
  }

  predicate RefreshEffect<V(==)>(sighting: Sighting<V>, n: Node<V>, o: Outcome<V>, m: Node<V>)
  {
    match o
    case Done =>
      if sighting.Seen? then Recorded(n, sighting.reported, m)
      else m == Halted(n) || (m == n && (n.status == Added || n.status == Removed))
    case UpgradeDone(_) => false
    case Failed(e) => m == n && e == RpcError
  }

  predicate Transition<V(==)>(less: (V, V) -> bool, op: Op<V>, n: Node<V>, o: Outcome<V>, m: Node<V>)
  {
    match op
    case StartOp(sighting) => StartEffect(sighting, n, o, m)
    case StopOp => StopEffect(n, o, m)
    case RemoveOp => RemoveEffect(n, o, m)
    case UpgradeOp(options) => UpgradeEffect(less, options, n, o, m)
    case RefreshOp(sighting) => RefreshEffect(sighting, n, o, m)
  }

  // ---------------------------------------------------------------- the objects

  function OutcomeOf<V>(r: Result<(), Error>): Outcome<V>
  {
    match r
    case Ok(_) => Done
    case Err(e) => Failed(e)
  }

  /** `start` launches a process and reaches it. */
  predicate Launches<V>(a: StartAnswers<V>)
  {
    a.controlOk && a.after.Found? && a.probe.rpcUp
  }

  /** The process a `start` records: none if the service turns out to run already. */
  function StartSighting<V>(n: Node<V>, a: StartAnswers<V>): Sighting<V>
  {
    if !(n.status == Running && a.before.Found?) && Launches(a) then Seen(a.probe.reported) else Unseen
  }

  predicate StopFails<V>(n: Node<V>, a: StopAnswers)
  {
    n.status == Running && (n.pid.None? || (a.found.Found? && !a.controlOk))
  }

  /** The record after every needed upgrade that got past its stop, copy and reinstallation. */
  function UpgradedRecord<V>(options: UpgradeOptions<V>, n: Node<V>, a: UpgradeAnswers<V>): Node<V>
  {
    var started := if options.startService && Launches(a.start) then Started(Quiet(n), a.start.after.pid, a.start.probe)
                   else Quiet(n);
    started.(version := SemVer(options.target))
  }

  class NodeService<V(==)> {
    const site: Site
    var status: ServiceStatus
    var pid: Option<nat>
    var version: VersionText<V>

    constructor (site: Site, n: Node<V>)
      ensures this.site == site && Record() == n
    {
      this.site := site;
      status, pid, version := n.status, n.pid, n.version;
    }

    function Record(): Node<V>
      reads this
    {
      Node(status, pid, version)
    }

    /** Every failure precedes the first write. */
    method OnStart(newPid: nat, fullRefresh: bool, probe: Probe<V>) returns (r: Result<(), Error>)
      modifies this
      ensures r == if fullRefresh && !probe.rpcUp then Err(RpcError) else Ok(())
      ensures Record() == if r.Ok? then Started(old(Record()), newPid, probe) else old(Record())
      ensures r.Ok? ==> && status == Running && pid == Some(newPid)
                        && version == if probe.reported.Some? then probe.reported.value else old(version)
    {
      if fullRefresh && !probe.rpcUp {
        return Err(RpcError);
      }
      pid := Some(newPid);
      if probe.reported.Some? {
        version := probe.reported.value;
      }
      status := Running;
      return Ok(());
    }

    method OnStop()
      modifies this`status, this`pid
      ensures Record() == Halted(old(Record()))
      ensures status == Stopped && pid == None
    {
      pid := None;
      status := Stopped;
    }

    method OnRemove()
      modifies this`status
      ensures Record() == old(Record()).(status := Removed)
    {
      status := Removed;
    }

    method SetVersion(v: V)
      modifies this`version
      ensures Record() == old(Record()).(version := SemVer(v))
    {
      version := SemVer(v);
    }
  }

  class ServiceManager<V(==)> {
    const service: NodeService<V>

    constructor (service: NodeService<V>)
      ensures this.service == service
    {
      this.service := service;
    }

    method Start(a: StartAnswers<V>) returns (r: Result<(), Error>)
      modifies service
      ensures var n := old(service.Record());
              StartEffect(StartSighting(n, a), n, OutcomeOf(r), service.Record())
      ensures service.Record() ==
              if old(service.status) == Running && a.before.Found? then old(service.Record())
              else if Launches(a) then Started(old(service.Record()), a.after.pid, a.probe)
              else old(service.Record())
      ensures r.Ok? <==> (old(service.status) == Running && a.before.Found?) || Launches(a)
      ensures !(old(service.status) == Running && a.before.Found?) ==>
                && (!a.controlOk || a.after.LookupFailed? ==> r == Err(ControlError))
                && (a.controlOk && a.after.NotFound? ==> r == Err(PidNotFoundAfterStarting))
                && (a.controlOk && a.after.Found? && !a.probe.rpcUp ==> r == Err(RpcError))
                && (a.controlOk && a.after.Found? && a.probe.rpcUp ==>
                      r.Ok? && service.status == Running && service.pid == Some(a.after.pid))
      ensures (old(service.status) == Running && a.before.Found?) || r.Err? ==>
                service.Record() == old(service.Record())
    {
      if service.status == Running {
        if a.before.Found? {
          return Ok(());
        }
      }
      if !a.controlOk {
        return Err(ControlError);
      }
      match a.after {
        case Found(pid) =>
          r := service.OnStart(pid, true, a.probe);
        case NotFound =>
          return Err(PidNotFoundAfterStarting);
        case LookupFailed =>
          return Err(ControlError);
      }
    }

    method Stop(a: StopAnswers) returns (r: Result<(), Error>)
      modifies service`status, service`pid
      ensures StopEffect<V>(old(service.Record()), OutcomeOf(r), service.Record())
      ensures r.Err? <==> StopFails(old(service.Record()), a)
      ensures old(service.status) != Running ==> r.Ok? && service.Record() == old(service.Record())
      ensures old(service.status) == Running ==>
                && (old(service.pid).None? ==> r == Err(PidNotSet))
                && (old(service.pid).Some? && a.found.Found? && !a.controlOk ==> r == Err(ControlError))
                && (old(service.pid).Some? && (a.controlOk || !a.found.Found?) ==>
                      r.Ok? && service.status == Stopped && service.pid == None)
                && (r.Err? ==> service.Record() == old(service.Record()))
    {
      match service.status {
        case Added =>
          return Ok(());
        case Removed =>
          return Ok(());
        case Running =>
          if service.pid.None? {
            return Err(PidNotSet);
          }
          if a.found.Found? && !a.controlOk {
            return Err(ControlError);
          }
          service.OnStop();
          return Ok(());
        case Stopped =>
          return Ok(());
      }
    }

    method Remove(a: RemoveAnswers) returns (r: Result<(), Error>)
      modifies service`status, service`pid
      ensures RemoveEffect<V>(old(service.Record()), OutcomeOf(r), service.Record())
      ensures old(service.status) == Running ==>
                r == Err(if a.found.Found? then ServiceAlreadyRunning else ServiceStatusMismatch)
      ensures old(service.status) != Running ==>
                (r.Ok? <==> a.uninstall != UninstallFailed && (a.keepDirectories || a.directoriesOk))
      ensures service.status == if r.Ok? then Removed
                                else if r == Err(ServiceStatusMismatch) then Stopped else old(service.status)
      ensures service.pid == if r == Err(ServiceStatusMismatch) then None else old(service.pid)
    {
      if service.status == Running {
        if a.found.Found? {
          return Err(ServiceAlreadyRunning);
        } else {
          service.OnStop();
          return Err(ServiceStatusMismatch);
        }
      }
      match a.uninstall {
        case Uninstalled =>
        case RemovedManually =>
        case DoesNotExist =>
        case UninstallFailed =>
          return Err(ControlError);
      }
      if !a.keepDirectories && !a.directoriesOk {
        return Err(IoError);
      }
      service.OnRemove();
      return Ok(());
    }

    method Upgrade(less: (V, V) -> bool, options: UpgradeOptions<V>, a: UpgradeAnswers<V>)
      returns (r: Result<UpgradeResult<V>, Error>)
      modifies service
      ensures UpgradeEffect(less, options, old(service.Record()),
                            match r { case Ok(result) => UpgradeDone(result) case Err(e) => Failed(e) },
                            service.Record())
      ensures old(service.version).SemVer? && UpgradeNeeded(less, old(service.version).version, options) ==>
                var n := old(service.Record());
                && (r.Ok? <==> !StopFails(n, a.stop) && a.copyOk && a.uninstallOk && a.installOk)
                && (r.Ok? ==> (r.value.UpgradedButNotStarted? <==> options.startService && !Launches(a.start)))
                && service.Record() == if r.Ok? then UpgradedRecord(options, n, a)
                                       else if StopFails(n, a.stop) then n else Quiet(n)
      ensures r.Ok? && r.value != NotRequired && options.startService
              && a.start.controlOk && a.start.after.Found? && a.start.probe.rpcUp ==>
                service.status == Running && service.pid == Some(a.start.after.pid)
      ensures r.Ok? && r.value != NotRequired
              && !(options.startService && a.start.controlOk && a.start.after.Found? && a.start.probe.rpcUp) ==>
                if old(service.status) == Running then service.status == Stopped && service.pid == None
                else service.status == old(service.status) && service.pid == old(service.pid)
    {
      if service.version.Unparsable? {
        return Err(SemverError);
      }
      var current := service.version.version;
      if !options.force && (current == options.target || less(options.target, current)) {
        return Ok(NotRequired);
      }
      var stopped := Stop(a.stop);
      if stopped.Err? {
        return Err(stopped.error);
      }
      if !a.copyOk {
        return Err(IoError);
      }
      if !a.uninstallOk || !a.installOk {
        return Err(ControlError);
      }
      if options.startService {
        var started := Start(a.start);
        if started.Err? {
          service.SetVersion(options.target);
          return Ok(UpgradedButNotStarted(current, options.target, started.error));
        }
      }
      service.SetVersion(options.target);
      if options.force {
        return Ok(Forced(current, options.target));
      } else {
        return Ok(Upgraded(current, options.target));
      }
    }
  }

  // ---------------------------------------------------------------- refresh

  /** The process table and its surroundings, as the refresh asks about them. */
  datatype ProcessTable<V> = ProcessTable(
    byPath: string -> Option<nat>,
    verify: nat -> Option<bool>,
    pidFile: string -> Option<nat>,
    rpcPid: string -> Option<nat>,
    rpcUp: string -> bool,
    reported: nat -> Option<VersionText<V>>)

  /** What `on_start` meets when the service at `site` is found to run as process `pid`. */
  function ProbeOf<V>(site: Site, pid: nat, table: ProcessTable<V>): Probe<V>
  {
    Probe(table.rpcUp(site.rpcAddr), table.reported(pid))
  }

  /** Tiers two and three: the process found by binary path, else by pid file. */
  function DetectedByPath<V>(site: Site, table: ProcessTable<V>): Option<nat>
  {
    var file := table.pidFile(site.dataDir);
    if table.byPath(site.binPath).Some? then table.byPath(site.binPath)
    else if file.Some? && table.verify(file.value) == Some(true) then file
    else None
  }

  /** The process a refresh attributes to a service: by stored pid, else by binary path, else by pid file. */
  function Detected<V>(n: Node<V>, site: Site, table: ProcessTable<V>): Option<nat>
  {
    if n.pid.Some? && table.verify(n.pid.value) == Some(true) then n.pid else DetectedByPath(site, table)
  }

  /** The record once the search for the process has ended; added and removed services are not
      downgraded to stopped, except in a local network. */
  function Concluded<V>(n: Node<V>, site: Site, table: ProcessTable<V>, found: Option<nat>, local: bool): Node<V>
  {
    if found.Some? then Started(n, found.value, ProbeOf(site, found.value, table))
    else if !local && (n.status == Added || n.status == Removed) then n
    else Halted(n)
  }

  /** In a local network only the RPC service decides. */
  function Search<V>(n: Node<V>, site: Site, table: ProcessTable<V>, local: bool): Option<nat>
  {
    if local then table.rpcPid(site.rpcAddr) else Detected(n, site, table)
  }

  function Refreshed<V>(n: Node<V>, site: Site, table: ProcessTable<V>, local: bool): Node<V>
  {
    Concluded(n, site, table, Search(n, site, table, local), local)
  }

  /** A full refresh gives up on a service whose process is found but whose RPC service is silent. */
  predicate RefreshFails<V>(n: Node<V>, site: Site, table: ProcessTable<V>, fullRefresh: bool, local: bool)
  {
    && fullRefresh && !table.rpcUp(site.rpcAddr)
    && Search(n, site, table, local).Some?
  }

  /** Tiers two and three. */
  method DetectPidUsingPath<V>(service: NodeService<V>, table: ProcessTable<V>, fullRefresh: bool)
    returns (r: Result<(), Error>)
    modifies service
    ensures var found := DetectedByPath(service.site, table);
            && r == (if found.Some? && fullRefresh && !table.rpcUp(service.site.rpcAddr) then Err(RpcError) else Ok(()))
            && service.Record() == if r.Ok? then Concluded(old(service.Record()), service.site, table, found, false)
                                   else old(service.Record())
    ensures var path, file := table.byPath(service.site.binPath), table.pidFile(service.site.dataDir);
            r.Ok? ==>
              && (path.Some? ==> service.status == Running && service.pid == path)
              && (path.None? && file.Some? && table.verify(file.value) == Some(true) ==>
                    service.status == Running && service.pid == file)
              && (path.None? && (file.None? || table.verify(file.value) != Some(true)) ==>
                    if old(service.status) == Added || old(service.status) == Removed
                    then service.Record() == old(service.Record())
                    else service.status == Stopped && service.pid == None)
  {
    match table.byPath(service.site.binPath) {
      case Some(pid) =>
        r := service.OnStart(pid, fullRefresh, ProbeOf(service.site, pid, table));
      case None =>
        var foundViaPidFile := false;
        match table.pidFile(service.site.dataDir) {
          case Some(filePid) =>
            if table.verify(filePid) == Some(true) {
              r := service.OnStart(filePid, fullRefresh, ProbeOf(service.site, filePid, table));
              if r.Err? {
                return;
              }
              foundViaPidFile := true;
            }
          case None =>
        }
        r := Ok(());
        if !foundViaPidFile {
          match service.status {
            case Added =>
            case Removed =>
            case _ =>
              service.OnStop();
          }
        }
    }
  }

  method RefreshOne<V>(service: NodeService<V>, table: ProcessTable<V>, fullRefresh: bool, local: bool)
    returns (r: Result<(), Error>)
    modifies service
    ensures r == if RefreshFails(old(service.Record()), service.site, table, fullRefresh, local) then Err(RpcError)
                 else Ok(())
    ensures service.Record() == if r.Ok? then Refreshed(old(service.Record()), service.site, table, local)
                                else old(service.Record())
  {
    if local {
      match table.rpcPid(service.site.rpcAddr) {
        case Some(pid) =>
          r := service.OnStart(pid, fullRefresh, ProbeOf(service.site, pid, table));
        case None =>
          service.OnStop();
          r := Ok(());
      }
    } else if service.pid.Some? && table.verify(service.pid.value) == Some(true) {
      r := service.OnStart(service.pid.value, fullRefresh, ProbeOf(service.site, service.pid.value, table));
    } else {
      r := DetectPidUsingPath(service, table, fullRefresh);
    }
  }

  /** What the process table says of a service-based network: the stored pid, if it verifies, else what is found
      by binary path, else the pid file's, if it verifies. With none of these added and removed services keep
      their record, and all others are stopped without a pid. */
  predicate TableSays<V(==)>(table: ProcessTable<V>, site: Site, n: Node<V>, m: Node<V>)
  {
    var path, file := table.byPath(site.binPath), table.pidFile(site.dataDir);
    var storedOk := n.pid.Some? && table.verify(n.pid.value) == Some(true);
    var fileOk := file.Some? && table.verify(file.value) == Some(true);
    && (m.status == Running <==> storedOk || path.Some? || fileOk)
    && (storedOk ==> m.pid == n.pid)
    && (!storedOk && path.Some? ==> m.pid == path)
    && (!storedOk && path.None? && fileOk ==> m.pid == file)
    && (!storedOk && path.None? && !fileOk ==>
          if n.status == Added || n.status == Removed then m == n
          else m.status == Stopped && m.pid == None && m.version == n.version)
  }

  /** What the RPC service says of a local network. */
  predicate RpcSays<V(==)>(table: ProcessTable<V>, site: Site, n: Node<V>, m: Node<V>)
  {
    && (m.status == Running <==> table.rpcPid(site.rpcAddr).Some?)
    && m.pid == table.rpcPid(site.rpcAddr)
    && (m.status != Running ==> m.status == Stopped && m.version == n.version)
  }

  /** A running service takes over the version its process reports, if any. */
  predicate VersionTaken<V(==)>(table: ProcessTable<V>, n: Node<V>, m: Node<V>)
  {
    m.status == Running && m.pid.Some? ==>
      m.version == if table.reported(m.pid.value).Some? then table.reported(m.pid.value).value else n.version
  }

  /** Refreshes the services in registry order. It stops at the first one whose RPC service is silent;
      those before it are refreshed, it and those behind it are untouched. */
  method RefreshNodeRegistry<V>(nodes: seq<NodeService<V>>, table: ProcessTable<V>, fullRefresh: bool, local: bool)
    returns (r: Result<(), Error>, refreshed: nat)
    requires forall i, j | 0 <= i < j < |nodes| :: nodes[i] != nodes[j]
    modifies nodes
    ensures refreshed <= |nodes| && (r.Ok? <==> refreshed == |nodes|)
    ensures forall i | 0 <= i < refreshed ::
              && nodes[i].Record() == Refreshed(old(nodes[i].Record()), nodes[i].site, table, local)
              && !RefreshFails(old(nodes[i].Record()), nodes[i].site, table, fullRefresh, local)
    ensures forall i | 0 <= i < refreshed ::
              && (if local then RpcSays(table, nodes[i].site, old(nodes[i].Record()), nodes[i].Record())
                  else TableSays(table, nodes[i].site, old(nodes[i].Record()), nodes[i].Record()))
              && VersionTaken(table, old(nodes[i].Record()), nodes[i].Record())
              && (fullRefresh && nodes[i].status == Running ==> table.rpcUp(nodes[i].site.rpcAddr))
    ensures forall i | refreshed <= i < |nodes| :: nodes[i].Record() == old(nodes[i].Record())
    ensures r.Err? ==> r.error == RpcError
                       && RefreshFails(old(nodes[refreshed].Record()), nodes[refreshed].site, table, fullRefresh, local)
    ensures r.Err? ==> fullRefresh && !table.rpcUp(nodes[refreshed].site.rpcAddr)
  {
    refreshed := 0;
    while refreshed < |nodes|
      invariant refreshed <= |nodes|
      invariant forall i | 0 <= i < refreshed ::
                  && nodes[i].Record() == Refreshed(old(nodes[i].Record()), nodes[i].site, table, local)
                  && !RefreshFails(old(nodes[i].Record()), nodes[i].site, table, fullRefresh, local)
      invariant forall i | refreshed <= i < |nodes| :: nodes[i].Record() == old(nodes[i].Record())
    {
      r := RefreshOne(nodes[refreshed], table, fullRefresh, local);
      if r.Err? {
        return;
      }
      refreshed := refreshed + 1;
    }
    r := Ok(());
  }

  // ---------------------------------------------------------------- laws of the refresh

  /** Detection is stable: once recorded, the process found is found again, so a second refresh of an
      unchanged process table changes nothing. */
  lemma RefreshIsIdempotent<V>(n: Node<V>, site: Site, table: ProcessTable<V>, local: bool)
    ensures Refreshed(Refreshed(n, site, table, local), site, table, local) == Refreshed(n, site, table, local)
  {
    var m := Refreshed(n, site, table, local);
    if !local {
      assert Detected(m, site, table) == Detected(n, site, table);
    }
  }

  function RefreshSighting<V>(n: Node<V>, site: Site, table: ProcessTable<V>, local: bool): Sighting<V>
  {
    match Search(n, site, table, local)
    case Some(pid) => Seen(table.reported(pid))
    case None => Unseen
  }

  /** A refresh is a transition of the life cycle. */
  lemma RefreshIsTransition<V>(less: (V, V) -> bool, n: Node<V>, site: Site, table: ProcessTable<V>,
                               fullRefresh: bool, local: bool)
    ensures var op := RefreshOp(RefreshSighting(n, site, table, local));
            if RefreshFails(n, site, table, fullRefresh, local) then Transition(less, op, n, Failed(RpcError), n)
            else Transition(less, op, n, Done, Refreshed(n, site, table, local))
  {
  }

  // ---------------------------------------------------------------- whole lives

  /** One operation of a service's life: what was asked, what was answered, what was recorded. */
  datatype Event<V> = Event(op: Op<V>, outcome: Outcome<V>, after: Node<V>)

  function RecordAfter<V>(first: Node<V>, life: seq<Event<V>>): Node<V>
  {
    if life == [] then first else Last(life).after
  }

  /** Any sequence of operations, each with any answers of its surroundings. */
  predicate Life<V(==)>(less: (V, V) -> bool, first: Node<V>, life: seq<Event<V>>)
  {
    life == [] ||
    (&& Life(less, first, Front(life))
     && Transition(less, Last(life).op, RecordAfter(first, Front(life)), Last(life).outcome, Last(life).after))
  }

  /** Every operation of a life is a transition from the record the operations before it left. */
  lemma {:induction false} LifeStep<V>(less: (V, V) -> bool, first: Node<V>, life: seq<Event<V>>, i: nat)
    requires Life(less, first, life) && i < |life|
    ensures Transition(less, life[i].op, RecordAfter(first, life[..i]), life[i].outcome, life[i].after)
    ensures life[i].after == RecordAfter(first, life[..i + 1])
  {
    if i == |life| - 1 {
      assert life[..i] == Front(life) && life[..i + 1] == life;
    } else {
      LifeStep(less, first, Front(life), i);
      assert Front(life)[..i] == life[..i] && Front(life)[..i + 1] == life[..i + 1];
    }
  }

  predicate PidMatchesStatus<V>(n: Node<V>)
  {
    n.pid.Some? <==> n.status == Running
  }

  /** Through any life a pid is recorded exactly while the status is running. So `stop`, and the stop
      inside `upgrade`, never fail for want of a pid, and after a successful stop nothing runs. */
  lemma {:induction false} PidExactlyWhileRunning<V>(less: (V, V) -> bool, first: Node<V>, life: seq<Event<V>>)
    requires PidMatchesStatus(first) && Life(less, first, life)
    ensures PidMatchesStatus(RecordAfter(first, life))
    ensures forall i | 0 <= i < |life| ::
              && life[i].outcome != Failed(PidNotSet)
              && PidMatchesStatus(life[i].after)
              && (life[i].op == StopOp && life[i].outcome == Done ==> life[i].after.status != Running)
  {
    if life != [] {
      PidExactlyWhileRunning(less, first, Front(life));
    }
  }

  ghost predicate StrictTotalOrder<V(!new)>(less: (V, V) -> bool)
  {
    && (forall a, b :: less(a, b) ==> !less(b, a))
    && (forall a, b :: a == b || less(a, b) || less(b, a))
    && (forall a, b, c :: less(a, b) && less(b, c) ==> less(a, c))
  }

  /** `b` is the same text as `a` or a version at least as high. */
  predicate NotLower<V(==)>(less: (V, V) -> bool, a: VersionText<V>, b: VersionText<V>)
  {
    a == b || (a.SemVer? && b.SemVer? && less(a.version, b.version))
  }

  /** The operation recorded the report of a process, and the report is no version as high as `current`. */
  predicate LowerReport<V(==)>(less: (V, V) -> bool, current: VersionText<V>, e: Event<V>)
  {
    && (e.op.StartOp? || e.op.RefreshOp?)
    && e.outcome == Done
    && e.op.sighting.Seen? && e.op.sighting.reported.Some?
    && !NotLower(less, current, e.op.sighting.reported.value)
  }

  /** The operation was a forced upgrade that went through, to a lower version. */
  predicate ForcedDown<V(==)>(less: (V, V) -> bool, current: VersionText<V>, e: Event<V>)
  {
    && e.op.UpgradeOp? && e.op.options.force && e.outcome.UpgradeDone?
    && current.SemVer? && less(e.op.options.target, current.version)
  }

  /** Over every life: an operation leaves a lower version exactly when it is a start or a refresh, of
      either kind of network, that recorded a process reporting a lower one, or a forced upgrade to one. */
  lemma LoweredExactly<V(!new)>(less: (V, V) -> bool, first: Node<V>, life: seq<Event<V>>, i: nat)
    requires StrictTotalOrder(less) && Life(less, first, life) && i < |life|
    ensures var before := RecordAfter(first, life[..i]).version;
            NotLower(less, before, life[i].after.version) <==>
            !LowerReport(less, before, life[i]) && !ForcedDown(less, before, life[i])
  {
    LifeStep(less, first, life, i);
    VersionStep(less, RecordAfter(first, life[..i]), life[i]);
  }

  lemma VersionStep<V(!new)>(less: (V, V) -> bool, n: Node<V>, e: Event<V>)
    requires StrictTotalOrder(less) && Transition(less, e.op, n, e.outcome, e.after)
    ensures NotLower(less, n.version, e.after.version) <==>
            !LowerReport(less, n.version, e) && !ForcedDown(less, n.version, e)
  {
    match e.op
    case UpgradeOp(options) =>
      if e.outcome.UpgradeDone? && UpgradeNeeded(less, n.version.version, options) {
        assert e.after.version == SemVer(options.target);
      }
    case _ =>
  }

  /** So through any life without a forced upgrade to a lower version, in which no recorded process
      reports a lower version than the one on record, the version never gets lower. */
  lemma {:induction false} VersionNeverLowered<V(!new)>(less: (V, V) -> bool, first: Node<V>, life: seq<Event<V>>)
    requires StrictTotalOrder(less) && Life(less, first, life)
    requires forall i | 0 <= i < |life| ::
               var before := RecordAfter(first, life[..i]).version;
               !LowerReport(less, before, life[i]) && !ForcedDown(less, before, life[i])
    ensures NotLower(less, first.version, RecordAfter(first, life).version)
  {
    if life != [] {
      assert forall i | 0 <= i < |Front(life)| :: Front(life)[i] == life[i] && Front(life)[..i] == life[..i];
      VersionNeverLowered(less, first, Front(life));
      LoweredExactly(less, first, life, |life| - 1);
      assert life[..|life| - 1] == Front(life);
    }
  }

  /** What each upgrade of a life leaves behind and reports: an error or `NotRequired` the old version;
      anything else the target, naming the versions before and after. It is refused as not required
      exactly when it is not forced and would not raise the version. */
  lemma UpgradesReportTransition<V(!new)>(less: (V, V) -> bool, first: Node<V>, life: seq<Event<V>>, i: nat)
    requires StrictTotalOrder(less) && Life(less, first, life) && i < |life| && life[i].op.UpgradeOp?
    ensures var before, e, target := RecordAfter(first, life[..i]).version, life[i], life[i].op.options.target;
            && (e.outcome.Failed? || e.outcome == UpgradeDone(NotRequired) ==> e.after.version == before)
            && (e.outcome.UpgradeDone? ==>
                  && before.SemVer?
                  && (e.outcome.result == NotRequired <==> !e.op.options.force && !less(before.version, target))
                  && (e.outcome.result != NotRequired ==>
                        && before == SemVer(e.outcome.result.from)
                        && e.after.version == SemVer(e.outcome.result.to) && e.outcome.result.to == target))
  {
    LifeStep(less, first, life, i);
  }

  predicate Below(a: int, b: int) { a < b }

  /** Reports do get lower: a stopped service whose process is found under its binary path, and any
      service started, takes over the version reported, however low. */
  lemma ReportsMayLower(table: ProcessTable<int>, site: Site, pid: nat)
    requires table.byPath(site.binPath) == Some(pid) && table.reported(pid) == Some(SemVer(1))
    ensures var n := Node(Stopped, None, SemVer(2));
            var op := RefreshOp(RefreshSighting(n, site, table, false));
            var m := Refreshed(n, site, table, false);
            Life(Below, n, [Event(op, Done, m)]) && m.version == SemVer(1)
    ensures var n := Node(Stopped, None, SemVer(2));
            var m := Node(Running, Some(pid), SemVer(1));
            Life(Below, n, [Event(StartOp(Seen(Some(SemVer(1)))), Done, m)])
  {
    var n := Node(Stopped, None, SemVer(2));
    SingleStep(n, RefreshOp(RefreshSighting(n, site, table, false)), Refreshed(n, site, table, false));
    SingleStep(n, StartOp(Seen(Some(SemVer(1)))), Node(Running, Some(pid), SemVer(1)));
  }

  lemma SingleStep(n: Node<int>, op: Op<int>, m: Node<int>)
    requires Transition(Below, op, n, Done, m)
    ensures Life(Below, n, [Event(op, Done, m)])
  {
    var life := [Event(op, Done, m)];
    assert Front(life) == [] && Last(life) == Event(op, Done, m);
    assert Life(Below, n, Front(life));
  }
}
