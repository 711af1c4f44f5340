# Autonomi node software: verified models

Dafny models of five parts of the Autonomi repository, with proofs about every input, every run or every
reachable state. `dafny verify dfyconfig.toml` checks the whole project.

| file | what it models |
|---|---|
| `Addresses.dfy` | multiaddresses: the normal form of bootstrap contacts, and the two ways a peer id is read from an address |
| `BootstrapMachine.dfy` | the bootstrap address flow and dialer as a state machine over its atomic steps, and its invariant |
| `BootstrapRuns.dfy` | laws of all runs of that machine: order, conservation, finality, termination, deadlock, liveness |
| `BootstrapLeaks.dfy` | when the dial slots of a node can leak for good, and that it completes otherwise |
| `BootstrapBlocking.dfy` | fair schedules that never complete, and when every fair schedule does |
| `BootstrapGap.dfy` | what decides between the two conditions when there are two slots |
| `Construction.dfy` | the course `Bootstrap::new` takes, as determined by what the fetch tasks deliver and when, and by the clock |
| `Configuration.dfy` | what a configuration and the environment make of the sources and the first queue |
| `Bootstrap.dfy` | the `Bootstrap` object, method by method; each method is proved to perform a run of the machine |
| `ContactsFetcher.dfy` | collecting addresses from several endpoints with an early stop |
| `Amounts.dfy` | printing and parsing token amounts |
| `Quotes.dfy` | the history check on payment quotes |
| `Services.dfy` | the life cycle of node services and the refresh of the registry |
| `LocalNetwork.dfy` | port and number allocation of a local network |

## How the bootstrap model works

The environment is part of the model. `BootstrapMachine` lists the atomic steps as actions: a spawned fetch task may end
at any moment and deliver any batch of addresses, the swarm may accept or refuse any dial and report any failure. An
action that is not enabled changes nothing, so a run is any sequence of actions. `Bootstrap.Valid` says that the object's
fields are the result of the run recorded so far, and every method only appends to that run (`ReachedLater` turns two
moments of one object into a run between them). The object lives in an arbitrary `World`, which says what each fetch
delivers and how many polls of the event channel it lets pass before; `new` also gets an arbitrary clock (`pauses`). All
statements hold for every world and every clock.

These results go beyond single steps:

* `New` with `CourseDetermined`: how many fetches `new` reads and whether it times out is determined by world and clock.
  It reads exactly the fetches it takes to have five addresses, unless a look at the clock during the waits these take is
  late; the queue is what arrived, in order, with the addresses collected put back last; it fails exactly if nothing
  arrived.
* `EveryScheduleSettles`: under every endless schedule of deliveries, polls, dials and callbacks the machine reaches a
  state it never leaves.
* `FairSchedulesSettle`: for a fair schedule that state is completed, or it is `Blocked` and no report is outstanding:
  no task is left and all dial slots are in use, each by a dial whose failure has been reported since it was made, while
  an address is queued or a source is left. Fair means: until the process has completed, running tasks end, the completion
  test is made, polls that would have an effect are made while a slot is free, and every dial is answered once, by a
  report of its failure unless its slot is freed otherwise. Calling `trigger_bootstrapping_process` again and again
  discharges tests and polls (`TriggerDischarges`). An exhausted node is never blocked: the test at the beginning of the
  next call completes it, even with all its slots in use (`StuckExactlyWhenBlocked`).
* `FairSchedulesComplete`: with at least one slot, and if the two readings of the peer id agree on every address, every
  fair schedule completes, even if every fetch comes back empty and every dial fails. Crafted addresses satisfy this
  (`IdsAgreeExactly`).
* For a node that has read all its sources, as `new` can return it, the queue decides. The report on a dial may free the
  slot of another address (`Frees`), so the order of dials and reports matters.
  * If callbacks may come at any time, every fair schedule completes if and only if the addresses in front of the last
    one cannot hold all slots in turn, each dialled after the reports that would free it, or no contact is wanted
    (`FairCompletesExactly`).
  * One call dials in one go, so no callback comes between its dials (`CallWise`). Then every fair schedule completes
    already unless they can do so with every address that some report would free standing behind the first call; and not
    every one completes if they can hold all slots without any report freeing one (`CallsCompleteUnlessLeaking`).
  * With one slot the two meet: every such schedule completes if and only if the two readings agree on every address in
    front of the last, or no contact is wanted (`OneSlotCompletesExactly`).
  * With two slots they do not: `LeakAcrossCalls` and `FirstCallMatters` give queues on either side.
* As long as a source is left, nothing about the node itself ensures completion (`SourceLeftMayBlock`).

## Where the code does not keep a promise

* The documentation of `Bootstrap` expects callers to retry `next_addr` after an error; the model follows the code, where
  the error is final (`ExhaustionIsPermanent`).
* A failed dial does not always free its slot: `pop_p2p` dials by the last p2p component of an address while slots are
  filed under the first one, and a relayed address has two (`RelayIdsDisagree`). The slot is freed by the failure of its
  own dial exactly when both readings agree (`FailureFreesSlotExactly`). Configured addresses are crafted, and the node's
  own writer of the cache file crafts addresses and drops relayed ones (ant-bootstrap/src/cache_store/mod.rs:80-86). But
  neither the cache file nor the JSON of a contacts endpoint (ant-bootstrap/src/contacts_fetcher.rs:268) is crafted again
  when it is read, so such an address can come from a file written elsewhere. `BlockedFromTheStart` is the whole story:
  `new` returns a node with one slot and two addresses delivered by the cache, the first with differing readings, that
  can be called for ever, with the failure of every dial reported, and never completes.
* The recorded version of a service can get lower without a forced upgrade, because `on_start` copies what the running
  process reports (`ReportsMayLower`). `LoweredExactly` says of every operation of every life when this happens: exactly
  when a start or a refresh records a process that reports a lower version, or a forced upgrade goes to one. Text that
  does not parse as a version is not comparable, so replacing a version by such text, or one such text by anything else,
  counts as lowering here (`NotLower`). `VersionNeverLowered` draws the conclusion for whole lives.
* Acceptance by the quote history check is not transitive (`AcceptanceIsNotTransitive`); `ChainGrowth` bounds what a chain
  can gain and `AcceptedExactly` gives the exact verdict for any pair.
* In a build with overflow checks `run_network` can trap in three places (`OutcomesExactly`, `Registry.RunNetwork`): on the
  port range 0-65535, before anything is launched (`RangeOverflow`); on numbering a node when 65535 are registered
  (`NumberOverflow`); and behind the last launch, exactly when a port range ends at 65535 and all launches and the saves
  before the trap succeed (`PortOverflow`). In the last case all nodes are running, but a single-node network is not in
  the saved registry.

## Model

| member | source | states |
|---|---|---|
| `Addresses.CraftValidMultiaddr` | ant-bootstrap/src/lib.rs:51-99 | accepts exactly addresses with an IPv4 part, a UDP or TCP part and, where demanded, a peer id; the result has the first of each kind, UDP before TCP, in a fixed order; it follows the grammar and keeps the peer id |
| `Addresses.CraftedExactly` | ant-bootstrap/src/lib.rs:51-99 | which addresses are accepted and, component by component, what they are rewritten to |
| `Addresses.CraftedShape` | ant-bootstrap/src/lib.rs:51-99 | every output is `ip4/(udp[/quic-v1] or tcp[/ws])[/p2p]` with the input's peer id |
| `Addresses.CraftedFixpoint` | ant-bootstrap/src/lib.rs:51-99 | an address is returned unchanged if and only if it follows that grammar (with a peer id where one is demanded), so the outputs are exactly these |
| `Addresses.CraftedIdempotent` | ant-bootstrap/src/lib.rs:51-99 | crafting twice is crafting once, in whichever modes the passes are made; only a second pass that demands a peer id refuses a result without one |
| `Addresses.PopP2p` | ant-bootstrap/src/bootstrap.rs:300-307 | an id is popped if and only if the address ends in p2p; popping is undone by appending it; otherwise nothing is removed |
| `Addresses.PeerIdIsFirst` | ant-bootstrap/src/lib.rs:110-115 | the peer id read is the one of the first p2p component |
| `Addresses.IdsAgreeExactly` | ant-bootstrap/src/bootstrap.rs:300-307 | `pop_p2p` and `multiaddr_get_peer_id` agree exactly on addresses without p2p and those ending in their first p2p; always on crafted ones |
| `Addresses.RelayIdsDisagree` | ant-bootstrap/src/lib.rs:110-115 | on a relayed address the two readings differ |
| `BootstrapMachine.FetchInvNext` | ant-bootstrap/src/bootstrap.rs:217-282 | every step keeps: tasks plus unread events number one, of the kind in progress, if a fetch is in progress, else zero; an empty endpoint list only during a contacts fetch; every fetch started is read once or outstanding |
| `BootstrapMachine.SourceInvNext` | ant-bootstrap/src/bootstrap.rs:226-246 | every step keeps: fetches started, then sources left, are the configured sources |
| `BootstrapMachine.FlowInvNext` | ant-bootstrap/src/bootstrap.rs:253-298 | every step keeps: addresses taken, then queued, are the initial queue then the batches read, in order; known peers are exactly those they name |
| `BootstrapMachine.DialInvNext` | ant-bootstrap/src/bootstrap.rs:372-490 | every step keeps: open dials within the limit, each for an address whose dial the swarm accepted |
| `BootstrapMachine.InvAfter` | ant-bootstrap/src/bootstrap.rs:217-490 | all four invariants hold in every reachable state |
| `BootstrapMachine.ReachedLater` | ant-bootstrap/src/bootstrap.rs:81-498 | between any two moments of an object lies a run of the machine |
| `BootstrapMachine.RequeuedInv` | ant-bootstrap/src/bootstrap.rs:195-209 | putting the collected addresses back re-establishes the invariant with a fresh history and adds no peer |
| `BootstrapRuns.SourcesUsedInOrder` | ant-bootstrap/src/bootstrap.rs:226-246 | over any run the fetches started grow and stay a prefix of cache, then endpoints in order, each at most once |
| `BootstrapRuns.FetchStartsOnlyWhenDrained` | ant-bootstrap/src/bootstrap.rs:218-245 | a fetch starts only with empty queue, no task and no unread event, and it is the first remaining source |
| `BootstrapRuns.ExhaustionIsPermanent` | ant-bootstrap/src/bootstrap.rs:340-351 | the exhaustion test never holds with an event unread or a task running, and once it holds it holds for ever with no further fetch, batch or address |
| `BootstrapRuns.FirstNodeIsInert` | ant-bootstrap/src/bootstrap.rs:136-140 | a `first` node never starts a fetch nor takes or dials an address |
| `BootstrapRuns.NothingLostOrReordered` | ant-bootstrap/src/bootstrap.rs:217-298 | over any run, taken then queued then unread addresses grow only at the end, by exactly the batches delivered, in delivery order |
| `BootstrapRuns.BootstrapPeersAreKept` | ant-bootstrap/src/bootstrap.rs:293-298 | a peer counts as bootstrap peer if and only if some supplied address names it, and never stops to |
| `BootstrapRuns.CompletionIsFinal` | ant-bootstrap/src/bootstrap.rs:365-370 | completion never reverts; after it no dial is requested and no slot taken |
| `BootstrapRuns.DialsAreBounded` | ant-bootstrap/src/bootstrap.rs:372-413 | dials requested, addresses handed out and queued do not outnumber those supplied; open dials never exceed the limit |
| `BootstrapRuns.FailureFreesSlotExactly` | ant-bootstrap/src/bootstrap.rs:468-490 | the failure of an address's dial frees its slot if and only if both id readings agree; always for a crafted address |
| `BootstrapRuns.SuccessFreesSlotExactly` | ant-bootstrap/src/bootstrap.rs:452-466 | a connection frees exactly the dialled address if that holds a slot, else exactly the slots filed under the peer; none without an address |
| `BootstrapRuns.EveryScheduleSettles` | ant-bootstrap/src/bootstrap.rs:217-490 | every endless schedule reaches a state it never leaves |
| `BootstrapRuns.StuckExactlyWhenBlocked` | ant-bootstrap/src/bootstrap.rs:322-450 | in a reachable state only a callback can change anything if and only if it is uncompleted and not exhausted, contacts are wanted, no task is left and all slots are in use |
| `BootstrapRuns.TriggerDischarges` | ant-bootstrap/src/bootstrap.rs:360-450 | a call that finds the completion test true completes, otherwise no test was owed; in every state a call can return in no poll is owed |
| `BootstrapRuns.FairSchedulesSettle` | ant-bootstrap/src/bootstrap.rs:322-490 | every fair schedule, with one answer per dial, comes to rest completed, or blocked with every open dial reported |
| `BootstrapRuns.FairSchedulesComplete` | ant-bootstrap/src/bootstrap.rs:360-490 | every fair schedule completes if the id readings agree on every address |
| `BootstrapLeaks.FairCompletes` | ant-bootstrap/src/bootstrap.rs:300-490 | every fair schedule of a node without further sources completes if its queue cannot leak all slots in turn; if no callback comes in the middle of a call, only leaks behind the first call count |
| `BootstrapLeaks.FirstCallFills` | ant-bootstrap/src/bootstrap.rs:372-446 | at every step of a node that stays uncompleted with an address queued: nothing has been taken yet, a call is going on, or at least as many addresses have been dialled as it takes to fill all slots |
| `BootstrapLeaks.OneSlotLeaksExactly` | ant-bootstrap/src/bootstrap.rs:300-307 | with one slot all leak conditions are the same: the readings differ on some address in front of the last |
| `BootstrapLeaks.AgreeingCannotLeak` | ant-bootstrap/src/bootstrap.rs:468-490 | a queue on whose addresses the readings agree cannot leak any number of slots |
| `BootstrapBlocking.LeakBlocksForEver` | ant-bootstrap/src/bootstrap.rs:300-490 | leaking addresses with another one behind them make a fair schedule, each failure reported once, that comes to rest blocked and never completes; one call makes its dials if they leak at once |
| `BootstrapBlocking.FairCompletesExactly` | ant-bootstrap/src/bootstrap.rs:300-490 | if callbacks may come at any time: every fair schedule of a node without further sources completes if and only if no contact is wanted or its queue cannot leak all slots in turn |
| `BootstrapBlocking.CallsCompleteUnlessLeaking` | ant-bootstrap/src/bootstrap.rs:360-490 | for schedules made of whole calls, both halves: all complete unless the queue can leak in turn behind the first call; not all complete if it can leak at once |
| `BootstrapBlocking.OneSlotCompletesExactly` | ant-bootstrap/src/bootstrap.rs:360-490 | with one slot, all schedules made of whole calls complete if and only if no contact is wanted or the readings agree on every address in front of the last |
| `BootstrapBlocking.SourceLeftMayBlock` | ant-bootstrap/src/bootstrap.rs:226-490 | every idle node with a source left, a slot and a contact wanted has a fair schedule made of whole calls that never completes |
| `BootstrapGap.LeakAcrossCalls` | ant-bootstrap/src/bootstrap.rs:360-490 | two slots, four addresses: the slots cannot leak at once, yet a fair schedule made of two calls never completes |
| `BootstrapGap.FirstCallMatters` | ant-bootstrap/src/bootstrap.rs:372-446 | two slots, three addresses: the slots can leak in turn, yet every schedule made of whole calls completes |
| `Construction.CacheDeliversTwo` | ant-bootstrap/src/bootstrap.rs:143-209 | with nothing configured, two addresses delivered by the cache are the queue `new` returns, all sources read |
| `Construction.FetchedOnlyWhenNeeded` | ant-bootstrap/src/bootstrap.rs:217-246 | along every run of a fresh object each fetch is started only after all addresses of the ones before have been taken, and none is queued while one is outstanding |
| `Construction.CourseDetermined` | ant-bootstrap/src/bootstrap.rs:143-189 | the collection loop times out if and only if a look at the clock within the waits the needed fetches take is late, and otherwise reads exactly the needed fetches |
| `Construction.CourseUnique` | ant-bootstrap/src/bootstrap.rs:143-189 | world and clock allow only one course |
| `Construction.FirstQueueLosesNothing` | ant-bootstrap/src/bootstrap.rs:143-209 | the first queue holds every configured and fetched address as often as it arrived, at least five unless the sources ran out or the deadline passed |
| `Construction.FirstQueueOrder` | ant-bootstrap/src/bootstrap.rs:195-209 | by position: five configured addresses stay as they are; otherwise the first five of all that arrived stand behind the rest, both in order |
| `Construction.SupplyExactly` | ant-bootstrap/src/bootstrap.rs:253-298 | what arrived is the configured queue, then each fetch read as one unbroken stretch, in order |
| `Construction.LateExactly` | ant-bootstrap/src/bootstrap.rs:143-189 | a look at the clock is late exactly when 100 ms per wait and the time between come to more than 30 seconds |
| `Configuration.CraftAllIsCrafted` | ant-bootstrap/src/bootstrap.rs:96-103 | of the configured peers only crafted addresses with a peer id reach the queue |
| `Configuration.InitialQueueMeant` | ant-bootstrap/src/bootstrap.rs:85-105 | the first queue is the craftable ANT_PEERS unless disabled, then the craftable configured peers: each one kept, in order, and nothing else; nothing for a `first` node |
| `Configuration.ParseAllExactly` | ant-bootstrap/src/bootstrap.rs:618-624 | refused if and only if one URL is malformed; otherwise every URL, parsed, in its place |
| `Configuration.ConfiguredSources` | ant-bootstrap/src/bootstrap.rs:607-642 | the sources are the cache unless disabled, then the endpoints given or, without any, the well-formed built-in ones of the network, in order; none for a `first` node and no endpoints for a local one; refused exactly when a given URL that is needed is malformed |
| `BootstrapObject.Bootstrap.constructor` | ant-bootstrap/src/bootstrap.rs:117-129 | the initial state satisfies the invariant; a `first` node is inert and completed |
| `BootstrapObject.Bootstrap.ConfiguredQueue` | ant-bootstrap/src/bootstrap.rs:85-105 | every craftable ANT_PEERS entry, then every craftable configured peer, in order and nothing else, and exactly their peer ids |
| `BootstrapObject.Bootstrap.ExtendWithAddrs` | ant-bootstrap/src/bootstrap.rs:284-298 | the batch is appended in order and exactly its peer ids become known |
| `BootstrapObject.Bootstrap.ReadOne` | ant-bootstrap/src/bootstrap.rs:254-281 | handling one event is the machine's read step |
| `BootstrapObject.Bootstrap.ProcessEvents` | ant-bootstrap/src/bootstrap.rs:253-282 | drains the channel whatever arrives meanwhile; terminates; a task left running was not due at the last poll |
| `BootstrapObject.Bootstrap.StartCacheFetch` | ant-bootstrap/src/bootstrap.rs:500-550 | spawns the one cache task unless one is in progress |
| `BootstrapObject.Bootstrap.StartContactsFetch` | ant-bootstrap/src/bootstrap.rs:552-605 | spawns a task for the next endpoint, or drops an empty endpoint list |
| `BootstrapObject.Bootstrap.NextAddr` | ant-bootstrap/src/bootstrap.rs:217-251 | terminates; the head of a non-empty queue is returned; `None` only while a task really runs; an error if and only if queue and sources are spent and no address was taken; less work left after an address; exactly the polls that found a task running count as waits |
| `BootstrapObject.Bootstrap.TryFinalizeInitialAddrs` | ant-bootstrap/src/bootstrap.rs:195-209 | puts the collected addresses back if and only if there are enough |
| `BootstrapObject.Bootstrap.FillInitialQueue` | ant-bootstrap/src/bootstrap.rs:143-189 | terminates; takes the determined course; fails if and only if nothing was configured and nothing arrived; otherwise the queue is what arrived, rotated by the addresses collected, and the object is what the run of the construction leads to |
| `BootstrapObject.Bootstrap.New` | ant-bootstrap/src/bootstrap.rs:82-190 | fails on a malformed URL, and exactly then; limits, sources and configured queue are those the configuration means; an inert `first` node; any other node has taken the determined course, fails if and only if that brought no address, and else has exactly the configured and fetched addresses queued and the sources started in order that the course says; if it has read them all, it is a node without further sources |
| `BootstrapObject.Bootstrap.TryNextDialAddr` | ant-bootstrap/src/bootstrap.rs:309-319 | as `NextAddr`, and completes on exhaustion only |
| `BootstrapObject.Bootstrap.HasBootstrapCompleted` | ant-bootstrap/src/bootstrap.rs:322-354 | true if and only if the process has completed, as many peers as wanted are contacted, or queue, cache, endpoints and fetch are all spent, as when `NextAddr` fails |
| `BootstrapObject.RequestDial` | ant-bootstrap/src/bootstrap.rs:374-384 | the request names the popped peer and together with it the whole address |
| `BootstrapObject.Bootstrap.DialNext` | ant-bootstrap/src/bootstrap.rs:373-446 | one address is taken and dialled, with less work left, or none is at hand and either the process completed or exactly one task runs and nothing is unread |
| `BootstrapObject.Bootstrap.TriggerBootstrappingProcess` | ant-bootstrap/src/bootstrap.rs:360-450 | terminates; returns the completion flag; a completed, satisfied or exhausted node ends with queue and dials emptied; any other dials in queue order, loses no queued address and frees no slot; every address taken was dialled and exactly the accepted ones hold slots; if not completed, the slots are full or nothing is at hand and exactly one task runs; on a blocked node it changes nothing |
| `BootstrapObject.Bootstrap.OnConnectionEstablished` | ant-bootstrap/src/bootstrap.rs:452-466 | frees the dialled address and nothing else if it holds a slot, else all slots filed under the peer; nothing without an address or once completed |
| `BootstrapObject.Bootstrap.OnOutgoingConnectionError` | ant-bootstrap/src/bootstrap.rs:468-490 | frees exactly the slots filed under the failed peer, or those without a peer; nothing once completed |
| `BootstrapObject.BlockedFromTheStart` | ant-bootstrap/src/bootstrap.rs:82-490 | `new` with one slot, nothing configured and two addresses from the cache, the first with differing readings, returns a node with a fair schedule made of whole calls that never completes |
| `ContactsFetcher.FetchBootstrapAddresses` | ant-bootstrap/src/contacts_fetcher.rs:113-175 | the early stop is invisible: the result is the first `max_addrs` of all that all endpoints would deliver; and it stops as soon as there are enough |
| `ContactsFetcher.DeliveredExactly` | ant-bootstrap/src/contacts_fetcher.rs:131-168 | a successful fetch contributes its addresses as one unbroken stretch behind those before it, a failed one nothing |
| `Amounts.ParsesExactly` | ant-evm/src/amount.rs:89-130 | for all digit strings, `u.f` is accepted if and only if u is at most 2^64-1 and f without trailing zeros has at most 18 digits; the value is exact and each refused text has its own error |
| `Amounts.ExpectedIsShifted` | ant-evm/src/amount.rs:89-130 | the value is what the digits denote with the point moved 18 places |
| `Amounts.FractionFits` | ant-evm/src/amount.rs:119-125 | the unchecked product never wraps |
| `Amounts.NoWrapAdd` | ant-evm/src/amount.rs:100-107 | the checked product and the unchecked sum stay below 2^256 |
| `Amounts.TrailingZerosIgnored` | ant-evm/src/amount.rs:110 | trailing zeros never change the result |
| `Amounts.DisplayDenotes` | ant-evm/src/amount.rs:133-139 | the text printed is digits, a point and eighteen digits that denote the amount |
| `Amounts.RoundTrip` | ant-evm/src/amount.rs:86-139 | parsing what was printed gives x back if and only if x < 2^64·10^18, and `ExcessiveValue` for every larger 256-bit x |
| `Quotes.TruncatedDifference` | ant-evm/src/data_payments.rs:315 | truncating first adds a second exactly when the longer elapsed time has the smaller sub-second part |
| `Quotes.AcceptedExactly` | ant-evm/src/data_payments.rs:276-334 | exact verdict for all quotes and both readings of the clock: counters in sequence, and the gain in live time within the measured distance in whole seconds plus 10, plus one more decided by the sub-second parts, unless a quote is ahead of the clock |
| `Quotes.VerdictIsSymmetric` | ant-evm/src/data_payments.rs:278-283 | the verdict does not depend on the order of the quotes unless they are of the same instant |
| `Quotes.ChainGrowth` | ant-evm/src/data_payments.rs:276-334 | along an accepted chain both counters are monotone; whenever each check was made, live time grows at most by the whole seconds between the ends plus 11 per link |
| `Quotes.ChainGrowthAtOnce` | ant-evm/src/data_payments.rs:276-334 | if all checks are made at one instant, at most by the whole seconds elapsed plus 10 per link |
| `Quotes.AcceptanceIsNotTransitive` | ant-evm/src/data_payments.rs:315-322 | for every number of links there is an accepted chain that gains 11 seconds of live time per second of age, so the bound of `ChainGrowthAtOnce` is reached; its ends accept each other only if it has one link |
| `Services.NodeService.OnStart` | ant-service-management/src/node/mod.rs:194-302 | fails before any write, else records running, pid and reported version |
| `Services.NodeService.OnStop` | ant-service-management/src/node/mod.rs:304-311 | stopped without a pid, version kept |
| `Services.ServiceManager.Start` | ant-node-manager/src/lib.rs:79-165 | for every answer of control, process table and RPC: the new record, when it succeeds and which error it reports; on an error or for a service found running the record is untouched |
| `Services.ServiceManager.Stop` | ant-node-manager/src/lib.rs:167-222 | a running service is stopped without a pid, others are untouched; `PidNotSet` only for a running service without pid, `ControlError` only if a process found cannot be stopped, and then the record is untouched |
| `Services.ServiceManager.Remove` | ant-node-manager/src/lib.rs:224-304 | refuses a running service; one that only seemed to run is marked stopped first; otherwise removed if and only if uninstalling and, where wanted, removing the directories works |
| `Services.ServiceManager.Upgrade` | ant-node-manager/src/lib.rs:306-368 | the exact record after every outcome, exactly when it succeeds and when it reports that the service did not start, and the versions reported; running with the pid found exactly if the start was wanted and answered |
| `Services.DetectPidUsingPath` | ant-node-manager/src/lib.rs:527-607 | records the process found by binary path, else by a pid file whose process is verified; with neither, stops all but added and removed services; fails before any write, exactly when a full refresh finds a process with silent RPC |
| `Services.RefreshNodeRegistry` | ant-node-manager/src/lib.rs:527-723 | for any registry: services up to the first silent RPC are refreshed, it and those behind it untouched; succeeds if and only if there is none; in a service-based network a refreshed service is running if and only if the stored pid is verified, the path is found or the pid file is verified, with the pid of the first of these; undetected added and removed services keep their record, the rest are stopped without a pid; in a local network the answer of the RPC service decides; the version is the one the process reports |
| `Services.RefreshIsIdempotent` | ant-node-manager/src/lib.rs:680-718 | a second refresh of an unchanged process table changes nothing |
| `Services.RefreshIsTransition` | ant-node-manager/src/lib.rs:651-723 | a refresh is one step of a service's life |
| `Services.PidExactlyWhileRunning` | ant-node-manager/src/lib.rs:79-246 | through any life a pid is recorded exactly while running, `PidNotSet` never occurs, and a successful stop leaves nothing running |
| `Services.LoweredExactly` | ant-service-management/src/node/mod.rs:266-299 | in every life, an operation lowers the version if and only if it is a start or refresh that recorded a lower report, or a forced upgrade to a lower version, for any total order of versions |
| `Services.VersionNeverLowered` | ant-node-manager/src/lib.rs:79-368 | through any life in which neither happens the version never gets lower |
| `Services.UpgradesReportTransition` | ant-node-manager/src/lib.rs:307-367 | of every upgrade in every life: error and `NotRequired` keep the version; every other result leaves the target and names both versions; `NotRequired` exactly when not forced and not higher |
| `Services.ReportsMayLower` | ant-service-management/src/node/mod.rs:266-299 | a refresh and a start that lower the version |
| `LocalNetwork.CheckPortAvailability` | ant-node-manager/src/helpers.rs:393-426 | succeeds if and only if no port of the range is held by a registered node |
| `LocalNetwork.GrantedExactly` | ant-node-manager/src/add_services/config.rs:47-68 | a range is granted if and only if it has as many ports as nodes are wanted and no registered node holds one of them; the length of 0-65535 wraps to zero |
| `LocalNetwork.UsedPort` | ant-node-manager/src/helpers.rs:397-407 | the ports gathered are exactly those some registered node holds as node, metrics or RPC port |
| `LocalNetwork.IncrementPortOption` | ant-node-manager/src/helpers.rs:384-390 | adds one; traps or wraps at 65535 |
| `LocalNetwork.PortInRange` | ant-node-manager/src/add_services/config.rs:47-68 | a validated range has a port for every node launched |
| `LocalNetwork.IncrementPorts` | ant-node-manager/src/local.rs:308-310 | traps if and only if the last node was launched and a range ends at 65535 |
| `LocalNetwork.LaunchProblemExactly` | ant-node-manager/src/local.rs:269-361 | a launch works if and only if its number can be counted, every port left to the system is found and the launcher succeeds; what each failure implies |
| `LocalNetwork.PortsAreFresh` | ant-node-manager/src/local.rs:231-245 | every node launched gets in-range ports no registered node holds, and the next number |
| `LocalNetwork.PortsAreDistinct` | ant-node-manager/src/local.rs:315-361 | no range hands out a port twice |
| `LocalNetwork.Registry.LaunchRest` | ant-node-manager/src/local.rs:315-361 | launches, saves and moves the ports on until the first of these fails or all nodes wanted are saved |
| `LocalNetwork.LaunchesExactly` | ant-node-manager/src/local.rs:269-361 | the registry is the old one followed by one node per launch, each launched successfully, numbered on, with the port of its place in every range given and the one found otherwise |
| `LocalNetwork.OutcomesExactly` | ant-node-manager/src/local.rs:224-361 | when each outcome occurs: completed if and only if every launch and every save succeeds and no increment traps; a launch failure if and only if that launch is the first to fail and no save failed before; a port overflow if and only if a range ends at 65535 and everything before the trap succeeds |
| `LocalNetwork.EndedOnce` | ant-node-manager/src/local.rs:224-361 | the surroundings allow only one outcome and one number of launches |
| `LocalNetwork.Registry.RunNetwork` | ant-node-manager/src/local.rs:224-361 | rejected if and only if a range is not granted; otherwise the outcome the surroundings determine, behind exactly as many launches; the registry has grown by exactly these nodes, each described by its options and surroundings; the number of nodes of a complete network; what caused each failure; what the file holds then |

## Left out

- BootstrapBlocking.CallsCompleteUnlessLeaking: for two or more slots its two conditions do not meet; between them it depends on which other addresses hold slots between two calls (see BootstrapGap), for which no condition on the queue is given.
- `BootstrapCacheStore`, cache files, locking and flushing: a cache fetch delivers an arbitrary list; their I/O errors in `new` are not modelled.
- libp2p, HTTP, JSON and URL parsing: their answers are inputs; retries of one endpoint (`fetch_from_endpoint`) are inside a fetch task.
- Distinctness of ports across the node, metrics and RPC ranges: `run_network` does not check it.
- Amounts.ParsesExactly: text that is not a digit string is answered by the number library, which is not part of this model.
- LocalNetwork.Registry.RunNetwork: claims nothing about the file after a failed save, and ends before the final validation of the network.
- Connected peers, listen addresses, reward balances and directories of a service: they do not influence status, pid or version.
- Signatures, hashing and merkle payments: they rest on cryptography that would have to be assumed.
- `status_report`, `kill_network`, command line, logging, metrics and language bindings: user interface and plumbing.
