/**
 The `Bootstrap` object. Its methods interleave with the fetch tasks they spawn:
 `Environment` stands for what the runtime does between two polls of the event
 channel; what the tasks deliver and when is the `World` the object is created in,
 which is arbitrary. Every method is proved to perform a run of `BootstrapMachine`, so what
 `BootstrapRuns` shows of all runs holds of every object.
 */
module BootstrapObject {
  import opened Wrappers
  import opened Addresses
  import opened BootstrapMachine
  import opened BootstrapRuns
  import opened BootstrapLeaks
  import opened BootstrapBlocking
  import opened Construction
  import opened Configuration

  /** The object before its first fetch. */
  function InitialState(config: BootstrapConfig, contacts: Option<seq<Url>>, queue: seq<Multiaddr>): State
  {
    State(queue, !config.first && !config.disableCacheReading, contacts, [], None, {}, PeerIdsIn(queue), config.first,
          [], Log(queue, [], [], [], 0))
  }

  predicate Constructed(config: BootstrapConfig, contacts: Option<seq<Url>>, queue: seq<Multiaddr>, world: World,
                        pauses: nat -> nat, course: Course)
  {
    Took(queue, world, SetupOf(config, contacts).sources, pauses, course)
  }

  /** The object whose construction was the given run: untouched if the configured queue was long enough,
      and otherwise with the addresses it collected put back. */
  function BuiltFrom(config: BootstrapConfig, contacts: Option<seq<Url>>, queue: seq<Multiaddr>, run: seq<Action>)
    : State
  {
    var initial := InitialState(config, contacts, queue);
    if |queue| >= MIN_INITIAL_ADDRS then initial else Requeued(After(SetupOf(config, contacts), initial, run))
  }

  // ---------------------------------------------------------------- progress

  /** Why polling ends: lexicographically fewer sources, outstanding fetches or queued addresses. */
  predicate LessWork(t: State, s: State)
  {
    || SourcesLeft(t) < SourcesLeft(s)
    || (SourcesLeft(t) == SourcesLeft(s) &&
        (|| |t.tasks| + |t.events| < |s.tasks| + |s.events|
         || (|t.tasks| + |t.events| == |s.tasks| + |s.events| && |t.addrs| < |s.addrs|)))
  }

  predicate GivesAddr(answer: Option<Result<Option<Multiaddr>, Error>>)
  {
    answer.Some? && answer.value.Ok? && answer.value.value.Some?
  }

  /** What `next_addr` does once the queue is empty and no fetch is in progress. */
  datatype NextFetch = PollAgain | Wait | NoFetch

  // ---------------------------------------------------------------- the object

  class Bootstrap {
    const setup: Setup
    var addrs: seq<Multiaddr>
    var cachePending: bool
    var contacts: Option<seq<Url>>
    var events: seq<FetchEvent>
    var inProgress: Option<FetchKind>
    var ongoing: set<Multiaddr>
    var peerIds: set<PeerId>
    var completed: bool
    // The spawned fetch tasks that have not ended, how many there have been, and how many polls of the
    // event channel have not found the event of the last.
    var tasks: seq<Source>
    var spawned: nat
    var missed: nat
    const world: World

    ghost var log: Log
    // Where the object's run began, and the run.
    ghost var origin: State
    ghost var run: seq<Action>

    ghost function Snapshot(): State
      reads this
    {
      State(addrs, cachePending, contacts, events, inProgress, ongoing, peerIds, completed, tasks, log)
    }

    ghost predicate Valid()
      reads this
    {
      Reached(setup, origin, run, Snapshot()) && Told()
    }

    ghost predicate Told()
      reads this
    {
      spawned == |log.started| && Attested(world, HeardSoFar())
    }

    ghost function HeardSoFar(): Heard
      reads this
    {
      Heard(log.batches, log.readCount, events, tasks != [], spawned, missed)
    }

    ghost function Waits(): nat
      reads this
    {
      WaitCount(world, setup.sources, spawned, tasks, missed)
    }

    /** The synchronous part of `new`: queue, sources and flags, before any fetch. */
    constructor (config: BootstrapConfig, contacts: Option<seq<Url>>, queue: seq<Multiaddr>, known: set<PeerId>,
                 world: World)
      requires contacts != Some([])
      requires config.first ==> contacts == None && queue == []
      requires known == PeerIdsIn(queue)
      ensures Valid() && run == []
      ensures setup == SetupOf(config, contacts) && this.world == world
      ensures Snapshot() == InitialState(config, contacts, queue)
      ensures config.first ==> FirstNode(Snapshot())
    {
      setup := SetupOf(config, contacts);
      addrs := queue;
      cachePending := !config.first && !config.disableCacheReading;
      this.contacts := contacts;
      events, tasks, inProgress := [], [], None;
      this.world, spawned, missed := world, 0, 0;
      ongoing, peerIds := {}, known;
      completed := config.first;
      log := Log(queue, [], [], [], 0);
      run := [];
      new;
      origin := Snapshot();
      AttestedSays(world, HeardSoFar());
      assert AddrsOf(log.taken) + addrs == addrs == Supplied(Snapshot());
      assert log.started + Remaining(Snapshot()) == setup.sources;
      assert After(setup, origin, run) == origin;
    }

    lemma Invariant()
      requires Valid()
      ensures Inv(setup, Snapshot())
    {
      ReachedInv(setup, origin, run, Snapshot());
    }

    lemma FetchInvariant()
      requires Valid()
      ensures FetchInv(Snapshot())
    {
      ReachedInv(setup, origin, run, Snapshot());
    }

    /** The run grows by one action that has just been performed. */
    ghost method Record(a: Action, before: State)
      requires Reached(setup, origin, run, before)
      requires Snapshot() == Next(setup, before, a) && Told()
      modifies this`run
      ensures Valid() && run == old(run) + [a]
    {
      ReachedSnoc(setup, origin, run, before, a);
      run := run + [a];
    }

    /** The task that is running is the last source started. */
    lemma RunningTask()
      requires Valid()
      ensures |tasks| <= 1 && (tasks != [] ==> events == [])
      ensures spawned == log.readCount + |tasks| + |events| <= |setup.sources|
      ensures tasks != [] ==> tasks[0] == setup.sources[spawned - 1]
    {
      Invariant();
      assert log.started <= setup.sources;
    }

    /** What happens outside the object between two polls of the channel: the running task, if there is
        one, ends and delivers its batch once it has let enough polls pass. */
    method Environment()
      requires Valid()
      modifies this`tasks, this`events, this`missed, this`run
      ensures Valid() && old(run) <= run
      ensures |tasks| + |events| == old(|tasks| + |events|)
      ensures tasks != [] ==> missed > 0
      ensures Waits() == old(Waits()) + |tasks|
    {
      if tasks != [] {
        RunningTask();
        if world.delay(spawned - 1) <= missed {
          ghost var before := Snapshot();
          AttestedDelivered(world, HeardSoFar(), FetchKindOf(tasks[0]));
          events := events + [FetchEvent(FetchKindOf(tasks[0]), world.batch(spawned - 1))];
          tasks := tasks[1..];
          assert tasks == before.tasks[..0] + before.tasks[0 + 1..];
          Record(Deliver(0, world.batch(spawned - 1)), before);
        } else {
          AttestedMissed(world, HeardSoFar());
          missed := missed + 1;
        }
      }
    }

    method PushAddr(addr: Multiaddr)
      modifies this`addrs, this`peerIds
      ensures addrs == old(addrs) + [addr]
      ensures peerIds == old(peerIds) + PeerIdsIn([addr])
    {
      var id := GetPeerId(addr);
      if id.Some? {
        peerIds := peerIds + {id.value};
      }
      addrs := addrs + [addr];
    }

    method ExtendWithAddrs(batch: seq<Multiaddr>)
      modifies this`addrs, this`peerIds
      ensures addrs == old(addrs) + batch
      ensures peerIds == old(peerIds) + PeerIdsIn(batch)
    {
      for i := 0 to |batch|
        invariant addrs == old(addrs) + batch[..i]
        invariant peerIds == old(peerIds) + PeerIdsIn(batch[..i])
      {
        PushAddr(batch[i]);
        assert batch[..i + 1] == batch[..i] + [batch[i]];
        PeerIdsInConcat(batch[..i], [batch[i]]);
      }
      assert batch[..|batch|] == batch;
    }

    method HandleEvent(event: FetchEvent)
      modifies this`addrs, this`peerIds, this`contacts, this`inProgress
      ensures addrs == old(addrs) + event.addrs
      ensures peerIds == old(peerIds) + PeerIdsIn(event.addrs)
      ensures contacts == if event.kind == Contacts && Urls(old(contacts)) == [] then None else old(contacts)
      ensures inProgress == None
    {
      match event.kind {
        case Cache =>
          if event.addrs != [] {
            ExtendWithAddrs(event.addrs);
          }
        case Contacts =>
          ExtendWithAddrs(event.addrs);
          if contacts.None? || contacts.value == [] {
            contacts := None;
          }
      }
      inProgress := None;
    }

    method ReadOne()
      requires Valid() && events != []
      modifies this`addrs, this`peerIds, this`contacts, this`inProgress, this`events, this`log, this`run
      ensures Valid() && run == old(run) + [ReadEvent]
      ensures Snapshot() == EventRead(old(Snapshot()))
    {
      ghost var before := Snapshot();
      AttestedRead(world, HeardSoFar());
      var event := events[0];
      events := events[1..];
      HandleEvent(event);
      log := log.(batches := log.batches + [event.addrs], readCount := log.readCount + 1);
      assert Snapshot() == EventRead(before);
      Record(ReadEvent, before);
    }

    /** Drains the channel; a task that ends meanwhile may be drained too. */
    method ProcessEvents()
      requires Valid()
      modifies this`addrs, this`peerIds, this`contacts, this`inProgress, this`events, this`tasks, this`missed,
               this`log, this`run
      ensures Valid() && old(run) <= run && events == []
      ensures log.taken == old(log.taken) && log.initial == old(log.initial)
      ensures tasks != [] ==> missed > 0
      ensures Waits() == old(Waits()) + |tasks|
      ensures old(addrs) <= addrs
      ensures |tasks| <= old(|tasks| + |events|)
      ensures |tasks| == old(|tasks| + |events|) ==> addrs == old(addrs)
      ensures SourcesLeft(Snapshot()) <= old(SourcesLeft(Snapshot()))
    {
      Environment();
      while events != []
        invariant Valid() && old(run) <= run && log.taken == old(log.taken) && log.initial == old(log.initial)
        invariant old(addrs) <= addrs
        invariant |tasks| + |events| <= old(|tasks| + |events|)
        invariant |tasks| + |events| == old(|tasks| + |events|) ==> addrs == old(addrs)
        invariant SourcesLeft(Snapshot()) <= old(SourcesLeft(Snapshot()))
        invariant tasks != [] ==> missed > 0
        invariant Waits() == old(Waits()) + |tasks|
        decreases |tasks| + |events|
      {
        RunningTask();
        ReadOne();
        Environment();
      }
    }

    /** A task may have been added, which nobody has polled for yet. */
    ghost predicate SpawnedSince(tasks0: nat, spawned0: nat, missed0: nat)
      reads this
    {
      if |tasks| == tasks0 then spawned == spawned0 && missed == missed0 else spawned == spawned0 + 1 && missed == 0
    }

    method StartCacheFetch()
      modifies this`cachePending, this`tasks, this`spawned, this`missed, this`inProgress, this`log
      ensures Snapshot() == if old(inProgress) == Some(Cache) then old(Snapshot())
                            else Spawned(old(Snapshot()).(cachePending := false), CacheFile)
      ensures SpawnedSince(old(|tasks|), old(spawned), old(missed))
    {
      if inProgress == Some(Cache) {
        return;
      }
      cachePending := false;
      tasks := tasks + [CacheFile];
      spawned, missed := spawned + 1, 0;
      log := log.(started := log.started + [CacheFile]);
      inProgress := Some(Cache);
    }

    method StartContactsFetch()
      modifies this`contacts, this`tasks, this`spawned, this`missed, this`inProgress, this`log
      ensures Snapshot() == if old(inProgress) == Some(Contacts) || old(contacts).None? then old(Snapshot())
                            else ContactsStarted(old(Snapshot()))
      ensures SpawnedSince(old(|tasks|), old(spawned), old(missed))
    {
      if inProgress == Some(Contacts) || contacts.None? {
        return;
      }
      if contacts.value == [] {
        contacts := None;
        return;
      }
      var endpoint := contacts.value[0];
      contacts := Some(contacts.value[1..]);
      tasks := tasks + [Endpoint(endpoint)];
      spawned, missed := spawned + 1, 0;
      log := log.(started := log.started + [Endpoint(endpoint)]);
      inProgress := Some(Contacts);
    }

    /** Starts the cache fetch of `next_addr`. */
    method BeginCacheFetch()
      requires Valid() && addrs == [] && inProgress.None? && cachePending
      modifies this`cachePending, this`tasks, this`spawned, this`missed, this`inProgress, this`log, this`run
      ensures Valid() && run == old(run) + [StartCache]
      ensures log.taken == old(log.taken) && log.initial == old(log.initial)
      ensures SourcesLeft(Snapshot()) < old(SourcesLeft(Snapshot()))
      ensures Waits() == old(Waits())
    {
      RunningTask();
      FetchInvariant();
      ghost var before := Snapshot();
      AttestedSpawned(world, HeardSoFar());
      StartCacheFetch();
      Record(StartCache, before);
    }

    /** Starts the next contacts fetch of `next_addr`, if an endpoint is left. */
    method BeginContactsFetch()
      requires Valid() && addrs == [] && events == [] && inProgress.None? && !cachePending && contacts.Some?
      modifies this`contacts, this`tasks, this`spawned, this`missed, this`inProgress, this`log, this`run
      ensures Valid() && run == old(run) + [StartContacts]
      ensures log.taken == old(log.taken) && log.initial == old(log.initial)
      ensures SourcesLeft(Snapshot()) < old(SourcesLeft(Snapshot()))
      ensures inProgress.Some? ==> |tasks| == 1 && tasks[0].Endpoint?
      ensures inProgress.None? ==> tasks == []
      ensures Waits() == old(Waits()) + |tasks|
    {
      RunningTask();
      FetchInvariant();
      ghost var before := Snapshot();
      AttestedSpawned(world, HeardSoFar());
      StartContactsFetch();
      Record(StartContacts, before);
    }

    /** Starts the fetch that is next, if there is one. */
    method StartNextFetch() returns (next: NextFetch)
      requires Valid() && addrs == [] && events == [] && inProgress.None?
      modifies this`cachePending, this`contacts, this`tasks, this`spawned, this`missed, this`inProgress, this`log,
               this`run
      ensures Valid() && old(run) <= run && log.taken == old(log.taken) && log.initial == old(log.initial)
      ensures next.NoFetch? ==> Exhausted(Snapshot()) && tasks == []
      ensures next.Wait? ==> Awaiting(Snapshot()) && inProgress.Some? && tasks[0].Endpoint?
      ensures !next.NoFetch? ==> SourcesLeft(Snapshot()) < old(SourcesLeft(Snapshot()))
      ensures Waits() == old(Waits()) + if next.Wait? then 1 else 0
    {
      RunningTask();
      FetchInvariant();
      if cachePending && inProgress != Some(Cache) {
        BeginCacheFetch();
        return PollAgain;
      }
      if contacts.Some? && inProgress != Some(Contacts) {
        BeginContactsFetch();
        return if inProgress.Some? then Wait else PollAgain;
      }
      return NoFetch;
    }

    /** One turn of the loop of `next_addr`: an answer, or a source less. */
    method PollOnce() returns (answer: Option<Result<Option<Multiaddr>, Error>>)
      requires Valid()
      modifies this`addrs, this`peerIds, this`cachePending, this`contacts, this`inProgress, this`events, this`tasks,
               this`spawned, this`missed, this`log, this`run
      ensures Valid() && old(run) <= run && events == [] && log.initial == old(log.initial)
      ensures log.taken == old(log.taken) + if GivesAddr(answer) then [Taken(answer.value.value.value, Handed)] else []
      ensures answer.None? ==>
                SourcesLeft(Snapshot()) < old(SourcesLeft(Snapshot())) && Waits() == old(Waits()) && old(addrs) == []
      ensures answer.Some? ==> Waits() == old(Waits()) + |tasks|
      ensures answer == Some(Ok(None)) ==>
                Awaiting(Snapshot()) && inProgress.Some? && (missed > 0 || tasks[0].Endpoint?)
      ensures answer.Some? && answer.value.Err? ==>
                Exhausted(Snapshot()) && answer.value.error == NoBootstrapPeersFound && tasks == []
      ensures GivesAddr(answer) ==>
                && LessWork(Snapshot(), old(Snapshot()))
                && run != [] && Reached(setup, origin, Front(run), PutBack(Snapshot()))
      ensures old(addrs) != [] ==> answer == Some(Ok(Some(old(addrs)[0])))
    {
      ProcessEvents();
      if addrs != [] {
        answer := Some(Ok(Some(addrs[0])));
        TakeFirst();
        return;
      }
      FetchInvariant();
      if inProgress.Some? {
        return Some(Ok(None));
      }
      var next := StartNextFetch();
      match next {
        case PollAgain =>
          return None;
        case Wait =>
          return Some(Ok(None));
        case NoFetch =>
          return Some(Err(NoBootstrapPeersFound));
      }
    }

    /**
     The next address; `Ok(None)` while a fetch is really running; an error exactly when the queue and
     all sources are spent without this call having taken an address.
     */
    method NextAddr() returns (r: Result<Option<Multiaddr>, Error>)
      requires Valid()
      modifies this`addrs, this`peerIds, this`cachePending, this`contacts, this`inProgress, this`events, this`tasks,
               this`spawned, this`missed, this`log, this`run
      ensures Valid() && old(run) <= run && events == [] && log.initial == old(log.initial)
      ensures log.taken == old(log.taken) + if r.Ok? && r.value.Some? then [Taken(r.value.value, Handed)] else []
      ensures r == Ok(None) ==> Awaiting(Snapshot()) && (missed > 0 || tasks[0].Endpoint?)
      ensures r.Err? <==> Exhausted(Snapshot()) && log.taken == old(log.taken)
      ensures r.Err? ==> r.error == NoBootstrapPeersFound && tasks == []
      ensures old(addrs) != [] ==> r == Ok(Some(old(addrs)[0]))
      ensures r.Ok? && r.value.Some? ==> LessWork(Snapshot(), old(Snapshot()))
      ensures r.Ok? && r.value.Some? ==> run != [] && Reached(setup, origin, Front(run), PutBack(Snapshot()))
      ensures Waits() == old(Waits()) + |tasks|
    {
      while true
        invariant Valid() && old(run) <= run && log.taken == old(log.taken) && log.initial == old(log.initial)
        invariant || Snapshot() == old(Snapshot())
                  || (SourcesLeft(Snapshot()) < old(SourcesLeft(Snapshot())) && old(addrs) == [])
        invariant Waits() == old(Waits())
        decreases SourcesLeft(Snapshot())
      {
        var answer := PollOnce();
        if answer.Some? {
          return answer.value;
        }
      }
    }

    method TakeFirst()
      requires Valid() && addrs != []
      modifies this`addrs, this`log, this`run
      ensures Valid() && run == old(run) + [Hand]
      ensures addrs == old(addrs)[1..]
      ensures log == old(log).(taken := old(log.taken) + [Taken(old(addrs)[0], Handed)])
      ensures Reached(setup, origin, Front(run), PutBack(Snapshot()))
    {
      ghost var before := Snapshot();
      log := log.(taken := log.taken + [Taken(addrs[0], Handed)]);
      addrs := addrs[1..];
      Record(Hand, before);
      assert Front(run) == old(run) && PutBack(Snapshot()) == before;
    }

    // -------------------------------------------------------------- initial queue

    /** Puts the collected addresses back once there are `minAddress` of them: construction is over. */
    method TryFinalizeInitialAddrs(collected: seq<Multiaddr>, minAddress: nat) returns (done: bool)
      requires Valid() && events == [] && ongoing == {} && AddrsOf(log.taken) == collected
      modifies this`addrs, this`peerIds, this`log, this`origin, this`run
      ensures Valid()
      ensures done <==> |collected| >= minAddress
      ensures Snapshot() == if done then Requeued(old(Snapshot())) else old(Snapshot())
      ensures done ==> run == []
    {
      if |collected| < minAddress {
        return false;
      }
      Invariant();
      RequeuedInv(setup, Snapshot());
      AttestedReset(world, HeardSoFar());
      ExtendWithAddrs(collected);
      log := Log(addrs, [], [], log.started, log.readCount);
      origin := Snapshot();
      run := [];
      assert After(setup, origin, run) == origin;
      return true;
    }

    /** Ends the collection loop: what was collected goes back, or nothing ever arrived. */
    method Conclude(collected: seq<Multiaddr>, minAddress: nat, ghost queue: seq<Multiaddr>, ghost course: Course)
      returns (r: Result<(), Error>)
      requires Valid() && events == [] && ongoing == {} && AddrsOf(log.taken) == collected
      requires Concludes(queue, world, course, collected, addrs) && minAddress == CollectedAtLeast(collected)
      modifies this`addrs, this`peerIds, this`log, this`origin, this`run
      ensures Valid()
      ensures r == if Supply(queue, world, course.read) == [] then Err(NoBootstrapPeersFound) else Ok(())
      ensures r.Ok? ==> addrs == FirstQueue(queue, world, course.read)
      ensures r.Ok? ==> run == [] && Snapshot() == Requeued(old(Snapshot()))
    {
      QueueLeft(queue, world, course, collected, addrs);
      var done := TryFinalizeInitialAddrs(collected, minAddress);
      return if done then Ok(()) else Err(NoBootstrapPeersFound);
    }

    /** What the collection loop of `new`, begun in `start`, has gathered so far. */
    ghost predicate Gathered(collected: seq<Multiaddr>, start: State)
      reads this
    {
      && Valid() && events == [] && ongoing == {} && AddrsOf(log.taken) == collected
      && origin == start && Fresh(start) && |start.addrs| < MIN_INITIAL_ADDRS && log.initial == start.addrs
    }

    ghost predicate Collecting(pauses: nat -> nat, collected: seq<Multiaddr>, waits: nat, start: State)
      reads this
    {
      && Gathered(collected, start) && |collected| < MIN_INITIAL_ADDRS
      && Waits() == waits && OnTime(pauses, waits)
    }

    /** An address was at hand, so no task is running. */
    lemma NoTaskRuns(collected: seq<Multiaddr>, start: State)
      requires Gathered(collected, start) && collected != []
      requires run != [] && Reached(setup, origin, Front(run), PutBack(Snapshot()))
      ensures tasks == []
    {
      QueuedMeansIdle(setup, start, Front(run), PutBack(Snapshot()));
    }

    lemma EnoughGathered(pauses: nat -> nat, collected: seq<Multiaddr>, waits: nat, start: State)
      returns (course: Course)
      requires Gathered(collected, start) && |collected| == MIN_INITIAL_ADDRS
      requires run != [] && Reached(setup, origin, Front(run), PutBack(Snapshot()))
      requires tasks == [] && Waits() == waits && OnTime(pauses, waits)
      ensures Closed(setup, world, pauses, start.addrs, Snapshot(), course)
    {
      course := EndEnough(setup, world, pauses, start, Front(run), Snapshot(), missed, waits);
    }

    lemma TimeIsOver(pauses: nat -> nat, collected: seq<Multiaddr>, waits: nat, start: State)
      returns (course: Course)
      requires Gathered(collected, start) && |collected| < MIN_INITIAL_ADDRS
      requires Awaiting(Snapshot()) && (missed > 0 || tasks[0].Endpoint?)
      requires Waits() == waits + 1 && OnTime(pauses, waits) && Late(pauses, waits)
      ensures Closed(setup, world, pauses, start.addrs, Snapshot(), course)
    {
      course := EndLate(setup, world, pauses, start, run, Snapshot(), missed, waits);
    }

    lemma SourcesAreSpent(pauses: nat -> nat, collected: seq<Multiaddr>, waits: nat, start: State)
      returns (course: Course)
      requires Gathered(collected, start) && |collected| < MIN_INITIAL_ADDRS
      requires Exhausted(Snapshot()) && Waits() == waits && OnTime(pauses, waits)
      ensures Closed(setup, world, pauses, start.addrs, Snapshot(), course)
    {
      course := EndExhausted(setup, world, pauses, start, run, Snapshot(), missed, waits);
    }

    /** Polls for an address, and if there is none looks at the clock. Either the loop has collected one more
        address or has slept once more, or it has taken its course. */
    method CollectNext(pauses: nat -> nat, collected: seq<Multiaddr>, elapsed: nat, waits: nat, ghost start: State)
      returns (done: bool, collected': seq<Multiaddr>, elapsed': nat, waits': nat, ghost course: Course)
      requires Collecting(pauses, collected, waits, start) && elapsed == Slept(pauses, waits)
      modifies this`addrs, this`peerIds, this`cachePending, this`contacts, this`inProgress, this`events, this`tasks,
               this`spawned, this`missed, this`log, this`run
      ensures Gathered(collected', start)
      ensures !done ==> Collecting(pauses, collected', waits', start) && elapsed' == Slept(pauses, waits')
      ensures !done ==> || (|collected'| == |collected| + 1 && elapsed' == elapsed)
                        || (collected' == collected && elapsed < elapsed' <= DEADLINE_MS)
      ensures done ==> Closed(setup, world, pauses, start.addrs, Snapshot(), course)
    {
      done, collected', elapsed', waits', course := true, collected, elapsed, waits, Course(0, 0, false);
      ghost var taken := log.taken;
      var next := NextAddr();
      if next.Ok? && next.value.Some? {
        collected' := collected + [next.value.value];
        AddrsOfSnoc(taken, Taken(next.value.value, Handed));
        NoTaskRuns(collected', start);
        if |collected'| < MIN_INITIAL_ADDRS {
          done := false;
        } else {
          course := EnoughGathered(pauses, collected', waits, start);
        }
      } else if next.Ok? {
        if elapsed + pauses(waits) <= INITIAL_ADDR_FETCH_TIMEOUT_MS {
          elapsed', waits' := elapsed + pauses(waits) + POLL_INTERVAL_MS, waits + 1;
          done := false;
        } else {
          course := TimeIsOver(pauses, collected, waits, start);
        }
      } else {
        course := SourcesAreSpent(pauses, collected, waits, start);
      }
    }

    /**
     The collection loop of `new`: it takes the course its surroundings determine. It fails exactly if no
     address was configured and none arrived; otherwise the queue holds everything that arrived.
     */
    method FillInitialQueue(pauses: nat -> nat)
      returns (r: Result<(), Error>, ghost course: Course, ghost construction: seq<Action>)
      requires Valid() && run == [] && ongoing == {} && Fresh(Snapshot())
      modifies this`addrs, this`peerIds, this`cachePending, this`contacts, this`inProgress, this`events, this`tasks,
               this`spawned, this`missed, this`log, this`run, this`origin
      ensures Valid()
      ensures Took(old(addrs), world, setup.sources, pauses, course)
      ensures r == if Supply(old(addrs), world, course.read) == [] then Err(NoBootstrapPeersFound) else Ok(())
      ensures r.Ok? ==> addrs == FirstQueue(old(addrs), world, course.read)
      ensures r.Ok? ==> run == [] && |log.started| == FetchesStarted(course) && log.readCount == course.read
      ensures r.Ok? ==> Snapshot() == if old(|addrs|) >= MIN_INITIAL_ADDRS then old(Snapshot())
                                      else Requeued(After(setup, old(Snapshot()), construction))
    {
      construction := [];
      if |addrs| >= MIN_INITIAL_ADDRS {
        return Ok(()), Course(0, 0, false), construction;
      }
      ghost var start := Snapshot();
      ReachedInv(setup, origin, run, start);
      var collected: seq<Multiaddr>, elapsed: nat, waits: nat := [], 0, 0;
      while true
        invariant Collecting(pauses, collected, waits, start)
        invariant elapsed == Slept(pauses, waits) <= DEADLINE_MS
        decreases MIN_INITIAL_ADDRS - |collected|, DEADLINE_MS - elapsed
      {
        var done;
        done, collected, elapsed, waits, course := CollectNext(pauses, collected, elapsed, waits, start);
        if done {
          construction := run;
          ReachedInv(setup, origin, run, Snapshot());
          r := Conclude(collected, CollectedAtLeast(collected), start.addrs, course);
          return;
        }
      }
    }

    /** Crafts and queues the addresses that are well-formed. */
    static method QueueCrafted(queue: seq<Multiaddr>, known: set<PeerId>, candidates: seq<Multiaddr>)
      returns (queue': seq<Multiaddr>, known': set<PeerId>)
      requires known == PeerIdsIn(queue)
      ensures queue' == queue + CraftAll(candidates)
      ensures known' == PeerIdsIn(queue')
    {
      queue', known' := queue, known;
      for i := 0 to |candidates|
        invariant queue' == queue + CraftAll(candidates[..i])
        invariant known' == PeerIdsIn(queue')
      {
        assert Front(candidates[..i + 1]) == candidates[..i];
        var crafted := CraftValidMultiaddr(candidates[i], false);
        if crafted.Some? {
          var id := GetPeerId(crafted.value);
          PeerIdsInConcat(queue', [crafted.value]);
          if id.Some? {
            known' := known' + {id.value};
          }
          queue' := queue' + [crafted.value];
        }
      }
      assert candidates[..|candidates|] == candidates;
    }

    /** The queue `new` begins with: ANT_PEERS first, then the configured peers. */
    static method ConfiguredQueue(config: BootstrapConfig, host: Host)
      returns (queue: seq<Multiaddr>, known: set<PeerId>)
      ensures queue == InitialQueue(config, host) && known == PeerIdsIn(queue)
      ensures QueueMeant(config, host, queue)
    {
      queue, known := [], {};
      if !config.first {
        if !config.disableEnvPeers {
          queue, known := QueueCrafted(queue, known, host.antPeers);
        }
        queue, known := QueueCrafted(queue, known, config.initialPeers);
      }
      assert queue == InitialQueue(config, host);
      InitialQueueMeant(config, host);
    }

    /** `new` once its sources and its first queue are known. */
    static method Build(config: BootstrapConfig, contacts: Option<seq<Url>>, queue: seq<Multiaddr>, known: set<PeerId>,
                        world: World, pauses: nat -> nat)
      returns (r: Result<Bootstrap, Error>, ghost course: Course, ghost construction: seq<Action>)
      requires contacts != Some([]) && (config.first ==> contacts == None && queue == [])
      requires known == PeerIdsIn(queue)
      ensures r.Ok? ==> fresh(r.value) && r.value.Valid() && r.value.run == [] && r.value.ongoing == {}
      ensures r.Ok? ==> r.value.setup == SetupOf(config, contacts) && r.value.world == world
      ensures config.first ==> r.Ok? && FirstNode(r.value.Snapshot())
      ensures !config.first ==> Constructed(config, contacts, queue, world, pauses, course)
      ensures !config.first ==> (r.Err? <==> Supply(queue, world, course.read) == [])
      ensures !config.first && r.Ok? ==>
                && r.value.addrs == FirstQueue(queue, world, course.read) && !r.value.completed
                && |r.value.log.started| == FetchesStarted(course) && r.value.log.readCount == course.read
                && r.value.log.taken == [] && r.value.log.batches == []
                && r.value.Snapshot() == BuiltFrom(config, contacts, queue, construction)
      ensures r.Err? ==> r.error == NoBootstrapPeersFound
    {
      var bootstrap := new Bootstrap(config, contacts, queue, known, world);
      course, construction := Course(0, 0, false), [];
      if config.first {
        return Ok(bootstrap), course, construction;
      }
      var filled;
      filled, course, construction := bootstrap.FillInitialQueue(pauses);
      if filled.Err? {
        return Err(filled.error), course, construction;
      }
      return Ok(bootstrap), course, construction;
    }

    /**
     `new`. It fails on a malformed URL. A first node starts completed and inert. Any other node has taken
     the course its surroundings determine; it fails exactly if that has brought no address, and otherwise
     its queue holds all the addresses configured and fetched, each as often as it arrived, and its sources
     are used up from the front as far as the course says.
     */
    static method New(config: BootstrapConfig, host: Host, world: World, pauses: nat -> nat)
      returns (r: Result<Bootstrap, Error>, ghost course: Course, ghost construction: seq<Action>)
      ensures r == Err(FailedToParseUrl) <==> BuildContactsProgress(config, host).Err?
      ensures r == Err(FailedToParseUrl) <==> SomeUrlMalformed(config, host)
      ensures r.Ok? ==> SourcesMeant(config, host, r.value.setup.sources)
      ensures r.Ok? ==> && r.value.setup.maxDials == config.maxConcurrentDials
                        && r.value.setup.maxContacted == config.maxContactedPeersBeforeTermination
      ensures r.Ok? ==> fresh(r.value) && r.value.Valid() && r.value.run == [] && r.value.ongoing == {}
      ensures r.Ok? ==> r.value.setup == SetupOf(config, BuildContactsProgress(config, host).value)
      ensures config.first ==> r.Ok? && FirstNode(r.value.Snapshot())
      ensures QueueMeant(config, host, InitialQueue(config, host))
      ensures !config.first && BuildContactsProgress(config, host).Ok? ==>
                var contacts, queue := BuildContactsProgress(config, host).value, InitialQueue(config, host);
                && Constructed(config, contacts, queue, world, pauses, course)
                && (r == Err(NoBootstrapPeersFound) <==> Supply(queue, world, course.read) == [])
                && (r.Ok? <==> Supply(queue, world, course.read) != [])
                && (r.Ok? ==>
                      && r.value.addrs == FirstQueue(queue, world, course.read) && !r.value.completed
                      && r.value.log.started == r.value.setup.sources[..FetchesStarted(course)]
                      && (course.read == |r.value.setup.sources| ==> Spent(r.value.Snapshot()))
                      && r.value.Snapshot() == BuiltFrom(config, contacts, queue, construction))
    {
      ConfiguredSources(config, host);
      InitialQueueMeant(config, host);
      var contacts := BuildContactsProgress(config, host);
      if contacts.Err? {
        return Err(FailedToParseUrl), Course(0, 0, false), [];
      }
      var queue, known := ConfiguredQueue(config, host);
      r, course, construction := Build(config, contacts.value, queue, known, world, pauses);
      if r.Ok? {
        r.value.Invariant();
        assert r.value.log.started <= r.value.setup.sources;
        if !config.first && course.read == |r.value.setup.sources| {
          SpentWhenAllRead(r.value.setup, r.value.Snapshot());
        }
      }
    }

    // -------------------------------------------------------------- dialer

    /** As `NextAddr`, and exhaustion also completes the process. */
    method TryNextDialAddr() returns (r: Result<Option<Multiaddr>, Error>)
      requires Valid()
      modifies this`addrs, this`peerIds, this`cachePending, this`contacts, this`inProgress, this`events, this`tasks,
               this`spawned, this`missed, this`log, this`run, this`completed
      ensures Valid() && old(run) <= run && events == []
      ensures log.taken == old(log.taken) + if r.Ok? && r.value.Some? then [Taken(r.value.value, Handed)] else []
      ensures r == Ok(None) ==> Awaiting(Snapshot())
      ensures r.Err? <==> Exhausted(Snapshot()) && log.taken == old(log.taken)
      ensures completed == (old(completed) || r.Err?)
      ensures r.Ok? && r.value.Some? ==> LessWork(Snapshot(), old(Snapshot()))
    {
      r := NextAddr();
      if r.Err? {
        ghost var before := Snapshot();
        completed := true;
        Record(Exhaust, before);
      }
    }

    method HasBootstrapCompleted(contacted: nat) returns (r: bool)
      ensures r == HasCompleted(setup, Snapshot(), contacted)
      ensures r <==> || completed || contacted >= setup.maxContacted
                     || (addrs == [] && !cachePending && contacts.None? && inProgress.None?)
    {
      if completed {
        return true;
      }
      if contacted >= setup.maxContacted {
        return true;
      }
      if addrs == [] && !cachePending && contacts.None? && inProgress.None? {
        return true;
      }
      return false;
    }

    /** Dials the address just handed out; the swarm may refuse it for any reason. */
    method DialOne(addr: Multiaddr) returns (accepted: bool)
      requires Valid() && !completed && |ongoing| < setup.maxDials
      requires log.taken != [] && Last(log.taken) == Taken(addr, Handed)
      modifies this`ongoing, this`log, this`run
      ensures Valid() && run == old(run) + [DialHanded(accepted)]
      ensures log.taken == Front(old(log.taken)) + [Taken(addr, Dialed(accepted))]
      ensures ongoing == if accepted then old(ongoing) + {addr} else old(ongoing)
    {
      ghost var before := Snapshot();
      var request;
      accepted, request := RequestDial(addr);
      if accepted {
        ongoing := ongoing + {addr};
      }
      log := log.(taken := Front(log.taken) + [Taken(addr, Dialed(accepted))]);
      assert Snapshot() == HandedDialled(before, accepted);
      Record(DialHanded(accepted), before);
    }

    method FinishProcess(ghost contacted: nat)
      requires Valid() && HasCompleted(setup, Snapshot(), contacted)
      modifies this`addrs, this`ongoing, this`completed, this`log, this`run
      ensures Valid() && run == old(run) + [Finish(contacted)]
      ensures completed && addrs == [] && ongoing == {}
    {
      ghost var before := Snapshot();
      log := log.(taken := log.taken + ClearedAll(addrs));
      completed := true;
      addrs := [];
      ongoing := {};
      Record(Finish(contacted), before);
    }

    /** Takes and dials one address, if one is at hand. */
    method DialNext() returns (taken: Option<Taken>)
      requires Valid() && !completed && |ongoing| < setup.maxDials
      modifies this`addrs, this`peerIds, this`cachePending, this`contacts, this`inProgress, this`events, this`tasks,
               this`spawned, this`missed, this`log, this`run, this`completed, this`ongoing
      ensures Valid() && old(run) <= run
      ensures taken.Some? ==>
                && taken.value.fate.Dialed? && !completed
                && log.taken == old(log.taken) + [taken.value]
                && ongoing == old(ongoing) + AcceptedIn([taken.value])
                && LessWork(Snapshot(), old(Snapshot()))
      ensures taken.None? ==>
                && log.taken == old(log.taken) && ongoing == old(ongoing)
                && (completed <==> Exhausted(Snapshot())) && (!completed ==> Awaiting(Snapshot()))
    {
      ghost var before := log.taken;
      var r := TryNextDialAddr();
      if r.Err? || r.value.None? {
        FetchInvariant();
        return None;
      }
      var addr := r.value.value;
      FrontSnoc(before, Taken(addr, Handed));
      var accepted := DialOne(addr);
      AcceptedInOne(Taken(addr, Dialed(accepted)));
      return Some(Taken(addr, Dialed(accepted)));
    }

    /** Dials until the slots are full or no address is at hand. */
    method DialWhileSlotsFree()
      requires Valid() && !completed
      modifies this`addrs, this`peerIds, this`cachePending, this`contacts, this`inProgress, this`events, this`tasks,
               this`spawned, this`missed, this`log, this`run, this`completed, this`ongoing
      ensures Valid() && old(run) <= run
      ensures DialledSince(old(log.taken), log.taken, old(ongoing), ongoing)
      ensures completed <==> Exhausted(Snapshot()) && |ongoing| < setup.maxDials
      ensures !completed ==> |ongoing| >= setup.maxDials || Awaiting(Snapshot())
      ensures old(|ongoing|) >= setup.maxDials ==> Snapshot() == old(Snapshot())
    {
      assert log.taken[|log.taken|..] == [];
      while |ongoing| < setup.maxDials
        invariant Valid() && old(run) <= run && !completed
        invariant DialledSince(old(log.taken), log.taken, old(ongoing), ongoing)
        invariant old(|ongoing|) >= setup.maxDials ==> Snapshot() == old(Snapshot())
        decreases SourcesLeft(Snapshot()), |tasks| + |events|, |addrs|
      {
        ghost var takenBefore, ongoingBefore := log.taken, ongoing;
        var next := DialNext();
        if next.None? {
          break;
        }
        DialledSinceSnoc(old(log.taken), takenBefore, old(ongoing), ongoingBefore, next.value);
      }
    }

    /**
     One poll of the dialer. It reports completion; if it reports none, either all slots are taken or a
     task is running whose event a later poll will find. Every address it took was dialled, in order. On a
     blocked node it does nothing.
     */
    method TriggerBootstrappingProcess(contacted: nat) returns (done: bool)
      requires Valid()
      modifies this`addrs, this`peerIds, this`cachePending, this`contacts, this`inProgress, this`events, this`tasks,
               this`spawned, this`missed, this`log, this`run, this`completed, this`ongoing
      ensures Valid() && old(run) <= run
      ensures done == completed
      ensures old(HasCompleted(setup, Snapshot(), contacted)) ==>
                done && addrs == [] && ongoing == {} && run == old(run) + [Finish(contacted)]
      ensures !old(HasCompleted(setup, Snapshot(), contacted)) ==>
                && DialledSince(old(log.taken), log.taken, old(ongoing), ongoing)
                && (done <==> Exhausted(Snapshot()) && |ongoing| < setup.maxDials)
      ensures !done ==> |ongoing| >= setup.maxDials || Awaiting(Snapshot())
      ensures old(Blocked(setup, Snapshot())) && contacted < setup.maxContacted ==>
                !done && Snapshot() == old(Snapshot())
      ensures old(completed) || contacted >= setup.maxContacted ==> done && addrs == [] && ongoing == {}
      ensures old(addrs == [] && !cachePending && contacts.None? && inProgress.None?) ==>
                done && addrs == [] && ongoing == {}
      ensures !old(completed) && contacted < setup.maxContacted && old(addrs) != [] ==>
                && old(ongoing) <= ongoing
                && KeptInOrder(old(log.taken), old(addrs), log.taken, addrs)
    {
      ghost var before, runBefore := Snapshot(), run;
      done := HasBootstrapCompleted(contacted);
      if done {
        FinishProcess(contacted);
      } else {
        DialWhileSlotsFree();
        done := completed;
        ReachedLater(setup, origin, runBefore, before, run, Snapshot());
        NothingCleared(setup, before, run[|runBefore|..], Snapshot());
      }
    }

    method OnConnectionEstablished(peer: PeerId, dialled: Option<Multiaddr>)
      requires Valid()
      modifies this`ongoing, this`run
      ensures Valid() && run == old(run) + [Established(dialled, peer)]
      ensures ongoing == if completed then old(ongoing) else OngoingAfterEstablished(old(ongoing), dialled, peer)
      ensures completed || dialled.None? ==> ongoing == old(ongoing)
      ensures !completed && dialled.Some? && dialled.value in old(ongoing) ==>
                forall a :: a in ongoing <==> a in old(ongoing) && a != dialled.value
      ensures !completed && dialled.Some? && dialled.value !in old(ongoing) ==>
                forall a :: a in ongoing <==> a in old(ongoing) && GetPeerId(a) != Some(peer)
    {
      ghost var before := Snapshot();
      if !completed && dialled.Some? {
        if dialled.value in ongoing {
          ongoing := ongoing - {dialled.value};
        } else {
          ongoing := set a | a in ongoing && GetPeerId(a) != Some(peer);
        }
      }
      Record(Established(dialled, peer), before);
    }

    method OnOutgoingConnectionError(failed: Option<PeerId>)
      requires Valid()
      modifies this`ongoing, this`run
      ensures Valid() && run == old(run) + [DialFailed(failed)]
      ensures ongoing == if completed then old(ongoing) else OngoingAfterFailure(old(ongoing), failed)
      ensures forall a :: a in ongoing <==> a in old(ongoing) && (completed || GetPeerId(a) != failed)
    {
      ghost var before := Snapshot();
      if !completed {
        match failed {
          case Some(id) =>
            ongoing := set a | a in ongoing && (GetPeerId(a).Some? ==> GetPeerId(a).value != id);
          case None =>
            ongoing := set a | a in ongoing && GetPeerId(a).Some?;
        }
      }
      Record(DialFailed(failed), before);
    }
  }

  /** How a dial is addressed: to a known peer, or to whoever answers. */
  datatype DialOpts = PeerDial(peer: PeerId, address: Multiaddr) | UnknownPeerDial(address: Multiaddr)

  function DialTarget(opts: DialOpts): Multiaddr
  {
    opts.address + if opts.PeerDial? then [P2p(opts.peer)] else []
  }

  function DialledPeer(opts: DialOpts): Option<PeerId>
  {
    if opts.PeerDial? then Some(opts.peer) else None
  }

  /** Asks the swarm for a dial. The request names the peer a failure will be reported for, and together
      with it the whole address. */
  method RequestDial(addr: Multiaddr) returns (accepted: bool, request: DialOpts)
    ensures DialTarget(request) == addr
    ensures DialledPeer(request) == PopP2p(addr).0
  {
    var (peerId, rest) := PopP2p(addr);
    request := match peerId { case Some(id) => PeerDial(id, rest) case None => UnknownPeerDial(rest) };
    accepted := SwarmDial(request);
  }

  method SwarmDial(opts: DialOpts) returns (accepted: bool)
  {
    accepted := *;
  }

  /** The addresses whose dial the swarm accepted. */
  function AcceptedIn(taken: seq<Taken>): set<Multiaddr>
  {
    if taken == [] then {}
    else AcceptedIn(Front(taken)) + if Last(taken).fate == Dialed(true) then {Last(taken).addr} else {}
  }

  lemma AcceptedInOne(t: Taken)
    ensures AcceptedIn([t]) == if t.fate == Dialed(true) then {t.addr} else {}
  {
    assert Front([t]) == [];
  }

  lemma FrontSnoc(taken: seq<Taken>, t: Taken)
    ensures Front(taken + [t]) == taken && Last(taken + [t]) == t
  {
  }

  /** Of the addresses queued before none was dropped: those no longer queued were taken and dialled, in order. */
  predicate KeptInOrder(taken0: seq<Taken>, addrs0: seq<Multiaddr>, taken: seq<Taken>, addrs: seq<Multiaddr>)
  {
    && taken0 <= taken && (forall i | |taken0| <= i < |taken| :: taken[i].fate.Dialed?)
    && addrs0 <= AddrsOf(taken[|taken0|..]) + addrs
  }

  lemma {:induction false} AllDialled(taken: seq<Taken>)
    requires DialLog(taken) == AddrsOf(taken)
    ensures forall i | 0 <= i < |taken| :: taken[i].fate.Dialed?
  {
    if taken != [] {
      DialLogSize(Front(taken));
      assert |DialLog(taken)| == |taken|;
      assert DialLog(taken) == DialLog(Front(taken)) + [Last(taken).addr];
      assert DialLog(Front(taken)) == AddrsOf(taken)[..|taken| - 1] == AddrsOf(Front(taken));
      AllDialled(Front(taken));
    }
  }

  lemma NothingCleared(c: Setup, s: State, run: seq<Action>, t: State)
    requires Inv(c, s) && t == After(c, s, run) && DialledSince(s.log.taken, t.log.taken, s.ongoing, t.ongoing)
    ensures KeptInOrder(s.log.taken, s.addrs, t.log.taken, t.addrs)
  {
    InvAfter(c, s, run);
    SupplyOnlyGrows(c, s, run);
    AllDialled(t.log.taken[|s.log.taken|..]);
    QueueKept(s.log.taken, s.addrs, t.log.taken, t.addrs);
    forall i | |s.log.taken| <= i < |t.log.taken| ensures t.log.taken[i].fate.Dialed? {
      assert t.log.taken[i] == t.log.taken[|s.log.taken|..][i - |s.log.taken|];
    }
  }

  lemma QueueKept(taken0: seq<Taken>, addrs0: seq<Multiaddr>, taken: seq<Taken>, addrs: seq<Multiaddr>)
    requires taken0 <= taken && AddrsOf(taken0) + addrs0 <= AddrsOf(taken) + addrs
    ensures addrs0 <= AddrsOf(taken[|taken0|..]) + addrs
  {
    var more := taken[|taken0|..];
    assert AddrsOf(taken) == AddrsOf(taken0) + AddrsOf(more);
    assert AddrsOf(taken) + addrs == AddrsOf(taken0) + (AddrsOf(more) + addrs);
    assert (AddrsOf(taken) + addrs)[|taken0|..] == AddrsOf(more) + addrs;
    assert (AddrsOf(taken0) + addrs0)[|taken0|..] == addrs0;
  }

  /** Between two moments every address taken from the queue was dialled, and the dials open are those
      open before and the ones the swarm accepted. */
  predicate DialledSince(taken0: seq<Taken>, taken: seq<Taken>, ongoing0: set<Multiaddr>, ongoing: set<Multiaddr>)
  {
    && taken0 <= taken
    && DialLog(taken[|taken0|..]) == AddrsOf(taken[|taken0|..])
    && ongoing == ongoing0 + AcceptedIn(taken[|taken0|..])
  }

  lemma DialledSinceSnoc(taken0: seq<Taken>, taken: seq<Taken>, ongoing0: set<Multiaddr>, ongoing: set<Multiaddr>,
                         t: Taken)
    requires DialledSince(taken0, taken, ongoing0, ongoing) && t.fate.Dialed?
    ensures DialledSince(taken0, taken + [t], ongoing0, ongoing + AcceptedIn([t]))
  {
    var more := (taken + [t])[|taken0|..];
    assert Front(more) == taken[|taken0|..] && Last(more) == t;
    assert AddrsOf(more) == AddrsOf(Front(more)) + [t.addr];
    assert Front([t]) == [];
  }

  /** A local node with one dial slot and no configured address, whose cache delivers `a` and `b`: if the two
      readings of the peer id differ on `a`, the node `new` returns can be called for ever, with the failure of
      every dial reported, and never completes. */
  method BlockedFromTheStart(config: BootstrapConfig, host: Host, world: World, pauses: nat -> nat,
                             a: Multiaddr, b: Multiaddr)
    returns (node: Bootstrap, ghost schedule: nat -> Action)
    requires !config.first && config.local && !config.disableCacheReading && InitialQueue(config, host) == []
    requires config.maxConcurrentDials == 1 && config.maxContactedPeersBeforeTermination > 0
    requires world.batch(0) == [a, b] && world.delay(0) == 0 && !IdsAgree(a)
    ensures fresh(node) && node.Valid() && node.addrs == [a, b]
    ensures NeverDone(node.setup, node.Snapshot(), schedule)
  {
    var r, course, construction := Bootstrap.New(config, host, world, pauses);
    assert course == Course(1, 0, false) && FirstQueue([], world, 1) == [a, b] by {
      assert SetupOf(config, None).sources == [CacheFile];
      CacheDeliversTwo(world, pauses, a, b);
      CourseUnique([], world, [CacheFile], pauses, course, Course(1, 0, false));
    }
    assert Supply([], world, 1) == [a, b];
    node := r.value;
    node.FetchInvariant();
    schedule := TwoBlock(node.setup, node.Snapshot(), a, b);
  }

  lemma TwoBlock(c: Setup, s: State, a: Multiaddr, b: Multiaddr) returns (schedule: nat -> Action)
    requires FetchInv(s) && Spent(s) && s.addrs == [a, b] && !IdsAgree(a)
    requires c.maxDials == 1 && c.maxContacted > 0
    ensures NeverDone(c, s, schedule)
  {
    var pos: map<Multiaddr, nat> := map[a := 0];
    assert pos.Keys == {a};
    schedule := LeakBlocksForEver(c, s, pos, false);
  }
}
