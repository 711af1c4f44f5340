/**
 How `Bootstrap::new` fills its first queue, as far as it depends on the surroundings:
 what each fetch task delivers and when, and how much time passes between two looks at
 the clock. The course of the collection loop is determined by these answers.
 */
module Construction {
  import opened Wrappers
  import opened Addresses
  import opened BootstrapMachine
  import opened BootstrapRuns

  const MIN_INITIAL_ADDRS: nat := 5
  const INITIAL_ADDR_FETCH_TIMEOUT_MS: nat := 30_000
  const POLL_INTERVAL_MS: nat := 100

  /** No sleep ends later than this. */
  const DEADLINE_MS: nat := INITIAL_ADDR_FETCH_TIMEOUT_MS + POLL_INTERVAL_MS

  /** What the fetch tasks do: the batch the k-th one delivers, and how many polls of the event channel
      it lets pass before. */
  datatype World = World(batch: nat -> seq<Multiaddr>, delay: nat -> nat)

  // ---------------------------------------------------------------- what arrives

  /** The addresses configured, then those of the first `n` fetches, in order of arrival. */
  function Supply(queue: seq<Multiaddr>, w: World, n: nat): seq<Multiaddr>
  {
    if n == 0 then queue else Supply(queue, w, n - 1) + w.batch(n - 1)
  }

  lemma {:induction false} SupplyGrows(queue: seq<Multiaddr>, w: World, m: nat, n: nat)
    requires m <= n
    ensures Supply(queue, w, m) <= Supply(queue, w, n)
    decreases n - m
  {
    if m < n {
      SupplyGrows(queue, w, m, n - 1);
    }
  }

  lemma {:induction false} SupplyIsRead(queue: seq<Multiaddr>, w: World, batches: seq<seq<Multiaddr>>)
    requires forall i | 0 <= i < |batches| :: batches[i] == w.batch(i)
    ensures queue + Flatten(batches) == Supply(queue, w, |batches|)
  {
    if batches == [] {
      assert queue + Flatten(batches) == queue;
    } else {
      SupplyIsRead(queue, w, Front(batches));
      assert queue + Flatten(batches) == (queue + Flatten(Front(batches))) + Last(batches);
    }
  }

  function Rotated<T>(s: seq<T>, k: nat): seq<T>
    requires k <= |s|
  {
    s[k..] + s[..k]
  }

  /** The queue `new` leaves behind if it has read `n` fetches: a configured queue that is long enough as
      it is, or else everything that arrived, with the addresses collected from the front put back last. */
  function FirstQueue(queue: seq<Multiaddr>, w: World, n: nat): seq<Multiaddr>
  {
    var all := Supply(queue, w, n);
    if |queue| >= MIN_INITIAL_ADDRS then queue
    else Rotated(all, if |all| < MIN_INITIAL_ADDRS then |all| else MIN_INITIAL_ADDRS)
  }

  // ---------------------------------------------------------------- when it arrives

  /** How often the loop has to wait before the first `n` fetches are read: until a delivery is found, and
      once more behind an endpoint fetch, after whose start the channel is not polled at once. */
  function WaitsBefore(w: World, sources: seq<Source>, n: nat): nat
  {
    if n == 0 then 0
    else WaitsBefore(w, sources, n - 1) + w.delay(n - 1) + if n <= |sources| && sources[n - 1].Endpoint? then 1 else 0
  }

  lemma {:induction false} WaitsBeforeGrows(w: World, sources: seq<Source>, m: nat, n: nat)
    requires m <= n
    ensures WaitsBefore(w, sources, m) <= WaitsBefore(w, sources, n)
    decreases n - m
  {
    if m < n {
      WaitsBeforeGrows(w, sources, m, n - 1);
    }
  }

  /** The time slept and spent elsewhere before the i-th look at the clock, less the last stretch. */
  function Slept(pauses: nat -> nat, i: nat): nat
  {
    if i == 0 then 0 else Slept(pauses, i - 1) + pauses(i - 1) + POLL_INTERVAL_MS
  }

  /** The i-th look at the clock finds the deadline over. */
  predicate Late(pauses: nat -> nat, i: nat)
  {
    Slept(pauses, i) + pauses(i) > INITIAL_ADDR_FETCH_TIMEOUT_MS
  }

  /** None of the first `n` looks at the clock finds the deadline over. */
  predicate OnTime(pauses: nat -> nat, n: nat)
  {
    forall i | 0 <= i < n :: !Late(pauses, i)
  }

  // ---------------------------------------------------------------- the course of the loop

  /** How the loop went: the fetches read, the waits, and whether the deadline ended it. */
  datatype Course = Course(read: nat, waits: nat, timedOut: bool)

  /** There are enough addresses after `n` fetches, or no more sources. */
  predicate Suffices(queue: seq<Multiaddr>, w: World, sources: seq<Source>, n: nat)
  {
    |Supply(queue, w, n)| >= MIN_INITIAL_ADDRS || n == |sources|
  }

  /** `n` is the number of fetches it takes. */
  predicate Needed(queue: seq<Multiaddr>, w: World, sources: seq<Source>, n: nat)
  {
    && n <= |sources| && Suffices(queue, w, sources, n)
    && (forall m | 0 <= m < n :: !Suffices(queue, w, sources, m))
  }

  /**
   The course taken: no fetch was made that was not needed and no look at the clock but the last found the
   deadline over. Either the fetches read suffice and the waits are those they take, or the deadline was
   found over while waiting for the next one.
   */
  predicate Took(queue: seq<Multiaddr>, w: World, sources: seq<Source>, pauses: nat -> nat, course: Course)
  {
    && course.read <= |sources|
    && (forall m | 0 <= m < course.read :: !Suffices(queue, w, sources, m))
    && OnTime(pauses, course.waits)
    && if course.timedOut then
         && !Suffices(queue, w, sources, course.read) && Late(pauses, course.waits)
         && WaitsBefore(w, sources, course.read) <= course.waits < WaitsBefore(w, sources, course.read + 1)
       else
         Suffices(queue, w, sources, course.read) && course.waits == WaitsBefore(w, sources, course.read)
  }

  /** The surroundings determine the course. It times out exactly when one of the looks at the clock during
      the waits the needed fetches take is late; otherwise exactly the needed fetches are read. */
  lemma CourseDetermined(queue: seq<Multiaddr>, w: World, sources: seq<Source>, pauses: nat -> nat,
                         course: Course, n: nat)
    requires Took(queue, w, sources, pauses, course) && Needed(queue, w, sources, n)
    ensures course.timedOut <==> exists i :: 0 <= i < WaitsBefore(w, sources, n) && Late(pauses, i)
    ensures if course.timedOut then course.read < n else course.read == n
  {
    if course.timedOut {
      assert course.read < n;
      WaitsBeforeGrows(w, sources, course.read + 1, n);
    } else {
      assert course.read == n;
    }
  }

  lemma CourseUnique(queue: seq<Multiaddr>, w: World, sources: seq<Source>, pauses: nat -> nat,
                     course: Course, other: Course)
    requires Took(queue, w, sources, pauses, course) && Took(queue, w, sources, pauses, other)
    ensures course == other
  {
    if course.read < other.read {
      WaitsBeforeGrows(w, sources, course.read + 1, other.read);
    } else if other.read < course.read {
      WaitsBeforeGrows(w, sources, other.read + 1, course.read);
    }
  }

  /** The first queue holds every address configured and fetched, each as often as it arrived, and there are
      five of them unless the sources ran out or the deadline was over. */
  lemma FirstQueueLosesNothing(queue: seq<Multiaddr>, w: World, sources: seq<Source>, pauses: nat -> nat,
                               course: Course)
    requires Took(queue, w, sources, pauses, course)
    ensures multiset(FirstQueue(queue, w, course.read)) == multiset(Supply(queue, w, course.read))
    ensures |FirstQueue(queue, w, course.read)| >= 5 || course.timedOut || course.read == |sources|
  {
    var all := Supply(queue, w, course.read);
    if |queue| >= MIN_INITIAL_ADDRS {
      assert Suffices(queue, w, sources, 0);
    } else {
      var k := if |all| < MIN_INITIAL_ADDRS then |all| else MIN_INITIAL_ADDRS;
      assert all == all[..k] + all[k..];
    }
  }

  /** The order of the first queue: one of five or more configured addresses is as configured; otherwise the first
      five addresses that arrived, or all if there are fewer, come behind the others. */
  lemma FirstQueueOrder(queue: seq<Multiaddr>, w: World, n: nat)
    ensures |queue| >= 5 ==> FirstQueue(queue, w, n) == queue
    ensures |queue| < 5 ==>
              var first, all := FirstQueue(queue, w, n), Supply(queue, w, n);
              var k := if |all| < 5 then |all| else 5;
              && |first| == |all|
              && (forall i | k <= i < |all| :: first[i - k] == all[i])
              && (forall i | 0 <= i < k :: first[|all| - k + i] == all[i])
  {
  }

  /** What arrives: the configured addresses first, and each batch at its place behind the earlier ones. */
  lemma SupplyExactly(queue: seq<Multiaddr>, w: World, i: nat, n: nat)
    requires i < n
    ensures Supply(queue, w, 0) == queue
    ensures var before, after := |Supply(queue, w, i)|, |Supply(queue, w, i + 1)|;
            before <= after <= |Supply(queue, w, n)| && Supply(queue, w, n)[before..after] == w.batch(i)
  {
    SupplyGrows(queue, w, i + 1, n);
  }

  function Total(pauses: nat -> nat, n: nat): nat
  {
    if n == 0 then 0 else Total(pauses, n - 1) + pauses(n - 1)
  }

  /** The i-th look at the clock is late if the pauses so far and the sleeps of 100 ms before it exceed 30 s. */
  lemma LateExactly(pauses: nat -> nat, i: nat)
    ensures Late(pauses, i) <==> Total(pauses, i + 1) + 100 * i > 30_000
  {
    SleptExactly(pauses, i);
  }

  lemma {:induction false} SleptExactly(pauses: nat -> nat, i: nat)
    ensures Slept(pauses, i) == Total(pauses, i) + 100 * i
  {
    if i > 0 {
      SleptExactly(pauses, i - 1);
    }
  }

  /** A node that has no address configured and whose cache delivers two finds just these in its queue, its
      only source being spent. */
  lemma CacheDeliversTwo(w: World, pauses: nat -> nat, a: Multiaddr, b: Multiaddr)
    requires w.batch(0) == [a, b] && w.delay(0) == 0
    ensures Took([], w, [CacheFile], pauses, Course(1, 0, false)) && FirstQueue([], w, 1) == [a, b]
  {
    assert Supply([], w, 0) == [] && Supply([], w, 1) == [a, b];
    assert WaitsBefore(w, [CacheFile], 1) == 0;
  }

  // ---------------------------------------------------------------- fetches are needed

  /** No address is queued while a fetch is outstanding, and each fetch was started after all addresses of
      the ones before it had been taken. */
  predicate ThirstInv(s: State)
  {
    && (s.inProgress.Some? ==> s.addrs == [])
    && s.log.readCount == |s.log.batches|
    && (forall j | 0 <= j < |s.log.started| :: TakenUpTo(s.log, j))
  }

  predicate TakenUpTo(log: Log, j: nat)
  {
    j <= |log.batches| && |log.initial| + |Flatten(log.batches[..j])| <= |log.taken|
  }

  lemma TakenUpToGrows(log: Log, log': Log, j: nat)
    requires TakenUpTo(log, j)
    requires log.initial == log'.initial && log.batches <= log'.batches && |log.taken| <= |log'.taken|
    ensures TakenUpTo(log', j)
  {
    assert log.batches[..j] == log'.batches[..j];
  }

  lemma ThirstNext(c: Setup, s: State, a: Action)
    requires FetchInv(s) && FlowInv(s) && ThirstInv(s)
    ensures ThirstInv(Next(c, s, a))
  {
    var t := Next(c, s, a);
    LogGrows(c, s, a);
    forall j | 0 <= j < |t.log.started| ensures TakenUpTo(t.log, j) {
      if j < |s.log.started| {
        TakenUpToGrows(s.log, t.log, j);
      } else {
        FetchStartsOnlyWhenDrained(c, s, a);
        assert s.log.batches[..j] == s.log.batches;
        assert |AddrsOf(s.log.taken) + s.addrs| == |Supplied(s)|;
      }
    }
  }

  lemma LogGrows(c: Setup, s: State, a: Action)
    ensures var t := Next(c, s, a);
            && s.log.initial == t.log.initial && s.log.batches <= t.log.batches && |s.log.taken| <= |t.log.taken|
  {
  }

  predicate Fresh(s: State)
  {
    s.inProgress.None? && s.log == Log(s.addrs, [], [], [], 0)
  }

  /** Along every run of a fresh object a fetch is started only when it is needed. */
  lemma {:induction false} FetchedOnlyWhenNeeded(c: Setup, s: State, run: seq<Action>)
    requires Inv(c, s) && Fresh(s)
    ensures ThirstInv(After(c, s, run))
  {
    if run != [] {
      FetchedOnlyWhenNeeded(c, s, Front(run));
      InvAfter(c, s, Front(run));
      ThirstNext(c, After(c, s, Front(run)), Last(run));
    }
  }

  // ---------------------------------------------------------------- what the world said

  /** The history so far as the world has a say in it. */
  datatype Heard = Heard(batches: seq<seq<Multiaddr>>, readCount: nat, events: seq<FetchEvent>, running: bool,
                         spawned: nat, missed: nat)

  /** The batches read and the events unread are what the world had the fetches deliver, in order, and the
      running task has not been kept longer than it said. */
  predicate SaidBy(w: World, h: Heard)
  {
    && |h.batches| <= h.readCount
    && (forall i | 0 <= i < |h.batches| :: h.batches[i] == w.batch(h.readCount - |h.batches| + i))
    && (forall i | 0 <= i < |h.events| :: h.events[i].addrs == w.batch(h.readCount + i))
    && (h.running && h.spawned > 0 ==> h.missed <= w.delay(h.spawned - 1))
  }

  /** (The quantifier keeps the definition folded until it is needed.) */
  ghost predicate Attested(w: World, h: Heard)
  {
    forall g | g == h :: SaidBy(w, g)
  }

  lemma AttestedSays(w: World, h: Heard)
    ensures Attested(w, h) <==> SaidBy(w, h)
  {
  }

  lemma AttestedRead(w: World, h: Heard)
    requires Attested(w, h) && h.events != []
    ensures Attested(w, h.(batches := h.batches + [h.events[0].addrs], readCount := h.readCount + 1,
                           events := h.events[1..]))
  {
    AttestedSays(w, h);
  }

  lemma AttestedDelivered(w: World, h: Heard, kind: FetchKind)
    requires Attested(w, h) && h.running && h.spawned > 0 && h.spawned - 1 == h.readCount + |h.events|
    ensures h.missed <= w.delay(h.spawned - 1)
    ensures Attested(w, h.(running := false, events := h.events + [FetchEvent(kind, w.batch(h.spawned - 1))]))
  {
    AttestedSays(w, h);
  }

  lemma AttestedMissed(w: World, h: Heard)
    requires Attested(w, h) && h.spawned > 0 && h.missed < w.delay(h.spawned - 1)
    ensures Attested(w, h.(missed := h.missed + 1))
  {
    AttestedSays(w, h);
  }

  lemma AttestedSpawned(w: World, h: Heard)
    requires Attested(w, h)
    ensures Attested(w, h.(running := true, spawned := h.spawned + 1, missed := 0))
  {
    AttestedSays(w, h);
  }

  lemma AttestedReset(w: World, h: Heard)
    requires Attested(w, h) && h.events == []
    ensures Attested(w, h.(batches := []))
  {
    AttestedSays(w, h);
  }

  /** The waits a caller that waits whenever no address is at hand has made. */
  function WaitCount(w: World, sources: seq<Source>, spawned: nat, tasks: seq<Source>, missed: nat): nat
  {
    if tasks == [] || spawned == 0 then WaitsBefore(w, sources, spawned)
    else WaitsBefore(w, sources, spawned - 1) + missed + if tasks[0].Endpoint? then 1 else 0
  }

  // ---------------------------------------------------------------- how the loop ends

  /** The state before the last address was handed out. */
  function PutBack(s: State): State
    requires s.log.taken != []
  {
    s.(addrs := [Last(s.log.taken).addr] + s.addrs, log := s.log.(taken := Front(s.log.taken)))
  }

  /** The fetches started: those read, and the one the deadline left running. */
  function FetchesStarted(course: Course): nat
  {
    course.read + if course.timedOut then 1 else 0
  }

  function CollectedAtLeast(collected: seq<Multiaddr>): nat
  {
    if |collected| == MIN_INITIAL_ADDRS then MIN_INITIAL_ADDRS else 1
  }

  /** What the loop has collected and what is still queued is all that arrived, and what is queued was not
      needed. */
  predicate Concludes(queue: seq<Multiaddr>, w: World, course: Course, collected: seq<Multiaddr>, rest: seq<Multiaddr>)
  {
    && |queue| < MIN_INITIAL_ADDRS
    && collected + rest == Supply(queue, w, course.read)
    && |collected| <= MIN_INITIAL_ADDRS && (|collected| < MIN_INITIAL_ADDRS ==> rest == [])
  }

  lemma QueueLeft(queue: seq<Multiaddr>, w: World, course: Course, collected: seq<Multiaddr>, rest: seq<Multiaddr>)
    requires Concludes(queue, w, course, collected, rest)
    ensures rest + collected == FirstQueue(queue, w, course.read)
  {
  }

  function HeardIn(s: State, missed: nat): Heard
  {
    Heard(s.log.batches, s.log.readCount, s.events, s.tasks != [], |s.log.started|, missed)
  }

  /** The state is reached from a fresh one and its history is what the world said. */
  ghost predicate Tracked(c: Setup, w: World, start: State, run: seq<Action>, s: State, missed: nat)
  {
    && Fresh(start) && Reached(c, start, run, s) && s.log.initial == start.addrs
    && Attested(w, HeardIn(s, missed))
  }

  lemma QueuedMeansIdle(c: Setup, start: State, run: seq<Action>, s: State)
    requires Fresh(start) && Reached(c, start, run, s)
    ensures s.addrs != [] ==> s.tasks == [] && s.events == []
  {
    ReachedInv(c, start, run, s);
    FetchedOnlyWhenNeeded(c, start, run);
  }

  lemma SupplyUpTo(w: World, s: State, missed: nat, j: nat)
    requires Attested(w, HeardIn(s, missed)) && s.log.readCount == |s.log.batches| && j <= |s.log.batches|
    ensures s.log.initial + Flatten(s.log.batches[..j]) == Supply(s.log.initial, w, j)
  {
    AttestedSays(w, HeardIn(s, missed));
    SupplyIsRead(s.log.initial, w, s.log.batches[..j]);
  }

  lemma TrackedNeeds(c: Setup, w: World, start: State, run: seq<Action>, s: State, missed: nat)
    requires Tracked(c, w, start, run, s, missed)
    ensures s.log.readCount == |s.log.batches|
    ensures forall j | 0 <= j < |s.log.started| :: |Supply(start.addrs, w, j)| <= |s.log.taken|
  {
    assert After(c, start, run) == s;
    FetchedOnlyWhenNeeded(c, start, run);
    forall j | 0 <= j < |s.log.started| ensures |Supply(start.addrs, w, j)| <= |s.log.taken| {
      assert TakenUpTo(s.log, j);
      SupplyUpTo(w, s, missed, j);
    }
  }

  /** What arrived, and that every fetch started was needed. */
  lemma TrackedSupply(c: Setup, w: World, start: State, run: seq<Action>, s: State, missed: nat)
    requires Tracked(c, w, start, run, s, missed)
    ensures s.log.readCount == |s.log.batches|
    ensures AddrsOf(s.log.taken) + s.addrs == Supply(start.addrs, w, |s.log.batches|)
    ensures forall j | 0 <= j < |s.log.started| :: |Supply(start.addrs, w, j)| <= |s.log.taken|
  {
    TrackedNeeds(c, w, start, run, s, missed);
    SupplyUpTo(w, s, missed, |s.log.batches|);
    assert s.log.batches[..|s.log.batches|] == s.log.batches;
    assert FlowInv(s) by {
      ReachedInv(c, start, run, s);
    }
  }

  lemma TrackedFetches(c: Setup, w: World, start: State, run: seq<Action>, s: State, missed: nat)
    requires Tracked(c, w, start, run, s, missed)
    ensures |s.log.started| == s.log.readCount + |s.tasks| + |s.events| <= |c.sources|
    ensures s.tasks != [] ==> |s.tasks| == 1 && s.events == [] && s.tasks[0] == c.sources[|s.log.started| - 1]
    ensures Exhausted(s) ==> |s.log.started| == |c.sources| && s.tasks == [] && s.events == []
  {
    ReachedInv(c, start, run, s);
    assert s.log.started <= c.sources;
  }

  /** The loop is over in state `s`. */
  predicate Closed(c: Setup, w: World, pauses: nat -> nat, queue: seq<Multiaddr>, s: State, course: Course)
  {
    && Took(queue, w, c.sources, pauses, course)
    && Concludes(queue, w, course, AddrsOf(s.log.taken), s.addrs)
    && |s.log.started| == FetchesStarted(course) && s.log.readCount == course.read
  }

  lemma EndEnough(c: Setup, w: World, pauses: nat -> nat, start: State, run: seq<Action>, s: State, missed: nat,
                  waits: nat) returns (course: Course)
    requires s.log.taken != [] && Tracked(c, w, start, run, PutBack(s), missed)
    requires s.tasks == [] && s.events == [] && |s.log.taken| == MIN_INITIAL_ADDRS
    requires WaitCount(w, c.sources, |s.log.started|, s.tasks, missed) == waits
    requires |start.addrs| < MIN_INITIAL_ADDRS && OnTime(pauses, waits)
    ensures Closed(c, w, pauses, start.addrs, s, course)
  {
    TrackedSupply(c, w, start, run, PutBack(s), missed);
    TrackedFetches(c, w, start, run, PutBack(s), missed);
    course := Course(|s.log.started|, waits, false);
    assert AddrsOf(s.log.taken) + s.addrs == AddrsOf(PutBack(s).log.taken) + PutBack(s).addrs;
  }

  lemma EndExhausted(c: Setup, w: World, pauses: nat -> nat, start: State, run: seq<Action>, s: State, missed: nat,
                     waits: nat) returns (course: Course)
    requires Tracked(c, w, start, run, s, missed)
    requires Exhausted(s) && |s.log.taken| < MIN_INITIAL_ADDRS
    requires WaitCount(w, c.sources, |s.log.started|, s.tasks, missed) == waits
    requires |start.addrs| < MIN_INITIAL_ADDRS && OnTime(pauses, waits)
    ensures Closed(c, w, pauses, start.addrs, s, course)
  {
    TrackedSupply(c, w, start, run, s, missed);
    TrackedFetches(c, w, start, run, s, missed);
    course := Course(|s.log.started|, waits, false);
  }

  lemma EndLate(c: Setup, w: World, pauses: nat -> nat, start: State, run: seq<Action>, s: State, missed: nat,
                waits: nat) returns (course: Course)
    requires Tracked(c, w, start, run, s, missed)
    requires Awaiting(s) && |s.log.taken| < MIN_INITIAL_ADDRS && (missed > 0 || s.tasks[0].Endpoint?)
    requires WaitCount(w, c.sources, |s.log.started|, s.tasks, missed) == waits + 1
    requires |start.addrs| < MIN_INITIAL_ADDRS && Late(pauses, waits) && OnTime(pauses, waits)
    ensures Closed(c, w, pauses, start.addrs, s, course)
  {
    TrackedSupply(c, w, start, run, s, missed);
    TrackedFetches(c, w, start, run, s, missed);
    AttestedSays(w, HeardIn(s, missed));
    course := Course(|s.log.started| - 1, waits, true);
  }
}
