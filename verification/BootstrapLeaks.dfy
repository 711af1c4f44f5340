/**
 When the dial slots of a node can leak for good. Slots are filed under the first peer id
 of an address, failures are reported for the last one; where the two differ a failed dial
 keeps its slot unless another report happens to free it. The queue of a node that has no
 source left decides whether every fair schedule completes.
 */
module BootstrapLeaks {
  import opened Wrappers
  import opened Addresses
  import opened BootstrapMachine
  import opened BootstrapRuns

  /** A node that has read all its sources and dialled nothing yet. */
  predicate Spent(s: State)
  {
    && !s.completed && !s.cachePending && s.contacts.None? && s.inProgress.None?
    && s.ongoing == {} && s.log.taken == [] && s.log.batches == []
  }

  lemma SpentWhenAllRead(c: Setup, s: State)
    requires Inv(c, s) && s.log.readCount == |c.sources|
    requires !s.completed && s.ongoing == {} && s.log.taken == [] && s.log.batches == []
    ensures Spent(s)
  {
    assert |s.log.started + Remaining(s)| == |c.sources|;
  }

  // ---------------------------------------------------------------- the conditions

  /** The failure report of the dial of `a` frees the slot of `b`. */
  predicate Frees(a: Multiaddr, b: Multiaddr)
  {
    GetPeerId(b) == PopP2p(a).0
  }

  /** As many addresses as there are slots, at their positions in the queue, with another one behind them. */
  predicate Holding(slots: nat, queue: seq<Multiaddr>, pos: map<Multiaddr, nat>)
  {
    queue != [] && |pos.Keys| == slots && forall a | a in pos :: pos[a] < |queue| - 1 && queue[pos[a]] == a
  }

  /** An address whose slot another one's report would free stands behind that one, and not among the first
      `first` of the queue. */
  predicate InTurn(pos: map<Multiaddr, nat>, first: nat)
  {
    forall a, b | a in pos && b in pos && Frees(a, b) :: pos[a] < pos[b] && first <= pos[b]
  }

  /** No report on one of the addresses frees the slot of another, or its own. */
  predicate SlotsLeak(held: set<Multiaddr>)
  {
    forall a, b | a in held && b in held :: !Frees(a, b)
  }

  /** The slots can all leak, if a dial can be reported before the next one is made. */
  ghost predicate CanLeakInTurn(slots: nat, queue: seq<Multiaddr>, first: nat)
  {
    exists pos :: Holding(slots, queue, pos) && InTurn(pos, first)
  }

  /** The slots can all leak at once. */
  ghost predicate CanLeak(slots: nat, queue: seq<Multiaddr>)
  {
    exists pos :: Holding(slots, queue, pos) && SlotsLeak(pos.Keys)
  }

  function Distinct(queue: seq<Multiaddr>): set<Multiaddr>
  {
    set a | a in queue
  }

  /** How many addresses the first call of the dialer takes at least: it goes on until all slots are in use. */
  function FirstCall(slots: nat, queue: seq<Multiaddr>): nat
  {
    if queue != [] && |Distinct(Front(queue))| >= slots then FirstCall(slots, Front(queue)) else |queue|
  }

  lemma {:induction false} FirstCallIsShortest(slots: nat, queue: seq<Multiaddr>, i: nat)
    requires i <= |queue| && |Distinct(queue[..i])| >= slots
    ensures FirstCall(slots, queue) <= i
  {
    if i == |queue| {
      FirstCallInQueue(slots, queue);
    } else {
      assert Front(queue)[..i] == queue[..i];
      SubsetSize(Distinct(queue[..i]), Distinct(Front(queue)));
      FirstCallIsShortest(slots, Front(queue), i);
    }
  }

  lemma {:induction false} FirstCallInQueue(slots: nat, queue: seq<Multiaddr>)
    ensures FirstCall(slots, queue) <= |queue|
  {
    if queue != [] && |Distinct(Front(queue))| >= slots {
      FirstCallInQueue(slots, Front(queue));
    }
  }

  /** Leaking at once is the strongest of the conditions; how much has to come before weakens the others. */
  lemma LeakConditions(slots: nat, queue: seq<Multiaddr>, first: nat)
    ensures CanLeak(slots, queue) ==> CanLeakInTurn(slots, queue, first)
    ensures CanLeakInTurn(slots, queue, first) ==> CanLeakInTurn(slots, queue, 0)
  {
    if CanLeak(slots, queue) {
      var pos :| Holding(slots, queue, pos) && SlotsLeak(pos.Keys);
      assert InTurn(pos, first);
    }
    if CanLeakInTurn(slots, queue, first) {
      var pos :| Holding(slots, queue, pos) && InTurn(pos, first);
      assert InTurn(pos, 0);
    }
  }

  /** With a single slot all conditions are the same, and about single addresses: the two readings of the
      peer id differ on some address in front of the last. */
  lemma OneSlotLeaksExactly(queue: seq<Multiaddr>, first: nat)
    requires queue != []
    ensures CanLeakInTurn(1, queue, first) <==> exists a :: a in Front(queue) && !IdsAgree(a)
    ensures CanLeak(1, queue) <==> exists a :: a in Front(queue) && !IdsAgree(a)
  {
    LeakConditions(1, queue, first);
    if CanLeakInTurn(1, queue, first) {
      var pos :| Holding(1, queue, pos) && InTurn(pos, first);
      var a := SomeDisagree(1, queue, pos, first);
    }
    if a :| a in Front(queue) && !IdsAgree(a) {
      OneSlotLeaks(queue, a);
    }
  }

  lemma SomeDisagree(slots: nat, queue: seq<Multiaddr>, pos: map<Multiaddr, nat>, first: nat) returns (a: Multiaddr)
    requires slots > 0 && Holding(slots, queue, pos) && InTurn(pos, first)
    ensures a in queue && a in Front(queue) && !IdsAgree(a)
  {
    a :| a in pos.Keys;
    assert queue[pos[a]] == Front(queue)[pos[a]] == a && !Frees(a, a);
  }

  lemma OneSlotLeaks(queue: seq<Multiaddr>, a: Multiaddr)
    requires queue != [] && a in Front(queue) && !IdsAgree(a)
    ensures CanLeak(1, queue)
  {
    var i :| 0 <= i < |Front(queue)| && Front(queue)[i] == a;
    var pos := map[a := i];
    assert pos.Keys == {a};
    assert Holding(1, queue, pos) && SlotsLeak(pos.Keys);
  }

  /** A queue on whose addresses the readings agree cannot leak a slot. */
  lemma AgreeingCannotLeak(slots: nat, queue: seq<Multiaddr>, first: nat)
    requires slots > 0 && forall a | a in queue :: IdsAgree(a)
    ensures !CanLeakInTurn(slots, queue, first) && !CanLeak(slots, queue)
  {
    forall pos | Holding(slots, queue, pos) ensures !InTurn(pos, first) {
      if InTurn(pos, first) {
        var a := SomeDisagree(slots, queue, pos, first);
      }
    }
    LeakConditions(slots, queue, first);
  }

  // ---------------------------------------------------------------- what stays true of a spent node

  predicate StillSpent(s: State, t: State)
  {
    && !t.cachePending && t.contacts.None? && t.inProgress.None? && t.tasks == [] && t.events == []
    && t.log.initial == s.log.initial && t.log.batches == []
  }

  lemma {:induction false} SpentAt(c: Setup, s: State, schedule: nat -> Action, n: nat)
    requires FetchInv(s) && Spent(s)
    ensures StillSpent(s, At(c, s, schedule, n))
  {
    if n > 0 {
      SpentAt(c, s, schedule, n - 1);
      SpentNext(c, s, At(c, s, schedule, n - 1), schedule(n - 1));
    }
  }

  lemma SpentNext(c: Setup, s: State, t: State, a: Action)
    requires StillSpent(s, t)
    ensures StillSpent(s, Next(c, t, a))
  {
  }

  /** The addresses taken and those queued are always the first queue. */
  lemma SpentQueue(c: Setup, s: State, schedule: nat -> Action, n: nat)
    requires Inv(c, s) && Spent(s)
    ensures AddrsOf(At(c, s, schedule, n).log.taken) + At(c, s, schedule, n).addrs == s.addrs
  {
    SpentAt(c, s, schedule, n);
    InvAt(c, s, schedule, n);
    SpentSupply(s, s);
    SpentSupply(s, At(c, s, schedule, n));
  }

  lemma SpentSupply(s: State, t: State)
    requires FlowInv(t) && t.log.initial == s.log.initial && t.log.batches == []
    ensures AddrsOf(t.log.taken) + t.addrs == s.log.initial
  {
    assert t.log.initial + Flatten(t.log.batches) == t.log.initial;
  }

  /** The addresses taken whose fate is decided: all but one that has just been handed out. */
  function Decided(taken: seq<Taken>): nat
  {
    if taken != [] && Last(taken).fate.Handed? then |taken| - 1 else |taken|
  }

  lemma DecidedNext(c: Setup, s: State, a: Action)
    ensures Decided(s.log.taken) <= Decided(Next(c, s, a).log.taken)
  {
  }

  lemma {:induction false} DecidedGrows(c: Setup, s: State, schedule: nat -> Action, m: nat, n: nat)
    requires m <= n
    ensures Decided(At(c, s, schedule, m).log.taken) <= Decided(At(c, s, schedule, n).log.taken)
    decreases n - m
  {
    if m < n {
      DecidedGrows(c, s, schedule, m, n - 1);
      DecidedNext(c, At(c, s, schedule, n - 1), schedule(n - 1));
    }
  }

  // ---------------------------------------------------------------- calls of the dialer

  predicate Callback(a: Action)
  {
    a.Established? || a.DialFailed?
  }

  /** A call of the dialer in this state goes on: it has an address in hand, or a free slot and one queued. */
  predicate Unfinished(c: Setup, s: State)
  {
    && !s.completed && s.log.taken != []
    && (Last(s.log.taken).fate.Handed? || (|s.ongoing| < c.maxDials && s.addrs != []))
  }

  /** A call that has begun to take addresses is still going on at step `n`. */
  predicate InCall(c: Setup, s: State, schedule: nat -> Action, n: nat)
  {
    && n > 0 && Unfinished(c, At(c, s, schedule, n))
    && (schedule(n - 1).Hand? || schedule(n - 1).DialHanded? || InCall(c, s, schedule, n - 1))
  }

  /** No callback comes in the middle of a call, as `trigger_bootstrapping_process` dials in one go. */
  ghost predicate CallWise(c: Setup, s: State, schedule: nat -> Action)
  {
    forall n: nat :: InCall(c, s, schedule, n) ==> !Callback(schedule(n))
  }

  /** Up to step `n` nothing was taken, or a call is going on, or the first call has filled the slots. */
  predicate FirstCallBy(c: Setup, s: State, schedule: nat -> Action, n: nat)
  {
    var taken := At(c, s, schedule, n).log.taken;
    taken == [] || InCall(c, s, schedule, n) || FirstCall(c.maxDials, s.addrs) <= Decided(taken)
  }

  lemma FullSlotsDecide(c: Setup, s: State, schedule: nat -> Action, n: nat)
    requires Inv(c, s) && Spent(s) && |At(c, s, schedule, n).ongoing| >= c.maxDials
    ensures FirstCall(c.maxDials, s.addrs) <= |At(c, s, schedule, n).log.taken|
  {
    var t := At(c, s, schedule, n);
    InvAt(c, s, schedule, n);
    SpentQueue(c, s, schedule, n);
    var i := |t.log.taken|;
    assert s.addrs[..i] == AddrsOf(t.log.taken);
    forall a | a in t.ongoing ensures a in Distinct(s.addrs[..i]) {
      var j :| 0 <= j < |t.log.taken| && t.log.taken[j] == Taken(a, Dialed(true));
      assert AddrsOf(t.log.taken)[j] == a;
    }
    SubsetSize(t.ongoing, Distinct(s.addrs[..i]));
    FirstCallIsShortest(c.maxDials, s.addrs, i);
  }

  lemma FirstCallStep(c: Setup, u: State, t: State, a: Action, inCall: bool, first: nat)
    requires t == Next(c, u, a) && !t.completed && t.addrs != []
    requires u.log.taken == [] || inCall || first <= Decided(u.log.taken)
    requires |t.ongoing| >= c.maxDials ==> first <= |t.log.taken|
    ensures t.log.taken == [] || (Unfinished(c, t) && (a.Hand? || a.DialHanded? || inCall)) ||
            first <= Decided(t.log.taken)
  {
    DecidedNext(c, u, a);
  }

  lemma {:induction false} FirstCallFills(c: Setup, s: State, schedule: nat -> Action, n: nat, end: nat)
    requires Inv(c, s) && Spent(s)
    requires n <= end && !At(c, s, schedule, end).completed && At(c, s, schedule, end).addrs != []
    ensures FirstCallBy(c, s, schedule, n)
  {
    if n > 0 {
      FirstCallFills(c, s, schedule, n - 1, end);
      StillQueued(c, s, schedule, n, end);
      var u, t := At(c, s, schedule, n - 1), At(c, s, schedule, n);
      if |t.ongoing| >= c.maxDials {
        FullSlotsDecide(c, s, schedule, n);
      }
      FirstCallStep(c, u, t, schedule(n - 1), InCall(c, s, schedule, n - 1), FirstCall(c.maxDials, s.addrs));
    }
  }

  /** What is queued and uncompleted at the end was so all the time. */
  lemma {:induction false} StillQueued(c: Setup, s: State, schedule: nat -> Action, n: nat, end: nat)
    requires FetchInv(s) && Spent(s)
    requires n <= end && !At(c, s, schedule, end).completed && At(c, s, schedule, end).addrs != []
    ensures !At(c, s, schedule, n).completed && At(c, s, schedule, n).addrs != []
    decreases end - n
  {
    if n < end {
      StillQueued(c, s, schedule, n + 1, end);
      SpentAt(c, s, schedule, n);
    }
  }

  // ---------------------------------------------------------------- a blocked node has leaked in turn

  /** The position in the queue of the open dial of `a`. */
  function OpenedFrom(c: Setup, s: State, schedule: nat -> Action, n: nat, a: Multiaddr): int
  {
    |At(c, s, schedule, OpenSince(c, s, schedule, n, a)).log.taken| - 1
  }

  lemma OpeningStep(c: Setup, s: State, t: State, a: Action, addr: Multiaddr)
    requires Opens(c, s, a, addr) && t == Next(c, s, a)
    ensures |t.log.taken| > 0 && Last(t.log.taken).addr == addr
    ensures Decided(s.log.taken) == |t.log.taken| - 1 && Decided(t.log.taken) == |t.log.taken|
  {
  }

  /** An open dial was made for the last address taken when it was opened. */
  lemma OpenedForLast(c: Setup, s: State, schedule: nat -> Action, n: nat, a: Multiaddr)
    requires s.ongoing == {} && a in At(c, s, schedule, n).ongoing
    ensures var k, p := OpenSince(c, s, schedule, n, a), OpenedFrom(c, s, schedule, n, a);
            && 0 < k <= n && 0 <= p
            && Decided(At(c, s, schedule, k - 1).log.taken) == p
            && Decided(At(c, s, schedule, k).log.taken) == p + 1
            && Last(At(c, s, schedule, k).log.taken).addr == a
  {
    OpenedByDial(c, s, schedule, n, a);
    var k := OpenSince(c, s, schedule, n, a);
    OpeningStep(c, At(c, s, schedule, k - 1), At(c, s, schedule, k), schedule(k - 1), a);
  }

  /** It stands in the queue at that position, and not last. */
  lemma OpenedAtPosition(c: Setup, s: State, schedule: nat -> Action, n: nat, a: Multiaddr)
    requires Inv(c, s) && Spent(s) && a in At(c, s, schedule, n).ongoing && At(c, s, schedule, n).addrs != []
    ensures var p := OpenedFrom(c, s, schedule, n, a); 0 <= p < |s.addrs| - 1 && s.addrs[p] == a
  {
    OpenedForLast(c, s, schedule, n, a);
    var k := OpenSince(c, s, schedule, n, a);
    DecidedGrows(c, s, schedule, k, n);
    SpentQueue(c, s, schedule, k);
    SpentQueue(c, s, schedule, n);
    TakenFrom(s.addrs, At(c, s, schedule, k).log.taken, At(c, s, schedule, k).addrs);
    TakenFrom(s.addrs, At(c, s, schedule, n).log.taken, At(c, s, schedule, n).addrs);
  }

  lemma TakenFrom(queue: seq<Multiaddr>, taken: seq<Taken>, rest: seq<Multiaddr>)
    requires AddrsOf(taken) + rest == queue
    ensures |taken| + |rest| == |queue| && Decided(taken) <= |taken|
    ensures taken != [] ==> queue[|taken| - 1] == Last(taken).addr
  {
  }

  lemma OpenedBefore(c: Setup, s: State, schedule: nat -> Action, n: nat, a: Multiaddr, m: nat)
    requires s.ongoing == {} && a in At(c, s, schedule, n).ongoing && OpenSince(c, s, schedule, n, a) <= m
    ensures OpenedFrom(c, s, schedule, n, a) < Decided(At(c, s, schedule, m).log.taken)
  {
    OpenedForLast(c, s, schedule, n, a);
    DecidedGrows(c, s, schedule, OpenSince(c, s, schedule, n, a), m);
  }

  lemma OpenedAfter(c: Setup, s: State, schedule: nat -> Action, n: nat, a: Multiaddr, m: nat)
    requires s.ongoing == {} && a in At(c, s, schedule, n).ongoing && m < OpenSince(c, s, schedule, n, a)
    ensures m <= n && Decided(At(c, s, schedule, m).log.taken) <= OpenedFrom(c, s, schedule, n, a)
  {
    OpenedForLast(c, s, schedule, n, a);
    DecidedGrows(c, s, schedule, m, OpenSince(c, s, schedule, n, a) - 1);
  }

  /** If the report on `a` would free the slot of `b`, the dial of `b` was made after it. */
  lemma LaterInTurn(c: Setup, s: State, schedule: nat -> Action, n: nat, a: Multiaddr, b: Multiaddr) returns (m: nat)
    requires Inv(c, s) && Spent(s) && DialsAnswered(c, s, schedule) && SettledFrom(c, s, schedule, n)
    requires Blocked(c, At(c, s, schedule, n)) && At(c, s, schedule, n).addrs != []
    requires a in At(c, s, schedule, n).ongoing && b in At(c, s, schedule, n).ongoing && Frees(a, b)
    ensures Callback(schedule(m)) && m <= n
    ensures OpenedFrom(c, s, schedule, n, a) < Decided(At(c, s, schedule, m).log.taken)
            <= OpenedFrom(c, s, schedule, n, b)
  {
    m := HeldIsReported(c, s, schedule, n, a);
    ReportBeforeDial(c, s, schedule, n, m, b);
    OpenedBefore(c, s, schedule, n, a, m);
    OpenedAfter(c, s, schedule, n, b, m);
  }

  /** How much is known to have come before: nothing, or the first call. */
  ghost predicate Before(c: Setup, s: State, schedule: nat -> Action, first: nat)
  {
    first == 0 || (first == FirstCall(c.maxDials, s.addrs) && CallWise(c, s, schedule))
  }

  lemma BlockedHasLeaked(c: Setup, s: State, schedule: nat -> Action, n: nat, first: nat)
    requires Inv(c, s) && Spent(s) && DialsAnswered(c, s, schedule) && SettledFrom(c, s, schedule, n)
    requires Blocked(c, At(c, s, schedule, n)) && Before(c, s, schedule, first)
    ensures CanLeakInTurn(c.maxDials, s.addrs, first)
  {
    var t := At(c, s, schedule, n);
    SpentAt(c, s, schedule, n);
    SpentQueue(c, s, schedule, n);
    forall a | a in t.ongoing
      ensures 0 <= OpenedFrom(c, s, schedule, n, a) < |s.addrs| - 1 && s.addrs[OpenedFrom(c, s, schedule, n, a)] == a
    {
      OpenedAtPosition(c, s, schedule, n, a);
    }
    var pos: map<Multiaddr, nat> := map a | a in t.ongoing :: OpenedFrom(c, s, schedule, n, a);
    assert pos.Keys == t.ongoing;
    forall a, b | a in pos && b in pos && Frees(a, b) ensures pos[a] < pos[b] && first <= pos[b] {
      var m := LaterInTurn(c, s, schedule, n, a, b);
      if first > 0 {
        FirstCallFills(c, s, schedule, m, n);
      }
    }
    assert Holding(c.maxDials, s.addrs, pos) && InTurn(pos, first);
  }

  ghost predicate Completes(c: Setup, s: State, schedule: nat -> Action)
  {
    exists n: nat :: At(c, s, schedule, n).completed
  }

  /** Every fair schedule of a spent node completes if its queue cannot leak all slots in turn. If no callback
      comes in the middle of a call, only leaks count in which the address freed stands behind the first call. */
  lemma FairCompletes(c: Setup, s: State, schedule: nat -> Action, first: nat)
    requires Inv(c, s) && Spent(s) && Fair(c, s, schedule) && Before(c, s, schedule, first)
    requires c.maxContacted == 0 || !CanLeakInTurn(c.maxDials, s.addrs, first)
    ensures Completes(c, s, schedule)
  {
    var n := FairSchedulesSettle(c, s, schedule);
    if !At(c, s, schedule, n).completed {
      BlockedHasLeaked(c, s, schedule, n, first);
    }
  }
}
