/**
 What holds along every run of the bootstrap machine: in which order sources are
 used, that no address is lost, repeated or reordered, that completion and
 exhaustion are final, that every schedule settles, and when a fair one completes.
 */
module BootstrapRuns {
  import opened Wrappers
  import opened Addresses
  import opened BootstrapMachine

  // ---------------------------------------------------------------- sources

  lemma {:induction false} StartedOnlyGrows(c: Setup, s: State, run: seq<Action>)
    ensures s.log.started <= After(c, s, run).log.started
  {
    if run != [] {
      StartedOnlyGrows(c, s, Front(run));
      StartedGrowsNext(c, After(c, s, Front(run)), Last(run));
    }
  }

  lemma StartedGrowsNext(c: Setup, s: State, a: Action)
    ensures s.log.started <= Next(c, s, a).log.started
  {
  }

  /** Along every run the fetches started grow, and stay a prefix of the configured sources. */
  lemma SourcesUsedInOrder(c: Setup, s: State, run: seq<Action>)
    requires Inv(c, s)
    ensures var t := After(c, s, run);
            && s.log.started <= t.log.started <= c.sources
            && t.log.started + Remaining(t) == c.sources
  {
    StartedOnlyGrows(c, s, run);
    SourceInvAfter(c, s, run);
  }

  lemma {:induction false} SourceInvAfter(c: Setup, s: State, run: seq<Action>)
    requires SourceInv(c, s)
    ensures SourceInv(c, After(c, s, run))
  {
    if run != [] {
      SourceInvAfter(c, s, Front(run));
      SourceInvNext(c, After(c, s, Front(run)), Last(run));
    }
  }

  /** A fetch is started only when the queue is empty, no task runs and no event is unread. */
  lemma FetchStartsOnlyWhenDrained(c: Setup, s: State, a: Action)
    requires FetchInv(s)
    ensures Next(c, s, a).log.started != s.log.started ==> s.addrs == [] && s.tasks == [] && s.events == []
    ensures Next(c, s, a).log.started != s.log.started ==>
              Next(c, s, a).log.started == s.log.started + [Remaining(s)[0]]
  {
    if Next(c, s, a).log.started != s.log.started && a.StartContacts? {
      assert s.contacts.value != [];
    }
  }

  /** Once the exhaustion test holds nothing is outstanding, and it holds for ever: no later fetch
      starts, no batch arrives and no address leaves or enters the queue. */
  lemma {:induction false} ExhaustionIsPermanent(c: Setup, s: State, run: seq<Action>)
    requires FetchInv(s) && Exhausted(s)
    ensures var t := After(c, s, run);
            && Exhausted(t) && t.tasks == [] && t.events == []
            && t.log.started == s.log.started && t.log.batches == s.log.batches
            && AddrsOf(t.log.taken) == AddrsOf(s.log.taken)
  {
    if run != [] {
      ExhaustionIsPermanent(c, s, Front(run));
      var t := After(c, s, Front(run));
      assert AddrsOf(Next(c, t, Last(run)).log.taken) == AddrsOf(t.log.taken);
    }
  }

  /** What the first node of a network starts with: bootstrapping completed and nothing to fetch. */
  predicate FirstNode(s: State)
  {
    s.completed && Exhausted(s) && s.log.started == [] && s.log.taken == []
  }

  /** The first node never starts a fetch and never takes, let alone dials, an address. */
  lemma FirstNodeIsInert(c: Setup, s: State, run: seq<Action>)
    requires FetchInv(s) && FirstNode(s)
    ensures FirstNode(After(c, s, run))
  {
    ExhaustionIsPermanent(c, s, run);
    CompletionIsFinal(c, s, run);
    assert |AddrsOf(After(c, s, run).log.taken)| == 0;
  }

  // ---------------------------------------------------------------- addresses

  /** The batches handed to the channel by the tasks that ended during a run. */
  function Payloads(c: Setup, s: State, run: seq<Action>): seq<seq<Multiaddr>>
  {
    if run == [] then []
    else
      var a := Last(run);
      Payloads(c, s, Front(run)) +
      if a.Deliver? && Enabled(c, After(c, s, Front(run)), a) then [a.batch] else []
  }

  /** Addresses taken from the queue, then queued, then in unread events. */
  function Pipeline(s: State): seq<Multiaddr>
  {
    AddrsOf(s.log.taken) + s.addrs + Flatten(Contents(s.events))
  }

  lemma PipelineDelivered(s: State, i: nat, batch: seq<Multiaddr>)
    requires i < |s.tasks|
    ensures Pipeline(Delivered(s, i, batch)) == Pipeline(s) + batch
  {
    var t := Delivered(s, i, batch);
    assert Contents(t.events) == Contents(s.events) + [batch];
    FlattenSnoc(Contents(s.events), batch);
  }

  lemma PipelineRead(s: State)
    requires s.events != []
    ensures Pipeline(EventRead(s)) == Pipeline(s)
  {
    var t, batch := EventRead(s), s.events[0].addrs;
    assert Contents(s.events) == [batch] + Contents(t.events);
    FlattenConcat([batch], Contents(t.events));
    FlattenSnoc([], batch);
    assert [] + [batch] == [batch];
  }

  lemma PipelineNext(c: Setup, s: State, a: Action)
    ensures Pipeline(Next(c, s, a)) == Pipeline(s) + if a.Deliver? && Enabled(c, s, a) then a.batch else []
  {
    var t := Next(c, s, a);
    if a.Deliver? && Enabled(c, s, a) {
      PipelineDelivered(s, a.task, a.batch);
    } else if a.ReadEvent? && Enabled(c, s, a) {
      PipelineRead(s);
    } else {
      assert AddrsOf(t.log.taken) + t.addrs == AddrsOf(s.log.taken) + s.addrs;
    }
  }

  /** First in, first out, from the tasks to the dialer: the pipeline only grows at its far end, by
      exactly the batches the environment delivered, in delivery order. */
  lemma {:induction false} NothingLostOrReordered(c: Setup, s: State, run: seq<Action>)
    ensures Pipeline(After(c, s, run)) == Pipeline(s) + Flatten(Payloads(c, s, run))
  {
    if run != [] {
      NothingLostOrReordered(c, s, Front(run));
      var u, a := After(c, s, Front(run)), Last(run);
      var more := if a.Deliver? && Enabled(c, u, a) then a.batch else [];
      assert Pipeline(After(c, s, run)) == Pipeline(u) + more by {
        PipelineNext(c, u, a);
      }
      PayloadsSnoc(c, s, run);
      Regroup(Pipeline(s), Flatten(Payloads(c, s, Front(run))), more);
    }
  }

  lemma Regroup(a: seq<Multiaddr>, b: seq<Multiaddr>, c: seq<Multiaddr>)
    ensures (a + b) + c == a + (b + c)
  {
  }

  lemma PayloadsSnoc(c: Setup, s: State, run: seq<Action>)
    requires run != []
    ensures var u, a := After(c, s, Front(run)), Last(run);
            Flatten(Payloads(c, s, run)) ==
            Flatten(Payloads(c, s, Front(run))) + if a.Deliver? && Enabled(c, u, a) then a.batch else []
  {
    var u, a := After(c, s, Front(run)), Last(run);
    if a.Deliver? && Enabled(c, u, a) {
      FlattenSnoc(Payloads(c, s, Front(run)), a.batch);
    } else {
      assert Payloads(c, s, run) == Payloads(c, s, Front(run));
    }
  }

  lemma {:induction false} PeerIdsOnlyGrow(c: Setup, s: State, run: seq<Action>)
    ensures s.peerIds <= After(c, s, run).peerIds
  {
    if run != [] {
      PeerIdsOnlyGrow(c, s, Front(run));
      PeerIdsGrowNext(c, After(c, s, Front(run)), Last(run));
    }
  }

  lemma PeerIdsGrowNext(c: Setup, s: State, a: Action)
    ensures s.peerIds <= Next(c, s, a).peerIds
  {
  }

  /** A peer counts as a bootstrap peer exactly when some supplied address names it, for ever. */
  lemma BootstrapPeersAreKept(c: Setup, s: State, run: seq<Action>, p: PeerId)
    requires Inv(c, s)
    ensures var t := After(c, s, run);
            && (p in t.peerIds <==> exists a :: a in Supplied(t) && GetPeerId(a) == Some(p))
            && (p in t.peerIds <==> exists a :: a in AddrsOf(t.log.taken) + t.addrs && GetPeerId(a) == Some(p))
            && (p in s.peerIds ==> p in t.peerIds)
  {
    InvAfter(c, s, run);
    PeerIdsOnlyGrow(c, s, run);
    PeerNamed(Supplied(After(c, s, run)), p);
  }

  lemma PeerNamed(addrs: seq<Multiaddr>, p: PeerId)
    ensures p in PeerIdsIn(addrs) <==> exists a :: a in addrs && GetPeerId(a) == Some(p)
  {
  }

  // ---------------------------------------------------------------- dialing

  lemma {:induction false} ClearingDialsNothing(taken: seq<Taken>, addrs: seq<Multiaddr>)
    ensures DialLog(taken + ClearedAll(addrs)) == DialLog(taken)
    ensures HandedCount(taken + ClearedAll(addrs)) == HandedCount(taken)
    decreases |addrs|
  {
    if addrs == [] {
      assert taken + ClearedAll(addrs) == taken;
    } else {
      assert Front(taken + ClearedAll(addrs)) == taken + ClearedAll(Front(addrs));
      ClearingDialsNothing(taken, Front(addrs));
    }
  }

  lemma DialLogNext(c: Setup, s: State, a: Action)
    ensures DialLog(Next(c, s, a).log.taken) ==
            DialLog(s.log.taken) + if a.DialHanded? && Enabled(c, s, a) then [Last(s.log.taken).addr] else []
  {
    var t := Next(c, s, a);
    if a.DialHanded? && Enabled(c, s, a) {
      assert Front(t.log.taken) == Front(s.log.taken);
    } else if a.Finish? && Enabled(c, s, a) {
      ClearingDialsNothing(s.log.taken, s.addrs);
    } else if a.Hand? && Enabled(c, s, a) {
      assert Front(t.log.taken) == s.log.taken;
    }
  }

  /** Completion never reverts, after it no dial is ever requested and no dial slot is ever taken. */
  lemma {:induction false} CompletionIsFinal(c: Setup, s: State, run: seq<Action>)
    requires s.completed
    ensures var t := After(c, s, run);
            t.completed && DialLog(t.log.taken) == DialLog(s.log.taken) && t.ongoing <= s.ongoing
  {
    if run != [] {
      CompletionIsFinal(c, s, Front(run));
      DialLogNext(c, After(c, s, Front(run)), Last(run));
    }
  }

  lemma {:induction false} DialLogSize(taken: seq<Taken>)
    ensures |DialLog(taken)| + HandedCount(taken) <= |taken|
  {
    if taken != [] {
      DialLogSize(Front(taken));
    }
  }

  /** In every reachable state the dials requested, the addresses handed out and those still queued
      together do not outnumber the addresses supplied, and no more dials are open than allowed. */
  lemma DialsAreBounded(c: Setup, s: State, run: seq<Action>)
    requires Inv(c, s)
    ensures var t := After(c, s, run);
            && |DialLog(t.log.taken)| + HandedCount(t.log.taken) + |t.addrs| <= |Supplied(t)|
            && |t.ongoing| <= c.maxDials
  {
    InvAfter(c, s, run);
    DialLogSize(After(c, s, run).log.taken);
  }

  /** The failure of the dial made for `addr` is reported for the id the dial was built with. It frees
      the slot of `addr` exactly when both readings of the peer id agree. */
  lemma FailureFreesSlotExactly(c: Setup, s: State, addr: Multiaddr)
    requires !s.completed && addr in s.ongoing
    ensures addr !in Next(c, s, DialFailed(PopP2p(addr).0)).ongoing <==> IdsAgree(addr)
    ensures IsCrafted(addr) ==> addr !in Next(c, s, DialFailed(PopP2p(addr).0)).ongoing
  {
    IdsAgreeExactly(addr);
  }

  /** The success of a dial frees the slot of the address dialled, and only that. A connection to a peer made
      through another address frees exactly the slots filed under the peer; one the peer made frees none. */
  lemma SuccessFreesSlotExactly(c: Setup, s: State, dialled: Option<Multiaddr>, peer: PeerId)
    requires !s.completed
    ensures var after := Next(c, s, Established(dialled, peer)).ongoing;
            && (dialled.None? ==> after == s.ongoing)
            && (dialled.Some? ==> dialled.value !in after)
            && (dialled.Some? && dialled.value in s.ongoing ==>
                  forall a :: a in after <==> a in s.ongoing && a != dialled.value)
            && (dialled.Some? && dialled.value !in s.ongoing ==>
                  forall a :: a in after <==> a in s.ongoing && GetPeerId(a) != Some(peer))
  {
  }

  /** Along every run the addresses supplied only grow, at the end. */
  lemma {:induction false} SupplyOnlyGrows(c: Setup, s: State, run: seq<Action>)
    ensures Supplied(s) <= Supplied(After(c, s, run))
  {
    if run != [] {
      SupplyOnlyGrows(c, s, Front(run));
      SupplyGrowsNext(c, After(c, s, Front(run)), Last(run));
    }
  }

  lemma SupplyGrowsNext(c: Setup, s: State, a: Action)
    ensures Supplied(s) <= Supplied(Next(c, s, a))
  {
    if a.ReadEvent? && Enabled(c, s, a) {
      FlattenSnoc(s.log.batches, s.events[0].addrs);
    }
  }

  // ---------------------------------------------------------------- termination

  function SourcesLeft(s: State): nat
  {
    (if s.cachePending then 1 else 0) + if s.contacts.Some? then 1 + |s.contacts.value| else 0
  }

  function Outstanding(s: State): nat
  {
    2 * |s.tasks| + |s.events|
  }

  /** Lexicographic over sources left, outstanding fetches, queue, undecided addresses, open dials. */
  predicate RankLess(t: State, s: State)
  {
    || SourcesLeft(t) < SourcesLeft(s)
    || (SourcesLeft(t) == SourcesLeft(s) &&
        (|| Outstanding(t) < Outstanding(s)
         || (Outstanding(t) == Outstanding(s) &&
             (|| |t.addrs| < |s.addrs|
              || (|t.addrs| == |s.addrs| &&
                  (|| HandedCount(t.log.taken) < HandedCount(s.log.taken)
                   || (HandedCount(t.log.taken) == HandedCount(s.log.taken) &&
                       (|| |t.ongoing| < |s.ongoing|
                        || (|t.ongoing| == |s.ongoing| && t.completed && !s.completed)))))))))
  }

  lemma RankFinish(c: Setup, s: State, contacted: nat)
    requires Next(c, s, Finish(contacted)) != s
    ensures RankLess(Next(c, s, Finish(contacted)), s)
  {
    ClearingDialsNothing(s.log.taken, s.addrs);
    SubsetSize({}, s.ongoing);
    if s.addrs == [] {
      assert s.log.taken + ClearedAll(s.addrs) == s.log.taken;
    }
  }

  lemma RankDialled(s: State, accepted: bool)
    requires s.log.taken != [] && Last(s.log.taken).fate.Handed?
    ensures RankLess(HandedDialled(s, accepted), s)
  {
    var t := HandedDialled(s, accepted);
    assert Front(t.log.taken) == Front(s.log.taken);
  }

  lemma RankSlotsFreed(s: State, ongoing: set<Multiaddr>)
    requires ongoing <= s.ongoing && ongoing != s.ongoing
    ensures RankLess(s.(ongoing := ongoing), s)
  {
    SubsetSize(ongoing, s.ongoing);
  }

  lemma RankNext(c: Setup, s: State, a: Action)
    requires Next(c, s, a) != s
    ensures RankLess(Next(c, s, a), s)
  {
    match a
    case DialHanded(accepted) => RankDialled(s, accepted);
    case Finish(contacted) => RankFinish(c, s, contacted);
    case Established(dialled, peer) => RankSlotsFreed(s, OngoingAfterEstablished(s.ongoing, dialled, peer));
    case DialFailed(failed) => RankSlotsFreed(s, OngoingAfterFailure(s.ongoing, failed));
    case _ =>
  }

  /** The state after `n` actions of an endless schedule. */
  function At(c: Setup, s: State, schedule: nat -> Action, n: nat): State
  {
    if n == 0 then s else Next(c, At(c, s, schedule, n - 1), schedule(n - 1))
  }

  /** The schedule without its first `k` actions. */
  function Shifted(schedule: nat -> Action, k: nat): nat -> Action
  {
    (m: nat) => schedule(k + m)
  }

  lemma {:induction false} AtShift(c: Setup, s: State, schedule: nat -> Action, k: nat, n: nat)
    ensures At(c, At(c, s, schedule, k), Shifted(schedule, k), n) == At(c, s, schedule, k + n)
  {
    if n > 0 {
      AtShift(c, s, schedule, k, n - 1);
      assert Shifted(schedule, k)(n - 1) == schedule(k + n - 1);
    }
  }

  lemma {:induction false} AtRank(c: Setup, s: State, schedule: nat -> Action, n: nat)
    ensures At(c, s, schedule, n) == s || RankLess(At(c, s, schedule, n), s)
  {
    if n > 0 {
      AtRank(c, s, schedule, n - 1);
      var u := At(c, s, schedule, n - 1);
      if Next(c, u, schedule(n - 1)) != u {
        RankNext(c, u, schedule(n - 1));
      }
    }
  }

  /** The schedule changes nothing from step `n` on. */
  ghost predicate SettledFrom(c: Setup, s: State, schedule: nat -> Action, n: nat)
  {
    forall m: nat :: n <= m ==> At(c, s, schedule, m) == At(c, s, schedule, n)
  }

  /** Whatever the order of deliveries, polls, dials and callbacks, every endless schedule reaches a
      state it never leaves: bootstrapping cannot go on for ever. */
  lemma {:induction false} EveryScheduleSettles(c: Setup, s: State, schedule: nat -> Action) returns (n: nat)
    ensures SettledFrom(c, s, schedule, n)
    decreases SourcesLeft(s), Outstanding(s), |s.addrs|, HandedCount(s.log.taken), |s.ongoing|, !s.completed
  {
    if k: nat :| At(c, s, schedule, k) != s {
      AtRank(c, s, schedule, k);
      var rest := EveryScheduleSettles(c, At(c, s, schedule, k), Shifted(schedule, k));
      n := k + rest;
      AtShift(c, s, schedule, k, rest);
      forall m: nat | n <= m ensures At(c, s, schedule, m) == At(c, s, schedule, n) {
        AtShift(c, s, schedule, k, m - k);
      }
    } else {
      n := 0;
    }
  }

  // ---------------------------------------------------------------- deadlock

  /** Only a report on an open dial can change anything: no task can end, the completion test every call of
      the dialer begins with fails, and no poll that has a free slot has an effect. */
  predicate Stuck(c: Setup, s: State)
  {
    && s.tasks == []
    && !HasCompleted(c, s, 0)
    && (|s.ongoing| < c.maxDials ==>
          && Next(c, s, ReadEvent) == s && Next(c, s, Hand) == s && Next(c, s, Exhaust) == s
          && Next(c, s, StartCache) == s && Next(c, s, StartContacts) == s)
  }

  /** No task is left to deliver and all slots are in use, while an address is queued or a source is left. */
  predicate Blocked(c: Setup, s: State)
  {
    && !s.completed && c.maxContacted > 0 && !Exhausted(s)
    && s.tasks == [] && |s.ongoing| == c.maxDials
  }

  /** A reachable state is stuck exactly when it is blocked. In particular an exhausted node is not: the next
      call of the dialer completes it, even if all its slots are in use. */
  lemma StuckExactlyWhenBlocked(c: Setup, s: State)
    requires Inv(c, s)
    ensures Stuck(c, s) <==> Blocked(c, s)
  {
  }

  // ---------------------------------------------------------------- liveness

  const POLLS: set<Action> := {ReadEvent, Hand, StartCache, StartContacts, Exhaust}

  /** What the environment and the caller owe the dialer again and again: a running task ends, the completion
      test is made, the dialer is polled. */
  datatype Duty = TaskEnds | Test | Poll(step: Action)

  /** The duty does not arise in `s`, or the action performed there discharges it. Once the process has
      completed there are no duties, and no poll is due that would have no effect. */
  predicate Discharged(c: Setup, s: State, a: Action, d: Duty)
  {
    s.completed ||
    match d
    case TaskEnds => s.tasks == [] || (a.Deliver? && a.task == 0)
    case Test => !HasCompleted(c, s, 0) || a.Finish?
    case Poll(step) =>
      step in POLLS ==> |s.ongoing| >= c.maxDials || Next(c, s, step) == s || a == step
  }

  /** The action is a dial of `addr` which the swarm accepts. */
  predicate Opens(c: Setup, s: State, a: Action, addr: Multiaddr)
  {
    a == DialHanded(true) && Enabled(c, s, a) && Last(s.log.taken).addr == addr
  }

  /** From step `n` on the dial of `addr` is reported as failed, or it has ended otherwise. */
  ghost predicate AnsweredFrom(c: Setup, s: State, schedule: nat -> Action, n: nat, addr: Multiaddr)
  {
    exists m: nat :: n <= m && Answered(At(c, s, schedule, m), schedule(m), addr)
  }

  predicate Answered(s: State, a: Action, addr: Multiaddr)
  {
    s.completed || addr !in s.ongoing || a == DialFailed(PopP2p(addr).0)
  }

  /** Every dial is answered once: those open at the start and each one the swarm accepts. */
  ghost predicate DialsAnswered(c: Setup, s: State, schedule: nat -> Action)
  {
    && (forall addr | addr in s.ongoing :: AnsweredFrom(c, s, schedule, 0, addr))
    && (forall k: nat, addr | Opens(c, At(c, s, schedule, k), schedule(k), addr) ::
          AnsweredFrom(c, s, schedule, k + 1, addr))
  }

  /** No duty is neglected for ever, and every dial is answered. */
  ghost predicate Fair(c: Setup, s: State, schedule: nat -> Action)
  {
    (forall n: nat, d: Duty :: DischargedFrom(c, s, schedule, n, d)) && DialsAnswered(c, s, schedule)
  }

  ghost predicate DischargedFrom(c: Setup, s: State, schedule: nat -> Action, n: nat, d: Duty)
  {
    exists m: nat :: n <= m && Discharged(c, At(c, s, schedule, m), schedule(m), d)
  }

  /** Every address in the machine, and every address any task will deliver, ends in the peer id it
      is filed under; crafted addresses do. */
  ghost predicate OnlyAgreeing(s: State, schedule: nat -> Action)
  {
    && (forall a | a in Pipeline(s) :: IdsAgree(a))
    && (forall n: nat | schedule(n).Deliver? :: forall a | a in schedule(n).batch :: IdsAgree(a))
  }

  lemma {:induction false} InvAt(c: Setup, s: State, schedule: nat -> Action, n: nat)
    requires Inv(c, s)
    ensures Inv(c, At(c, s, schedule, n))
  {
    if n > 0 {
      InvAt(c, s, schedule, n - 1);
      InvNext(c, At(c, s, schedule, n - 1), schedule(n - 1));
    }
  }

  lemma {:induction false} AgreeingAt(c: Setup, s: State, schedule: nat -> Action, n: nat)
    requires OnlyAgreeing(s, schedule)
    ensures forall a | a in Pipeline(At(c, s, schedule, n)) :: IdsAgree(a)
  {
    if n > 0 {
      AgreeingAt(c, s, schedule, n - 1);
      PipelineNext(c, At(c, s, schedule, n - 1), schedule(n - 1));
    }
  }

  /** Nothing is at hand and one task is running. */
  predicate Awaiting(s: State)
  {
    s.addrs == [] && s.events == [] && |s.tasks| == 1
  }

  /** A caller that keeps calling `trigger_bootstrapping_process` discharges tests and polls. The test is
      discharged where a call begins: it completes the process, or else none was due. The polls are
      discharged in every state a call can return in, whatever happens next. */
  lemma TriggerDischarges(c: Setup, s: State, a: Action)
    requires Inv(c, s)
    ensures forall contacted ::
              if HasCompleted(c, s, contacted) then Next(c, s, Finish(contacted)).completed
              else Discharged(c, s, a, Test)
    ensures s.completed || |s.ongoing| >= c.maxDials || Awaiting(s) ==>
              forall step :: Discharged(c, s, a, Poll(step))
  {
  }

  /** In a settled schedule every duty has been discharged without effect. */
  lemma DutyWithoutEffect(c: Setup, s: State, schedule: nat -> Action, n: nat, d: Duty) returns (a: Action)
    requires Fair(c, s, schedule) && SettledFrom(c, s, schedule, n)
    ensures Discharged(c, At(c, s, schedule, n), a, d)
    ensures Next(c, At(c, s, schedule, n), a) == At(c, s, schedule, n)
  {
    assert DischargedFrom(c, s, schedule, n, d);
    var m: nat :| n <= m && Discharged(c, At(c, s, schedule, m), schedule(m), d);
    a := schedule(m);
    assert At(c, s, schedule, m + 1) == At(c, s, schedule, n);
  }

  lemma SettledIsStuck(c: Setup, s: State, schedule: nat -> Action, n: nat)
    requires Fair(c, s, schedule) && SettledFrom(c, s, schedule, n)
    requires !At(c, s, schedule, n).completed
    ensures Stuck(c, At(c, s, schedule, n))
  {
    var t := At(c, s, schedule, n);
    var a := DutyWithoutEffect(c, s, schedule, n, TaskEnds);
    assert t.tasks == [] by {
      assert t.tasks != [] ==> |Next(c, t, a).tasks| < |t.tasks|;
    }
    a := DutyWithoutEffect(c, s, schedule, n, Test);
    assert HasCompleted(c, t, 0) ==> Next(c, t, a).completed;
    a := DutyWithoutEffect(c, s, schedule, n, Poll(ReadEvent));
    a := DutyWithoutEffect(c, s, schedule, n, Poll(Hand));
    a := DutyWithoutEffect(c, s, schedule, n, Poll(StartCache));
    a := DutyWithoutEffect(c, s, schedule, n, Poll(StartContacts));
    a := DutyWithoutEffect(c, s, schedule, n, Poll(Exhaust));
  }

  // ---------------------------------------------------------------- open dials

  /** The step from which on `addr` holds its slot without a break up to step `n`. */
  function OpenSince(c: Setup, s: State, schedule: nat -> Action, n: nat, addr: Multiaddr): nat
  {
    if n == 0 || addr !in At(c, s, schedule, n - 1).ongoing then n else OpenSince(c, s, schedule, n - 1, addr)
  }

  lemma EntersByDial(c: Setup, s: State, a: Action, addr: Multiaddr)
    requires addr !in s.ongoing && addr in Next(c, s, a).ongoing
    ensures Opens(c, s, a, addr)
  {
  }

  /** The dial that opened a slot held at step `n`, unless it was open from the start. */
  lemma {:induction false} OpenSinceOpens(c: Setup, s: State, schedule: nat -> Action, n: nat, addr: Multiaddr)
    requires addr in At(c, s, schedule, n).ongoing
    ensures var k := OpenSince(c, s, schedule, n, addr);
            && k <= n && (k == 0 ==> addr in s.ongoing)
            && (k > 0 ==> Opens(c, At(c, s, schedule, k - 1), schedule(k - 1), addr))
  {
    if n > 0 {
      if addr in At(c, s, schedule, n - 1).ongoing {
        OpenSinceOpens(c, s, schedule, n - 1, addr);
      } else {
        EntersByDial(c, At(c, s, schedule, n - 1), schedule(n - 1), addr);
      }
    }
  }

  function HeldAt(c: Setup, s: State, schedule: nat -> Action, addr: Multiaddr): nat -> bool
  {
    (n: nat) => addr in At(c, s, schedule, n).ongoing
  }

  /** The step from which on `h` has held without a break up to step `n`. */
  function Since(h: nat -> bool, n: nat): nat
  {
    if n == 0 || !h(n - 1) then n else Since(h, n - 1)
  }

  lemma {:induction false} SinceHolds(h: nat -> bool, n: nat, j: nat)
    requires Since(h, n) <= j < n
    ensures h(j)
  {
    if j < n - 1 {
      SinceHolds(h, n - 1, j);
    }
  }

  lemma {:induction false} OpenSinceIsSince(c: Setup, s: State, schedule: nat -> Action, n: nat, addr: Multiaddr)
    ensures OpenSince(c, s, schedule, n, addr) == Since(HeldAt(c, s, schedule, addr), n)
  {
    if n > 0 {
      OpenSinceIsSince(c, s, schedule, n - 1, addr);
    }
  }

  lemma OpenSinceHolds(c: Setup, s: State, schedule: nat -> Action, n: nat, addr: Multiaddr, j: nat)
    requires OpenSince(c, s, schedule, n, addr) <= j < n
    ensures HeldAt(c, s, schedule, addr)(j)
  {
    OpenSinceIsSince(c, s, schedule, n, addr);
    SinceHolds(HeldAt(c, s, schedule, addr), n, j);
  }

  lemma OpenedByDial(c: Setup, s: State, schedule: nat -> Action, n: nat, addr: Multiaddr)
    requires addr in At(c, s, schedule, n).ongoing && addr !in s.ongoing
    ensures var k := OpenSince(c, s, schedule, n, addr);
            0 < k <= n && Opens(c, At(c, s, schedule, k - 1), schedule(k - 1), addr)
  {
    OpenSinceOpens(c, s, schedule, n, addr);
  }

  lemma {:induction false} CompletedStays(c: Setup, s: State, schedule: nat -> Action, m: nat, n: nat)
    requires m <= n && At(c, s, schedule, m).completed
    ensures At(c, s, schedule, n).completed
    decreases n - m
  {
    if m < n {
      CompletedStays(c, s, schedule, m, n - 1);
    }
  }

  /** Step `m` reports the failure of the dial that holds the slot of `addr` at step `n`. */
  predicate ReportedAt(c: Setup, s: State, schedule: nat -> Action, n: nat, addr: Multiaddr, m: nat)
  {
    OpenSince(c, s, schedule, n, addr) <= m && schedule(m) == DialFailed(PopP2p(addr).0)
  }

  lemma OpenSinceAnswered(c: Setup, s: State, schedule: nat -> Action, n: nat, addr: Multiaddr)
    requires DialsAnswered(c, s, schedule) && addr in At(c, s, schedule, n).ongoing
    ensures AnsweredFrom(c, s, schedule, OpenSince(c, s, schedule, n, addr), addr)
  {
    OpenSinceOpens(c, s, schedule, n, addr);
  }

  /** A dial that holds its slot for good has been reported. */
  lemma HeldIsReported(c: Setup, s: State, schedule: nat -> Action, n: nat, addr: Multiaddr) returns (m: nat)
    requires DialsAnswered(c, s, schedule) && SettledFrom(c, s, schedule, n)
    requires !At(c, s, schedule, n).completed && addr in At(c, s, schedule, n).ongoing
    ensures ReportedAt(c, s, schedule, n, addr, m)
  {
    var k := OpenSince(c, s, schedule, n, addr);
    OpenSinceAnswered(c, s, schedule, n, addr);
    m :| k <= m && Answered(At(c, s, schedule, m), schedule(m), addr);
    if m < n {
      OpenSinceHolds(c, s, schedule, n, addr, m);
      if At(c, s, schedule, m).completed {
        CompletedStays(c, s, schedule, m, n);
      }
    }
  }

  /** No report is outstanding: each open dial has been reported as failed since it was made. */
  ghost predicate AllReported(c: Setup, s: State, schedule: nat -> Action, n: nat)
  {
    forall addr | addr in At(c, s, schedule, n).ongoing :: exists m: nat :: ReportedAt(c, s, schedule, n, addr, m)
  }

  lemma StillOpen(c: Setup, s: State, schedule: nat -> Action, n: nat, m: nat, b: Multiaddr)
    requires m < n && b in At(c, s, schedule, n).ongoing && OpenSince(c, s, schedule, n, b) <= m + 1
    ensures b in At(c, s, schedule, m + 1).ongoing
  {
    if m + 1 < n {
      OpenSinceHolds(c, s, schedule, n, b, m + 1);
    }
  }

  lemma FreedBy(c: Setup, s: State, schedule: nat -> Action, n: nat, m: nat, b: Multiaddr)
    requires SettledFrom(c, s, schedule, n) && !At(c, s, schedule, n).completed
    requires schedule(m) == DialFailed(GetPeerId(b))
    ensures b !in At(c, s, schedule, m + 1).ongoing
  {
    if m <= n && At(c, s, schedule, m).completed {
      CompletedStays(c, s, schedule, m, n);
    }
  }

  /** A report made while the slot of `b` is held is filed under another peer than `b`. */
  lemma ReportBeforeDial(c: Setup, s: State, schedule: nat -> Action, n: nat, m: nat, b: Multiaddr)
    requires SettledFrom(c, s, schedule, n) && !At(c, s, schedule, n).completed && b in At(c, s, schedule, n).ongoing
    requires schedule(m) == DialFailed(GetPeerId(b))
    ensures m + 1 < OpenSince(c, s, schedule, n, b)
  {
    FreedBy(c, s, schedule, n, m, b);
    if m < n && OpenSince(c, s, schedule, n, b) <= m + 1 {
      StillOpen(c, s, schedule, n, m, b);
    }
  }

  // ---------------------------------------------------------------- where fair schedules come to rest

  /** Every fair schedule comes to rest in one of two ways: the process has completed, or it is blocked and
      no report is outstanding. */
  lemma FairSchedulesSettle(c: Setup, s: State, schedule: nat -> Action) returns (n: nat)
    requires Inv(c, s) && Fair(c, s, schedule)
    ensures SettledFrom(c, s, schedule, n) && Inv(c, At(c, s, schedule, n))
    ensures At(c, s, schedule, n).completed ||
            (Blocked(c, At(c, s, schedule, n)) && AllReported(c, s, schedule, n))
  {
    n := EveryScheduleSettles(c, s, schedule);
    InvAt(c, s, schedule, n);
    if !At(c, s, schedule, n).completed {
      SettledIsStuck(c, s, schedule, n);
      StuckExactlyWhenBlocked(c, At(c, s, schedule, n));
      forall addr | addr in At(c, s, schedule, n).ongoing
        ensures exists m: nat :: ReportedAt(c, s, schedule, n, addr, m)
      {
        var m := HeldIsReported(c, s, schedule, n, addr);
      }
    }
  }

  /** Liveness: with at least one dial slot, every fair schedule completes the bootstrap process, even
      if every fetch comes back empty and every dial fails, as long as the two readings of the peer id
      agree on every address. */
  lemma FairSchedulesComplete(c: Setup, s: State, schedule: nat -> Action) returns (n: nat)
    requires Inv(c, s) && c.maxDials > 0
    requires Fair(c, s, schedule) && OnlyAgreeing(s, schedule)
    ensures SettledFrom(c, s, schedule, n) && At(c, s, schedule, n).completed
  {
    n := FairSchedulesSettle(c, s, schedule);
    AgreeingAt(c, s, schedule, n);
    var t := At(c, s, schedule, n);
    if !t.completed {
      var a :| a in t.ongoing;
      OngoingInPipeline(c, t, a);
      var m := HeldIsReported(c, s, schedule, n, a);
      ReportBeforeDial(c, s, schedule, n, m, a);
    }
  }

  lemma OngoingInPipeline(c: Setup, s: State, a: Multiaddr)
    requires DialInv(c, s) && a in s.ongoing
    ensures a in Pipeline(s)
  {
    var i :| 0 <= i < |s.log.taken| && s.log.taken[i] == Taken(a, Dialed(true));
    assert Pipeline(s)[i] == a;
  }
}
