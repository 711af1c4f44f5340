/**
 With two dial slots the two halves of `CallsCompleteUnlessLeaking` do not meet: which
 addresses share the slots with the leaking ones between two calls matters too.
 */
module BootstrapGap {
  import opened Wrappers
  import opened Addresses
  import opened BootstrapMachine
  import opened BootstrapRuns
  import opened BootstrapLeaks
  import opened BootstrapBlocking

  /** `x` holds a slot during the first call and is freed by its own report; `a` keeps its slot through all
      reports; the report on `a`, made before the second call dials `b`, would have freed `b`. */
  predicate AcrossCalls(x: Multiaddr, a: Multiaddr, b: Multiaddr)
  {
    && Frees(x, x) && !Frees(x, a) && !Frees(a, x) && !Frees(a, a)
    && Frees(a, b) && !Frees(b, a) && !Frees(b, b)
  }

  /** Two calls, the failure of each dial reported once and after the call that made it. */
  function TwoCalls(x: Multiaddr, a: Multiaddr, b: Multiaddr): seq<Action>
  {
    [Hand, DialHanded(true), Hand, DialHanded(true), DialFailed(PopP2p(a).0), DialFailed(PopP2p(x).0),
     Hand, DialHanded(true), DialFailed(PopP2p(b).0)]
  }

  function Listed(list: seq<Action>): nat -> Action
  {
    (n: nat) => if n < |list| then list[n] else ReadEvent
  }

  function InBetween(s: State, taken: seq<Taken>, rest: seq<Multiaddr>, ongoing: set<Multiaddr>): State
  {
    s.(addrs := rest, ongoing := ongoing, log := s.log.(taken := taken))
  }

  /** The states the two calls pass through. */
  function TwoCallsState(s: State, x: Multiaddr, a: Multiaddr, b: Multiaddr, rest: seq<Multiaddr>, n: nat): State
  {
    var dx, da, db := [Taken(x, Dialed(true))], [Taken(a, Dialed(true))], [Taken(b, Dialed(true))];
    if n == 0 then InBetween(s, [], [x] + ([a] + ([b] + rest)), {})
    else if n == 1 then InBetween(s, [] + [Taken(x, Handed)], [a] + ([b] + rest), {})
    else if n == 2 then InBetween(s, [] + dx, [a] + ([b] + rest), {} + {x})
    else if n == 3 then InBetween(s, [] + dx + [Taken(a, Handed)], [b] + rest, {} + {x})
    else if n <= 5 then InBetween(s, [] + dx + da, [b] + rest, {} + {x} + {a})
    else if n == 6 then InBetween(s, [] + dx + da, [b] + rest, {a})
    else if n == 7 then InBetween(s, [] + dx + da + [Taken(b, Handed)], rest, {a})
    else InBetween(s, [] + dx + da + db, rest, {a} + {b})
  }

  lemma HandsFirst(c: Setup, s: State, taken: seq<Taken>, addr: Multiaddr, rest: seq<Multiaddr>,
                   ongoing: set<Multiaddr>)
    ensures Next(c, InBetween(s, taken, [addr] + rest, ongoing), Hand) ==
            InBetween(s, taken + [Taken(addr, Handed)], rest, ongoing)
  {
    assert ([addr] + rest)[1..] == rest;
  }

  lemma DialsLast(c: Setup, s: State, taken: seq<Taken>, addr: Multiaddr, rest: seq<Multiaddr>,
                  ongoing: set<Multiaddr>)
    requires !s.completed && |ongoing| < c.maxDials
    ensures Next(c, InBetween(s, taken + [Taken(addr, Handed)], rest, ongoing), DialHanded(true)) ==
            InBetween(s, taken + [Taken(addr, Dialed(true))], rest, ongoing + {addr})
  {
    assert Front(taken + [Taken(addr, Handed)]) == taken;
  }

  lemma ReportLeaves(c: Setup, s: State, taken: seq<Taken>, rest: seq<Multiaddr>, ongoing: set<Multiaddr>,
                     a: Multiaddr, left: set<Multiaddr>)
    requires !s.completed && left == set b | b in ongoing && !Frees(a, b)
    ensures Next(c, InBetween(s, taken, rest, ongoing), DialFailed(PopP2p(a).0)) == InBetween(s, taken, rest, left)
  {
    assert OngoingAfterFailure(ongoing, PopP2p(a).0) == left;
  }

  lemma DialsX(c: Setup, s: State, x: Multiaddr, a: Multiaddr, b: Multiaddr, rest: seq<Multiaddr>, n: nat)
    requires c.maxDials == 2 && !s.completed && (n == 0 || n == 1)
    ensures Next(c, TwoCallsState(s, x, a, b, rest, n), TwoCalls(x, a, b)[n]) ==
            TwoCallsState(s, x, a, b, rest, n + 1)
  {
    if n == 0 {
      HandsFirst(c, s, [], x, [a] + ([b] + rest), {});
    } else {
      DialsLast(c, s, [], x, [a] + ([b] + rest), {});
    }
  }

  lemma DialsA(c: Setup, s: State, x: Multiaddr, a: Multiaddr, b: Multiaddr, rest: seq<Multiaddr>, n: nat)
    requires c.maxDials == 2 && !s.completed && (n == 2 || n == 3)
    ensures Next(c, TwoCallsState(s, x, a, b, rest, n), TwoCalls(x, a, b)[n]) ==
            TwoCallsState(s, x, a, b, rest, n + 1)
  {
    var taken := [] + [Taken(x, Dialed(true))];
    if n == 2 {
      HandsFirst(c, s, taken, a, [b] + rest, {} + {x});
    } else {
      DialsLast(c, s, taken, a, [b] + rest, {} + {x});
    }
  }

  lemma DialsB(c: Setup, s: State, x: Multiaddr, a: Multiaddr, b: Multiaddr, rest: seq<Multiaddr>, n: nat)
    requires c.maxDials == 2 && !s.completed && (n == 6 || n == 7)
    ensures Next(c, TwoCallsState(s, x, a, b, rest, n), TwoCalls(x, a, b)[n]) ==
            TwoCallsState(s, x, a, b, rest, n + 1)
  {
    var taken := [] + [Taken(x, Dialed(true))] + [Taken(a, Dialed(true))];
    if n == 6 {
      HandsFirst(c, s, taken, b, rest, {a});
    } else {
      DialsLast(c, s, taken, b, rest, {a});
    }
  }

  lemma ReportSteps(c: Setup, s: State, x: Multiaddr, a: Multiaddr, b: Multiaddr, rest: seq<Multiaddr>, n: nat)
    requires !s.completed && AcrossCalls(x, a, b) && (n == 4 || n == 5 || n == 8)
    ensures Next(c, TwoCallsState(s, x, a, b, rest, n), TwoCalls(x, a, b)[n]) ==
            TwoCallsState(s, x, a, b, rest, n + 1)
  {
    var t := TwoCallsState(s, x, a, b, rest, n);
    if n == 4 {
      ReportLeaves(c, s, t.log.taken, t.addrs, t.ongoing, a, t.ongoing);
    } else if n == 5 {
      ReportLeaves(c, s, t.log.taken, t.addrs, t.ongoing, x, {a});
    } else {
      ReportLeaves(c, s, t.log.taken, t.addrs, t.ongoing, b, t.ongoing);
    }
  }

  lemma TwoCallsStep(c: Setup, s: State, x: Multiaddr, a: Multiaddr, b: Multiaddr, rest: seq<Multiaddr>, n: nat)
    requires c.maxDials == 2 && !s.completed && s.events == [] && AcrossCalls(x, a, b)
    ensures Next(c, TwoCallsState(s, x, a, b, rest, n), Listed(TwoCalls(x, a, b))(n)) ==
            TwoCallsState(s, x, a, b, rest, n + 1)
  {
    if n < 2 {
      DialsX(c, s, x, a, b, rest, n);
    } else if n < 4 {
      DialsA(c, s, x, a, b, rest, n);
    } else if n == 4 || n == 5 || n == 8 {
      ReportSteps(c, s, x, a, b, rest, n);
    } else if n < 8 {
      DialsB(c, s, x, a, b, rest, n);
    }
  }

  lemma TwoCallsBegin(s: State, x: Multiaddr, a: Multiaddr, b: Multiaddr, rest: seq<Multiaddr>)
    requires Idle(s) && s.log.taken == [] && s.addrs == [x, a, b] + rest
    ensures TwoCallsState(s, x, a, b, rest, 0) == s
  {
    assert s.addrs == [x] + ([a] + ([b] + rest));
  }

  lemma TwoCallsOn(c: Setup, s: State, x: Multiaddr, a: Multiaddr, b: Multiaddr, rest: seq<Multiaddr>, n: nat,
                   t: State, u: State)
    requires c.maxDials == 2 && !s.completed && s.events == [] && AcrossCalls(x, a, b)
    requires t == TwoCallsState(s, x, a, b, rest, n) && u == TwoCallsState(s, x, a, b, rest, n + 1)
    requires Leads(c, s, Listed(TwoCalls(x, a, b)), n, t)
    ensures Leads(c, s, Listed(TwoCalls(x, a, b)), n + 1, u)
  {
    var action := Listed(TwoCalls(x, a, b))(n);
    assert Next(c, t, action) == u by {
      TwoCallsStep(c, s, x, a, b, rest, n);
    }
    LeadsOn(c, s, Listed(TwoCalls(x, a, b)), n, t, action, u);
  }

  lemma {:induction false} TwoCallsRun(c: Setup, s: State, x: Multiaddr, a: Multiaddr, b: Multiaddr,
                                       rest: seq<Multiaddr>, n: nat)
    requires c.maxDials == 2 && Idle(s) && s.log.taken == [] && s.addrs == [x, a, b] + rest && AcrossCalls(x, a, b)
    ensures Leads(c, s, Listed(TwoCalls(x, a, b)), n, TwoCallsState(s, x, a, b, rest, n))
  {
    if n == 0 {
      TwoCallsBegin(s, x, a, b, rest);
      LeadsBegin(c, s, Listed(TwoCalls(x, a, b)));
    } else {
      TwoCallsRun(c, s, x, a, b, rest, n - 1);
      TwoCallsOn(c, s, x, a, b, rest, n - 1, TwoCallsState(s, x, a, b, rest, n - 1),
                 TwoCallsState(s, x, a, b, rest, n));
    }
  }

  lemma TwoCallsAt(c: Setup, s: State, x: Multiaddr, a: Multiaddr, b: Multiaddr, rest: seq<Multiaddr>, n: nat)
    requires c.maxDials == 2 && Idle(s) && s.log.taken == [] && s.addrs == [x, a, b] + rest && AcrossCalls(x, a, b)
    ensures At(c, s, Listed(TwoCalls(x, a, b)), n) == TwoCallsState(s, x, a, b, rest, n)
  {
    TwoCallsRun(c, s, x, a, b, rest, n);
    LeadsTo(c, s, Listed(TwoCalls(x, a, b)), n, TwoCallsState(s, x, a, b, rest, n));
  }

  lemma TwoCallsFull(c: Setup, s: State, x: Multiaddr, a: Multiaddr, b: Multiaddr, rest: seq<Multiaddr>, n: nat)
    requires c.maxDials == 2 && AcrossCalls(x, a, b) && (n == 4 || n == 5 || n >= 8)
    ensures !Unfinished(c, TwoCallsState(s, x, a, b, rest, n))
    ensures |TwoCallsState(s, x, a, b, rest, n).ongoing| == 2
  {
    assert {} + {x} + {a} == {x, a} && {a} + {b} == {a, b};
  }

  lemma TwoCallsDischarges(c: Setup, s: State, x: Multiaddr, a: Multiaddr, b: Multiaddr, rest: seq<Multiaddr>, n: nat,
                           d: Duty)
    requires c.maxDials == 2 && c.maxContacted > 0 && Idle(s) && s.log.taken == []
    requires s.addrs == [x, a, b] + rest && rest != [] && AcrossCalls(x, a, b)
    ensures DischargedFrom(c, s, Listed(TwoCalls(x, a, b)), n, d)
  {
    var schedule := Listed(TwoCalls(x, a, b));
    TwoCallsAt(c, s, x, a, b, rest, n + 8);
    TwoCallsFull(c, s, x, a, b, rest, n + 8);
    assert Discharged(c, At(c, s, schedule, n + 8), schedule(n + 8), d);
  }

  lemma TwoCallsDialTurn(x: Multiaddr, a: Multiaddr, b: Multiaddr, k: nat)
    requires Listed(TwoCalls(x, a, b))(k) == DialHanded(true)
    ensures k == 1 || k == 3 || k == 7
  {
  }

  /** The address in hand when a dial is made. */
  function InHand(x: Multiaddr, a: Multiaddr, b: Multiaddr, k: nat): Multiaddr
  {
    if k == 1 then x else if k == 3 then a else b
  }

  lemma TwoCallsInHand(s: State, x: Multiaddr, a: Multiaddr, b: Multiaddr, rest: seq<Multiaddr>, k: nat)
    requires k == 1 || k == 3 || k == 7
    ensures var taken := TwoCallsState(s, x, a, b, rest, k).log.taken;
            taken != [] && Last(taken).addr == InHand(x, a, b, k)
  {
  }

  lemma TwoCallsAnswers(c: Setup, s: State, x: Multiaddr, a: Multiaddr, b: Multiaddr, k: nat)
    requires k == 1 || k == 3 || k == 7
    ensures AnsweredFrom(c, s, Listed(TwoCalls(x, a, b)), k + 1, InHand(x, a, b, k))
  {
    AnsweredBy(c, s, Listed(TwoCalls(x, a, b)), k + 1, if k == 1 then 5 else if k == 3 then 4 else 8,
               InHand(x, a, b, k));
  }

  lemma TwoCallsFair(c: Setup, s: State, x: Multiaddr, a: Multiaddr, b: Multiaddr, rest: seq<Multiaddr>)
    requires c.maxDials == 2 && c.maxContacted > 0 && Idle(s) && s.log.taken == []
    requires s.addrs == [x, a, b] + rest && rest != [] && AcrossCalls(x, a, b)
    ensures Fair(c, s, Listed(TwoCalls(x, a, b)))
  {
    var schedule := Listed(TwoCalls(x, a, b));
    forall n: nat, d: Duty ensures DischargedFrom(c, s, schedule, n, d) {
      TwoCallsDischarges(c, s, x, a, b, rest, n, d);
    }
    forall k: nat, addr | Opens(c, At(c, s, schedule, k), schedule(k), addr)
      ensures AnsweredFrom(c, s, schedule, k + 1, addr)
    {
      TwoCallsDialTurn(x, a, b, k);
      TwoCallsAt(c, s, x, a, b, rest, k);
      TwoCallsInHand(s, x, a, b, rest, k);
      TwoCallsAnswers(c, s, x, a, b, k);
    }
  }

  lemma TwoCallsCallWise(c: Setup, s: State, x: Multiaddr, a: Multiaddr, b: Multiaddr, rest: seq<Multiaddr>)
    requires c.maxDials == 2 && Idle(s) && s.log.taken == [] && s.addrs == [x, a, b] + rest && AcrossCalls(x, a, b)
    ensures CallWise(c, s, Listed(TwoCalls(x, a, b)))
  {
    var schedule := Listed(TwoCalls(x, a, b));
    forall n: nat | Callback(schedule(n)) ensures !InCall(c, s, schedule, n) {
      TwoCallsAt(c, s, x, a, b, rest, n);
      TwoCallsFull(c, s, x, a, b, rest, n);
    }
  }

  lemma TwoCallsUncompleted(c: Setup, s: State, x: Multiaddr, a: Multiaddr, b: Multiaddr, rest: seq<Multiaddr>, n: nat)
    requires c.maxDials == 2 && Idle(s) && s.log.taken == [] && s.addrs == [x, a, b] + rest && AcrossCalls(x, a, b)
    ensures !At(c, s, Listed(TwoCalls(x, a, b)), n).completed
  {
    TwoCallsAt(c, s, x, a, b, rest, n);
  }

  /** With two slots the halves leave a gap: slots can leak across two calls though they cannot leak at once. */
  lemma LeakAcrossCalls(c: Setup, s: State, x: Multiaddr, a: Multiaddr, b: Multiaddr, y: Multiaddr)
    requires c.maxDials == 2 && c.maxContacted > 0 && Idle(s) && s.log.taken == []
    requires s.addrs == [x, a, b, y] && AcrossCalls(x, a, b)
    ensures NeverDone(c, s, Listed(TwoCalls(x, a, b))) && !CanLeak(2, s.addrs)
  {
    assert s.addrs == [x, a, b] + [y];
    TwoCallsFair(c, s, x, a, b, [y]);
    TwoCallsCallWise(c, s, x, a, b, [y]);
    forall n: nat ensures !At(c, s, Listed(TwoCalls(x, a, b)), n).completed {
      TwoCallsUncompleted(c, s, x, a, b, [y], n);
    }
    forall pos | Holding(2, s.addrs, pos) ensures !SlotsLeak(pos.Keys) {
      AmongThree(pos, s.addrs, x, a, b, y);
    }
  }

  lemma AmongThree(pos: map<Multiaddr, nat>, queue: seq<Multiaddr>, x: Multiaddr, a: Multiaddr, b: Multiaddr,
                   y: Multiaddr)
    requires queue == [x, a, b, y] && Holding(2, queue, pos)
    ensures x in pos || (a in pos && b in pos)
  {
    if x !in pos {
      forall h | h in pos.Keys ensures h in {a, b} {
        assert queue[pos[h]] == h;
      }
      if a !in pos || b !in pos {
        SubsetSize(pos.Keys, if a !in pos then {b} else {a});
      }
    }
  }

  /** Nor is leaking in turn enough: if nothing stands in front of `a`, both are dialled in the first call, and
      every schedule made of whole calls completes. */
  lemma FirstCallMatters(c: Setup, s: State, a: Multiaddr, b: Multiaddr, y: Multiaddr)
    requires Inv(c, s) && Spent(s) && c.maxDials == 2 && s.addrs == [a, b, y]
    requires a != b && Frees(a, b) && !Frees(a, a) && !Frees(b, a) && !Frees(b, b)
    ensures CanLeakInTurn(2, s.addrs, 0) && CallsComplete(c, s)
  {
    var pos: map<Multiaddr, nat> := map[a := 0, b := 1];
    assert pos.Keys == {a, b} && Holding(2, s.addrs, pos) && InTurn(pos, 0);
    assert CallsComplete(c, s) by {
      TwoInFirstCall(s.addrs, a, b, y);
      CallsCompleteUnlessLeaking(c, s);
    }
  }

  lemma TwoInFirstCall(queue: seq<Multiaddr>, a: Multiaddr, b: Multiaddr, y: Multiaddr)
    requires queue == [a, b, y] && a != b && Frees(a, b)
    ensures !CanLeakInTurn(2, queue, FirstCall(2, queue))
  {
    assert Front(queue) == [a, b] && Front(Front(queue)) == [a];
    assert Distinct([a, b]) == {a, b} && Distinct([a]) == {a};
    forall pos | Holding(2, queue, pos) ensures !InTurn(pos, FirstCall(2, queue)) {
      forall h | h in pos.Keys ensures h in {a, b} {
        assert queue[pos[h]] == h;
      }
      if a !in pos || b !in pos {
        SubsetSize(pos.Keys, if a !in pos then {b} else {a});
      }
      assert queue[pos[b]] == b && pos[b] < 2;
    }
  }
}
