/**
 Fair schedules that never complete: leaking addresses fill all dial slots of an idle node,
 every failure is reported once, and nothing ever frees a slot again. Together with the
 conditions of `BootstrapLeaks` this decides when every fair schedule completes.
 */
module BootstrapBlocking {
  import opened Wrappers
  import opened Addresses
  import opened BootstrapMachine
  import opened BootstrapRuns
  import opened BootstrapLeaks

  /** Between two calls, with no dial open and no fetch outstanding. */
  predicate Idle(s: State)
  {
    && !s.completed && s.tasks == [] && s.events == [] && s.ongoing == {}
    && (s.log.taken == [] || !Last(s.log.taken).fate.Handed?)
  }

  // ---------------------------------------------------------------- the plan

  /** The swarm accepts the dial of the i-th address. */
  predicate Accepts(queue: seq<Multiaddr>, pos: map<Multiaddr, nat>, i: nat)
    requires i < |queue|
  {
    queue[i] in pos && pos[queue[i]] == i
  }

  /** The addresses in `pos` are among the first `k` of the queue, the last of which is one of them. */
  predicate Plan(c: Setup, s: State, pos: map<Multiaddr, nat>, k: nat)
  {
    && Idle(s) && c.maxContacted > 0 && k < |s.addrs| && |pos.Keys| == c.maxDials
    && (forall a | a in pos :: pos[a] < k && s.addrs[pos[a]] == a)
    && (k > 0 ==> Accepts(s.addrs, pos, k - 1))
  }

  /** The shortest prefix that will do. */
  function Reach(queue: seq<Multiaddr>, pos: map<Multiaddr, nat>, k: nat): nat
    requires k <= |queue|
  {
    if k > 0 && !Accepts(queue, pos, k - 1) then Reach(queue, pos, k - 1) else k
  }

  lemma {:induction false} ReachIsPlan(c: Setup, s: State, pos: map<Multiaddr, nat>, k: nat)
    requires Idle(s) && c.maxContacted > 0 && k < |s.addrs| && |pos.Keys| == c.maxDials
    requires forall a | a in pos :: pos[a] < k && s.addrs[pos[a]] == a
    ensures Plan(c, s, pos, Reach(s.addrs, pos, k))
  {
    if k > 0 && !Accepts(s.addrs, pos, k - 1) {
      ReachIsPlan(c, s, pos, k - 1);
    }
  }

  /** Reported at once, a failure frees no slot if the addresses leak in turn; reported in the end, if they
      leak at once. */
  predicate Leaks(pos: map<Multiaddr, nat>, atOnce: bool)
  {
    if atOnce then InTurn(pos, 0) else SlotsLeak(pos.Keys)
  }

  // ---------------------------------------------------------------- the schedule

  function AcceptedOf(queue: seq<Multiaddr>, pos: map<Multiaddr, nat>, k: nat): (r: seq<Multiaddr>)
    requires k <= |queue|
    ensures forall a | a in r :: a in pos
    ensures forall i | 0 <= i < k && Accepts(queue, pos, i) :: queue[i] in r
  {
    if k == 0 then []
    else AcceptedOf(queue, pos, k - 1) + if Accepts(queue, pos, k - 1) then [queue[k - 1]] else []
  }

  /** What follows the i-th dial: the report of its failure, or another poll of the channel. */
  function AfterDial(queue: seq<Multiaddr>, pos: map<Multiaddr, nat>, i: nat, atOnce: bool): Action
    requires i < |queue|
  {
    if atOnce && Accepts(queue, pos, i) then DialFailed(PopP2p(queue[i]).0) else ReadEvent
  }

  /** The failures of the dials in the list are reported once each; then nothing happens any more. */
  function InTheEnd(list: seq<Multiaddr>, j: nat): Action
  {
    if j < |list| then DialFailed(PopP2p(list[j]).0) else ReadEvent
  }

  /** The first `k` addresses are dialled and the swarm accepts those in `pos`; each failure is reported once. */
  function LeakAction(queue: seq<Multiaddr>, pos: map<Multiaddr, nat>, k: nat, atOnce: bool, n: nat): (a: Action)
    requires k <= |queue|
    ensures !a.Exhaust? && !a.Finish?
  {
    if n < 3 * k then
      if n % 3 == 0 then Hand
      else if n % 3 == 1 then DialHanded(Accepts(queue, pos, n / 3))
      else AfterDial(queue, pos, n / 3, atOnce)
    else InTheEnd(if atOnce then [] else AcceptedOf(queue, pos, k), n - 3 * k)
  }

  function LeakSchedule(queue: seq<Multiaddr>, pos: map<Multiaddr, nat>, k: nat, atOnce: bool): nat -> Action
    requires k <= |queue|
  {
    (n: nat) => LeakAction(queue, pos, k, atOnce, n)
  }

  lemma LeakTurns(queue: seq<Multiaddr>, pos: map<Multiaddr, nat>, k: nat, atOnce: bool, i: nat)
    requires i < k <= |queue|
    ensures var schedule := LeakSchedule(queue, pos, k, atOnce);
            && schedule(3 * i) == Hand
            && schedule(3 * i + 1) == DialHanded(Accepts(queue, pos, i))
            && schedule(3 * i + 2) == AfterDial(queue, pos, i, atOnce)
  {
    assert (3 * i) / 3 == i && (3 * i + 1) / 3 == i && (3 * i + 2) / 3 == i;
  }

  // ---------------------------------------------------------------- the states it passes

  function DialledAs(queue: seq<Multiaddr>, pos: map<Multiaddr, nat>, i: nat): (r: seq<Taken>)
    requires i <= |queue|
    ensures |r| == i
  {
    seq(i, j requires 0 <= j < i => Taken(queue[j], Dialed(Accepts(queue, pos, j))))
  }

  function HeldBy(pos: map<Multiaddr, nat>, i: nat): set<Multiaddr>
  {
    set a | a in pos && pos[a] < i
  }

  /** The state once the first `i` addresses have been dialled. */
  function LeakedAfter(s: State, pos: map<Multiaddr, nat>, i: nat): State
    requires i <= |s.addrs|
  {
    s.(addrs := s.addrs[i..], ongoing := HeldBy(pos, i),
       log := s.log.(taken := s.log.taken + DialledAs(s.addrs, pos, i)))
  }

  /** The state in between, with one more address handed out. */
  function LeakedHanded(s: State, pos: map<Multiaddr, nat>, i: nat): State
    requires i < |s.addrs|
  {
    s.(addrs := s.addrs[i + 1..], ongoing := HeldBy(pos, i),
       log := s.log.(taken := s.log.taken + DialledAs(s.addrs, pos, i) + [Taken(s.addrs[i], Handed)]))
  }

  lemma LeakHand(c: Setup, s: State, pos: map<Multiaddr, nat>, i: nat)
    requires i < |s.addrs|
    ensures Next(c, LeakedAfter(s, pos, i), Hand) == LeakedHanded(s, pos, i)
  {
    assert s.addrs[i..][0] == s.addrs[i] && s.addrs[i..][1..] == s.addrs[i + 1..];
  }

  lemma LeakedGrows(queue: seq<Multiaddr>, pos: map<Multiaddr, nat>, i: nat)
    requires i < |queue| && forall a | a in pos :: pos[a] < |queue| && queue[pos[a]] == a
    ensures DialledAs(queue, pos, i + 1) ==
            DialledAs(queue, pos, i) + [Taken(queue[i], Dialed(Accepts(queue, pos, i)))]
    ensures HeldBy(pos, i + 1) == HeldBy(pos, i) + if Accepts(queue, pos, i) then {queue[i]} else {}
  {
  }

  lemma LeakDialled(s: State, pos: map<Multiaddr, nat>, i: nat)
    requires i < |s.addrs| && forall a | a in pos :: pos[a] < |s.addrs| && s.addrs[pos[a]] == a
    ensures LeakedHanded(s, pos, i).log.taken != []
    ensures HandedDialled(LeakedHanded(s, pos, i), Accepts(s.addrs, pos, i)) == LeakedAfter(s, pos, i + 1)
  {
    var taken := s.log.taken + DialledAs(s.addrs, pos, i) + [Taken(s.addrs[i], Handed)];
    assert Front(taken) == s.log.taken + DialledAs(s.addrs, pos, i) && Last(taken).addr == s.addrs[i];
    LeakedGrows(s.addrs, pos, i);
  }

  lemma SlotFree(c: Setup, s: State, pos: map<Multiaddr, nat>, k: nat, i: nat)
    requires Plan(c, s, pos, k) && i < k
    ensures |HeldBy(pos, i)| < c.maxDials
  {
    assert s.addrs[k - 1] in pos.Keys && s.addrs[k - 1] !in HeldBy(pos, i);
    SubsetSize(HeldBy(pos, i), pos.Keys);
  }

  lemma LeakDial(c: Setup, s: State, pos: map<Multiaddr, nat>, k: nat, i: nat)
    requires Plan(c, s, pos, k) && i < k
    ensures Next(c, LeakedHanded(s, pos, i), DialHanded(Accepts(s.addrs, pos, i))) == LeakedAfter(s, pos, i + 1)
  {
    SlotFree(c, s, pos, k, i);
    LeakDialled(s, pos, i);
  }

  /** A report that frees no open slot changes nothing. */
  lemma FreesNone(c: Setup, t: State, a: Multiaddr)
    requires forall b | b in t.ongoing :: !Frees(a, b)
    ensures Next(c, t, DialFailed(PopP2p(a).0)) == t
  {
    assert OngoingAfterFailure(t.ongoing, PopP2p(a).0) == t.ongoing;
  }

  lemma LeakPause(c: Setup, s: State, pos: map<Multiaddr, nat>, k: nat, atOnce: bool, i: nat)
    requires Plan(c, s, pos, k) && Leaks(pos, atOnce) && i < k
    ensures Next(c, LeakedAfter(s, pos, i + 1), AfterDial(s.addrs, pos, i, atOnce)) == LeakedAfter(s, pos, i + 1)
  {
    if atOnce && Accepts(s.addrs, pos, i) {
      FreesNone(c, LeakedAfter(s, pos, i + 1), s.addrs[i]);
    }
  }

  lemma LeakEnds(c: Setup, s: State, pos: map<Multiaddr, nat>, k: nat, atOnce: bool, j: nat)
    requires Plan(c, s, pos, k) && Leaks(pos, atOnce)
    ensures var list := if atOnce then [] else AcceptedOf(s.addrs, pos, k);
            Next(c, LeakedAfter(s, pos, k), InTheEnd(list, j)) == LeakedAfter(s, pos, k)
  {
    var list := if atOnce then [] else AcceptedOf(s.addrs, pos, k);
    if j < |list| {
      assert list[j] in pos.Keys;
      FreesNone(c, LeakedAfter(s, pos, k), list[j]);
    }
  }

  lemma LeakedIsBlocked(c: Setup, s: State, pos: map<Multiaddr, nat>, k: nat)
    requires Plan(c, s, pos, k)
    ensures var t := LeakedAfter(s, pos, k); Blocked(c, t) && !Unfinished(c, t)
  {
    assert HeldBy(pos, k) == pos.Keys;
    if k > 0 {
      assert Last(s.log.taken + DialledAs(s.addrs, pos, k)).fate.Dialed?;
    } else {
      assert s.log.taken + DialledAs(s.addrs, pos, k) == s.log.taken;
    }
  }

  // ---------------------------------------------------------------- the run

  /** The schedule leads to `t` in `n` steps. (The quantifier keeps the steps folded until they are needed.) */
  ghost predicate Leads(c: Setup, s: State, schedule: nat -> Action, n: nat, t: State)
  {
    forall m: nat | m == n :: At(c, s, schedule, m) == t
  }

  lemma LeadsBegin(c: Setup, s: State, schedule: nat -> Action)
    ensures Leads(c, s, schedule, 0, s)
  {
  }

  lemma LeadsOn(c: Setup, s: State, schedule: nat -> Action, n: nat, t: State, a: Action, u: State)
    requires Leads(c, s, schedule, n, t) && schedule(n) == a && Next(c, t, a) == u
    ensures Leads(c, s, schedule, n + 1, u)
  {
    assert At(c, s, schedule, n) == t;
  }

  lemma LeadsTo(c: Setup, s: State, schedule: nat -> Action, n: nat, t: State)
    requires Leads(c, s, schedule, n, t)
    ensures At(c, s, schedule, n) == t
  {
  }

  lemma LeakBegins(s: State, pos: map<Multiaddr, nat>)
    requires Idle(s)
    ensures LeakedAfter(s, pos, 0) == s
  {
    assert s.log.taken + DialledAs(s.addrs, pos, 0) == s.log.taken && HeldBy(pos, 0) == {};
  }

  lemma LeakHands(c: Setup, s: State, pos: map<Multiaddr, nat>, k: nat, atOnce: bool, i: nat)
    requires i < k < |s.addrs|
    requires Leads(c, s, LeakSchedule(s.addrs, pos, k, atOnce), 3 * i, LeakedAfter(s, pos, i))
    ensures Leads(c, s, LeakSchedule(s.addrs, pos, k, atOnce), 3 * i + 1, LeakedHanded(s, pos, i))
  {
    LeakTurns(s.addrs, pos, k, atOnce, i);
    LeakHand(c, s, pos, i);
    LeadsOn(c, s, LeakSchedule(s.addrs, pos, k, atOnce), 3 * i, LeakedAfter(s, pos, i), Hand, LeakedHanded(s, pos, i));
  }

  lemma LeakDials(c: Setup, s: State, pos: map<Multiaddr, nat>, k: nat, atOnce: bool, i: nat)
    requires Plan(c, s, pos, k) && i < k
    requires Leads(c, s, LeakSchedule(s.addrs, pos, k, atOnce), 3 * i + 1, LeakedHanded(s, pos, i))
    ensures Leads(c, s, LeakSchedule(s.addrs, pos, k, atOnce), 3 * i + 2, LeakedAfter(s, pos, i + 1))
  {
    LeakTurns(s.addrs, pos, k, atOnce, i);
    LeakDial(c, s, pos, k, i);
    LeadsOn(c, s, LeakSchedule(s.addrs, pos, k, atOnce), 3 * i + 1, LeakedHanded(s, pos, i),
            DialHanded(Accepts(s.addrs, pos, i)), LeakedAfter(s, pos, i + 1));
  }

  lemma LeakPauses(c: Setup, s: State, pos: map<Multiaddr, nat>, k: nat, atOnce: bool, i: nat)
    requires Plan(c, s, pos, k) && Leaks(pos, atOnce) && i < k
    requires Leads(c, s, LeakSchedule(s.addrs, pos, k, atOnce), 3 * i + 2, LeakedAfter(s, pos, i + 1))
    ensures Leads(c, s, LeakSchedule(s.addrs, pos, k, atOnce), 3 * i + 3, LeakedAfter(s, pos, i + 1))
  {
    LeakTurns(s.addrs, pos, k, atOnce, i);
    LeakPause(c, s, pos, k, atOnce, i);
    LeadsOn(c, s, LeakSchedule(s.addrs, pos, k, atOnce), 3 * i + 2, LeakedAfter(s, pos, i + 1),
            AfterDial(s.addrs, pos, i, atOnce), LeakedAfter(s, pos, i + 1));
  }

  lemma {:induction false} LeakRun(c: Setup, s: State, pos: map<Multiaddr, nat>, k: nat, atOnce: bool, i: nat)
    requires Plan(c, s, pos, k) && Leaks(pos, atOnce) && i <= k
    ensures Leads(c, s, LeakSchedule(s.addrs, pos, k, atOnce), 3 * i, LeakedAfter(s, pos, i))
  {
    if i == 0 {
      LeakBegins(s, pos);
      LeadsBegin(c, s, LeakSchedule(s.addrs, pos, k, atOnce));
    } else {
      LeakRun(c, s, pos, k, atOnce, i - 1);
      LeakHands(c, s, pos, k, atOnce, i - 1);
      LeakDials(c, s, pos, k, atOnce, i - 1);
      LeakPauses(c, s, pos, k, atOnce, i - 1);
    }
  }

  lemma LeakStays(c: Setup, s: State, pos: map<Multiaddr, nat>, k: nat, atOnce: bool, n: nat, t: State)
    requires Plan(c, s, pos, k) && Leaks(pos, atOnce) && n >= 3 * k && t == LeakedAfter(s, pos, k)
    requires Leads(c, s, LeakSchedule(s.addrs, pos, k, atOnce), n, t)
    ensures Leads(c, s, LeakSchedule(s.addrs, pos, k, atOnce), n + 1, t)
  {
    var a := LeakAction(s.addrs, pos, k, atOnce, n);
    assert Next(c, t, a) == t by {
      LeakEnds(c, s, pos, k, atOnce, n - 3 * k);
    }
    LeadsOn(c, s, LeakSchedule(s.addrs, pos, k, atOnce), n, t, a, t);
  }

  lemma {:induction false} LeakRests(c: Setup, s: State, pos: map<Multiaddr, nat>, k: nat, atOnce: bool, n: nat)
    requires Plan(c, s, pos, k) && Leaks(pos, atOnce) && n >= 3 * k
    ensures Leads(c, s, LeakSchedule(s.addrs, pos, k, atOnce), n, LeakedAfter(s, pos, k))
  {
    if n == 3 * k {
      LeakRun(c, s, pos, k, atOnce, k);
    } else {
      LeakRests(c, s, pos, k, atOnce, n - 1);
      LeakStays(c, s, pos, k, atOnce, n - 1, LeakedAfter(s, pos, k));
    }
  }

  // ---------------------------------------------------------------- it is fair

  lemma LeakDischarges(c: Setup, s: State, pos: map<Multiaddr, nat>, k: nat, atOnce: bool, n: nat, d: Duty)
    requires Plan(c, s, pos, k) && Leaks(pos, atOnce)
    ensures DischargedFrom(c, s, LeakSchedule(s.addrs, pos, k, atOnce), n, d)
  {
    var schedule, m := LeakSchedule(s.addrs, pos, k, atOnce), n + 3 * k;
    LeakedIsBlocked(c, s, pos, k);
    LeakRests(c, s, pos, k, atOnce, m);
    LeadsTo(c, s, schedule, m, LeakedAfter(s, pos, k));
    assert Discharged(c, At(c, s, schedule, m), schedule(m), d);
  }

  lemma LeakDialTurn(queue: seq<Multiaddr>, pos: map<Multiaddr, nat>, k: nat, atOnce: bool, j: nat) returns (i: nat)
    requires k <= |queue| && LeakSchedule(queue, pos, k, atOnce)(j) == DialHanded(true)
    ensures j == 3 * i + 1 && i < k && Accepts(queue, pos, i)
  {
    i := j / 3;
  }

  lemma LeakHandedAt(c: Setup, s: State, pos: map<Multiaddr, nat>, k: nat, atOnce: bool, i: nat)
    requires Plan(c, s, pos, k) && Leaks(pos, atOnce) && i < k
    ensures Leads(c, s, LeakSchedule(s.addrs, pos, k, atOnce), 3 * i + 1, LeakedHanded(s, pos, i))
  {
    LeakRun(c, s, pos, k, atOnce, i);
    LeakHands(c, s, pos, k, atOnce, i);
  }

  /** Accepted dials are those of the addresses in `pos`. */
  lemma LeakOpens(c: Setup, s: State, pos: map<Multiaddr, nat>, k: nat, atOnce: bool, j: nat, t: State, a: Multiaddr)
    returns (i: nat)
    requires Plan(c, s, pos, k) && Leaks(pos, atOnce)
    requires Leads(c, s, LeakSchedule(s.addrs, pos, k, atOnce), j, t)
    requires Opens(c, t, LeakSchedule(s.addrs, pos, k, atOnce)(j), a)
    ensures j == 3 * i + 1 && i < k && Accepts(s.addrs, pos, i) && s.addrs[i] == a
  {
    i := LeakDialTurn(s.addrs, pos, k, atOnce, j);
    LeakHandedAt(c, s, pos, k, atOnce, i);
    LeadsOnce(c, s, LeakSchedule(s.addrs, pos, k, atOnce), j, t, LeakedHanded(s, pos, i));
  }

  lemma LeadsOnce(c: Setup, s: State, schedule: nat -> Action, n: nat, t: State, u: State)
    requires Leads(c, s, schedule, n, t) && Leads(c, s, schedule, n, u)
    ensures t == u
  {
    assert At(c, s, schedule, n) == t;
  }

  lemma AnsweredBy(c: Setup, s: State, schedule: nat -> Action, n: nat, m: nat, a: Multiaddr)
    requires n <= m && schedule(m) == DialFailed(PopP2p(a).0)
    ensures AnsweredFrom(c, s, schedule, n, a)
  {
    assert Answered(At(c, s, schedule, m), schedule(m), a);
  }

  lemma LeakAnswers(c: Setup, s: State, pos: map<Multiaddr, nat>, k: nat, atOnce: bool, i: nat)
    requires i < k <= |s.addrs| && Accepts(s.addrs, pos, i)
    ensures AnsweredFrom(c, s, LeakSchedule(s.addrs, pos, k, atOnce), 3 * i + 2, s.addrs[i])
  {
    var schedule := LeakSchedule(s.addrs, pos, k, atOnce);
    if atOnce {
      LeakTurns(s.addrs, pos, k, atOnce, i);
      AnsweredBy(c, s, schedule, 3 * i + 2, 3 * i + 2, s.addrs[i]);
    } else {
      var list := AcceptedOf(s.addrs, pos, k);
      assert s.addrs[i] in list;
      var j :| 0 <= j < |list| && list[j] == s.addrs[i];
      assert schedule(3 * k + j) == InTheEnd(list, j);
      AnsweredBy(c, s, schedule, 3 * i + 2, 3 * k + j, s.addrs[i]);
    }
  }

  lemma LeakIsFair(c: Setup, s: State, pos: map<Multiaddr, nat>, k: nat, atOnce: bool)
    requires Plan(c, s, pos, k) && Leaks(pos, atOnce)
    ensures Fair(c, s, LeakSchedule(s.addrs, pos, k, atOnce))
  {
    var schedule := LeakSchedule(s.addrs, pos, k, atOnce);
    forall n: nat, d: Duty ensures DischargedFrom(c, s, schedule, n, d) {
      LeakDischarges(c, s, pos, k, atOnce, n, d);
    }
    forall j: nat, a | Opens(c, At(c, s, schedule, j), schedule(j), a) ensures AnsweredFrom(c, s, schedule, j + 1, a) {
      var i := LeakOpens(c, s, pos, k, atOnce, j, At(c, s, schedule, j), a);
      LeakAnswers(c, s, pos, k, atOnce, i);
    }
  }

  lemma LeakIsCallWise(c: Setup, s: State, pos: map<Multiaddr, nat>, k: nat)
    requires Plan(c, s, pos, k) && Leaks(pos, false)
    ensures CallWise(c, s, LeakSchedule(s.addrs, pos, k, false))
  {
    var schedule := LeakSchedule(s.addrs, pos, k, false);
    forall n: nat | InCall(c, s, schedule, n) ensures !Callback(schedule(n)) {
      if n >= 3 * k {
        LeakRests(c, s, pos, k, false, n);
        LeadsTo(c, s, schedule, n, LeakedAfter(s, pos, k));
        LeakedIsBlocked(c, s, pos, k);
      }
    }
  }

  lemma {:induction false} NeverCompleted(c: Setup, s: State, schedule: nat -> Action, n: nat)
    requires !s.completed && forall m: nat :: !schedule(m).Exhaust? && !schedule(m).Finish?
    ensures !At(c, s, schedule, n).completed
  {
    if n > 0 {
      NeverCompleted(c, s, schedule, n - 1);
      StaysUncompleted(c, At(c, s, schedule, n - 1), schedule(n - 1));
    }
  }

  lemma StaysUncompleted(c: Setup, s: State, a: Action)
    requires !s.completed && !a.Exhaust? && !a.Finish?
    ensures !Next(c, s, a).completed
  {
  }

  lemma LeakSettles(c: Setup, s: State, pos: map<Multiaddr, nat>, k: nat, atOnce: bool)
    requires Plan(c, s, pos, k) && Leaks(pos, atOnce)
    ensures SettledFrom(c, s, LeakSchedule(s.addrs, pos, k, atOnce), 3 * k)
    ensures Blocked(c, At(c, s, LeakSchedule(s.addrs, pos, k, atOnce), 3 * k))
  {
    var schedule := LeakSchedule(s.addrs, pos, k, atOnce);
    forall n: nat | 3 * k <= n ensures At(c, s, schedule, n) == LeakedAfter(s, pos, k) {
      LeakRests(c, s, pos, k, atOnce, n);
      LeadsTo(c, s, schedule, n, LeakedAfter(s, pos, k));
    }
    LeakedIsBlocked(c, s, pos, k);
  }

  /** Leaking addresses with another one behind them make a fair schedule of an idle node that comes to rest
      blocked and never completes. If they leak at once, it is one call of the dialer and its callbacks. */
  lemma LeakBlocksForEver(c: Setup, s: State, pos: map<Multiaddr, nat>, atOnce: bool) returns (schedule: nat -> Action)
    requires Idle(s) && c.maxContacted > 0 && Holding(c.maxDials, s.addrs, pos) && Leaks(pos, atOnce)
    ensures Fair(c, s, schedule) && !Completes(c, s, schedule) && (!atOnce ==> CallWise(c, s, schedule))
    ensures exists n: nat :: SettledFrom(c, s, schedule, n) && Blocked(c, At(c, s, schedule, n))
    ensures c.maxDials > 0 ==> schedule(0) == Hand
  {
    var k := Reach(s.addrs, pos, |s.addrs| - 1);
    ReachIsPlan(c, s, pos, |s.addrs| - 1);
    schedule := LeakSchedule(s.addrs, pos, k, atOnce);
    LeakIsFair(c, s, pos, k, atOnce);
    if !atOnce {
      LeakIsCallWise(c, s, pos, k);
    }
    forall n: nat ensures !schedule(n).Exhaust? && !schedule(n).Finish? {
      assert schedule(n) == LeakAction(s.addrs, pos, k, atOnce, n);
    }
    forall n: nat ensures !At(c, s, schedule, n).completed {
      NeverCompleted(c, s, schedule, n);
    }
    LeakSettles(c, s, pos, k, atOnce);
    if k == 0 {
      assert pos.Keys == {};
    }
  }

  // ---------------------------------------------------------------- when fair schedules complete

  /** The exact condition if callbacks may come at any time, even between two dials: every fair schedule of a
      spent node completes if and only if no contact is wanted or its queue cannot leak all slots in turn. */
  lemma FairCompletesExactly(c: Setup, s: State)
    requires Inv(c, s) && Spent(s)
    ensures (forall schedule: nat -> Action :: Fair(c, s, schedule) ==> Completes(c, s, schedule)) <==>
            c.maxContacted == 0 || !CanLeakInTurn(c.maxDials, s.addrs, 0)
  {
    if c.maxContacted > 0 && CanLeakInTurn(c.maxDials, s.addrs, 0) {
      var pos :| Holding(c.maxDials, s.addrs, pos) && InTurn(pos, 0);
      var schedule := LeakBlocksForEver(c, s, pos, true);
    } else {
      forall schedule: nat -> Action | Fair(c, s, schedule) ensures Completes(c, s, schedule) {
        FairCompletes(c, s, schedule, 0);
      }
    }
  }

  /** Every fair schedule of the node in which no callback comes in the middle of a call completes. */
  ghost predicate CallsComplete(c: Setup, s: State)
  {
    forall schedule: nat -> Action :: Fair(c, s, schedule) && CallWise(c, s, schedule) ==> Completes(c, s, schedule)
  }

  /** The two halves for schedules made of whole calls: they all complete if the queue cannot leak in turn
      behind the first call, and they do not if it can leak at once. */
  lemma CallsCompleteUnlessLeaking(c: Setup, s: State)
    requires Inv(c, s) && Spent(s)
    ensures c.maxContacted == 0 || !CanLeakInTurn(c.maxDials, s.addrs, FirstCall(c.maxDials, s.addrs)) ==>
              CallsComplete(c, s)
    ensures c.maxContacted > 0 && CanLeak(c.maxDials, s.addrs) ==> !CallsComplete(c, s)
  {
    var first := FirstCall(c.maxDials, s.addrs);
    if c.maxContacted == 0 || !CanLeakInTurn(c.maxDials, s.addrs, first) {
      forall schedule: nat -> Action | Fair(c, s, schedule) && CallWise(c, s, schedule)
        ensures Completes(c, s, schedule)
      {
        FairCompletes(c, s, schedule, first);
      }
    }
    if c.maxContacted > 0 && CanLeak(c.maxDials, s.addrs) {
      var pos :| Holding(c.maxDials, s.addrs, pos) && SlotsLeak(pos.Keys);
      var schedule := LeakBlocksForEver(c, s, pos, false);
    }
  }

  /** With one slot the halves meet: all schedules made of whole calls complete if and only if no contact is
      wanted or the two readings of the peer id agree on every address in front of the last. */
  lemma OneSlotCompletesExactly(c: Setup, s: State)
    requires Inv(c, s) && Spent(s) && c.maxDials == 1 && s.addrs != []
    ensures CallsComplete(c, s) <==> c.maxContacted == 0 || forall a | a in Front(s.addrs) :: IdsAgree(a)
  {
    CallsCompleteUnlessLeaking(c, s);
    OneSlotLeaksExactly(s.addrs, FirstCall(c.maxDials, s.addrs));
  }

  // ---------------------------------------------------------------- nodes with a source left

  /** The schedule with an action in front. */
  function Prepend(a: Action, schedule: nat -> Action): nat -> Action
  {
    (n: nat) => if n == 0 then a else schedule(n - 1)
  }

  lemma {:induction false} AtPrepend(c: Setup, s: State, a: Action, schedule: nat -> Action, n: nat)
    ensures At(c, s, Prepend(a, schedule), n + 1) == At(c, Next(c, s, a), schedule, n)
  {
    if n > 0 {
      AtPrepend(c, s, a, schedule, n - 1);
    } else {
      assert At(c, s, Prepend(a, schedule), 0) == s;
    }
  }

  predicate TakesAddr(a: Action)
  {
    a.Hand? || a.DialHanded?
  }

  /** A fair schedule that never completes, made of whole calls. */
  ghost predicate NeverDone(c: Setup, s: State, schedule: nat -> Action)
  {
    Fair(c, s, schedule) && CallWise(c, s, schedule) && !Completes(c, s, schedule)
  }

  lemma InCallFirst(c: Setup, s: State, a: Action, schedule: nat -> Action)
    requires InCall(c, s, Prepend(a, schedule), 1)
    ensures TakesAddr(a) && Unfinished(c, Next(c, s, a))
  {
    AtPrepend(c, s, a, schedule, 0);
    assert !InCall(c, s, Prepend(a, schedule), 0);
  }

  lemma {:induction false} InCallPrepend(c: Setup, s: State, a: Action, schedule: nat -> Action, n: nat)
    requires TakesAddr(a) && Unfinished(c, Next(c, s, a)) ==> TakesAddr(schedule(0))
    requires n > 0 && InCall(c, s, Prepend(a, schedule), n + 1)
    ensures InCall(c, Next(c, s, a), schedule, n)
  {
    AtPrepend(c, s, a, schedule, n);
    assert Prepend(a, schedule)(n) == schedule(n - 1);
    if !TakesAddr(schedule(n - 1)) {
      if n == 1 {
        InCallFirst(c, s, a, schedule);
      } else {
        InCallPrepend(c, s, a, schedule, n - 1);
      }
    }
  }

  lemma PrependCallWise(c: Setup, s: State, a: Action, schedule: nat -> Action)
    requires TakesAddr(a) && Unfinished(c, Next(c, s, a)) ==> TakesAddr(schedule(0))
    requires CallWise(c, Next(c, s, a), schedule)
    ensures CallWise(c, s, Prepend(a, schedule))
  {
    forall n: nat | InCall(c, s, Prepend(a, schedule), n) ensures !Callback(Prepend(a, schedule)(n)) {
      if n == 1 {
        InCallFirst(c, s, a, schedule);
      } else {
        InCallPrepend(c, s, a, schedule, n - 1);
      }
    }
  }

  /** From its second step on the first schedule does what the other does from `u`. */
  ghost predicate Follows(c: Setup, s: State, schedule: nat -> Action, u: State, rest: nat -> Action)
  {
    forall n: nat :: At(c, s, schedule, n + 1) == At(c, u, rest, n) && schedule(n + 1) == rest(n)
  }

  lemma PrependFollows(c: Setup, s: State, a: Action, rest: nat -> Action)
    ensures Follows(c, s, Prepend(a, rest), Next(c, s, a), rest)
  {
    forall n: nat ensures At(c, s, Prepend(a, rest), n + 1) == At(c, Next(c, s, a), rest, n) {
      AtPrepend(c, s, a, rest, n);
    }
  }

  lemma FollowsDischarged(c: Setup, s: State, schedule: nat -> Action, u: State, rest: nat -> Action, n: nat, d: Duty)
    requires Follows(c, s, schedule, u, rest) && DischargedFrom(c, u, rest, n, d)
    ensures DischargedFrom(c, s, schedule, n, d)
  {
    var m: nat :| n <= m && Discharged(c, At(c, u, rest, m), rest(m), d);
    assert Discharged(c, At(c, s, schedule, m + 1), schedule(m + 1), d);
  }

  lemma FollowsAnswered(c: Setup, s: State, schedule: nat -> Action, u: State, rest: nat -> Action, n: nat,
                        addr: Multiaddr)
    requires Follows(c, s, schedule, u, rest) && AnsweredFrom(c, u, rest, n, addr)
    ensures AnsweredFrom(c, s, schedule, n + 1, addr)
  {
    var m: nat :| n <= m && Answered(At(c, u, rest, m), rest(m), addr);
    assert Answered(At(c, s, schedule, m + 1), schedule(m + 1), addr);
  }

  lemma FollowsFair(c: Setup, s: State, schedule: nat -> Action, u: State, rest: nat -> Action)
    requires Follows(c, s, schedule, u, rest) && Fair(c, u, rest)
    requires s.ongoing == {} && schedule(0) != DialHanded(true)
    ensures Fair(c, s, schedule)
  {
    forall n: nat, d: Duty ensures DischargedFrom(c, s, schedule, n, d) {
      FollowsDischarged(c, s, schedule, u, rest, n, d);
    }
    forall k: nat, addr | Opens(c, At(c, s, schedule, k), schedule(k), addr)
      ensures AnsweredFrom(c, s, schedule, k + 1, addr)
    {
      var j: nat := k - 1;
      assert At(c, s, schedule, j + 1) == At(c, u, rest, j);
      assert Opens(c, At(c, u, rest, j), rest(j), addr);
      FollowsAnswered(c, s, schedule, u, rest, k, addr);
    }
  }

  lemma PrependNeverDone(c: Setup, s: State, a: Action, schedule: nat -> Action)
    requires !s.completed && s.ongoing == {} && a != DialHanded(true)
    requires TakesAddr(a) && Unfinished(c, Next(c, s, a)) ==> TakesAddr(schedule(0))
    requires NeverDone(c, Next(c, s, a), schedule)
    ensures NeverDone(c, s, Prepend(a, schedule))
  {
    PrependFollows(c, s, a, schedule);
    FollowsFair(c, s, Prepend(a, schedule), Next(c, s, a), schedule);
    PrependCallWise(c, s, a, schedule);
    forall n: nat ensures !At(c, s, Prepend(a, schedule), n).completed {
      if n > 0 {
        AtPrepend(c, s, a, schedule, n - 1);
      }
    }
  }

  /** The i-th of a family of addresses that leak at once. */
  function LeakyAddr(i: nat): Multiaddr
  {
    [P2p(seq(i + 1, _ => 'r')), P2p("t")]
  }

  lemma LeakyIds(i: nat)
    ensures GetPeerId(LeakyAddr(i)) == Some(seq(i + 1, _ => 'r')) && PopP2p(LeakyAddr(i)).0 == Some("t")
    ensures |LeakyAddr(i)[0].peer| == i + 1 && GetPeerId(LeakyAddr(i)).value[0] == 'r'
  {
  }

  function LeakyBatch(k: nat): (r: seq<Multiaddr>)
    ensures |r| == k
  {
    seq(k, i requires 0 <= i => LeakyAddr(i))
  }

  function LeakyPos(k: nat): (r: map<Multiaddr, nat>)
    ensures |r.Keys| == k && forall a | a in r :: r[a] < k && a == LeakyAddr(r[a])
  {
    if k == 0 then map[]
    else
      assert |LeakyAddr(k - 1)[0].peer| == k;
      assert LeakyPos(k - 1)[LeakyAddr(k - 1) := k - 1].Keys == LeakyPos(k - 1).Keys + {LeakyAddr(k - 1)};
      LeakyPos(k - 1)[LeakyAddr(k - 1) := k - 1]
  }

  lemma LeakyLeaks(k: nat)
    ensures Holding(k, LeakyBatch(k + 1), LeakyPos(k)) && SlotsLeak(LeakyPos(k).Keys)
  {
    forall a, b | a in LeakyPos(k).Keys && b in LeakyPos(k).Keys ensures !Frees(a, b) {
      LeakyIds(LeakyPos(k)[a]);
      LeakyIds(LeakyPos(k)[b]);
    }
  }

  /** The next source is started, delivers the batch, and is read. */
  function NextStart(s: State): Action
  {
    if s.cachePending then StartCache else StartContacts
  }

  lemma SourceDelivers(c: Setup, s: State, batch: seq<Multiaddr>)
    requires FetchInv(s) && Idle(s) && s.addrs == [] && Remaining(s) != []
    ensures var u := Next(c, s, NextStart(s));
            var v := Next(c, u, Deliver(0, batch));
            var t := Next(c, v, ReadEvent);
            && !u.completed && !v.completed && u.ongoing == {} && v.ongoing == {}
            && Idle(t) && t.addrs == batch
  {
    var u := Next(c, s, NextStart(s));
    assert |u.tasks| == 1;
  }

  lemma RefusedDial(c: Setup, s: State)
    requires FetchInv(s) && Idle(s) && s.addrs != [] && c.maxDials > 0
    ensures var u := Next(c, s, Hand);
            var t := Next(c, u, DialHanded(false));
            && !u.completed && u.ongoing == {}
            && FetchInv(t) && Idle(t) && t.addrs == s.addrs[1..] && Remaining(t) == Remaining(s)
  {
    var u := Next(c, s, Hand);
    FetchInvNext(c, s, Hand);
    FetchInvNext(c, u, DialHanded(false));
    assert Next(c, u, DialHanded(false)).cachePending == s.cachePending;
  }

  /** As long as a source is left, nothing about the node itself ensures completion: once a contact is wanted,
      every idle node with a slot has a fair schedule, made of whole calls, that never completes. */
  lemma {:induction false} SourceLeftMayBlock(c: Setup, s: State) returns (schedule: nat -> Action)
    requires FetchInv(s) && Idle(s) && Remaining(s) != [] && c.maxContacted > 0 && c.maxDials > 0
    ensures NeverDone(c, s, schedule)
    ensures s.addrs != [] ==> schedule(0) == Hand
    decreases |s.addrs|
  {
    if s.addrs != [] {
      RefusedDial(c, s);
      var u := Next(c, s, Hand);
      var t := Next(c, u, DialHanded(false));
      var rest := SourceLeftMayBlock(c, t);
      PrependNeverDone(c, u, DialHanded(false), rest);
      PrependNeverDone(c, s, Hand, Prepend(DialHanded(false), rest));
      schedule := Prepend(Hand, Prepend(DialHanded(false), rest));
    } else {
      var batch := LeakyBatch(c.maxDials + 1);
      SourceDelivers(c, s, batch);
      LeakyLeaks(c.maxDials);
      var u := Next(c, s, NextStart(s));
      var v := Next(c, u, Deliver(0, batch));
      var t := Next(c, v, ReadEvent);
      var rest := LeakBlocksForEver(c, t, LeakyPos(c.maxDials), false);
      PrependNeverDone(c, v, ReadEvent, rest);
      PrependNeverDone(c, u, Deliver(0, batch), Prepend(ReadEvent, rest));
      PrependNeverDone(c, s, NextStart(s), Prepend(Deliver(0, batch), Prepend(ReadEvent, rest)));
      schedule := Prepend(NextStart(s), Prepend(Deliver(0, batch), Prepend(ReadEvent, rest)));
    }
  }
}
