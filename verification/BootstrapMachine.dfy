/**
 The bootstrap address flow and dialer as a state machine over the atomic steps of
 `Bootstrap`: its own steps, the completion of a spawned fetch task, and the
 callbacks of the swarm. A run is any sequence of actions; an action that is not
 enabled changes nothing.
 */
module BootstrapMachine {
  import opened Wrappers
  import opened Addresses

  type Url = string

  datatype FetchKind = Cache | Contacts

  /** A place addresses can be fetched from. */
  datatype Source = CacheFile | Endpoint(url: Url)

  /** The message a fetch task sends when it ends: empty on failure or timeout. */
  datatype FetchEvent = FetchEvent(kind: FetchKind, addrs: seq<Multiaddr>)

  /** What became of an address that left the queue. */
  datatype Fate = Handed | Dialed(accepted: bool) | Cleared

  datatype Taken = Taken(addr: Multiaddr, fate: Fate)

  /** The two limits of the configuration and the sources it enables, in order. */
  datatype Setup = Setup(maxDials: nat, maxContacted: nat, sources: seq<Source>)

  /**
   The history of a run: the queue it began with, the batches read from the channel, the
   addresses taken from the queue, the fetches started and the number of events read.
   */
  datatype Log = Log(
    initial: seq<Multiaddr>,
    batches: seq<seq<Multiaddr>>,
    taken: seq<Taken>,
    started: seq<Source>,
    readCount: nat)

  /** The fields of `Bootstrap` up to `completed`, the fetch tasks still running, and the history. */
  datatype State = State(
    addrs: seq<Multiaddr>,
    cachePending: bool,
    contacts: Option<seq<Url>>,
    events: seq<FetchEvent>,
    inProgress: Option<FetchKind>,
    ongoing: set<Multiaddr>,
    peerIds: set<PeerId>,
    completed: bool,
    tasks: seq<Source>,
    log: Log)

  datatype Action =
    | Deliver(task: nat, batch: seq<Multiaddr>)
    | ReadEvent
    | Hand
    | StartCache
    | StartContacts
    | DialHanded(accepted: bool)
    | Exhaust
    | Finish(contacted: nat)
    | Established(dialled: Option<Multiaddr>, peer: PeerId)
    | DialFailed(failed: Option<PeerId>)

  // ---------------------------------------------------------------- vocabulary

  function FetchKindOf(src: Source): FetchKind
  {
    if src.CacheFile? then Cache else Contacts
  }

  function EndpointsOf(urls: seq<Url>): (r: seq<Source>)
    ensures |r| == |urls|
  {
    seq(|urls|, i requires 0 <= i < |urls| => Endpoint(urls[i]))
  }

  function Urls(contacts: Option<seq<Url>>): seq<Url>
  {
    if contacts.Some? then contacts.value else []
  }

  /** The sources not yet started. */
  function Remaining(s: State): seq<Source>
  {
    (if s.cachePending then [CacheFile] else []) + EndpointsOf(Urls(s.contacts))
  }

  /** The queue is empty and nothing is left that could refill it, as `has_bootstrap_completed` tests it. */
  predicate Exhausted(s: State)
  {
    s.addrs == [] && !s.cachePending && s.contacts.None? && s.inProgress.None?
  }

  predicate HasCompleted(c: Setup, s: State, contacted: nat)
  {
    s.completed || contacted >= c.maxContacted || Exhausted(s)
  }

  function AddrsOf(taken: seq<Taken>): (r: seq<Multiaddr>)
    ensures |r| == |taken|
  {
    seq(|taken|, i requires 0 <= i < |taken| => taken[i].addr)
  }

  lemma AddrsOfSnoc(taken: seq<Taken>, t: Taken)
    ensures AddrsOf(taken + [t]) == AddrsOf(taken) + [t.addr]
  {
  }

  function ClearedAll(addrs: seq<Multiaddr>): (r: seq<Taken>)
    ensures |r| == |addrs|
  {
    seq(|addrs|, i requires 0 <= i < |addrs| => Taken(addrs[i], Cleared))
  }

  function Contents(events: seq<FetchEvent>): (r: seq<seq<Multiaddr>>)
    ensures |r| == |events|
  {
    seq(|events|, i requires 0 <= i < |events| => events[i].addrs)
  }

  /** Everything the sources have put into the queue, in order. */
  function Supplied(s: State): seq<Multiaddr>
  {
    s.log.initial + Flatten(s.log.batches)
  }

  function PeerIdsIn(addrs: seq<Multiaddr>): set<PeerId>
  {
    set a | a in addrs && GetPeerId(a).Some? :: GetPeerId(a).value
  }

  /** The addresses for which a dial was requested, in order. */
  function DialLog(taken: seq<Taken>): seq<Multiaddr>
  {
    if taken == [] then []
    else DialLog(Front(taken)) + if Last(taken).fate.Dialed? then [Last(taken).addr] else []
  }

  function HandedCount(taken: seq<Taken>): nat
  {
    if taken == [] then 0
    else HandedCount(Front(taken)) + if Last(taken).fate.Handed? then 1 else 0
  }

  // ---------------------------------------------------------------- steps

  predicate Enabled(c: Setup, s: State, a: Action)
  {
    match a
    case Deliver(i, _) => i < |s.tasks|
    case ReadEvent => s.events != []
    case Hand => s.addrs != []
    case StartCache => s.addrs == [] && s.inProgress.None? && s.cachePending
    case StartContacts => s.addrs == [] && s.inProgress.None? && !s.cachePending && s.contacts.Some?
    case DialHanded(_) =>
      !s.completed && |s.ongoing| < c.maxDials && s.log.taken != [] && Last(s.log.taken).fate.Handed?
    case Exhaust => Exhausted(s)
    case Finish(contacted) => HasCompleted(c, s, contacted)
    case Established(_, _) => !s.completed
    case DialFailed(_) => !s.completed
  }

  /** A task ends: its event joins the channel. */
  function Delivered(s: State, i: nat, batch: seq<Multiaddr>): State
    requires i < |s.tasks|
  {
    s.(tasks := s.tasks[..i] + s.tasks[i + 1..],
       events := s.events + [FetchEvent(FetchKindOf(s.tasks[i]), batch)])
  }

  /** The oldest event is read: its addresses join the queue. */
  function EventRead(s: State): State
    requires s.events != []
  {
    var e := s.events[0];
    s.(events := s.events[1..],
       addrs := s.addrs + e.addrs,
       peerIds := s.peerIds + PeerIdsIn(e.addrs),
       contacts := if e.kind == Contacts && Urls(s.contacts) == [] then None else s.contacts,
       inProgress := None,
       log := s.log.(batches := s.log.batches + [e.addrs], readCount := s.log.readCount + 1))
  }

  function Spawned(s: State, src: Source): State
  {
    s.(tasks := s.tasks + [src], inProgress := Some(FetchKindOf(src)), log := s.log.(started := s.log.started + [src]))
  }

  function ContactsStarted(s: State): State
    requires s.contacts.Some?
  {
    if s.contacts.value == [] then s.(contacts := None)
    else Spawned(s.(contacts := Some(s.contacts.value[1..])), Endpoint(s.contacts.value[0]))
  }

  function HandedOut(s: State): State
    requires s.addrs != []
  {
    s.(addrs := s.addrs[1..], log := s.log.(taken := s.log.taken + [Taken(s.addrs[0], Handed)]))
  }

  function HandedDialled(s: State, accepted: bool): State
    requires s.log.taken != []
  {
    var addr := Last(s.log.taken).addr;
    s.(log := s.log.(taken := Front(s.log.taken) + [Taken(addr, Dialed(accepted))]),
       ongoing := if accepted then s.ongoing + {addr} else s.ongoing)
  }

  function Finished(s: State): State
  {
    s.(completed := true, addrs := [], ongoing := {}, log := s.log.(taken := s.log.taken + ClearedAll(s.addrs)))
  }

  /** The dials a connection to `peer` leaves open: the dialled address goes, or else all of the peer's. */
  function OngoingAfterEstablished(ongoing: set<Multiaddr>, dialled: Option<Multiaddr>, peer: PeerId): set<Multiaddr>
  {
    if dialled.None? then ongoing
    else if dialled.value in ongoing then ongoing - {dialled.value}
    else set a | a in ongoing && GetPeerId(a) != Some(peer)
  }

  /** The dials a failure leaves open: all but those of the failed peer, or all that name some peer. */
  function OngoingAfterFailure(ongoing: set<Multiaddr>, failed: Option<PeerId>): set<Multiaddr>
  {
    set a | a in ongoing && GetPeerId(a) != failed
  }

  function Next(c: Setup, s: State, a: Action): State
  {
    if !Enabled(c, s, a) then s else
    match a
    case Deliver(i, batch) => Delivered(s, i, batch)
    case ReadEvent => EventRead(s)
    case Hand => HandedOut(s)
    case StartCache => Spawned(s.(cachePending := false), CacheFile)
    case StartContacts => ContactsStarted(s)
    case DialHanded(accepted) => HandedDialled(s, accepted)
    case Exhaust => s.(completed := true)
    case Finish(_) => Finished(s)
    case Established(dialled, peer) => s.(ongoing := OngoingAfterEstablished(s.ongoing, dialled, peer))
    case DialFailed(failed) => s.(ongoing := OngoingAfterFailure(s.ongoing, failed))
  }

  /** The state a run leads to. */
  function After(c: Setup, s: State, run: seq<Action>): State
  {
    if run == [] then s else Next(c, After(c, s, Front(run)), Last(run))
  }

  lemma AfterSnoc(c: Setup, s: State, run: seq<Action>, a: Action)
    ensures After(c, s, run + [a]) == Next(c, After(c, s, run), a)
  {
    assert Front(run + [a]) == run;
  }

  // ---------------------------------------------------------------- invariant

  /** Exactly one fetch is outstanding, as a task or as an unread event of the same kind, when one
      is recorded as in progress, and none otherwise; every fetch started is read or outstanding. */
  predicate FetchInv(s: State)
  {
    && (s.inProgress.None? ==> s.tasks == [] && s.events == [])
    && (s.inProgress.Some? ==>
          || (|s.tasks| == 1 && s.events == [] && FetchKindOf(s.tasks[0]) == s.inProgress.value)
          || (s.tasks == [] && |s.events| == 1 && s.events[0].kind == s.inProgress.value))
    && (s.contacts == Some([]) ==> s.inProgress == Some(Contacts))
    && |s.log.started| == s.log.readCount + |s.tasks| + |s.events|
    && (s.tasks != [] ==> s.log.started != [] && s.tasks[0] == Last(s.log.started))
  }

  /** The fetches started, then the sources left, are the configured sources. */
  predicate SourceInv(c: Setup, s: State)
  {
    s.log.started + Remaining(s) == c.sources
  }

  /** The addresses taken, then those queued, are the addresses supplied; and the peers known are theirs. */
  predicate FlowInv(s: State)
  {
    && AddrsOf(s.log.taken) + s.addrs == Supplied(s)
    && s.peerIds == PeerIdsIn(Supplied(s))
  }

  predicate DialInv(c: Setup, s: State)
  {
    && |s.ongoing| <= c.maxDials
    && (forall a | a in s.ongoing :: Taken(a, Dialed(true)) in s.log.taken)
  }

  predicate Inv(c: Setup, s: State)
  {
    FetchInv(s) && SourceInv(c, s) && FlowInv(s) && DialInv(c, s)
  }

  lemma FetchInvNext(c: Setup, s: State, a: Action)
    requires FetchInv(s)
    ensures FetchInv(Next(c, s, a))
  {
  }

  lemma SourceInvNext(c: Setup, s: State, a: Action)
    requires SourceInv(c, s)
    ensures SourceInv(c, Next(c, s, a))
  {
    var t := Next(c, s, a);
    if Enabled(c, s, a) && (a.StartCache? || a.StartContacts?) {
      assert s.log.started + Remaining(s) == t.log.started + Remaining(t);
    } else {
      assert Remaining(t) == Remaining(s);
    }
  }

  lemma PeerIdsInConcat(a: seq<Multiaddr>, b: seq<Multiaddr>)
    ensures PeerIdsIn(a + b) == PeerIdsIn(a) + PeerIdsIn(b)
  {
  }

  lemma FlowInvRead(s: State)
    requires FlowInv(s) && s.events != []
    ensures FlowInv(EventRead(s))
  {
    var t, batch := EventRead(s), s.events[0].addrs;
    FlattenSnoc(s.log.batches, batch);
    assert Supplied(t) == Supplied(s) + batch;
    PeerIdsInConcat(Supplied(s), batch);
    assert AddrsOf(t.log.taken) + t.addrs == (AddrsOf(s.log.taken) + s.addrs) + batch;
  }

  lemma FlowInvNext(c: Setup, s: State, a: Action)
    requires FlowInv(s)
    ensures FlowInv(Next(c, s, a))
  {
    var t := Next(c, s, a);
    if a.ReadEvent? && Enabled(c, s, a) {
      FlowInvRead(s);
    } else {
      assert Supplied(t) == Supplied(s);
      assert AddrsOf(t.log.taken) + t.addrs == AddrsOf(s.log.taken) + s.addrs;
    }
  }

  lemma SubsetSize<T>(a: set<T>, b: set<T>)
    requires a <= b
    ensures |a| <= |b|
    ensures a != b ==> |a| < |b|
  {
    assert b == a + (b - a);
  }

  lemma DialInvDialled(c: Setup, s: State, accepted: bool)
    requires DialInv(c, s) && Enabled(c, s, DialHanded(accepted))
    ensures DialInv(c, HandedDialled(s, accepted))
  {
    var t := HandedDialled(s, accepted);
    forall a | a in s.ongoing ensures Taken(a, Dialed(true)) in t.log.taken {
      var i :| 0 <= i < |s.log.taken| && s.log.taken[i] == Taken(a, Dialed(true));
      assert t.log.taken[i] == s.log.taken[i];
    }
    assert Last(t.log.taken) in t.log.taken;
  }

  lemma DialInvNext(c: Setup, s: State, a: Action)
    requires DialInv(c, s)
    ensures DialInv(c, Next(c, s, a))
  {
    var t := Next(c, s, a);
    if a.DialHanded? && Enabled(c, s, a) {
      DialInvDialled(c, s, a.accepted);
    } else {
      assert t.ongoing <= s.ongoing && s.log.taken <= t.log.taken;
      SubsetSize(t.ongoing, s.ongoing);
    }
  }

  lemma InvNext(c: Setup, s: State, a: Action)
    requires Inv(c, s)
    ensures Inv(c, Next(c, s, a))
  {
    FetchInvNext(c, s, a);
    SourceInvNext(c, s, a);
    FlowInvNext(c, s, a);
    DialInvNext(c, s, a);
  }

  /** The invariant holds in every reachable state. */
  lemma {:induction false} InvAfter(c: Setup, s: State, run: seq<Action>)
    requires Inv(c, s)
    ensures Inv(c, After(c, s, run))
  {
    if run != [] {
      InvAfter(c, s, Front(run));
      InvNext(c, After(c, s, Front(run)), Last(run));
    }
  }

  /** `run` leads from a good origin to `s`. (The quantifier keeps the run folded until it is needed.) */
  ghost predicate Reached(c: Setup, origin: State, run: seq<Action>, s: State)
  {
    forall r | r == run :: Inv(c, origin) && After(c, origin, r) == s
  }

  lemma ReachedSnoc(c: Setup, origin: State, run: seq<Action>, s: State, a: Action)
    requires Reached(c, origin, run, s)
    ensures Reached(c, origin, run + [a], Next(c, s, a))
  {
    AfterSnoc(c, origin, run, a);
  }

  lemma ReachedInv(c: Setup, origin: State, run: seq<Action>, s: State)
    requires Reached(c, origin, run, s)
    ensures Inv(c, s) && Inv(c, origin) && s == After(c, origin, run)
  {
    assert After(c, origin, run) == s;
    InvAfter(c, origin, run);
  }

  lemma {:induction false} AfterConcat(c: Setup, s: State, first: seq<Action>, second: seq<Action>)
    ensures After(c, s, first + second) == After(c, After(c, s, first), second)
    decreases |second|
  {
    if second == [] {
      assert first + second == first;
    } else {
      assert Front(first + second) == first + Front(second);
      AfterConcat(c, s, first, Front(second));
    }
  }

  /** Between any two moments of one object's life lies a run, so every law of runs applies to the pair. */
  lemma ReachedLater(c: Setup, origin: State, run: seq<Action>, s: State, later: seq<Action>, t: State)
    requires Reached(c, origin, run, s) && Reached(c, origin, later, t)
    requires run <= later
    ensures Inv(c, s) && t == After(c, s, later[|run|..])
  {
    ReachedInv(c, origin, run, s);
    ReachedInv(c, origin, later, t);
    assert later == run + later[|run|..];
    AfterConcat(c, origin, run, later[|run|..]);
  }

  // ---------------------------------------------------------------- end of construction

  /** Construction ends: what was taken goes back to the end of the queue and the run proper begins. */
  function Requeued(s: State): State
  {
    var queue := s.addrs + AddrsOf(s.log.taken);
    s.(addrs := queue, log := Log(queue, [], [], s.log.started, s.log.readCount))
  }

  lemma RequeuedInv(c: Setup, s: State)
    requires Inv(c, s) && s.ongoing == {}
    ensures Inv(c, Requeued(s))
    ensures s.peerIds + PeerIdsIn(AddrsOf(s.log.taken)) == s.peerIds
  {
    var t := Requeued(s);
    assert Remaining(t) == Remaining(s);
    assert AddrsOf(t.log.taken) + t.addrs == t.addrs == Supplied(t);
    PeerIdsInConcat(AddrsOf(s.log.taken), s.addrs);
    PeerIdsInConcat(s.addrs, AddrsOf(s.log.taken));
  }
}
