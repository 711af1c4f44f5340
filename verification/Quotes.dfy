/**
 The history check on payment quotes. Instants are counted in nanoseconds; elapsed
 times are truncated to whole seconds before they are compared.
 */
module Quotes {
  import opened Wrappers

  const LIVE_TIME_MARGIN: nat := 10
  const NANOS_PER_SEC: nat := 1_000_000_000

  type Instant = int

  datatype PaymentQuote = PaymentQuote(timestamp: Instant, liveTime: nat, receivedPaymentCount: nat)

  /** `SystemTime::elapsed`: nothing for an instant in the future. */
  function Elapsed(t: Instant, now: Instant): Option<nat>
  {
    if t <= now then Some(now - t) else None
  }

  function Secs(nanos: nat): nat
  {
    nanos / NANOS_PER_SEC
  }

  function SaturatingSub(a: nat, b: nat): nat
  {
    if a < b then 0 else a - b
  }

  predicate IsNewerThan(q: PaymentQuote, other: PaymentQuote)
  {
    q.timestamp > other.timestamp
  }

  /** The clock is read once for each quote, for the older one first. */
  datatype Readings = Readings(first: Instant, second: Instant)

  /** The check with the two quotes in order of time. */
  predicate VerifyOrdered(older: PaymentQuote, newer: PaymentQuote, now: Readings)
  {
    if newer.liveTime < older.liveTime then false
    else if newer.receivedPaymentCount < older.receivedPaymentCount then false
    else
      match Elapsed(older.timestamp, now.first)
      case None => true
      case Some(olderElapsed) =>
        match Elapsed(newer.timestamp, now.second)
        case None => true
        case Some(newerElapsed) =>
          newer.liveTime - older.liveTime <= SaturatingSub(Secs(olderElapsed), Secs(newerElapsed)) + LIVE_TIME_MARGIN
  }

  predicate HistoricalVerify(self: PaymentQuote, other: PaymentQuote, now: Readings)
  {
    if IsNewerThan(self, other) then VerifyOrdered(other, self, now) else VerifyOrdered(self, other, now)
  }

  // ---------------------------------------------------------------- one pair

  /** The counters are in sequence. */
  predicate InSequence(older: PaymentQuote, newer: PaymentQuote)
  {
    older.liveTime <= newer.liveTime && older.receivedPaymentCount <= newer.receivedPaymentCount
  }

  /** Nanoseconds past the last whole second. */
  function SubSec(nanos: nat): nat
  {
    nanos % NANOS_PER_SEC
  }

  /** Truncating two elapsed times first can add one second to their truncated difference, and does so
      exactly when the longer one has the smaller sub-second part. */
  lemma TruncatedDifference(a: nat, b: nat)
    requires b <= a
    ensures SaturatingSub(Secs(a), Secs(b)) == Secs(a - b) + if SubSec(a) < SubSec(b) then 1 else 0
  {
    assert a - b == (Secs(a) - Secs(b)) * NANOS_PER_SEC + (SubSec(a) - SubSec(b));
  }

  /** The distance of two quotes as the check measures it: what the clock gained between its two readings
      is taken off, down to nothing. */
  function Measured(older: PaymentQuote, newer: PaymentQuote, now: Readings): nat
  {
    var distance := newer.timestamp - older.timestamp - (now.second - now.first);
    if distance < 0 then 0 else distance
  }

  predicate BothPast(older: PaymentQuote, newer: PaymentQuote, now: Readings)
  {
    older.timestamp <= now.first && newer.timestamp <= now.second
  }

  /** The gain in live time the check allows: the measured distance in whole seconds plus the margin, plus
      one second when truncation favours the older quote. */
  function Allowed(older: PaymentQuote, newer: PaymentQuote, now: Readings): nat
    requires BothPast(older, newer, now)
  {
    var favoured := SubSec(now.first - older.timestamp) < SubSec(now.second - newer.timestamp);
    Secs(Measured(older, newer, now)) + LIVE_TIME_MARGIN + if Measured(older, newer, now) > 0 && favoured then 1 else 0
  }

  /** The exact verdict, for all quotes in order of time: the counters are in sequence, and the gain in live
      time is allowed unless a quote is ahead of the clock. A gain of up to the distance in whole seconds
      plus 10 is never refused if the clock did not advance between the readings; one beyond plus 11 is
      never accepted if it was not set back. */
  lemma AcceptedExactly(self: PaymentQuote, other: PaymentQuote, now: Readings)
    requires self.timestamp <= other.timestamp
    ensures HistoricalVerify(self, other, now) <==>
            && InSequence(self, other)
            && (BothPast(self, other, now) ==> other.liveTime - self.liveTime <= Allowed(self, other, now))
    ensures HistoricalVerify(self, other, now) ==>
              self.liveTime <= other.liveTime && self.receivedPaymentCount <= other.receivedPaymentCount
    ensures InSequence(self, other) && now.second <= now.first
            && other.liveTime - self.liveTime <= (other.timestamp - self.timestamp) / 1_000_000_000 + 10
            ==> HistoricalVerify(self, other, now)
    ensures BothPast(self, other, now) && now.first <= now.second
            && other.liveTime - self.liveTime > (other.timestamp - self.timestamp) / 1_000_000_000 + 11
            ==> !HistoricalVerify(self, other, now)
  {
    if BothPast(self, other, now) {
      var a, b := now.first - self.timestamp, now.second - other.timestamp;
      if b <= a {
        TruncatedDifference(a, b);
        assert a - b == Measured(self, other, now);
        SecsMonotone(if now.first <= now.second then a - b else other.timestamp - self.timestamp,
                     if now.first <= now.second then other.timestamp - self.timestamp else a - b);
      } else {
        SecsMonotone(a, b);
      }
    }
  }

  /** The verdict does not depend on which quote asks, except between quotes of the same instant:
      there both verdicts are positive exactly when the counters agree. */
  lemma VerdictIsSymmetric(p: PaymentQuote, q: PaymentQuote, now: Readings)
    ensures p.timestamp != q.timestamp ==> HistoricalVerify(p, q, now) == HistoricalVerify(q, p, now)
    ensures p.timestamp == q.timestamp ==>
              (HistoricalVerify(p, q, now) && HistoricalVerify(q, p, now) <==> p == q)
  {
  }

  // ---------------------------------------------------------------- chains

  /** Quotes in strictly increasing order of time, the i-th accepted against its predecessor when the
      clock read `now(i)`. */
  predicate AcceptedChain(quotes: seq<PaymentQuote>, now: nat -> Readings)
  {
    forall i | 0 < i < |quotes| ::
      && quotes[i - 1].timestamp < quotes[i].timestamp
      && HistoricalVerify(quotes[i - 1], quotes[i], now(i))
  }

  /** The quotes had been made when they were checked, and the clock was not set back between the two
      readings of a check. */
  predicate CheckedInTime(quotes: seq<PaymentQuote>, now: nat -> Readings)
  {
    forall i | 0 < i < |quotes| ::
      BothPast(quotes[i - 1], quotes[i], now(i)) && now(i).first <= now(i).second
  }

  /** Along an accepted chain both counters are monotone; and whenever its checks were made, the live time
      grows by no more than the whole seconds between its ends and 11 seconds per link. */
  lemma {:induction false} ChainGrowth(quotes: seq<PaymentQuote>, now: nat -> Readings)
    requires quotes != [] && AcceptedChain(quotes, now)
    ensures InSequence(quotes[0], Last(quotes))
    ensures quotes[0].timestamp <= Last(quotes).timestamp
    ensures CheckedInTime(quotes, now) ==>
              Last(quotes).liveTime - quotes[0].liveTime <=
              Secs(Last(quotes).timestamp - quotes[0].timestamp) + (LIVE_TIME_MARGIN + 1) * (|quotes| - 1)
  {
    if |quotes| > 1 {
      ChainGrowth(Front(quotes), now);
      var a, b, i := Last(Front(quotes)), Last(quotes), |quotes| - 1;
      assert a == quotes[i - 1] && b == quotes[i];
      if CheckedInTime(quotes, now) {
        assert CheckedInTime(Front(quotes), now);
        LinkGrowth(a, b, now(i));
        SecsAdd(a.timestamp - quotes[0].timestamp, b.timestamp - a.timestamp);
      }
    }
  }

  lemma LinkGrowth(a: PaymentQuote, b: PaymentQuote, now: Readings)
    requires a.timestamp < b.timestamp && HistoricalVerify(a, b, now)
    requires BothPast(a, b, now) && now.first <= now.second
    ensures b.liveTime - a.liveTime <= Secs(b.timestamp - a.timestamp) + LIVE_TIME_MARGIN + 1
  {
    AcceptedExactly(a, b, now);
  }

  lemma SecsMonotone(a: nat, b: nat)
    requires a <= b
    ensures Secs(a) <= Secs(b)
  {
  }

  lemma SecsAdd(a: nat, b: nat)
    ensures Secs(a) + Secs(b) <= Secs(a + b)
  {
  }

  /** All checks made at one instant. */
  function Always(now: Instant): nat -> Readings
  {
    (i: nat) => Readings(now, now)
  }

  function ElapsedSecs(q: PaymentQuote, now: Instant): int
  {
    if q.timestamp <= now then Secs(now - q.timestamp) else 0
  }

  /** If all checks are made at one instant after the last quote, the links share the truncation: the live
      time grows by no more than the whole seconds elapsed and the margin once per link. */
  lemma {:induction false} ChainGrowthAtOnce(quotes: seq<PaymentQuote>, now: Instant)
    requires quotes != [] && AcceptedChain(quotes, Always(now)) && Last(quotes).timestamp <= now
    ensures quotes[0].timestamp <= Last(quotes).timestamp
    ensures Last(quotes).liveTime - quotes[0].liveTime <=
            ElapsedSecs(quotes[0], now) - ElapsedSecs(Last(quotes), now) + LIVE_TIME_MARGIN * (|quotes| - 1)
  {
    if |quotes| > 1 {
      var a, b := Last(Front(quotes)), Last(quotes);
      assert a == quotes[|quotes| - 2];
      ChainGrowthAtOnce(Front(quotes), now);
      SecsMonotone(now - b.timestamp, now - a.timestamp);
    }
  }

  /** A node that adds the margin to its live time every second. */
  function GreedyQuote(start: PaymentQuote, i: nat): PaymentQuote
  {
    start.(timestamp := start.timestamp + i * NANOS_PER_SEC, liveTime := start.liveTime + i * (LIVE_TIME_MARGIN + 1))
  }

  function GreedyChain(start: PaymentQuote, links: nat): seq<PaymentQuote>
  {
    seq(links + 1, i requires 0 <= i => GreedyQuote(start, i))
  }

  lemma GreedyLink(start: PaymentQuote, i: nat, j: nat, now: Instant)
    requires i < j && GreedyQuote(start, j).timestamp <= now
    ensures HistoricalVerify(GreedyQuote(start, i), GreedyQuote(start, j), Readings(now, now)) <==> j == i + 1
  {
    var p, q := GreedyQuote(start, i), GreedyQuote(start, j);
    var a, b := now - p.timestamp, now - q.timestamp;
    assert a == b + (j - i) * NANOS_PER_SEC;
    assert SubSec(a) == SubSec(b) && Secs(a) == Secs(b) + (j - i);
    TruncatedDifference(a, b);
  }

  /** The bound of `ChainGrowthAtOnce` is reached by chains of every length, since each link may spend the
      margin again; so acceptance is not transitive: the ends accept each other only across one link. */
  lemma AcceptanceIsNotTransitive(start: PaymentQuote, links: nat, now: Instant)
    requires links > 0 && GreedyQuote(start, links).timestamp <= now
    ensures AcceptedChain(GreedyChain(start, links), Always(now))
    ensures Last(GreedyChain(start, links)).liveTime - start.liveTime ==
            ElapsedSecs(start, now) - ElapsedSecs(Last(GreedyChain(start, links)), now) + LIVE_TIME_MARGIN * links
    ensures HistoricalVerify(start, Last(GreedyChain(start, links)), Readings(now, now)) <==> links == 1
  {
    forall i | 0 < i <= links
      ensures HistoricalVerify(GreedyQuote(start, i - 1), GreedyQuote(start, i), Readings(now, now))
    {
      assert GreedyQuote(start, i).timestamp <= GreedyQuote(start, links).timestamp;
      GreedyLink(start, i - 1, i, now);
    }
    GreedyLink(start, 0, links, now);
  }
}
