/**
 The token bucket: one bucket of tokens and one refill time per source. The clock readings and the actual
 length of a sleep are parameters.
 */
module RateLimiter {
  import opened Prelude
  import opened Sums

  /** The two dictionaries, with a default of `rate` tokens for a source not seen before. */
  datatype Buckets = Buckets(tokens: map<string, real>, lastRefill: map<string, real>)

  /** What the environment decides during one call: the clock, the clock again on first use, and the sleep. */
  datatype Call = Call(source: string, now: real, firstUse: real, slept: real)

  function TokensOf(b: Buckets, rate: real, source: string): real { GetOr(b.tokens, source, rate) }

  function RefillOf(b: Buckets, c: Call): real { GetOr(b.lastRefill, c.source, c.firstUse) }

  function Refilled(b: Buckets, rate: real, c: Call): real {
    var raw := TokensOf(b, rate, c.source) + Times(rate, c.now - RefillOf(b, c));
    if rate <= raw then rate else raw
  }

  predicate Waits(b: Buckets, rate: real, c: Call) { Refilled(b, rate, c) < 1.0 }

  function WaitTime(b: Buckets, rate: real, c: Call): real
    requires rate > 0.0
  {
    (1.0 - Refilled(b, rate, c)) / rate
  }

  function Acquired(b: Buckets, rate: real, c: Call): Buckets {
    Buckets(b.tokens[c.source := if Waits(b, rate, c) then 0.0 else Refilled(b, rate, c) - 1.0],
            b.lastRefill[c.source := c.now])
  }

  /** The time at which the call returns. */
  function Returns(b: Buckets, rate: real, c: Call): real {
    if Waits(b, rate, c) then c.now + c.slept else c.now
  }

  class Limiter {
    const rate: real
    var tokens: map<string, real>
    var lastRefill: map<string, real>

    constructor (requestsPerSecond: real)
      ensures rate == requestsPerSecond && tokens == map[] && lastRefill == map[]
    {
      rate := requestsPerSecond;
      tokens, lastRefill := map[], map[];
    }

    function State(): Buckets
      reads this
    {
      Buckets(tokens, lastRefill)
    }

    /** One call under the lock; returns the time it asks to sleep, zero when a token was available. */
    method Acquire(c: Call) returns (wait: real)
      requires rate > 0.0
      modifies this
      ensures State() == Acquired(old(State()), rate, c)
      ensures wait == if Waits(old(State()), rate, c) then WaitTime(old(State()), rate, c) else 0.0
      ensures forall s :: s != c.source ==>
        TokensOf(State(), rate, s) == TokensOf(old(State()), rate, s)
        && (s in lastRefill <==> s in old(lastRefill)) && (s in lastRefill ==> lastRefill[s] == old(lastRefill)[s])
    {
      var elapsed := c.now - GetOr(lastRefill, c.source, c.firstUse);
      var refilled := GetOr(tokens, c.source, rate) + Times(rate, elapsed);
      tokens := tokens[c.source := if rate <= refilled then rate else refilled];
      lastRefill := lastRefill[c.source := c.now];
      if tokens[c.source] < 1.0 {
        wait := (1.0 - tokens[c.source]) / rate;
        tokens := tokens[c.source := 0.0];
      } else {
        wait := 0.0;
        tokens := tokens[c.source := tokens[c.source] - 1.0];
      }
    }
  }

  // ----- whole runs -----------------------------------------------------------------

  const EMPTY := Buckets(map[], map[])

  function Run(b: Buckets, rate: real, calls: seq<Call>): Buckets {
    if calls == [] then b else Acquired(Run(b, rate, calls[..|calls| - 1]), rate, calls[|calls| - 1])
  }

  /** The calls so far for one source. */
  function Grants(calls: seq<Call>, source: string): nat {
    if calls == [] then 0 else
      Grants(calls[..|calls| - 1], source) + (if calls[|calls| - 1].source == source then 1 else 0)
  }

  /** When the last call returned; a run that starts at `start` has returned nothing before. */
  function Finished(rate: real, calls: seq<Call>, start: real): real {
    if calls == [] then start else
      Returns(Run(EMPTY, rate, calls[..|calls| - 1]), rate, calls[|calls| - 1])
  }

  /**
   A run under the lock from `start` on: each call starts after the previous one returned, reads a later clock on
   first use, and sleeps at least as long as it asked to.
   */
  ghost predicate Timed(rate: real, calls: seq<Call>, start: real)
    requires rate > 0.0
  {
    calls == [] ||
    (var prefix, c := calls[..|calls| - 1], calls[|calls| - 1];
     var b := Run(EMPTY, rate, prefix);
     Timed(rate, prefix, start) && c.now >= Finished(rate, prefix, start) && c.firstUse >= c.now
     && (Waits(b, rate, c) ==> c.slept >= WaitTime(b, rate, c)))
  }

  // ----- the bound ------------------------------------------------------------------

  /** At rest every source that has been used holds between zero and `rate` tokens. */
  lemma {:induction false} TokensInRange(rate: real, calls: seq<Call>, source: string)
    requires rate > 0.0
    ensures 0.0 <= TokensOf(Run(EMPTY, rate, calls), rate, source) <= rate
  {
    if calls != [] {
      TokensInRange(rate, calls[..|calls| - 1], source);
    }
  }

  function Wait(b: Buckets, rate: real, c: Call): real
    requires rate > 0.0
  {
    if Waits(b, rate, c) then WaitTime(b, rate, c) else 0.0
  }

  /** The time a source's calls have asked to sleep. */
  function WaitTotal(rate: real, calls: seq<Call>, source: string): real
    requires rate > 0.0
  {
    if calls == [] then 0.0 else
      var prefix, c := calls[..|calls| - 1], calls[|calls| - 1];
      var b := Run(EMPTY, rate, prefix);
      WaitTotal(rate, prefix, source) + (if c.source == source then Wait(b, rate, c) else 0.0)
  }

  lemma WaitPositive(refilled: real, rate: real)
    requires refilled < 1.0 && rate > 0.0
    ensures (1.0 - refilled) / rate > 0.0
    ensures Times(rate, (1.0 - refilled) / rate) == 1.0 - refilled
  {
  }

  /** Requested sleeps fit into the elapsed time, because the lock is held while sleeping. */
  lemma {:induction false} WaitsFit(rate: real, calls: seq<Call>, source: string, start: real)
    requires rate > 0.0 && Timed(rate, calls, start)
    ensures 0.0 <= WaitTotal(rate, calls, source) <= Finished(rate, calls, start) - start
  {
    if calls != [] {
      var prefix, c := calls[..|calls| - 1], calls[|calls| - 1];
      WaitsFit(rate, prefix, source, start);
      if Waits(Run(EMPTY, rate, prefix), rate, c) {
        WaitPositive(Refilled(Run(EMPTY, rate, prefix), rate, c), rate);
      }
    }
  }

  lemma RateTimes(rate: real, x: real, y: real)
    requires rate > 0.0
    ensures Times(rate, x + y) == Times(rate, x) + Times(rate, y)
    ensures x <= y ==> Times(rate, x) <= Times(rate, y)
    ensures Times(rate, 0.0) == 0.0
  {
    if x <= y {
      assert (y - x) * rate >= 0.0;
    }
  }

  /** The account of one source: grants and tokens against refill credit and sleep credit. */
  predicate Paid(rate: real, grants: int, tokens: real, refilled: real, slept: real) {
    grants as real + tokens <= rate + Times(rate, refilled) + Times(rate, slept)
  }

  /** Grants and tokens are paid for by the initial bucket, the refill credit and the credit of the sleeps. */
  predicate Accounted(b: Buckets, rate: real, source: string, grants: nat, slept: real, finished: real, start: real) {
    if source in b.lastRefill then
      && b.lastRefill[source] <= finished
      && Paid(rate, grants, TokensOf(b, rate, source), b.lastRefill[source] - start, slept)
    else grants == 0 && source !in b.tokens && slept == 0.0
  }

  /** What one call of the source adds: exactly one grant against its refill and its sleep. */
  lemma CallPays(b: Buckets, rate: real, c: Call, start: real)
    requires rate > 0.0 && c.firstUse >= c.now >= start
    requires c.source in b.lastRefill || c.source !in b.tokens
    ensures var paid := 1.0 + TokensOf(Acquired(b, rate, c), rate, c.source) - Times(rate, Wait(b, rate, c));
      && (c.source in b.lastRefill ==>
            paid <= TokensOf(b, rate, c.source) + Times(rate, c.now - b.lastRefill[c.source]))
      && (c.source !in b.lastRefill ==> paid <= rate)
  {
    if Waits(b, rate, c) {
      WaitPositive(Refilled(b, rate, c), rate);
    }
    RateTimes(rate, 0.0, 0.0);
  }

  lemma PaysOn(rate: real, grants: int, tokens: real, refilled: real, slept: real,
               tokens': real, more: real, wait: real)
    requires rate > 0.0 && Paid(rate, grants, tokens, refilled, slept)
    requires 1.0 + tokens' - Times(rate, wait) <= tokens + Times(rate, more)
    ensures Paid(rate, grants + 1, tokens', refilled + more, slept + wait)
  {
    RateTimes(rate, refilled, more);
    RateTimes(rate, slept, wait);
  }

  /** One more call of the source itself. */
  lemma OwnCallAccounted(b: Buckets, rate: real, c: Call, grants: nat, slept: real, finished: real, start: real)
    requires rate > 0.0 && c.firstUse >= c.now >= start && c.now <= Returns(b, rate, c)
    requires Accounted(b, rate, c.source, grants, slept, finished, start)
    ensures Accounted(Acquired(b, rate, c), rate, c.source, grants + 1, slept + Wait(b, rate, c),
                      Returns(b, rate, c), start)
  {
    CallPays(b, rate, c, start);
    var tokens := TokensOf(Acquired(b, rate, c), rate, c.source);
    if c.source in b.lastRefill {
      PaysOn(rate, grants, TokensOf(b, rate, c.source), b.lastRefill[c.source] - start, slept,
             tokens, c.now - b.lastRefill[c.source], Wait(b, rate, c));
    } else {
      RateTimes(rate, 0.0, c.now - start);
    }
  }

  lemma ReturnsLater(b: Buckets, rate: real, c: Call)
    requires rate > 0.0 && (Waits(b, rate, c) ==> c.slept >= WaitTime(b, rate, c))
    ensures Returns(b, rate, c) >= c.now
  {
    if Waits(b, rate, c) {
      WaitPositive(Refilled(b, rate, c), rate);
    }
  }

  lemma {:induction false} RunAccounted(rate: real, calls: seq<Call>, source: string, start: real)
    requires rate > 0.0 && Timed(rate, calls, start)
    ensures Accounted(Run(EMPTY, rate, calls), rate, source, Grants(calls, source), WaitTotal(rate, calls, source),
                      Finished(rate, calls, start), start)
    ensures Finished(rate, calls, start) >= start
  {
    if calls != [] {
      var prefix, c := calls[..|calls| - 1], calls[|calls| - 1];
      var b := Run(EMPTY, rate, prefix);
      RunAccounted(rate, prefix, source, start);
      ReturnsLater(b, rate, c);
      if c.source == source {
        OwnCallAccounted(b, rate, c, Grants(prefix, source), WaitTotal(rate, prefix, source),
                         Finished(rate, prefix, start), start);
      }
    }
  }

  /** Every grant is paid for by the initial bucket, the elapsed time and, a second time, the time spent waiting. */
  lemma GrantsPaid(rate: real, calls: seq<Call>, source: string, start: real)
    requires rate > 0.0 && Timed(rate, calls, start)
    ensures Grants(calls, source) as real
         <= rate + Times(rate, Finished(rate, calls, start) - start) + Times(rate, WaitTotal(rate, calls, source))
  {
    RunAccounted(rate, calls, source, start);
    TokensInRange(rate, calls, source);
    WaitsFit(rate, calls, source, start);
    var b, elapsed := Run(EMPTY, rate, calls), Finished(rate, calls, start) - start;
    RateTimes(rate, 0.0, elapsed);
    RateTimes(rate, 0.0, WaitTotal(rate, calls, source));
    if source in b.lastRefill {
      RateTimes(rate, b.lastRefill[source] - start, elapsed);
    }
  }

  /** So the documented rate holds for a source whose calls never had to wait. */
  lemma RateHeldWithoutWaits(rate: real, calls: seq<Call>, source: string, start: real)
    requires rate > 0.0 && Timed(rate, calls, start) && WaitTotal(rate, calls, source) == 0.0
    ensures Grants(calls, source) as real <= rate + Times(rate, Finished(rate, calls, start) - start)
  {
    GrantsPaid(rate, calls, source, start);
    RateTimes(rate, 0.0, 0.0);
  }

  /**
   By the time a timed run has finished, one source has had at most rate + 2 * rate * elapsed grants. The factor
   two is there because the time slept is credited again by the next refill.
   */
  lemma GrantsBounded(rate: real, calls: seq<Call>, source: string, start: real)
    requires rate > 0.0 && Timed(rate, calls, start)
    ensures Grants(calls, source) as real <= rate + 2.0 * Times(rate, Finished(rate, calls, start) - start)
  {
    GrantsPaid(rate, calls, source, start);
    WaitsFit(rate, calls, source, start);
    RateTimes(rate, WaitTotal(rate, calls, source), Finished(rate, calls, start) - start);
  }

  /** Below a rate of one a bucket never holds a whole token, and every call waits. */
  lemma {:induction false} SlowCallsWait(rate: real, calls: seq<Call>, source: string)
    requires 0.0 < rate < 1.0
    ensures Times(rate, WaitTotal(rate, calls, source)) >= Times(1.0 - rate, Grants(calls, source) as real)
  {
    if calls == [] {
      RateTimes(rate, 0.0, 0.0);
    } else {
      var prefix, c := calls[..|calls| - 1], calls[|calls| - 1];
      var b, grants := Run(EMPTY, rate, prefix), Grants(prefix, source) as real;
      SlowCallsWait(rate, prefix, source);
      if c.source == source {
        WaitPositive(Refilled(b, rate, c), rate);
        TimesDistributes(rate, WaitTotal(rate, prefix, source), Wait(b, rate, c));
        TimesDistributes(1.0 - rate, grants, 1.0);
      }
    }
  }

  /** So such a rate allows at most rate * T / (1 - rate) grants. */
  lemma SlowGrantsBounded(rate: real, calls: seq<Call>, source: string, start: real)
    requires 0.0 < rate < 1.0 && Timed(rate, calls, start)
    ensures Times(1.0 - rate, Grants(calls, source) as real) <= Times(rate, Finished(rate, calls, start) - start)
  {
    SlowCallsWait(rate, calls, source);
    WaitsFit(rate, calls, source, start);
    RateTimes(rate, WaitTotal(rate, calls, source), Finished(rate, calls, start) - start);
  }

  // ----- calls back to back -----------------------------------------------------------

  lemma AppendCall(rate: real, calls: seq<Call>, c: Call, start: real)
    requires rate > 0.0
    ensures var b := Run(EMPTY, rate, calls);
      && Run(EMPTY, rate, calls + [c]) == Acquired(b, rate, c)
      && Finished(rate, calls + [c], start) == Returns(b, rate, c)
      && Grants(calls + [c], c.source) == Grants(calls, c.source) + 1
      && (Timed(rate, calls + [c], start) <==>
            Timed(rate, calls, start) && c.now >= Finished(rate, calls, start) && c.firstUse >= c.now
            && (Waits(b, rate, c) ==> c.slept >= WaitTime(b, rate, c)))
  {
    assert (calls + [c])[..|calls|] == calls;
  }

  /** The tokens that a call of the source would find at `time`. */
  function Found(b: Buckets, rate: real, source: string, time: real): real {
    Refilled(b, rate, Call(source, time, time, 0.0))
  }

  /** A timed run from time zero: when it ends, its grants, and what the next call would find there and then. */
  ghost predicate Stands(rate: real, calls: seq<Call>, source: string, grants: nat, found: real, time: real)
    requires rate > 0.0
  {
    && Timed(rate, calls, 0.0) && Finished(rate, calls, 0.0) == time && Grants(calls, source) == grants
    && Found(Run(EMPTY, rate, calls), rate, source, time) == found
  }

  /** How long a call that finds so many tokens sleeps, and what a call straight after it finds. */
  function SleepFor(rate: real, found: real): real
    requires rate > 0.0
  {
    if found < 1.0 then Quotient(1.0 - found, rate) else 0.0
  }

  function FoundNext(rate: real, found: real): real {
    if found >= 1.0 then found - 1.0 else if rate <= 1.0 - found then rate else 1.0 - found
  }

  /** The `n`-th of calls that follow each other without a pause finds so many tokens, at this time. */
  function FoundBy(rate: real, n: nat): real {
    if n == 0 then rate else FoundNext(rate, FoundBy(rate, n - 1))
  }

  function TimeOf(rate: real, n: nat): real
    requires rate > 0.0
  {
    if n == 0 then 0.0 else TimeOf(rate, n - 1) + SleepFor(rate, FoundBy(rate, n - 1))
  }

  function BackToBack(source: string, rate: real, n: nat): seq<Call>
    requires rate > 0.0
  {
    if n == 0 then [] else
      var time := TimeOf(rate, n - 1);
      BackToBack(source, rate, n - 1) + [Call(source, time, time, SleepFor(rate, FoundBy(rate, n - 1)))]
  }

  /** The bucket of a source that holds `tokens` since `last`. */
  lemma FoundLater(b: Buckets, rate: real, source: string, last: real, time: real)
    requires source in b.tokens && source in b.lastRefill && b.lastRefill[source] == last
    ensures Found(b, rate, source, time) ==
      var raw := b.tokens[source] + Times(rate, time - last); if rate <= raw then rate else raw
  {
  }

  lemma TokenCall(b: Buckets, rate: real, c: Call, found: real)
    requires rate > 0.0 && c.firstUse == c.now && Refilled(b, rate, c) == found >= 1.0
    ensures !Waits(b, rate, c) && Found(Acquired(b, rate, c), rate, c.source, c.now) == found - 1.0
  {
    FoundLater(Acquired(b, rate, c), rate, c.source, c.now, c.now);
    RateTimes(rate, 0.0, 0.0);
  }

  lemma SleepingCall(b: Buckets, rate: real, c: Call, found: real)
    requires rate > 0.0 && c.firstUse == c.now && Refilled(b, rate, c) == found < 1.0
    requires Times(rate, c.slept) == 1.0 - found
    ensures Waits(b, rate, c) && Found(Acquired(b, rate, c), rate, c.source, c.now + c.slept) == FoundNext(rate, found)
  {
    FoundLater(Acquired(b, rate, c), rate, c.source, c.now, c.now + c.slept);
  }

  /** One more call at the time the last one returned. */
  lemma CallAtOnce(b: Buckets, rate: real, source: string, time: real, found: real)
    requires rate > 0.0 && Found(b, rate, source, time) == found
    ensures var c := Call(source, time, time, SleepFor(rate, found));
      && (Waits(b, rate, c) ==> WaitTime(b, rate, c) == c.slept)
      && Returns(b, rate, c) == time + c.slept
      && Found(Acquired(b, rate, c), rate, source, time + c.slept) == FoundNext(rate, found)
  {
    var c := Call(source, time, time, SleepFor(rate, found));
    assert Refilled(b, rate, c) == found;
    if found < 1.0 {
      QuotientTimes(1.0 - found, rate);
      SleepingCall(b, rate, c, found);
    } else {
      TokenCall(b, rate, c, found);
    }
  }

  lemma {:induction false} BackToBackStands(source: string, rate: real, n: nat)
    requires rate > 0.0
    ensures Stands(rate, BackToBack(source, rate, n), source, n, FoundBy(rate, n), TimeOf(rate, n))
  {
    if n == 0 {
      RateTimes(rate, 0.0, 0.0);
    } else {
      var calls, time, found := BackToBack(source, rate, n - 1), TimeOf(rate, n - 1), FoundBy(rate, n - 1);
      BackToBackStands(source, rate, n - 1);
      AppendCall(rate, calls, Call(source, time, time, SleepFor(rate, found)), 0.0);
      CallAtOnce(Run(EMPTY, rate, calls), rate, source, time, found);
    }
  }

  /** The full bucket serves a burst at time zero. */
  lemma {:induction false} BurstDrains(rate: real, n: nat)
    requires rate > 0.0 && n <= rate.Floor
    ensures FoundBy(rate, n) == rate - n as real && TimeOf(rate, n) == 0.0
  {
    if n > 0 {
      BurstDrains(rate, n - 1);
    }
  }

  lemma TwoSleeps(rate: real, found: real)
    requires rate >= 0.5 && 0.0 <= found < 1.0 && (rate >= 1.0 || found == rate)
    ensures FoundNext(rate, FoundNext(rate, found)) == found
    ensures SleepFor(rate, found) + SleepFor(rate, FoundNext(rate, found)) == Quotient(1.0, rate)
  {
    QuotientAdds(1.0 - found, found, rate);
  }

  /** From then on every two calls take 1 / rate together: what one sleeps the other finds credited. */
  lemma {:induction false} PairsTake(rate: real, n: nat)
    requires rate >= 0.5
    ensures FoundBy(rate, rate.Floor + 2 * n) == rate - rate.Floor as real
    ensures TimeOf(rate, rate.Floor + 2 * n) == Quotient(n as real, rate)
  {
    var m := rate.Floor + 2 * n;
    if n == 0 {
      BurstDrains(rate, m);
      QuotientAdds(0.0, 0.0, rate);
    } else {
      PairsTake(rate, n - 1);
      assert rate < 1.0 ==> rate.Floor == 0;
      TwoSleeps(rate, rate - rate.Floor as real);
      assert FoundBy(rate, m - 1) == FoundNext(rate, FoundBy(rate, m - 2));
      assert TimeOf(rate, m - 1) == TimeOf(rate, m - 2) + SleepFor(rate, FoundBy(rate, m - 2));
      QuotientAdds(n as real - 1.0, 1.0, rate);
    }
  }

  /** A run of calls back to back that takes a known time. */
  lemma RunTakes(source: string, rate: real, calls: nat, time: real)
    requires rate > 0.0 && TimeOf(rate, calls) == time
    ensures var run := BackToBack(source, rate, calls);
      Timed(rate, run, 0.0) && Finished(rate, run, 0.0) == time && Grants(run, source) == calls
  {
    BackToBackStands(source, rate, calls);
  }

  lemma FloorOfBound(rate: real, n: nat, time: real)
    requires rate > 0.0 && time == Quotient(n as real, rate)
    ensures Times(rate, time) == n as real && (rate + 2.0 * Times(rate, time)).Floor == rate.Floor + 2 * n
  {
    QuotientTimes(n as real, rate);
  }

  /**
   The bound is reached: for every rate of at least one half and every n, calls back to back have finished at
   n / rate with the largest whole number of grants that the bound allows.
   */
  lemma BoundIsReached(source: string, rate: real, n: nat)
    requires rate >= 0.5
    ensures var calls := BackToBack(source, rate, rate.Floor + 2 * n);
      && Timed(rate, calls, 0.0) && Finished(rate, calls, 0.0) == Quotient(n as real, rate)
      && Grants(calls, source) == (rate + 2.0 * Times(rate, Finished(rate, calls, 0.0))).Floor
  {
    PairsTake(rate, n);
    RunTakes(source, rate, rate.Floor + 2 * n, Quotient(n as real, rate));
    FloorOfBound(rate, n, Quotient(n as real, rate));
  }

  lemma {:induction false} SlowPace(rate: real, n: nat)
    requires 0.0 < rate <= 0.5
    ensures FoundBy(rate, n) == rate && Times(rate, TimeOf(rate, n)) == Times(1.0 - rate, n as real)
  {
    if n == 0 {
      RateTimes(rate, 0.0, 0.0);
    } else {
      SlowPace(rate, n - 1);
      QuotientTimes(1.0 - rate, rate);
      TimesDistributes(rate, TimeOf(rate, n - 1), Quotient(1.0 - rate, rate));
      TimesDistributes(1.0 - rate, n as real - 1.0, 1.0);
    }
  }

  /** For rates up to one half, calls back to back reach the bound of slow rates after every call. */
  lemma SlowBoundIsReached(source: string, rate: real, n: nat)
    requires 0.0 < rate <= 0.5
    ensures var calls := BackToBack(source, rate, n);
      && Timed(rate, calls, 0.0) && Grants(calls, source) == n
      && Times(1.0 - rate, Grants(calls, source) as real) == Times(rate, Finished(rate, calls, 0.0))
  {
    RunTakes(source, rate, n, TimeOf(rate, n));
    SlowPace(rate, n);
  }

  /** Two calls on a bucket of less than one token. */
  lemma SlowPair(rate: real)
    requires 0.0 < rate < 1.0
    ensures Times(rate, TimeOf(rate, 2)) < 2.0 - rate
  {
    var second := FoundNext(rate, rate);
    assert FoundBy(rate, 0) == rate && FoundBy(rate, 1) == second > 0.0;
    assert TimeOf(rate, 1) == Quotient(1.0 - rate, rate);
    assert TimeOf(rate, 2) == Quotient(1.0 - rate, rate) + Quotient(1.0 - second, rate);
    QuotientAdds(1.0 - rate, 1.0 - second, rate);
    QuotientTimes(2.0 - rate - second, rate);
  }

  /** The burst and two more calls take less time than the documented rate allows for. */
  lemma SoonDone(rate: real)
    requires rate > 0.0
    ensures (rate.Floor + 2) as real > rate + Times(rate, TimeOf(rate, rate.Floor + 2))
  {
    if rate < 1.0 {
      SlowPair(rate);
      assert rate.Floor == 0;
    } else {
      PairsTake(rate, 1);
      FloorOfBound(rate, 1, TimeOf(rate, rate.Floor + 2));
    }
  }

  /** For every rate, the burst of a full bucket and two more calls exceed the documented rate. */
  lemma RateIsExceeded(source: string, rate: real)
    requires rate > 0.0
    ensures var calls := BackToBack(source, rate, rate.Floor + 2);
      && Timed(rate, calls, 0.0)
      && Grants(calls, source) as real > rate + Times(rate, Finished(rate, calls, 0.0))
  {
    RunTakes(source, rate, rate.Floor + 2, TimeOf(rate, rate.Floor + 2));
    SoonDone(rate);
  }
}
