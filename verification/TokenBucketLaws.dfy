/**
 What the two buckets promise: never more than the refill over a window, the same decisions as each
 other, an expiry nobody can see, and at most one sleep before an uncontended acquire succeeds.
 */
module TokenBucketLaws {
  import opened Prelude
  import opened TokenBucket

  datatype Attempt = Attempt(now: int, weight: real)

  predicate Sane(tries: seq<Attempt>) {
    forall a <- tries :: a.weight > 0.0
  }

  predicate InRange(p: Params, s: Lazy) {
    s.Some? ==> 0.0 <= s.value.tokens <= p.capacity
  }

  // ---- The Redis bucket over a sequence of attempts --------------------------------------------

  predicate Admits(p: Params, s: Lazy, a: Attempt) {
    TryLazy(p, s, a.now, a.weight).0
  }

  function Next(p: Params, s: Lazy, a: Attempt): Lazy {
    TryLazy(p, s, a.now, a.weight).1
  }

  function Decisions(p: Params, s: Lazy, tries: seq<Attempt>): (ds: seq<bool>)
    ensures |ds| == |tries|
    decreases |tries|
  {
    if tries == [] then [] else [Admits(p, s, tries[0])] + Decisions(p, Next(p, s, tries[0]), tries[1..])
  }

  function End(p: Params, s: Lazy, tries: seq<Attempt>): Lazy
    decreases |tries|
  {
    if tries == [] then s else End(p, Next(p, s, tries[0]), tries[1..])
  }

  function AdmittedWeight(p: Params, s: Lazy, tries: seq<Attempt>): real
    decreases |tries|
  {
    if tries == [] then 0.0
    else (if Admits(p, s, tries[0]) then tries[0].weight else 0.0) + AdmittedWeight(p, Next(p, s, tries[0]), tries[1..])
  }

  /** The clock readings of the admitted attempts. */
  function AdmitTimes(p: Params, s: Lazy, tries: seq<Attempt>): seq<int>
    decreases |tries|
  {
    if tries == [] then []
    else
      var rest := AdmitTimes(p, Next(p, s, tries[0]), tries[1..]);
      if Admits(p, s, tries[0]) then [tries[0].now] + rest else rest
  }

  /** How far a sequence of clock readings moves forward, counting forward steps only. */
  function Forward(ts: seq<int>): nat {
    if |ts| < 2 then 0 else (if ts[1] > ts[0] then ts[1] - ts[0] else 0) + Forward(ts[1..])
  }

  /** How far it steps back. */
  function Backward(ts: seq<int>): nat {
    if |ts| < 2 then 0 else (if ts[1] < ts[0] then ts[0] - ts[1] else 0) + Backward(ts[1..])
  }

  lemma {:induction false} ForwardIsElapsedPlusBackward(ts: seq<int>)
    requires ts != []
    ensures Forward(ts) == ts[|ts| - 1] - ts[0] + Backward(ts)
  {
    if |ts| >= 2 {
      ForwardIsElapsedPlusBackward(ts[1..]);
    }
  }

  /** An attempt keeps the stored tokens between zero and the capacity. */
  lemma TryKeepsRange(p: Params, s: Lazy, now: int, weight: real)
    requires Positive(p) && InRange(p, s) && weight > 0.0
    ensures 0.0 <= Available(p, s, now) <= p.capacity
    ensures InRange(p, TryLazy(p, s, now, weight).1)
  {
    if s.Some? {
      GainGrows(p, now - s.value.ts, now - s.value.ts);
    }
  }

  lemma {:induction false} TokensStayInRange(p: Params, s: Lazy, tries: seq<Attempt>)
    requires Positive(p) && InRange(p, s) && Sane(tries)
    ensures InRange(p, End(p, s, tries))
    decreases |tries|
  {
    if tries != [] {
      TryKeepsRange(p, s, tries[0].now, tries[0].weight);
      TokensStayInRange(p, Next(p, s, tries[0]), tries[1..]);
    }
  }

  /** One admit spends at most what was stored plus the refill of one forward step. */
  lemma AdmitLedger(p: Params, x: Stored, now: int, later: nat)
    requires Positive(p)
    ensures Available(p, Some(x), now) + Gain(p, later)
            <= x.tokens + Gain(p, (if now > x.ts then now - x.ts else 0) + later)
  {
    if now > x.ts {
      GainAdds(p, now - x.ts, later);
    }
  }

  lemma {:induction false} SpentFrom(p: Params, x: Stored, tries: seq<Attempt>)
    requires Positive(p) && InRange(p, Some(x)) && Sane(tries)
    ensures AdmittedWeight(p, Some(x), tries) <= x.tokens + Gain(p, Forward([x.ts] + AdmitTimes(p, Some(x), tries)))
    decreases |tries|
  {
    if tries == [] {
    } else {
      var a := tries[0];
      var s' := Next(p, Some(x), a);
      TryKeepsRange(p, Some(x), a.now, a.weight);
      SpentFrom(p, s'.value, tries[1..]);
      if Admits(p, Some(x), a) {
        var rest := AdmitTimes(p, s', tries[1..]);
        var ts := [x.ts] + ([a.now] + rest);
        assert ts[1..] == [a.now] + rest;
        AdmitLedger(p, x, a.now, Forward([a.now] + rest));
      }
    }
  }

  /** The whole window, from its first admit on. */
  lemma {:induction false} SpentInWindow(p: Params, s: Lazy, tries: seq<Attempt>)
    requires Positive(p) && InRange(p, s) && Sane(tries)
    ensures AdmitTimes(p, s, tries) == [] ==> AdmittedWeight(p, s, tries) == 0.0
    ensures AdmittedWeight(p, s, tries) <= p.capacity + Gain(p, Forward(AdmitTimes(p, s, tries)))
    decreases |tries|
  {
    if tries == [] {
    } else {
      var a := tries[0];
      TryKeepsRange(p, s, a.now, a.weight);
      if Admits(p, s, a) {
        SpentFrom(p, Next(p, s, a).value, tries[1..]);
      } else {
        SpentInWindow(p, s, tries[1..]);
      }
    }
  }

  /**
   The window bound with an unreliable clock: whatever readings the callers supply, the admitted weight
   is at most the capacity plus the refill over the time between the first and the last admit, plus the
   refill over every backward step in between.
   */
  lemma WindowBound(p: Params, s: Lazy, tries: seq<Attempt>)
    requires Positive(p) && InRange(p, s) && Sane(tries)
    requires AdmitTimes(p, s, tries) != []
    ensures var ts := AdmitTimes(p, s, tries);
            AdmittedWeight(p, s, tries) <= p.capacity + Gain(p, ts[|ts| - 1] - ts[0] + Backward(ts))
  {
    SpentInWindow(p, s, tries);
    ForwardIsElapsedPlusBackward(AdmitTimes(p, s, tries));
  }

  predicate NonDecreasing(tries: seq<Attempt>) {
    forall i, j :: 0 <= i < j < |tries| ==> tries[i].now <= tries[j].now
  }

  lemma {:induction false} AdmitTimesNonDecreasing(p: Params, s: Lazy, tries: seq<Attempt>, t: int)
    requires NonDecreasing(tries) && forall a <- tries :: t <= a.now
    ensures Backward([t] + AdmitTimes(p, s, tries)) == 0
    ensures Backward(AdmitTimes(p, s, tries)) == 0
    decreases |tries|
  {
    if tries != [] {
      var a := tries[0];
      var s' := Next(p, s, a);
      var rest := AdmitTimes(p, s', tries[1..]);
      AdmitTimesNonDecreasing(p, s', tries[1..], a.now);
      AdmitTimesNonDecreasing(p, s', tries[1..], t);
      assert ([t] + ([a.now] + rest))[1..] == [a.now] + rest;
    }
  }

  /** With a clock that never steps back this is the classic bound. */
  lemma ClassicWindowBound(p: Params, s: Lazy, tries: seq<Attempt>)
    requires Positive(p) && InRange(p, s) && Sane(tries) && NonDecreasing(tries)
    requires AdmitTimes(p, s, tries) != []
    ensures var ts := AdmitTimes(p, s, tries);
            AdmittedWeight(p, s, tries) <= p.capacity + Gain(p, ts[|ts| - 1] - ts[0])
  {
    WindowBound(p, s, tries);
    AdmitTimesNonDecreasing(p, s, tries, tries[0].now);
  }

  /** Backward steps do earn tokens again: the extra term is reached. */
  lemma BackwardStepsAreEarnedAgain(p: Params, back: nat)
    requires Positive(p) && back > 0 && Gain(p, back) <= p.capacity
    ensures var half := p.capacity / 2.0;
            var tries := [Attempt(back, half), Attempt(0, half), Attempt(back, Gain(p, back))];
            && AdmitTimes(p, None, tries) == [back, 0, back]
            && AdmittedWeight(p, None, tries) == p.capacity + Gain(p, back)
  {
    var half := p.capacity / 2.0;
    var a0, a1, a2 := Attempt(back, half), Attempt(0, half), Attempt(back, Gain(p, back));
    var s1, s2 := Some(Stored(half, back)), Some(Stored(0.0, 0));
    assert Admits(p, None, a0) && Next(p, None, a0) == s1;
    assert Available(p, s1, 0) == half;
    assert Admits(p, s1, a1) && Next(p, s1, a1) == s2;
    assert Admits(p, s2, a2);
    var s3 := Next(p, s2, a2);
    assert [a2][1..] == [];
    assert AdmitTimes(p, s2, [a2]) == [back] && AdmittedWeight(p, s2, [a2]) == Gain(p, back);
    assert [a1, a2][1..] == [a2];
    assert AdmitTimes(p, s1, [a1, a2]) == [0, back] && AdmittedWeight(p, s1, [a1, a2]) == half + Gain(p, back);
    assert [a0, a1, a2][1..] == [a1, a2];
  }

  // ---- The in-memory bucket over a sequence of attempts -----------------------------------------

  /** An attempt at a time in seconds. */
  datatype Timed = Timed(now: real, weight: real)

  function AdmittedEager(p: Params, b: Eager, tries: seq<Timed>): real
    decreases |tries|
  {
    if tries == [] then 0.0
    else
      var (ok, b') := TryEager(p, b, tries[0].now, tries[0].weight);
      (if ok then tries[0].weight else 0.0) + AdmittedEager(p, b', tries[1..])
  }

  predicate EagerInRange(p: Params, b: Eager) {
    0.0 <= b.tokens <= p.capacity
  }

  /** Tokens earned in `dt` seconds. */
  function Earned(p: Params, dt: real): real {
    dt * p.rate
  }

  lemma EarnedFacts(p: Params, a: real, b: real)
    requires Positive(p)
    ensures Earned(p, a) + Earned(p, b) == Earned(p, a + b)
    ensures a >= 0.0 ==> Earned(p, a) >= 0.0
  {
  }

  lemma RefillFacts(p: Params, b: Eager, now: real)
    requires Positive(p) && EagerInRange(p, b)
    ensures EagerInRange(p, Refill(p, b, now)) && b.last <= Refill(p, b, now).last && now <= Refill(p, b, now).last
    ensures Refill(p, b, now).tokens <= b.tokens + Earned(p, Refill(p, b, now).last - b.last)
  {
    EarnedFacts(p, now - b.last, 0.0);
    EarnedFacts(p, 0.0, 0.0);
  }

  lemma {:induction false} EagerSpentFrom(p: Params, b: Eager, tries: seq<Timed>, t1: real)
    requires Positive(p) && EagerInRange(p, b) && b.last <= t1
    requires forall a <- tries :: a.weight > 0.0 && a.now <= t1
    ensures AdmittedEager(p, b, tries) <= b.tokens + Earned(p, t1 - b.last)
    decreases |tries|
  {
    if tries == [] {
      EarnedFacts(p, t1 - b.last, 0.0);
    } else {
      var a := tries[0];
      var r := Refill(p, b, a.now);
      RefillFacts(p, b, a.now);
      EagerSpentFrom(p, TryEager(p, b, a.now, a.weight).1, tries[1..], t1);
      EarnedFacts(p, t1 - r.last, r.last - b.last);
    }
  }

  lemma EagerSpentAfter(p: Params, b: Eager, tries: seq<Timed>, t1: real)
    requires Positive(p) && EagerInRange(p, b) && b.last <= t1 && tries != []
    requires forall a <- tries :: a.weight > 0.0 && a.now <= t1
    ensures AdmittedEager(p, b, tries) <= p.capacity + Earned(p, t1 - Refill(p, b, tries[0].now).last)
  {
    var a := tries[0];
    RefillFacts(p, b, a.now);
    EagerSpentFrom(p, TryEager(p, b, a.now, a.weight).1, tries[1..], t1);
  }

  /** The in-memory bucket over any window of its monotonic clock: at most the capacity plus the refill. */
  lemma EagerWindowBound(p: Params, b: Eager, tries: seq<Timed>, t0: real, t1: real)
    requires Positive(p) && EagerInRange(p, b) && b.last <= t1 && t0 <= t1
    requires forall a <- tries :: a.weight > 0.0 && t0 <= a.now <= t1
    ensures AdmittedEager(p, b, tries) <= p.capacity + Earned(p, t1 - t0)
  {
    EarnedFacts(p, t1 - t0, 0.0);
    if tries != [] {
      var last := Refill(p, b, tries[0].now).last;
      RefillFacts(p, b, tries[0].now);
      EagerSpentAfter(p, b, tries, t1);
      EarnedFacts(p, last - t0, t1 - last);
      assert last - t0 + (t1 - last) == t1 - t0;
    }
  }

  // ---- Lazy refines eager -------------------------------------------------------------------------

  function Secs(ms: int): real {
    ms as real / 1000.0
  }

  function EagerDecisions(p: Params, b: Eager, tries: seq<Attempt>): (ds: seq<bool>)
    ensures |ds| == |tries|
    decreases |tries|
  {
    if tries == [] then []
    else
      var (ok, b') := TryEager(p, b, Secs(tries[0].now), tries[0].weight);
      [ok] + EagerDecisions(p, b', tries[1..])
  }

  /** At time `t` the eager bucket holds what the lazy one would compute. */
  predicate Agree(p: Params, b: Eager, s: Lazy, t: int) {
    && InRange(p, s)
    && (s.Some? ==> s.value.ts <= t)
    && b == Eager(Available(p, s, t), Secs(t))
  }

  /** Refilling in two parts is refilling at once. */
  lemma RefillAgrees(p: Params, b: Eager, s: Lazy, t: int, now: int)
    requires Positive(p) && Agree(p, b, s, t) && t <= now
    ensures Refill(p, b, Secs(now)) == Eager(Available(p, s, now), Secs(now))
  {
    if t < now {
      assert Secs(now) - Secs(t) == Secs(now - t);
      assert Secs(now - t) * p.rate == Gain(p, now - t);
      GainGrows(p, 0, now - t);
      if s.Some? {
        GainAdds(p, t - s.value.ts, now - t);
      }
    }
  }

  lemma {:induction false} DecisionsAgree(p: Params, b: Eager, s: Lazy, tries: seq<Attempt>, t: int)
    requires Positive(p) && Agree(p, b, s, t) && Sane(tries)
    requires NonDecreasing(tries) && forall a <- tries :: t <= a.now
    ensures EagerDecisions(p, b, tries) == Decisions(p, s, tries)
    decreases |tries|
  {
    if tries != [] {
      var a := tries[0];
      RefillAgrees(p, b, s, t, a.now);
      TryKeepsRange(p, s, a.now, a.weight);
      var b', s' := TryEager(p, b, Secs(a.now), a.weight).1, Next(p, s, a);
      assert Agree(p, b', s', a.now);
      DecisionsAgree(p, b', s', tries[1..], a.now);
    }
  }

  /** On the same non-decreasing arrivals, writing only on admits leads to the same decisions as always writing. */
  lemma LazyRefinesEager(p: Params, tries: seq<Attempt>, start: int)
    requires Positive(p) && Sane(tries) && NonDecreasing(tries) && forall a <- tries :: start <= a.now
    ensures Decisions(p, None, tries) == EagerDecisions(p, Eager(p.capacity, Secs(start)), tries)
  {
    DecisionsAgree(p, Eager(p.capacity, Secs(start)), None, tries, start);
  }

  // ---- Key expiry -----------------------------------------------------------------------------------

  const EXPIRY_MS := 300000

  /** An attempt before which the key may have expired. */
  datatype Risky = Risky(a: Attempt, dropped: bool)

  function Seen(s: Lazy, r: Risky): Lazy {
    if r.dropped then None else s
  }

  function ExpiringDecisions(p: Params, s: Lazy, rs: seq<Risky>): (ds: seq<bool>)
    ensures |ds| == |rs|
    decreases |rs|
  {
    if rs == [] then []
    else [Admits(p, Seen(s, rs[0]), rs[0].a)] + ExpiringDecisions(p, Next(p, Seen(s, rs[0]), rs[0].a), rs[1..])
  }

  /** A key is dropped no sooner than five minutes after its last write. */
  predicate Lawful(p: Params, s: Lazy, rs: seq<Risky>)
    decreases |rs|
  {
    rs != [] ==>
      && (rs[0].dropped && s.Some? ==> rs[0].a.now - s.value.ts >= 300_000)
      && Lawful(p, Next(p, Seen(s, rs[0]), rs[0].a), rs[1..])
  }

  function Plain(rs: seq<Risky>): (tries: seq<Attempt>)
    ensures |tries| == |rs|
    ensures forall i :: 0 <= i < |rs| ==> tries[i] == rs[i].a
  {
    if rs == [] then [] else [rs[0].a] + Plain(rs[1..])
  }

  /** Either the two agree, or one has dropped a key whose bucket is full by now. */
  predicate SameOrFull(p: Params, dropped: Lazy, kept: Lazy, t: int) {
    dropped == kept || (dropped == None && kept.Some? && kept.value.tokens >= 0.0 && t - kept.value.ts >= EXPIRY_MS)
  }

  lemma FullAgain(p: Params, dropped: Lazy, kept: Lazy, t: int, now: int)
    requires Positive(p) && SameOrFull(p, dropped, kept, t) && t <= now && p.capacity <= 300.0 * p.rate
    ensures Available(p, dropped, now) == Available(p, kept, now)
  {
    if dropped != kept {
      GainGrows(p, EXPIRY_MS, now - kept.value.ts);
      assert Gain(p, EXPIRY_MS) == 300.0 * p.rate;
    }
  }

  lemma {:induction false} ExpiryAgrees(p: Params, dropped: Lazy, kept: Lazy, rs: seq<Risky>, t: int)
    requires Positive(p) && p.capacity <= 300.0 * p.rate && InRange(p, kept) && InRange(p, dropped)
    requires SameOrFull(p, dropped, kept, t) && Lawful(p, dropped, rs)
    requires Sane(Plain(rs)) && NonDecreasing(Plain(rs)) && forall r <- rs :: t <= r.a.now
    ensures ExpiringDecisions(p, dropped, rs) == Decisions(p, kept, Plain(rs))
    decreases |rs|
  {
    if rs != [] {
      var a := rs[0].a;
      assert a == Plain(rs)[0] && Plain(rs)[1..] == Plain(rs[1..]);
      var seen := Seen(dropped, rs[0]);
      assert SameOrFull(p, seen, kept, a.now);
      FullAgain(p, seen, kept, a.now, a.now);
      TryKeepsRange(p, seen, a.now, a.weight);
      TryKeepsRange(p, kept, a.now, a.weight);
      assert forall i :: 0 <= i < |rs| - 1 ==> rs[1..][i].a == Plain(rs)[i + 1];
      ExpiryAgrees(p, Next(p, seen, a), Next(p, kept, a), rs[1..], a.now);
    }
  }

  /** Expiry cannot be observed when five minutes refill the whole bucket. */
  lemma ExpiryUnobservable(p: Params, rs: seq<Risky>)
    requires Positive(p) && p.capacity <= 300.0 * p.rate
    requires Lawful(p, None, rs) && Sane(Plain(rs)) && NonDecreasing(Plain(rs))
    ensures ExpiringDecisions(p, None, rs) == Decisions(p, None, Plain(rs))
  {
    if rs != [] {
      assert forall i :: 0 <= i < |rs| ==> Plain(rs)[0].now <= rs[i].a.now;
      ExpiryAgrees(p, None, None, rs, rs[0].a.now);
    }
  }

  /** The condition is exact: with a larger capacity, an emptied bucket is full too early when its key expires. */
  lemma ExpiryObservable(p: Params)
    requires Positive(p) && p.capacity > 300.0 * p.rate
    ensures var rs := [Risky(Attempt(0, p.capacity), false), Risky(Attempt(300_000, p.capacity), true)];
            && Lawful(p, None, rs) && Sane(Plain(rs)) && NonDecreasing(Plain(rs))
            && ExpiringDecisions(p, None, rs) != Decisions(p, None, Plain(rs))
  {
    var r0, r1 := Risky(Attempt(0, p.capacity), false), Risky(Attempt(EXPIRY_MS, p.capacity), true);
    var rs := [r0, r1];
    var s1 := Some(Stored(0.0, 0));
    assert Next(p, None, r0.a) == s1;
    assert rs[1..] == [r1] && [r1][1..] == [];
    assert Plain([r1]) == [r1.a];
    assert Plain(rs) == [r0.a, r1.a] && Plain(rs)[1..] == [r1.a];
    assert Gain(p, EXPIRY_MS) == 300.0 * p.rate;
    assert ExpiringDecisions(p, s1, [r1])[0] == true;
    assert Decisions(p, s1, [r1.a])[0] == false;
    assert ExpiringDecisions(p, None, rs)[1] == ExpiringDecisions(p, s1, [r1])[0];
    assert Decisions(p, None, Plain(rs))[1] == Decisions(p, s1, [r1.a])[0];
  }

  /** The registry's buckets, in requests per second and capacity. */
  const DEFAULT_BUCKETS: map<string, Params> :=
    map["binance" := Params(1200.0 / 60.0, 1200.0), "okx" := Params(20.0 / 2.0, 20.0),
        "bybit" := Params(600.0 / 5.0, 600.0), "ashare" := Params(5.0, 10.0)]

  lemma DefaultsExpireUnseen(exchange: string)
    requires exchange in DEFAULT_BUCKETS
    ensures Positive(DEFAULT_BUCKETS[exchange])
    ensures DEFAULT_BUCKETS[exchange].capacity <= 300.0 * DEFAULT_BUCKETS[exchange].rate
    ensures DEFAULT_BUCKETS.Keys == {"binance", "okx", "bybit", "ashare"}
    ensures exchange == "binance" ==> DEFAULT_BUCKETS[exchange] == Params(20.0, 1200.0)
    ensures exchange == "okx" ==> DEFAULT_BUCKETS[exchange] == Params(10.0, 20.0)
    ensures exchange == "bybit" ==> DEFAULT_BUCKETS[exchange] == Params(120.0, 600.0)
    ensures exchange == "ashare" ==> DEFAULT_BUCKETS[exchange] == Params(5.0, 10.0)
  {
  }

  // ---- Waiting ----------------------------------------------------------------------------------------

  lemma WaitCovers(p: Params, missing: real)
    requires Positive(p) && missing > 0.0
    ensures missing / p.rate > 0.0 && Earned(p, missing / p.rate) == missing
  {
  }

  /** A refused caller of the in-memory bucket is admitted exactly from the announced moment on, if alone. */
  lemma EagerWaitIsExact(p: Params, b: Eager, now: real, weight: real, later: real)
    requires Positive(p) && EagerInRange(p, b) && b.last <= now <= later && weight <= p.capacity
    requires !TryEager(p, b, now, weight).0
    ensures EagerWait(p, Refill(p, b, now), weight) > 0.0
    ensures TryEager(p, Refill(p, b, now), later, weight).0 <==> later >= now + EagerWait(p, Refill(p, b, now), weight)
  {
    var r := Refill(p, b, now);
    var wait := EagerWait(p, r, weight);
    WaitCovers(p, weight - r.tokens);
    MulOrder(later - now, wait, p.rate);
    assert r.last == now;
    assert Refill(p, r, later).tokens >= weight <==> r.tokens + Earned(p, later - now) >= weight;
  }

  /** How far the stored time stamp lies ahead of the caller's clock. */
  function Lag(s: Lazy, now: int): nat {
    if s.Some? && s.value.ts > now then s.value.ts - now else 0
  }

  /** After `wait` more milliseconds the bucket covers the weight exactly when the wait outlasts lag and deficit. */
  lemma AdmitsAfter(p: Params, s: Lazy, now: int, weight: real, wait: nat)
    requires Positive(p) && InRange(p, s) && weight <= p.capacity && !TryLazy(p, s, now, weight).0
    ensures DeficitMs(p, s, now, weight) > 0.0
    ensures TryLazy(p, s, now + wait, weight).0 <==> (wait - Lag(s, now)) as real >= DeficitMs(p, s, now, weight)
  {
    var x := s.value;
    var missing := weight - Available(p, s, now);
    var t := missing / p.rate;
    assert t * p.rate == missing;
    assert t > 0.0;
    var lag := Lag(s, now);
    if now >= x.ts {
      GainAdds(p, now - x.ts, wait);
      GainGrows(p, 0, now - x.ts);
    }
    if wait >= lag {
      GainCovers(p, missing, wait - lag);
    }
  }

  /**
   One sleep of the script's length is enough exactly when the stored time stamp is not ahead of the
   caller's clock; of the emulation's length, also when it is ahead by one millisecond and the deficit
   is a whole number of milliseconds.
   */
  lemma OneSleepIsEnoughIff(p: Params, s: Lazy, now: int, weight: real)
    requires Positive(p) && InRange(p, s) && weight <= p.capacity && !TryLazy(p, s, now, weight).0
    ensures var wait := ScriptWait(p, s, now, weight);
            wait > 0 && (TryLazy(p, s, now + wait, weight).0 <==> Lag(s, now) == 0)
    ensures var wait := EmulatedWait(p, s, now, weight);
            var d := DeficitMs(p, s, now, weight);
            wait > 0 && (TryLazy(p, s, now + wait, weight).0
                         <==> Lag(s, now) == 0 || (Lag(s, now) == 1 && d.Floor as real == d))
  {
    AdmitsAfter(p, s, now, weight, 0);
    AdmitsAfter(p, s, now, weight, ScriptWait(p, s, now, weight));
    AdmitsAfter(p, s, now, weight, EmulatedWait(p, s, now, weight));
  }
}
