/**
 One token bucket, twice: the in-memory bucket refills and writes its state on every try; the Redis
 bucket computes the refill from the stored state and writes only when it admits. Exact arithmetic.
 */
module TokenBucket {
  import opened Prelude

  /** A refill rate per second and a capacity, both positive. */
  datatype Params = Params(rate: real, capacity: real)

  predicate Positive(p: Params) {
    p.rate > 0.0 && p.capacity > 0.0
  }

  function Min(a: real, b: real): real {
    if a <= b then a else b
  }

  function Ceil(x: real): int {
    -((-x).Floor)
  }

  // ---- The in-memory bucket -------------------------------------------------------------------

  /** Times are in seconds. */
  datatype Eager = Eager(tokens: real, last: real)

  function Refill(p: Params, b: Eager, now: real): Eager {
    if now - b.last <= 0.0 then b
    else Eager(Min(p.capacity, b.tokens + (now - b.last) * p.rate), now)
  }

  function TryEager(p: Params, b: Eager, now: real, weight: real): (bool, Eager) {
    var r := Refill(p, b, now);
    if r.tokens >= weight then (true, r.(tokens := r.tokens - weight)) else (false, r)
  }

  /** Seconds to wait after a refusal. */
  function EagerWait(p: Params, r: Eager, weight: real): real
    requires Positive(p)
  {
    (weight - r.tokens) / p.rate
  }

  // ---- The Redis bucket -------------------------------------------------------------------------

  /** Times are in whole milliseconds. An absent key is a full bucket. */
  datatype Stored = Stored(tokens: real, ts: int)

  type Lazy = Option<Stored>

  /** Tokens gained in `ms` milliseconds; nothing when the clock has stepped back. */
  function Gain(p: Params, ms: int): real {
    if ms <= 0 then 0.0 else ms as real / 1000.0 * p.rate
  }

  function Available(p: Params, s: Lazy, now: int): real {
    match s
    case None => p.capacity
    case Some(x) => Min(p.capacity, x.tokens + Gain(p, now - x.ts))
  }

  function TryLazy(p: Params, s: Lazy, now: int, weight: real): (bool, Lazy) {
    var a := Available(p, s, now);
    if a >= weight then (true, Some(Stored(a - weight, now))) else (false, s)
  }

  /** The missing tokens as milliseconds of refill. */
  function DeficitMs(p: Params, s: Lazy, now: int, weight: real): real
    requires Positive(p)
  {
    (weight - Available(p, s, now)) / p.rate * 1000.0
  }

  /** The script's answer: 0 for an admit, otherwise the milliseconds to sleep. */
  function ScriptWait(p: Params, s: Lazy, now: int, weight: real): int
    requires Positive(p)
  {
    if TryLazy(p, s, now, weight).0 then 0 else Ceil(DeficitMs(p, s, now, weight))
  }

  /** The answer of the emulation that stands in for the script. */
  function EmulatedWait(p: Params, s: Lazy, now: int, weight: real): int
    requires Positive(p)
  {
    if TryLazy(p, s, now, weight).0 then 0 else DeficitMs(p, s, now, weight).Floor + 1
  }

  // ---- Arithmetic ---------------------------------------------------------------------------------

  lemma GainAdds(p: Params, a: int, b: int)
    requires Positive(p) && a >= 0 && b >= 0
    ensures Gain(p, a + b) == Gain(p, a) + Gain(p, b)
  {
    assert (a + b) as real / 1000.0 == a as real / 1000.0 + b as real / 1000.0;
  }

  lemma GainGrows(p: Params, a: int, b: int)
    requires Positive(p) && a <= b
    ensures 0.0 <= Gain(p, a) <= Gain(p, b)
    ensures 0 <= a < b ==> Gain(p, a) < Gain(p, b)
  {
    if a > 0 {
      GainAdds(p, a, b - a);
      assert a as real / 1000.0 * p.rate > 0.0;
    }
    if b > a >= 0 {
      GainAdds(p, a, b - a);
      assert (b - a) as real / 1000.0 * p.rate > 0.0;
    }
    if b > 0 {
      assert b as real / 1000.0 * p.rate > 0.0;
    }
  }

  /** `ms` milliseconds of refill cover a deficit exactly when they are at least the deficit's own time. */
  lemma GainCovers(p: Params, missing: real, ms: int)
    requires Positive(p) && ms >= 0 && missing > 0.0
    ensures Gain(p, ms) >= missing <==> ms as real >= missing / p.rate * 1000.0
  {
    var t := missing / p.rate;
    assert t * p.rate == missing;
    var x := ms as real / 1000.0;
    MulOrder(x, t, p.rate);
  }

  lemma MulOrder(x: real, t: real, rate: real)
    requires rate > 0.0
    ensures x * rate >= t * rate <==> x >= t
  {
    if x >= t {
      assert (x - t) * rate >= 0.0;
    } else {
      assert (t - x) * rate > 0.0;
    }
  }
}
