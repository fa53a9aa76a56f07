/**
 The two limiters in their own form: objects whose state changes in place and whose `Acquire` loops,
 sleeping between tries. Each is proved to follow the bucket of `TokenBucket`, and to stop.
 */
module Limiters {
  import opened Prelude
  import opened TokenBucket
  import Laws = TokenBucketLaws

  /** What `Acquire` comes back with. A weight above the capacity is refused at once. */
  datatype Acquired = Ok | TooHeavy

  /** A clock that sleeping moves forward; a sleeper wakes no earlier than asked, `late` seconds after that. */
  class Clock {
    var now: real

    constructor (now: real)
      ensures this.now == now
    {
      this.now := now;
    }

    method Sleep(seconds: real, late: real)
      requires late >= 0.0
      modifies this
      ensures now == old(now) + seconds + late
    {
      now := now + seconds + late;
    }

    method SleepMs(ms: int, late: real)
      requires late >= 0.0
      modifies this
      ensures now == old(now) + ms as real / 1000.0 + late
      ensures Ms() >= old(Ms()) + ms
    {
      WakesInTime(now, ms, late);
      Sleep(ms as real / 1000.0, late);
    }

    /** The reading in whole milliseconds. */
    function Ms(): int
      reads this
    {
      (now * 1000.0).Floor
    }
  }

  class InMemoryBucket {
    const p: Params
    var tokens: real
    var last: real

    ghost predicate Valid()
      reads this
    {
      Positive(p) && Laws.EagerInRange(p, Bucket())
    }

    function Bucket(): Eager
      reads this
    {
      Eager(tokens, last)
    }

    constructor (p: Params, now: real)
      requires Positive(p)
      ensures Valid() && this.p == p && Bucket() == Eager(p.capacity, now)
    {
      this.p, tokens, last := p, p.capacity, now;
    }

    method RefillLocked(now: real)
      requires Valid()
      modifies this
      ensures Valid() && Bucket() == Refill(p, old(Bucket()), now)
    {
      Laws.RefillFacts(p, Bucket(), now);
      var elapsed := now - last;
      if elapsed <= 0.0 {
        return;
      }
      tokens := Min(p.capacity, tokens + elapsed * p.rate);
      last := now;
    }

    /** One pass through the lock: refill, then take the weight or learn how long to wait. */
    method Attempt(now: real, weight: real) returns (admitted: bool, wait: real)
      requires Valid() && weight > 0.0
      modifies this
      ensures Valid() && (admitted, Bucket()) == TryEager(p, old(Bucket()), now, weight)
      ensures !admitted ==> wait == EagerWait(p, Bucket(), weight)
    {
      RefillLocked(now);
      admitted, wait := tokens >= weight, 0.0;
      if admitted {
        tokens := tokens - weight;
      } else {
        var deficit := weight - tokens;
        wait := deficit / p.rate;
      }
    }

    /** Nobody else uses the bucket meanwhile: then one sleep is always enough. */
    method Acquire(weight: real, clock: Clock, late: nat -> real) returns (r: Acquired, sleeps: nat)
      requires Valid() && last <= clock.now
      requires forall n :: late(n) >= 0.0
      modifies this, clock
      ensures Valid() && last <= clock.now
      ensures weight <= 0.0 ==> r == Ok && sleeps == 0 && Bucket() == old(Bucket())
      ensures weight > p.capacity ==> r == TooHeavy && sleeps == 0 && Bucket() == old(Bucket())
      ensures 0.0 < weight <= p.capacity ==>
                var (at_once, first) := TryEager(p, old(Bucket()), old(clock.now), weight);
                && r == Ok
                && sleeps == (if at_once then 0 else 1)
                && (at_once ==> Bucket() == first && clock.now == old(clock.now))
                && (!at_once ==> Bucket() == TryEager(p, first, clock.now, weight).1)
                && (!at_once ==> clock.now == old(clock.now) + (weight - first.tokens) / p.rate + late(0))
    {
      r, sleeps := Ok, 0;
      if weight <= 0.0 {
        return;
      }
      if weight > p.capacity {
        return TooHeavy, 0;
      }
      var admitted, wait := Attempt(clock.now, weight);
      while !admitted
        invariant Valid() && last <= clock.now && sleeps <= 1
        invariant !admitted ==>
                    && sleeps == 0 && clock.now == old(clock.now)
                    && (false, Bucket()) == TryEager(p, old(Bucket()), old(clock.now), weight)
                    && wait == EagerWait(p, Bucket(), weight)
        invariant admitted && sleeps == 0 ==> (true, Bucket()) == TryEager(p, old(Bucket()), old(clock.now), weight)
        invariant sleeps == 0 ==> clock.now == old(clock.now)
        invariant sleeps == 1 ==>
                    && clock.now == old(clock.now)
                       + EagerWait(p, TryEager(p, old(Bucket()), old(clock.now), weight).1, weight) + late(0)
                    && !TryEager(p, old(Bucket()), old(clock.now), weight).0
                    && Bucket()
                       == TryEager(p, TryEager(p, old(Bucket()), old(clock.now), weight).1, clock.now, weight).1
        decreases if admitted then 0 else 1
      {
        Laws.EagerWaitIsExact(p, old(Bucket()), old(clock.now), weight, clock.now + wait + late(sleeps));
        clock.Sleep(wait, late(sleeps));
        sleeps := sleeps + 1;
        admitted, wait := Attempt(clock.now, weight);
      }
    }
  }

  class RedisBucket {
    const p: Params
    /** Whether the server evaluates the script; otherwise the client emulates it. */
    const scripted: bool
    var stored: Lazy

    ghost predicate Valid()
      reads this
    {
      Positive(p) && Laws.InRange(p, stored)
    }

    constructor (p: Params, scripted: bool)
      requires Positive(p)
      ensures Valid() && this.p == p && this.scripted == scripted && stored == None
    {
      this.p, this.scripted, stored := p, scripted, None;
    }

    /** The script: refill in a local variable, and write only on an admit. */
    method Script(weight: real, nowMs: int) returns (wait: int)
      requires Valid() && weight > 0.0
      modifies this
      ensures Valid() && stored == TryLazy(p, old(stored), nowMs, weight).1
      ensures wait == ScriptWait(p, old(stored), nowMs, weight)
    {
      Laws.TryKeepsRange(p, stored, nowMs, weight);
      var tokens, last := p.capacity, nowMs;
      if stored.Some? {
        tokens, last := stored.value.tokens, stored.value.ts;
      }
      var elapsed := if nowMs - last > 0 then nowMs - last else 0;
      tokens := Min(p.capacity, tokens + elapsed as real / 1000.0 * p.rate);
      assert tokens == Available(p, stored, nowMs);
      if tokens >= weight {
        tokens := tokens - weight;
        stored := Some(Stored(tokens, nowMs));
        return 0;
      }
      var deficit := weight - tokens;
      wait := Ceil(deficit / p.rate * 1000.0);
    }

    /** The client-side emulation: the same decision, a wait rounded down and one millisecond more. */
    method Emulated(weight: real, nowMs: int) returns (wait: int)
      requires Valid() && weight > 0.0
      modifies this
      ensures Valid() && stored == TryLazy(p, old(stored), nowMs, weight).1
      ensures wait == EmulatedWait(p, old(stored), nowMs, weight)
    {
      Laws.TryKeepsRange(p, stored, nowMs, weight);
      var tokens := if stored.Some? then stored.value.tokens else p.capacity;
      var last := if stored.Some? then stored.value.ts else nowMs;
      var elapsed := if nowMs - last > 0 then nowMs - last else 0;
      tokens := Min(p.capacity, tokens + elapsed as real / 1000.0 * p.rate);
      assert tokens == Available(p, stored, nowMs);
      if tokens >= weight {
        tokens := tokens - weight;
        stored := Some(Stored(tokens, nowMs));
        return 0;
      }
      var deficit := weight - tokens;
      wait := (deficit / p.rate * 1000.0).Floor + 1;
    }

    /** The milliseconds that this bucket tells a caller to sleep. */
    function WaitOf(s: Lazy, nowMs: int, weight: real): int
      requires Positive(p)
    {
      if scripted then ScriptWait(p, s, nowMs, weight) else EmulatedWait(p, s, nowMs, weight)
    }

    /** The clock after `n` sleeps of the announced lengths, each with its lateness. */
    function Slept(s: Lazy, now: real, weight: real, late: nat -> real, n: nat): real
      requires Positive(p)
    {
      if n == 0 then now
      else
        var t := Slept(s, now, weight, late, n - 1);
        t + WaitOf(s, (t * 1000.0).Floor, weight) as real / 1000.0 + late(n - 1)
    }

    method Eval(weight: real, nowMs: int) returns (wait: int)
      requires Valid() && 0.0 < weight <= p.capacity
      modifies this
      ensures Valid() && stored == TryLazy(p, old(stored), nowMs, weight).1
      ensures wait == WaitOf(old(stored), nowMs, weight)
      ensures wait >= 0 && (wait == 0 <==> TryLazy(p, old(stored), nowMs, weight).0)
    {
      WaitsWhenRefused(stored, nowMs, weight);
      if scripted {
        wait := Script(weight, nowMs);
      } else {
        wait := Emulated(weight, nowMs);
      }
    }

    lemma WaitsWhenRefused(s: Lazy, nowMs: int, weight: real)
      requires Positive(p) && Laws.InRange(p, s) && weight <= p.capacity
      ensures WaitOf(s, nowMs, weight) >= 0 && (WaitOf(s, nowMs, weight) == 0 <==> TryLazy(p, s, nowMs, weight).0)
    {
      if !TryLazy(p, s, nowMs, weight).0 {
        Laws.OneSleepIsEnoughIff(p, s, nowMs, weight);
      }
    }

    /** After a refusal and at least the announced wait: admitted, or the stored stamp was ahead and is so by less. */
    lemma NearerAfterTheWait(s: Lazy, nowMs: int, weight: real, later: int)
      requires Positive(p) && Laws.InRange(p, s) && weight <= p.capacity && !TryLazy(p, s, nowMs, weight).0
      requires later >= nowMs + WaitOf(s, nowMs, weight)
      ensures TryLazy(p, s, later, weight).0 || Laws.Lag(s, later) < Laws.Lag(s, nowMs)
    {
      Laws.OneSleepIsEnoughIff(p, s, nowMs, weight);
      if Laws.Lag(s, nowMs) == 0 {
        GainGrows(p, nowMs + WaitOf(s, nowMs, weight) - s.value.ts, later - s.value.ts);
      }
    }

    /** One sleep of the announced length, and one more try. */
    method Retry(weight: real, wait: int, clock: Clock, late: real) returns (next: int)
      requires Valid() && 0.0 < weight <= p.capacity && late >= 0.0
      requires wait == WaitOf(stored, clock.Ms(), weight) && !TryLazy(p, stored, clock.Ms(), weight).0
      modifies this, clock
      ensures Valid() && clock.now == old(clock.now) + wait as real / 1000.0 + late
      ensures next == WaitOf(old(stored), clock.Ms(), weight) && next >= 0
      ensures (next == 0, stored) == TryLazy(p, old(stored), clock.Ms(), weight)
      ensures next != 0 ==> Laws.Lag(old(stored), clock.Ms()) < Laws.Lag(old(stored), old(clock.Ms()))
    {
      ghost var before := clock.Ms();
      clock.SleepMs(wait, late);
      NearerAfterTheWait(stored, before, weight, clock.Ms());
      next := Eval(weight, clock.Ms());
    }

    /**
     Nobody else uses the bucket meanwhile and the clock does not step back while this caller waits. If the
     stored time stamp is not ahead of the clock one sleep is enough; in any case the loop ends, within as
     many sleeps as the stamp is milliseconds ahead, plus one.
     */
    method Acquire(weight: real, clock: Clock, late: nat -> real) returns (r: Acquired, sleeps: nat)
      requires Valid()
      requires forall n :: late(n) >= 0.0
      modifies this, clock
      ensures Valid()
      ensures weight <= 0.0 ==> r == Ok && sleeps == 0 && stored == old(stored)
      ensures weight > p.capacity ==> r == TooHeavy && sleeps == 0 && stored == old(stored)
      ensures 0.0 < weight <= p.capacity ==>
                && r == Ok
                && sleeps <= Laws.Lag(old(stored), old(clock.Ms())) + 1
                && (sleeps == 0 <==> TryLazy(p, old(stored), old(clock.Ms()), weight).0)
                && (true, stored) == TryLazy(p, old(stored), clock.Ms(), weight)
                && clock.now == Slept(old(stored), old(clock.now), weight, late, sleeps)
    {
      r, sleeps := Ok, 0;
      if weight <= 0.0 {
        return;
      }
      if weight > p.capacity {
        return TooHeavy, 0;
      }
      var wait := Eval(weight, clock.Ms());
      while wait != 0
        invariant Valid() && wait >= 0
        invariant clock.now == Slept(old(stored), old(clock.now), weight, late, sleeps)
        invariant wait == WaitOf(old(stored), clock.Ms(), weight)
        invariant (wait == 0, stored) == TryLazy(p, old(stored), clock.Ms(), weight)
        invariant sleeps == 0 ==> clock.Ms() == old(clock.Ms())
        invariant sleeps > 0 ==> !TryLazy(p, old(stored), old(clock.Ms()), weight).0
        invariant wait != 0 ==> sleeps + Laws.Lag(old(stored), clock.Ms()) <= Laws.Lag(old(stored), old(clock.Ms()))
        invariant wait == 0 ==> sleeps <= Laws.Lag(old(stored), old(clock.Ms())) + 1
        decreases if wait == 0 then 0 else 1 + Laws.Lag(old(stored), clock.Ms())
      {
        wait := Retry(weight, wait, clock, late(sleeps));
        sleeps := sleeps + 1;
      }
    }
  }

  lemma WakesInTime(now: real, wait: int, late: real)
    requires late >= 0.0
    ensures ((now + wait as real / 1000.0 + late) * 1000.0).Floor >= (now * 1000.0).Floor + wait
  {
    assert (now + wait as real / 1000.0 + late) * 1000.0 == now * 1000.0 + wait as real + late * 1000.0;
  }
}
