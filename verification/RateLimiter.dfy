/**
 * The token-bucket rate limiter, with reals for its floats: the class, and the bound on what it lets through.
 */
module RateLimits {

  type Key = string

  /** Seconds. */
  type Time = real

  datatype Bucket = Bucket(tokens: real, lastUpdate: Time)

  datatype Answer = Allowed | Limited(waitSecs: nat)

  datatype Limiter = Limiter(capacity: real, refillRate: real, buckets: map<Key, Bucket>)

  datatype Call = Check(key: Key, now: Time) | Cleanup(now: Time)

  datatype Response = Response(limiter: Limiter, answer: Answer)

  const IDLE_SECS: real := 3600.0

  /** The time since then; the clock's difference never goes below zero. */
  function Elapsed(now: Time, then_: Time): real {
    if now < then_ then 0.0 else now - then_
  }

  function Min(x: real, y: real): real {
    if x <= y then x else y
  }

  function Ceil(x: real): int {
    0 - (0.0 - x).Floor
  }

  /** The tokens that arrive in this many seconds. */
  function Refill(secs: real, refillRate: real): real {
    secs * refillRate
  }

  /** The tokens a check at this time finds; a missing bucket is a full one. */
  function Level(l: Limiter, key: Key, now: Time): real {
    if key in l.buckets then
      Min(l.buckets[key].tokens + Refill(Elapsed(now, l.buckets[key].lastUpdate), l.refillRate), l.capacity)
    else
      l.capacity
  }

  const U64_MAX: nat := 0xFFFF_FFFF_FFFF_FFFF

  /** Rust's `as u64` on a rounded float saturates at both ends. */
  function ToU64(x: int): nat {
    if x < 0 then 0 else if x > U64_MAX then U64_MAX else x
  }

  /** Without a refill the quotient is infinite, which saturates. */
  function WaitSecs(tokens: real, refillRate: real): nat {
    var secs := if refillRate == 0.0 then U64_MAX else ToU64(Ceil((1.0 - tokens) / refillRate));
    if secs < 1 then 1 else secs
  }

  function CheckKey(l: Limiter, key: Key, now: Time): Response
  {
    var tokens := Level(l, key, now);
    if tokens >= 1.0 then
      Response(l.(buckets := l.buckets[key := Bucket(tokens - 1.0, now)]), Allowed)
    else
      Response(l.(buckets := l.buckets[key := Bucket(tokens, now)]), Limited(WaitSecs(tokens, l.refillRate)))
  }

  function Cleaned(l: Limiter, now: Time): Limiter {
    l.(buckets := map k | k in l.buckets && Elapsed(now, l.buckets[k].lastUpdate) < IDLE_SECS :: l.buckets[k])
  }

  function Respond(l: Limiter, c: Call): (r: Limiter)
    ensures r.capacity == l.capacity && r.refillRate == l.refillRate
  {
    match c
    case Check(key, now) => CheckKey(l, key, now).limiter
    case Cleanup(now) => Cleaned(l, now)
  }

  function After(l: Limiter, calls: seq<Call>): (r: Limiter)
    ensures r.capacity == l.capacity && r.refillRate == l.refillRate
    decreases calls
  {
    if calls == [] then l else After(Respond(l, calls[0]), calls[1..])
  }

  /** How many requests of the key these calls let through. */
  function Accepted(l: Limiter, calls: seq<Call>, key: Key): nat
    decreases calls
  {
    if calls == [] then 0
    else
      (if calls[0].Check? && calls[0].key == key && CheckKey(l, key, calls[0].now).answer.Allowed? then 1 else 0) +
      Accepted(Respond(l, calls[0]), calls[1..], key)
  }

  function Answers(l: Limiter, calls: seq<Call>): seq<Answer>
    decreases calls
  {
    if calls == [] then []
    else
      (if calls[0].Check? then [CheckKey(l, calls[0].key, calls[0].now).answer] else []) +
      Answers(Respond(l, calls[0]), calls[1..])
  }

  /** Timestamps do not decrease and lie within these times. */
  predicate Within(calls: seq<Call>, from: Time, to: Time) {
    if calls == [] then from <= to else from <= calls[0].now && Within(calls[1..], calls[0].now, to)
  }

  /** No bucket is overdrawn, overfull or from the future. */
  predicate Sane(l: Limiter, now: Time) {
    && l.capacity >= 0.0 && l.refillRate >= 0.0
    && forall k :: k in l.buckets ==> 0.0 <= l.buckets[k].tokens <= l.capacity && l.buckets[k].lastUpdate <= now
  }

  lemma RefillMonotone(x: real, y: real, rate: real)
    requires x <= y && rate >= 0.0
    ensures Refill(x, rate) <= Refill(y, rate) && Refill(0.0, rate) == 0.0
    ensures x < y && rate > 0.0 ==> Refill(x, rate) < Refill(y, rate)
  {
  }

  lemma RefillAdds(x: real, y: real, rate: real)
    ensures Refill(x + y, rate) == Refill(x, rate) + Refill(y, rate)
  {
  }

  lemma LevelInRange(l: Limiter, key: Key, now: Time)
    requires Sane(l, now)
    ensures 0.0 <= Level(l, key, now) <= l.capacity
  {
    hide Refill;
    if key in l.buckets {
      RefillMonotone(0.0, Elapsed(now, l.buckets[key].lastUpdate), l.refillRate);
    }
  }

  /** Between two times a bucket refills at the rate, up to its capacity. */
  lemma LevelGrows(l: Limiter, key: Key, now: Time, later: Time)
    requires Sane(l, now) && now <= later
    ensures Level(l, key, later) == Min(Level(l, key, now) + Refill(later - now, l.refillRate), l.capacity)
  {
    hide Refill;
    RefillMonotone(0.0, later - now, l.refillRate);
    if key in l.buckets {
      var then_ := l.buckets[key].lastUpdate;
      assert later - then_ == (now - then_) + (later - now);
      RefillAdds(now - then_, later - now, l.refillRate);
    }
  }

  lemma RespondKeepsSane(l: Limiter, c: Call)
    requires Sane(l, c.now)
    ensures Sane(Respond(l, c), c.now)
  {
    if c.Check? {
      LevelInRange(l, c.key, c.now);
    }
  }

  lemma SaneLater(l: Limiter, now: Time, later: Time)
    requires Sane(l, now) && now <= later
    ensures Sane(l, later)
  {
  }

  /** Evicting a bucket that would be full anyway changes no level. */
  lemma CleanupKeepsLevels(l: Limiter, key: Key, now: Time)
    requires Sane(l, now) && l.capacity <= Refill(IDLE_SECS, l.refillRate)
    ensures Level(Cleaned(l, now), key, now) == Level(l, key, now)
  {
    hide Refill;
    if key in l.buckets && Elapsed(now, l.buckets[key].lastUpdate) >= IDLE_SECS {
      RefillMonotone(IDLE_SECS, Elapsed(now, l.buckets[key].lastUpdate), l.refillRate);
    }
  }

  lemma LevelNow(l: Limiter, c: Call, key: Key)
    requires c.Check?
    ensures c.key == key ==> Level(Respond(l, c), key, c.now) == Min(Respond(l, c).buckets[key].tokens, l.capacity)
    ensures c.key != key ==> Level(Respond(l, c), key, c.now) == Level(l, key, c.now)
  {
  }

  /** One call uses up a token of its key exactly when it is allowed, and leaves other keys alone. */
  lemma RespondLevel(l: Limiter, c: Call, key: Key)
    requires Sane(l, c.now) && l.capacity <= Refill(IDLE_SECS, l.refillRate)
    ensures Level(Respond(l, c), key, c.now) ==
            Level(l, key, c.now) -
              if c.Check? && c.key == key && CheckKey(l, key, c.now).answer.Allowed? then 1.0 else 0.0
  {
    hide Refill;
    LevelInRange(l, key, c.now);
    if c.Check? {
      LevelNow(l, c, key);
    } else {
      CleanupKeepsLevels(l, key, c.now);
    }
  }

  lemma {:induction false} AcceptedWithinLevel(l: Limiter, calls: seq<Call>, key: Key, from: Time, to: Time)
    requires Sane(l, from) && l.capacity <= Refill(IDLE_SECS, l.refillRate) && Within(calls, from, to)
    ensures Accepted(l, calls, key) as real <= Level(l, key, from) + Refill(to - from, l.refillRate)
    decreases calls
  {
    hide Level, CheckKey, Refill;
    if calls == [] {
      LevelInRange(l, key, from);
      RefillMonotone(0.0, to - from, l.refillRate);
    } else {
      var c := calls[0];
      SaneLater(l, from, c.now);
      RespondKeepsSane(l, c);
      LevelGrows(l, key, from, c.now);
      RespondLevel(l, c, key);
      AcceptedWithinLevel(Respond(l, c), calls[1..], key, c.now, to);
      assert to - from == (c.now - from) + (to - c.now);
      RefillAdds(c.now - from, to - c.now, l.refillRate);
    }
  }

  lemma {:induction false} AfterKeepsSane(l: Limiter, calls: seq<Call>, from: Time, to: Time)
    requires Sane(l, from) && Within(calls, from, to)
    ensures Sane(After(l, calls), to)
    decreases calls
  {
    if calls == [] {
      SaneLater(l, from, to);
    } else {
      SaneLater(l, from, calls[0].now);
      RespondKeepsSane(l, calls[0]);
      AfterKeepsSane(Respond(l, calls[0]), calls[1..], calls[0].now, to);
    }
  }

  // ----- Runs in pieces -----

  lemma {:induction false} AcceptedConcat(l: Limiter, xs: seq<Call>, ys: seq<Call>, key: Key)
    ensures Accepted(l, xs + ys, key) == Accepted(l, xs, key) + Accepted(After(l, xs), ys, key)
    ensures After(l, xs + ys) == After(After(l, xs), ys)
    decreases xs
  {
    hide CheckKey, Cleaned;
    if xs == [] {
      assert xs + ys == ys;
    } else {
      assert (xs + ys)[1..] == xs[1..] + ys;
      AcceptedConcat(Respond(l, xs[0]), xs[1..], ys, key);
    }
  }

  lemma {:induction false} WithinConcat(xs: seq<Call>, ys: seq<Call>, from: Time, mid: Time, to: Time)
    requires Within(xs, from, mid) && Within(ys, mid, to)
    ensures Within(xs + ys, from, to)
    decreases xs
  {
    if xs == [] {
      assert xs + ys == ys;
      WithinEarlier(ys, from, mid, to);
    } else {
      assert (xs + ys)[1..] == xs[1..] + ys;
      WithinConcat(xs[1..], ys, xs[0].now, mid, to);
    }
  }

  lemma {:induction false} WithinEarlier(calls: seq<Call>, from: Time, mid: Time, to: Time)
    requires Within(calls, mid, to) && from <= mid
    ensures Within(calls, from, to)
    ensures mid <= to
    decreases calls
  {
    if calls != [] {
      WithinEarlier(calls[1..], calls[0].now, calls[0].now, to);
    }
  }

  // ----- The bound -----

  function New(capacity: real, refillRate: real): Limiter {
    Limiter(capacity, refillRate, map[])
  }

  /** A window after these calls lets the key through at most capacity plus what refills during it. */
  predicate WindowIsBounded(capacity: real, refillRate: real, before: seq<Call>, window: seq<Call>, key: Key,
                            start: Time, from: Time, to: Time)
  {
    Within(before, start, from) && Within(window, from, to) ==>
      Accepted(After(New(capacity, refillRate), before), window, key) as real <=
      capacity + Refill(to - from, refillRate)
  }

  /** So it is for every key in every window of every run. */
  ghost predicate Bounded(capacity: real, refillRate: real) {
    forall before, window, key, start, from, to ::
      WindowIsBounded(capacity, refillRate, before, window, key, start, from, to)
  }

  /** A limiter that cannot hold a whole token never lets anything through. */
  lemma {:induction false} NothingAccepted(l: Limiter, calls: seq<Call>, key: Key)
    requires l.capacity < 1.0
    ensures Accepted(l, calls, key) == 0
    decreases calls
  {
    hide Refill, Cleaned;
    if calls != [] {
      NothingAccepted(Respond(l, calls[0]), calls[1..], key);
    }
  }

  lemma {:induction false} WithinIsForward(calls: seq<Call>, from: Time, to: Time)
    requires Within(calls, from, to)
    ensures from <= to
    decreases calls
  {
    if calls != [] {
      WithinIsForward(calls[1..], calls[0].now, to);
    }
  }

  lemma WindowBound(capacity: real, refillRate: real, before: seq<Call>, window: seq<Call>, key: Key,
                    start: Time, from: Time, to: Time)
    requires capacity >= 0.0 && refillRate >= 0.0
    requires capacity < 1.0 || capacity <= Refill(IDLE_SECS, refillRate)
    ensures WindowIsBounded(capacity, refillRate, before, window, key, start, from, to)
  {
    hide After, Accepted, Within, Level, Refill;
    if Within(before, start, from) && Within(window, from, to) {
      var l := After(New(capacity, refillRate), before);
      if capacity < 1.0 {
        NothingAccepted(l, window, key);
        WithinIsForward(window, from, to);
        RefillMonotone(0.0, to - from, refillRate);
      } else {
        AfterKeepsSane(New(capacity, refillRate), before, start, from);
        AcceptedWithinLevel(l, window, key, from, to);
        LevelInRange(l, key, from);
      }
    }
  }

  // ----- Where the bound fails -----

  /** n checks of one key at one time. */
  function Burst(key: Key, now: Time, n: nat): seq<Call> {
    if n == 0 then [] else [Check(key, now)] + Burst(key, now, n - 1)
  }

  lemma {:induction false} BurstIsAccepted(l: Limiter, key: Key, now: Time, n: nat)
    requires Sane(l, now) && Level(l, key, now) >= n as real
    ensures Within(Burst(key, now, n), now, now)
    ensures Accepted(l, Burst(key, now, n), key) == n
    ensures var drained := After(l, Burst(key, now, n));
            && Sane(drained, now) && Level(drained, key, now) == Level(l, key, now) - n as real
            && (n > 0 ==> key in drained.buckets && drained.buckets[key].lastUpdate == now)
    decreases n
  {
    hide Level, Refill, Sane;
    if n > 0 {
      var c := Check(key, now);
      var l1 := Respond(l, c);
      RespondKeepsSane(l, c);
      LevelNow(l, c, key);
      LevelInRange(l, key, now);
      assert Level(l1, key, now) == Level(l, key, now) - 1.0;
      BurstIsAccepted(l1, key, now, n - 1);
      assert Burst(key, now, n)[1..] == Burst(key, now, n - 1);
      if n == 1 {
        assert After(l1, Burst(key, now, 0)) == l1;
      }
    }
  }

  /** Drain the bucket, have it evicted after an hour, drain it again: twice the whole tokens within the hour. */
  lemma EvictionRefillsTooMuch(capacity: real, refillRate: real, key: Key) returns (window: seq<Call>)
    requires capacity >= 1.0 && refillRate >= 0.0
    ensures Within(window, 0.0, IDLE_SECS)
    ensures Accepted(New(capacity, refillRate), window, key) == 2 * capacity.Floor
  {
    hide Level, Refill;
    var l, n := New(capacity, refillRate), capacity.Floor;
    var evict, again := [Cleanup(IDLE_SECS)], Burst(key, IDLE_SECS, n);
    LevelOfMissing(l, key, 0.0);
    BurstIsAccepted(l, key, 0.0, n);
    var drained := After(l, Burst(key, 0.0, n));
    EvictAfterIdling(drained, key, 0.0, IDLE_SECS);
    var evicted := Cleaned(drained, IDLE_SECS);
    LevelOfMissing(evicted, key, IDLE_SECS);
    BurstIsAccepted(evicted, key, IDLE_SECS, n);
    window := Burst(key, 0.0, n) + (evict + again);
    AcceptedConcat(l, Burst(key, 0.0, n), evict + again, key);
    AcceptedConcat(drained, evict, again, key);
    assert Within(evict, 0.0, IDLE_SECS);
    WithinConcat(evict, again, 0.0, IDLE_SECS, IDLE_SECS);
    WithinConcat(Burst(key, 0.0, n), evict + again, 0.0, 0.0, IDLE_SECS);
  }

  lemma LevelOfMissing(l: Limiter, key: Key, now: Time)
    requires key !in l.buckets
    ensures Level(l, key, now) == l.capacity
  {
  }

  lemma EvictAfterIdling(l: Limiter, key: Key, last: Time, now: Time)
    requires Sane(l, last) && key in l.buckets && l.buckets[key].lastUpdate == last && now - last >= IDLE_SECS
    ensures Sane(Cleaned(l, now), now) && key !in Cleaned(l, now).buckets
    ensures After(l, [Cleanup(now)]) == Cleaned(l, now) && Accepted(l, [Cleanup(now)], key) == 0
  {
    var evict := [Cleanup(now)];
    assert evict[1..] == [];
    RespondKeepsSane(l, evict[0]);
  }

  /** Drain a full bucket, wait for one more token and take it, idle for an hour, and have the bucket evicted. */
  function Cycle(key: Key, now: Time, n: nat, wait: real): seq<Call> {
    Burst(key, now, n) + ([Check(key, now + wait)] + [Cleanup(now + wait + IDLE_SECS)])
  }

  lemma CycleIsAccepted(l: Limiter, key: Key, now: Time, n: nat, wait: real)
    requires Sane(l, now) && key !in l.buckets && l.capacity >= 1.0 && n == l.capacity.Floor && wait >= 0.0
    requires l.capacity - n as real + Refill(wait, l.refillRate) == 1.0
    ensures Within(Cycle(key, now, n, wait), now, now + wait + IDLE_SECS)
    ensures Accepted(l, Cycle(key, now, n, wait), key) == n + 1
    ensures var after := After(l, Cycle(key, now, n, wait));
            Sane(after, now + wait + IDLE_SECS) && key !in after.buckets
  {
    hide Level, Refill, Sane, Cleaned;
    var last, evict := [Check(key, now + wait)], [Cleanup(now + wait + IDLE_SECS)];
    LevelOfMissing(l, key, now);
    BurstIsAccepted(l, key, now, n);
    var drained := After(l, Burst(key, now, n));
    SaneLater(drained, now, now + wait);
    LevelGrows(drained, key, now, now + wait);
    assert now + wait - now == wait;
    LastTokenIsTaken(drained, key, now + wait);
    var empty := After(drained, last);
    EvictAfterIdling(empty, key, now + wait, now + wait + IDLE_SECS);
    AcceptedConcat(drained, last, evict, key);
    AcceptedConcat(l, Burst(key, now, n), last + evict, key);
    assert last[1..] == [] && evict[1..] == [];
    WithinConcat(last, evict, now, now + wait, now + wait + IDLE_SECS);
    WithinConcat(Burst(key, now, n), last + evict, now, now, now + wait + IDLE_SECS);
  }

  lemma LastTokenIsTaken(l: Limiter, key: Key, now: Time)
    requires Sane(l, now) && Level(l, key, now) >= 1.0
    ensures Accepted(l, [Check(key, now)], key) == 1
    ensures var after := After(l, [Check(key, now)]);
            Sane(after, now) && key in after.buckets && after.buckets[key].lastUpdate == now
  {
    var calls := [Check(key, now)];
    assert calls[1..] == [];
    RespondKeepsSane(l, calls[0]);
  }

  function Cycles(key: Key, now: Time, n: nat, wait: real, k: nat): seq<Call>
    decreases k
  {
    if k == 0 then [] else Cycle(key, now, n, wait) + Cycles(key, now + wait + IDLE_SECS, n, wait, k - 1)
  }

  function CyclesEnd(now: Time, wait: real, k: nat): Time {
    now + k as real * (wait + IDLE_SECS)
  }

  lemma OneCycleFurther(now: Time, wait: real, n: nat, k: nat)
    requires k > 0
    ensures CyclesEnd(now + wait + IDLE_SECS, wait, k - 1) == CyclesEnd(now, wait, k)
    ensures (n + 1) + (k - 1) * (n + 1) == k * (n + 1)
  {
  }

  lemma NoCycles(l: Limiter, key: Key, now: Time, wait: real)
    ensures Within([], now, CyclesEnd(now, wait, 0)) && Accepted(l, [], key) == 0
  {
  }

  lemma {:induction false} CyclesAreAccepted(l: Limiter, key: Key, now: Time, n: nat, wait: real, k: nat)
    requires Sane(l, now) && key !in l.buckets && l.capacity >= 1.0 && n == l.capacity.Floor && wait >= 0.0
    requires l.capacity - n as real + Refill(wait, l.refillRate) == 1.0
    ensures Within(Cycles(key, now, n, wait, k), now, CyclesEnd(now, wait, k))
    ensures Accepted(l, Cycles(key, now, n, wait, k), key) == k * (n + 1)
    decreases k
  {
    hide Level, Refill, Sane, Cycle, CyclesEnd, Accepted, After, Within;
    if k == 0 {
      NoCycles(l, key, now, wait);
    } else {
      var next := now + wait + IDLE_SECS;
      CycleIsAccepted(l, key, now, n, wait);
      CyclesAreAccepted(After(l, Cycle(key, now, n, wait)), key, next, n, wait, k - 1);
      AcceptedConcat(l, Cycle(key, now, n, wait), Cycles(key, next, n, wait, k - 1), key);
      OneCycleFurther(now, wait, n, k);
      WithinConcat(Cycle(key, now, n, wait), Cycles(key, next, n, wait, k - 1), now, next, CyclesEnd(now, wait, k));
    }
  }

  /** Enough cycles exceed any capacity, as each lets through more than it refills by what eviction adds. */
  lemma CyclesBreakTheBound(capacity: real, refillRate: real)
    requires capacity >= 1.0 && refillRate > 0.0 && capacity > Refill(IDLE_SECS, refillRate)
    ensures !Bounded(capacity, refillRate)
  {
    hide Accepted, After, Within, Cycles;
    var l, n := New(capacity, refillRate), capacity.Floor;
    var missing := 1.0 - (capacity - n as real);
    var wait := missing / refillRate;
    QuotientTimesRate(missing, refillRate);
    RefillMonotone(0.0, 1.0, refillRate);
    assert wait >= 0.0;
    var gain := capacity - Refill(IDLE_SECS, refillRate);
    var k := (capacity / gain).Floor + 1;
    EnoughSteps(capacity, gain, k);
    CyclesAreAccepted(l, "", 0.0, n, wait, k);
    RefillOfCycles(wait, refillRate, k);
    var to := CyclesEnd(0.0, wait, k);
    assert k as real * (n + 1) as real == k as real * (missing + Refill(IDLE_SECS, refillRate)) + k as real * gain;
    assert (k * (n + 1)) as real == k as real * (n + 1) as real;
    NothingBefore(l);
    assert !WindowIsBounded(capacity, refillRate, [], Cycles("", 0.0, n, wait, k), "", 0.0, 0.0, to);
  }

  lemma NothingBefore(l: Limiter)
    ensures After(l, []) == l && Within([], 0.0, 0.0)
  {
  }

  lemma EnoughSteps(x: real, step: real, k: int)
    requires x >= 0.0 && step > 0.0 && k == (x / step).Floor + 1
    ensures k > 0 && k as real * step > x
  {
    var q := x / step;
    assert q * step == x;
    assert k as real > q;
    assert k as real * step > q * step;
  }

  lemma RefillOfCycles(wait: real, refillRate: real, k: nat)
    ensures Refill(k as real * (wait + IDLE_SECS), refillRate) ==
            k as real * (Refill(wait, refillRate) + Refill(IDLE_SECS, refillRate))
  {
  }

  /** Without a positive refill, or with a negative capacity, simple windows break the bound. */
  lemma DegenerateLimitsAreNotBounded(capacity: real, refillRate: real)
    requires capacity < 0.0 || refillRate < 0.0 || (refillRate == 0.0 && capacity >= 1.0)
    ensures !Bounded(capacity, refillRate)
  {
    NothingBefore(New(capacity, refillRate));
    if capacity < 0.0 {
      assert !WindowIsBounded(capacity, refillRate, [], [], "", 0.0, 0.0, 0.0);
    } else if refillRate < 0.0 {
      var to := (0.0 - capacity - 1.0) / refillRate;
      QuotientTimesRate(0.0 - capacity - 1.0, refillRate);
      assert to >= 0.0;
      assert Within([], 0.0, to);
      assert !WindowIsBounded(capacity, refillRate, [], [], "", 0.0, 0.0, to);
    } else {
      var window := EvictionRefillsTooMuch(capacity, refillRate, "");
      assert Refill(IDLE_SECS, refillRate) == 0.0;
      assert !WindowIsBounded(capacity, refillRate, [], window, "", 0.0, 0.0, IDLE_SECS);
    }
  }

  /**
   * Whatever its capacity and rate, a limiter keeps every window of every run within capacity plus refill
   * exactly when neither is negative and it either never allows anything or refills completely in an hour.
   */
  lemma BoundedExactlyWhen(capacity: real, refillRate: real)
    ensures Bounded(capacity, refillRate) <==>
            capacity >= 0.0 && refillRate >= 0.0 &&
            (capacity < 1.0 || capacity <= Refill(IDLE_SECS, refillRate))
  {
    hide WindowIsBounded, Refill;
    if capacity < 0.0 || refillRate < 0.0 || (refillRate == 0.0 && capacity >= 1.0) {
      DegenerateLimitsAreNotBounded(capacity, refillRate);
      NoRefillWithoutRate();
    } else if capacity < 1.0 || capacity <= Refill(IDLE_SECS, refillRate) {
      forall before, window, key, start, from, to
        ensures WindowIsBounded(capacity, refillRate, before, window, key, start, from, to)
      {
        WindowBound(capacity, refillRate, before, window, key, start, from, to);
      }
    } else {
      CyclesBreakTheBound(capacity, refillRate);
    }
  }

  lemma NoRefillWithoutRate()
    ensures Refill(IDLE_SECS, 0.0) == 0.0
  {
  }

  // ----- Eviction changes no answer -----

  ghost predicate SameLevels(l: Limiter, m: Limiter, now: Time) {
    && l.capacity == m.capacity && l.refillRate == m.refillRate
    && forall key :: Level(l, key, now) == Level(m, key, now)
  }

  lemma {:induction false} SameLevelsSameAnswers(l: Limiter, m: Limiter, calls: seq<Call>, from: Time, to: Time)
    requires Sane(l, from) && Sane(m, from) && l.capacity <= Refill(IDLE_SECS, l.refillRate)
    requires SameLevels(l, m, from) && Within(calls, from, to)
    ensures Answers(l, calls) == Answers(m, calls)
    decreases calls
  {
    hide Level;
    if calls != [] {
      var c := calls[0];
      SaneLater(l, from, c.now);
      SaneLater(m, from, c.now);
      forall key ensures Level(l, key, c.now) == Level(m, key, c.now) {
        LevelGrows(l, key, from, c.now);
        LevelGrows(m, key, from, c.now);
      }
      forall key ensures Level(Respond(l, c), key, c.now) == Level(Respond(m, c), key, c.now) {
        RespondLevel(l, c, key);
        RespondLevel(m, c, key);
      }
      RespondKeepsSane(l, c);
      RespondKeepsSane(m, c);
      SameLevelsSameAnswers(Respond(l, c), Respond(m, c), calls[1..], c.now, to);
    }
  }

  /** If an hour refills a bucket, cleaning up never changes any later answer. */
  lemma CleanupChangesNoAnswer(l: Limiter, now: Time, calls: seq<Call>, to: Time)
    requires Sane(l, now) && l.capacity <= Refill(IDLE_SECS, l.refillRate) && Within(calls, now, to)
    ensures Answers(Cleaned(l, now), calls) == Answers(l, calls)
  {
    forall key ensures Level(Cleaned(l, now), key, now) == Level(l, key, now) {
      CleanupKeepsLevels(l, key, now);
    }
    RespondKeepsSane(l, Cleanup(now));
    SameLevelsSameAnswers(Cleaned(l, now), l, calls, now, to);
  }

  // ----- The advice to retry -----

  lemma CeilBounds(x: real)
    ensures x <= Ceil(x) as real < x + 1.0
  {
  }

  lemma QuotientTimesRate(x: real, rate: real)
    requires rate != 0.0
    ensures Refill(x / rate, rate) == x
  {
  }

  /**
   * Waiting as long as a refusal says, with no other request of the key in between, is enough for every limiter
   * that can hold a token, unless the answer is saturated; and no smaller whole number of seconds ever is.
   */
  lemma RetryAdviceIsExact(l: Limiter, key: Key, now: Time)
    requires Sane(l, now)
    requires CheckKey(l, key, now).answer.Limited?
    ensures var r := CheckKey(l, key, now);
            var secs := r.answer.waitSecs;
            && (secs < U64_MAX ==>
                  (CheckKey(r.limiter, key, now + secs as real).answer.Allowed? <==> l.capacity >= 1.0))
            && (secs > 1 ==> CheckKey(r.limiter, key, now + (secs - 1) as real).answer.Limited?)
  {
    hide Level, Ceil, Refill;
    LevelInRange(l, key, now);
    var tokens := Level(l, key, now);
    var secs := WaitSecs(tokens, l.refillRate);
    LevelAfterRefusal(l, key, now, secs as real);
    WaitIsLeast(tokens, l.refillRate);
    if secs > 1 {
      LevelAfterRefusal(l, key, now, (secs - 1) as real);
    }
  }

  lemma WaitIsLeast(tokens: real, refillRate: real)
    requires 0.0 <= tokens < 1.0 && refillRate >= 0.0
    ensures var secs := WaitSecs(tokens, refillRate);
            && (secs < U64_MAX ==> tokens + Refill(secs as real, refillRate) >= 1.0)
            && (secs > 1 ==> tokens + Refill((secs - 1) as real, refillRate) < 1.0)
  {
    hide Ceil, Refill;
    var secs := WaitSecs(tokens, refillRate);
    if refillRate == 0.0 {
      NoRefillAtAll((secs - 1) as real);
    } else {
      var missing := 1.0 - tokens;
      var exact := missing / refillRate;
      CeilBounds(exact);
      QuotientTimesRate(missing, refillRate);
      if exact <= secs as real {
        RefillMonotone(exact, secs as real, refillRate);
      }
      if secs > 1 {
        RefillMonotone((secs - 1) as real, exact, refillRate);
      }
    }
  }

  lemma NoRefillAtAll(secs: real)
    ensures Refill(secs, 0.0) == 0.0
  {
  }

  lemma LevelAfterRefusal(l: Limiter, key: Key, now: Time, wait: real)
    requires wait >= 0.0 && CheckKey(l, key, now).answer.Limited?
    ensures Level(CheckKey(l, key, now).limiter, key, now + wait) ==
            Min(Level(l, key, now) + Refill(wait, l.refillRate), l.capacity)
  {
    assert Elapsed(now + wait, now) == wait;
  }

  // ----- The limiter -----

  class RateLimiter {
    const capacity: real
    const refillRate: real
    var buckets: map<Key, Bucket>

    function Abs(): Limiter
      reads this
    {
      Limiter(capacity, refillRate, buckets)
    }

    constructor (capacity: real, refillRate: real)
      ensures Abs() == New(capacity, refillRate)
    {
      this.capacity, this.refillRate, buckets := capacity, refillRate, map[];
    }

    /** Refill the key's bucket for the time passed, then take a token or say how long to wait. */
    method Check(key: Key, now: Time) returns (answer: Answer)
      modifies this
      ensures Response(Abs(), answer) == CheckKey(old(Abs()), key, now)
    {
      var bucket := if key in buckets then buckets[key] else Bucket(capacity, now);
      var elapsed := Elapsed(now, bucket.lastUpdate);
      bucket := Bucket(Min(bucket.tokens + Refill(elapsed, refillRate), capacity), now);
      if bucket.tokens >= 1.0 {
        bucket := bucket.(tokens := bucket.tokens - 1.0);
        answer := Allowed;
      } else {
        var missing := 1.0 - bucket.tokens;
        var waitSecs := if refillRate == 0.0 then U64_MAX else ToU64(Ceil(missing / refillRate));
        answer := Limited(if waitSecs < 1 then 1 else waitSecs);
      }
      buckets := buckets[key := bucket];
    }

    /** Drop the buckets that have not been used for an hour. */
    method Cleanup(now: Time)
      modifies this
      ensures Abs() == Cleaned(old(Abs()), now)
    {
      buckets := map k | k in buckets && Elapsed(now, buckets[k].lastUpdate) < IDLE_SECS :: buckets[k];
    }
  }
}
