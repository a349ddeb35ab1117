/** The three rate-limit algorithms, over real time and real tokens. */
module RateLimit {
  import opened Counting

  /** Per-client state; each algorithm uses its own part of it. */
  datatype Client = Client(count: nat, windowStart: real, tokens: real, lastRefill: real)

  /** A client is created by its first request and starts with an empty bucket. */
  function NewClient(now: real): Client { Client(0, now, 0.0, now) }

  datatype Verdict = Verdict(allowed: bool, remaining: nat)

  function SaturatingSub(a: nat, b: nat): nat { if a < b then 0 else a - b }

  // ----- The checks as functions -----

  /** `max as u64 - 1`, which wraps around in a release build. */
  function AfterFirst(max: nat): nat { if max == 0 then 0xFFFF_FFFF_FFFF_FFFF else max - 1 }

  function FixedWindow(c: Client, max: nat, window: real, now: real): (Client, Verdict) {
    if now - c.windowStart >= window then (c.(windowStart := now, count := 1), Verdict(true, AfterFirst(max)))
    else (c.(count := c.count + 1), Verdict(c.count + 1 <= max, SaturatingSub(max, c.count + 1)))
  }

  function WeightedCount(count: nat, elapsed: real, window: real): nat
    requires 0.0 <= elapsed < window
  {
    var ratio := elapsed / window;
    RatioBounds(elapsed, window);
    WeightBounds(count, ratio);
    (count as real * (1.0 - ratio)).Floor
  }

  function SlidingWindow(c: Client, max: nat, window: real, now: real): (Client, Verdict)
    requires c.windowStart <= now
  {
    var elapsed := now - c.windowStart;
    if elapsed >= window then (c.(windowStart := now, count := 1), Verdict(true, AfterFirst(max)))
    else
      var count := WeightedCount(c.count, elapsed, window) + 1;
      (c.(count := count), Verdict(count <= max, SaturatingSub(max, count)))
  }

  /** The tokens that flow in during `elapsed`. */
  function Earned(elapsed: real, rate: real): real { elapsed * rate }

  lemma EarnedSum(a: real, b: real, rate: real)
    ensures Earned(a, rate) + Earned(b, rate) == Earned(a + b, rate)
  {
  }

  lemma EarnedMonotone(a: real, b: real, rate: real)
    requires a <= b && 0.0 <= rate
    ensures Earned(a, rate) <= Earned(b, rate)
    ensures 0.0 <= a ==> 0.0 <= Earned(a, rate)
    ensures Earned(0.0, rate) == 0.0
  {
  }

  function Min(a: real, b: real): real { if a < b then a else b }

  function Refilled(c: Client, size: nat, rate: real, now: real): real {
    Min(c.tokens + Earned(now - c.lastRefill, rate), size as real)
  }

  function TokenBucket(c: Client, size: nat, rate: real, now: real): (Client, Verdict) {
    var tokens := Refilled(c, size, rate, now);
    var d := c.(lastRefill := now);
    if tokens >= 1.0 then (d.(tokens := tokens - 1.0), Verdict(true, (tokens - 1.0).Floor))
    else (d.(tokens := tokens), Verdict(false, 0))
  }

  lemma RatioBounds(elapsed: real, window: real)
    requires 0.0 <= elapsed < window
    ensures 0.0 <= elapsed / window < 1.0
    ensures elapsed > 0.0 ==> elapsed / window > 0.0
  {
    var ratio := elapsed / window;
    assert ratio * window == elapsed;
    assert ratio < 0.0 ==> ratio * window < 0.0;
    assert ratio >= 1.0 ==> ratio * window >= window;
  }

  lemma WeightBounds(count: nat, ratio: real)
    requires 0.0 <= ratio < 1.0
    ensures 0.0 <= count as real * (1.0 - ratio) <= count as real
    ensures ratio > 0.0 && count > 0 ==> count as real * (1.0 - ratio) < count as real
  {
  }

  // ----- The state the middleware keeps, updated in place -----

  class RateLimitState {
    var count: nat
    var windowStart: real
    var tokens: real
    var lastRefill: real

    function Value(): Client
      reads this
    {
      Client(count, windowStart, tokens, lastRefill)
    }

    constructor (now: real)
      ensures Value() == NewClient(now)
    {
      count, windowStart, tokens, lastRefill := 0, now, 0.0, now;
    }

    method CheckFixedWindow(max: nat, window: real, now: real) returns (v: Verdict)
      modifies this
      ensures (Value(), v) == FixedWindow(old(Value()), max, window, now)
    {
      if now - windowStart >= window {
        windowStart := now;
        count := 1;
        return Verdict(true, AfterFirst(max));
      }
      count := count + 1;
      return Verdict(count <= max, SaturatingSub(max, count));
    }

    method CheckSlidingWindow(max: nat, window: real, now: real) returns (v: Verdict)
      requires windowStart <= now
      modifies this
      ensures (Value(), v) == SlidingWindow(old(Value()), max, window, now)
    {
      var elapsed := now - windowStart;
      if elapsed >= window {
        windowStart := now;
        count := 1;
        return Verdict(true, AfterFirst(max));
      }
      count := WeightedCount(count, elapsed, window) + 1;
      return Verdict(count <= max, SaturatingSub(max, count));
    }

    method CheckTokenBucket(size: nat, rate: real, now: real) returns (v: Verdict)
      modifies this
      ensures (Value(), v) == TokenBucket(old(Value()), size, rate, now)
    {
      tokens := Min(tokens + Earned(now - lastRefill, rate), size as real);
      lastRefill := now;
      if tokens >= 1.0 {
        tokens := tokens - 1.0;
        return Verdict(true, tokens.Floor);
      }
      return Verdict(false, 0);
    }
  }

  // ----- Runs: one client, checked at given times -----

  /** The times do not go back, and none is before `from`. */
  ghost predicate Clock(times: seq<real>, from: real) {
    && (forall i :: 0 <= i < |times| ==> from <= times[i])
    && (forall i, j :: 0 <= i < j < |times| ==> times[i] <= times[j])
  }

  lemma ClockTail(times: seq<real>, from: real)
    requires Clock(times, from) && times != []
    ensures Clock(times[1..], times[0])
  {
  }

  // ----- Token bucket -----

  function BucketAfter(c: Client, size: nat, rate: real, times: seq<real>): Client
    decreases |times|
  {
    if times == [] then c else BucketAfter(TokenBucket(c, size, rate, times[0]).0, size, rate, times[1..])
  }

  function BucketAdmissions(c: Client, size: nat, rate: real, times: seq<real>): nat
    decreases |times|
  {
    if times == [] then 0
    else
      var (d, v) := TokenBucket(c, size, rate, times[0]);
      (if v.allowed then 1 else 0) + BucketAdmissions(d, size, rate, times[1..])
  }

  predicate BucketOk(c: Client, size: nat) { 0.0 <= c.tokens <= size as real }

  lemma BucketStep(c: Client, size: nat, rate: real, now: real)
    requires BucketOk(c, size) && rate >= 0.0 && c.lastRefill <= now
    ensures BucketOk(TokenBucket(c, size, rate, now).0, size)
    ensures var (d, v) := TokenBucket(c, size, rate, now);
            d.tokens + (if v.allowed then 1.0 else 0.0) <= c.tokens + Earned(now - c.lastRefill, rate)
  {
    EarnedMonotone(0.0, now - c.lastRefill, rate);
  }

  /** Tokens never leave `[0, size]`, and what was admitted was paid for by tokens and refills. */
  lemma {:induction false} BucketAccount(c: Client, size: nat, rate: real, times: seq<real>)
    requires BucketOk(c, size) && rate >= 0.0 && Clock(times, c.lastRefill)
    ensures BucketOk(BucketAfter(c, size, rate, times), size)
    ensures times != [] ==>
              BucketAfter(c, size, rate, times).tokens + BucketAdmissions(c, size, rate, times) as real
              <= c.tokens + Earned(times[|times| - 1] - c.lastRefill, rate)
    decreases |times|
  {
    if times == [] {
    } else {
      var d := TokenBucket(c, size, rate, times[0]).0;
      BucketStep(c, size, rate, times[0]);
      ClockTail(times, c.lastRefill);
      BucketAccount(d, size, rate, times[1..]);
      if |times| > 1 {
        var last := times[|times| - 1];
        assert times[1..][|times| - 2] == last;
        EarnedSum(times[0] - c.lastRefill, last - times[0], rate);
      }
    }
  }

  /** Since its creation a client was admitted at most `rate` times the elapsed time:
      the bucket starts empty. */
  lemma AdmissionsSinceCreation(created: real, size: nat, rate: real, times: seq<real>)
    requires rate >= 0.0 && Clock(times, created) && times != []
    ensures BucketAdmissions(NewClient(created), size, rate, times) as real
         <= Earned(times[|times| - 1] - created, rate)
  {
    BucketAccount(NewClient(created), size, rate, times);
  }

  /** In any stretch of a run that lies within `[s, t]`, at most `size + Earned(t - s, rate)` are admitted. */
  lemma {:induction false} AdmissionsInInterval(created: real, size: nat, rate: real, before: seq<real>,
      times: seq<real>, s: real, t: real)
    requires rate >= 0.0 && Clock(before + times, created)
    requires forall i :: 0 <= i < |times| ==> s <= times[i] <= t
    requires s <= t
    ensures var c := BucketAfter(NewClient(created), size, rate, before);
            BucketAdmissions(c, size, rate, times) as real <= size as real + Earned(t - s, rate)
  {
    var c := BucketAfter(NewClient(created), size, rate, before);
    ClientAfter(created, size, rate, before, times);
    if times != [] {
      BucketStretch(c, size, rate, times);
      EarnedMonotone(times[|times| - 1] - times[0], t - s, rate);
    } else {
      EarnedMonotone(t - s, t - s, rate);
    }
  }

  lemma ClientAfter(created: real, size: nat, rate: real, before: seq<real>, times: seq<real>)
    requires rate >= 0.0 && Clock(before + times, created)
    ensures var c := BucketAfter(NewClient(created), size, rate, before);
            BucketOk(c, size) && Clock(times, c.lastRefill)
  {
    ClockPrefix(before, times, created);
    BucketAccount(NewClient(created), size, rate, before);
    LastRefill(NewClient(created), size, rate, before);
  }

  lemma ClockPrefix(before: seq<real>, times: seq<real>, created: real)
    requires Clock(before + times, created)
    ensures Clock(before, created)
    ensures Clock(times, if before == [] then created else before[|before| - 1])
  {
    var all := before + times;
    assert forall i :: 0 <= i < |before| ==> all[i] == before[i];
    assert forall i :: 0 <= i < |times| ==> all[|before| + i] == times[i];
  }

  lemma {:induction false} LastRefill(c: Client, size: nat, rate: real, times: seq<real>)
    ensures BucketAfter(c, size, rate, times).lastRefill == if times == [] then c.lastRefill else times[|times| - 1]
    decreases |times|
  {
    if times == [] {
    } else {
      LastRefill(TokenBucket(c, size, rate, times[0]).0, size, rate, times[1..]);
    }
  }

  /** A stretch is paid for by one full bucket at its first check. */
  lemma BucketStretch(c: Client, size: nat, rate: real, times: seq<real>)
    requires BucketOk(c, size) && rate >= 0.0 && Clock(times, c.lastRefill) && times != []
    ensures BucketAdmissions(c, size, rate, times) as real <= size as real + Earned(times[|times| - 1] - times[0], rate)
  {
    var full := c.(tokens := Refilled(c, size, rate, times[0]), lastRefill := times[0]);
    EarnedMonotone(0.0, times[0] - c.lastRefill, rate);
    assert TokenBucket(full, size, rate, times[0]) == TokenBucket(c, size, rate, times[0]);
    assert Clock(times, times[0]);
    BucketAccount(full, size, rate, times);
  }

  /** A request is admitted exactly if the bucket, refilled for the time since the last check and never beyond its size,
      holds a whole token; it pays one, and is told how many whole ones are left. */
  lemma TokenIff(c: Client, size: nat, rate: real, now: real)
    ensures var (d, v) := TokenBucket(c, size, rate, now);
            var held := c.tokens + (now - c.lastRefill) * rate;
            && (v.allowed <==> size >= 1 && held >= 1.0)
            && d == c.(lastRefill := now,
                       tokens := (if held < size as real then held else size as real) - if v.allowed then 1.0 else 0.0)
            && (v.allowed ==> v.remaining as real <= d.tokens < v.remaining as real + 1.0)
            && (!v.allowed ==> v.remaining == 0)
  {
    EarnedIs(now - c.lastRefill, rate);
    TokenFrom(c, size, rate, now, (now - c.lastRefill) * rate);
  }

  lemma EarnedIs(elapsed: real, rate: real)
    ensures Earned(elapsed, rate) == elapsed * rate
  {
  }

  lemma TokenFrom(c: Client, size: nat, rate: real, now: real, earned: real)
    requires Earned(now - c.lastRefill, rate) == earned
    ensures var (d, v) := TokenBucket(c, size, rate, now);
            var held := c.tokens + earned;
            && (v.allowed <==> size >= 1 && held >= 1.0)
            && d == c.(lastRefill := now,
                       tokens := (if held < size as real then held else size as real) - if v.allowed then 1.0 else 0.0)
            && (v.allowed ==> v.remaining as real <= d.tokens < v.remaining as real + 1.0)
            && (!v.allowed ==> v.remaining == 0)
  {
  }

  /** A check at the time of the last one takes one of `k` tokens. */
  lemma TokenTaken(c: Client, size: nat, rate: real, k: nat)
    requires c.tokens == k as real && k <= size
    ensures var (d, v) := TokenBucket(c, size, rate, c.lastRefill);
            && d.lastRefill == c.lastRefill && (v.allowed <==> k > 0)
            && d.tokens == (if k == 0 then 0 else k - 1) as real
  {
    EarnedIs(0.0, rate);
    TokenFrom(c, size, rate, c.lastRefill, 0.0);
  }

  lemma {:induction false} BurstOnTokens(c: Client, size: nat, rate: real, k: nat, n: nat)
    requires c.tokens == k as real && k <= size
    ensures BucketAdmissions(c, size, rate, seq(n, i => c.lastRefill)) == if n < k then n else k
    decreases n
  {
    if n == 0 {
    } else {
      var now := c.lastRefill;
      var (d, v) := TokenBucket(c, size, rate, now);
      TokenTaken(c, size, rate, k);
      assert seq(n, i => now)[1..] == seq(n - 1, i => d.lastRefill);
      BurstOnTokens(d, size, rate, if k == 0 then 0 else k - 1, n - 1);
    }
  }

  /** After a pause long enough to fill the bucket, a burst gets exactly the bucket's size through. */
  lemma BurstAfterPause(c: Client, size: nat, rate: real, now: real, n: nat)
    requires BucketOk(c, size) && (now - c.lastRefill) * rate >= size as real
    ensures BucketAdmissions(c, size, rate, seq(n, i => now)) == if n < size then n else size
  {
    if n > 0 {
      var (d, v) := TokenBucket(c, size, rate, now);
      TokenIff(c, size, rate, now);
      assert seq(n, i => now)[1..] == seq(n - 1, i => d.lastRefill);
      BurstOnTokens(d, size, rate, if size == 0 then 0 else size - 1, n - 1);
    }
  }

  // ----- Fixed window -----

  function FixedAdmissions(c: Client, max: nat, window: real, times: seq<real>): nat
    decreases |times|
  {
    if times == [] then 0
    else
      var (d, v) := FixedWindow(c, max, window, times[0]);
      (if v.allowed then 1 else 0) + FixedAdmissions(d, max, window, times[1..])
  }

  function FixedAfter(c: Client, max: nat, window: real, times: seq<real>): Client
    decreases |times|
  {
    if times == [] then c else FixedAfter(FixedWindow(c, max, window, times[0]).0, max, window, times[1..])
  }

  /** As long as the window lasts, only what is left of `max` is admitted. */
  lemma {:induction false} WithinOneWindow(c: Client, max: nat, window: real, times: seq<real>)
    requires forall i :: 0 <= i < |times| ==> times[i] < c.windowStart + window
    ensures FixedAdmissions(c, max, window, times) <= SaturatingSub(max, c.count)
    decreases |times|
  {
    if times == [] {
    } else {
      var d := FixedWindow(c, max, window, times[0]).0;
      assert times[0] < c.windowStart + window;
      WithinOneWindow(d, max, window, times[1..]);
    }
  }

  /** A half-open interval one window long meets at most two windows. */
  lemma {:induction false} WithinInterval(c: Client, max: nat, window: real, times: seq<real>, s: real)
    requires max >= 1 && window > 0.0
    requires forall i :: 0 <= i < |times| ==> s <= times[i] < s + window
    ensures FixedAdmissions(c, max, window, times) <= SaturatingSub(max, c.count) + max
    decreases |times|
  {
    if times == [] {
    } else {
      var d := FixedWindow(c, max, window, times[0]).0;
      if times[0] - c.windowStart >= window {
        WithinOneWindow(d, max, window, times[1..]);
      } else {
        WithinInterval(d, max, window, times[1..], s);
      }
    }
  }

  lemma {:induction false} WithinWindowVerdict(c: Client, max: nat, window: real, times: seq<real>, i: nat)
    requires i < |times| && forall j :: 0 <= j < |times| ==> times[j] < c.windowStart + window
    ensures var d := FixedAfter(c, max, window, times[..i]);
            && d == c.(count := c.count + i)
            && FixedWindow(d, max, window, times[i]).1
               == Verdict(c.count + i + 1 <= max, SaturatingSub(max, c.count + i + 1))
    decreases i
  {
    if i == 0 {
    } else {
      var d := FixedWindow(c, max, window, times[0]).0;
      assert times[..i][1..] == times[1..][..i - 1];
      WithinWindowVerdict(d, max, window, times[1..], i - 1);
    }
  }

  /** In a window opened by a request, exactly the first `max` requests pass, counting the opening one, and each is
      told how many are left. */
  lemma WindowVerdicts(c: Client, max: nat, window: real, open: real, rest: seq<real>, i: nat)
    requires max >= 1 && open - c.windowStart >= window && i <= |rest|
    requires forall j :: 0 <= j < |rest| ==> rest[j] < open + window
    ensures var times := [open] + rest;
            FixedWindow(FixedAfter(c, max, window, times[..i]), max, window, times[i]).1 ==
              Verdict(i < max, SaturatingSub(max, i + 1))
  {
    var times := [open] + rest;
    if i > 0 {
      var d := FixedWindow(c, max, window, open).0;
      assert times[..i][1..] == rest[..i - 1] && times[i] == rest[i - 1];
      WithinWindowVerdict(d, max, window, rest, i - 1);
    }
  }

  /** After any past, at most `max` of the requests of a window pass, the one that opens it included. */
  lemma WholeWindow(c: Client, max: nat, window: real, open: real, rest: seq<real>)
    requires max >= 1 && open - c.windowStart >= window
    requires forall i :: 0 <= i < |rest| ==> rest[i] < open + window
    ensures FixedAdmissions(c, max, window, [open] + rest) <= max
  {
    var d := FixedWindow(c, max, window, open).0;
    assert ([open] + rest)[1..] == rest;
    WithinOneWindow(d, max, window, rest);
  }

  /** In any run at most `max` requests pass per window, both in the one that starts when the client is created and in
      any later one with the request that opens it, and so at most `2 * max` in any half-open interval one window
      long. */
  lemma FixedWindowBound(created: real, max: nat, window: real, before: seq<real>, open: real, times: seq<real>,
      s: real)
    requires max >= 1 && window > 0.0
    ensures var c := FixedAfter(NewClient(created), max, window, before);
            && ((forall i :: 0 <= i < |times| ==> times[i] < created + window) ==>
                  FixedAdmissions(NewClient(created), max, window, times) <= max)
            && (open - c.windowStart >= window && (forall i :: 0 <= i < |times| ==> times[i] < open + window) ==>
                  FixedAdmissions(c, max, window, [open] + times) <= max)
            && ((forall i :: 0 <= i < |times| ==> s <= times[i] < s + window) ==>
                  FixedAdmissions(c, max, window, times) <= 2 * max)
  {
    var c := FixedAfter(NewClient(created), max, window, before);
    if forall i :: 0 <= i < |times| ==> times[i] < created + window {
      WithinOneWindow(NewClient(created), max, window, times);
    }
    if open - c.windowStart >= window && forall i :: 0 <= i < |times| ==> times[i] < open + window {
      WholeWindow(c, max, window, open, times);
    }
    if forall i :: 0 <= i < |times| ==> s <= times[i] < s + window {
      WithinInterval(c, max, window, times, s);
    }
  }

  /** With a limit of 0 the bound fails: exactly one request of every later window is still admitted, the one that opens
      it, and it is told that 2^64 - 1 more may follow. */
  lemma ZeroLimitStillAdmits(c: Client, window: real, open: real, rest: seq<real>)
    requires open - c.windowStart >= window
    requires forall i :: 0 <= i < |rest| ==> rest[i] < open + window
    ensures FixedWindow(c, 0, window, open).1 == Verdict(true, 0xFFFF_FFFF_FFFF_FFFF)
    ensures FixedAdmissions(c, 0, window, [open] + rest) == 1
  {
    assert ([open] + rest)[1..] == rest;
    WithinOneWindow(FixedWindow(c, 0, window, open).0, 0, window, rest);
  }

  // ----- Sliding window -----

  /** A check at positive elapsed time leaves the count at most `max(1, previous count)`. */
  lemma SlidingCountShrinks(c: Client, max: nat, window: real, now: real)
    requires window > 0.0 && c.windowStart < now
    ensures SlidingWindow(c, max, window, now).0.count <= if c.count < 1 then 1 else c.count
  {
    var elapsed := now - c.windowStart;
    if elapsed < window {
      RatioBounds(elapsed, window);
      WeightBounds(c.count, elapsed / window);
    }
  }

  /** The count a check leaves: one more than the whole part of the previous count times the share of the window that is
      left, or one if the window is over. The check passes exactly if this is within the limit. */
  lemma SlidingCountIs(c: Client, max: nat, window: real, now: real)
    requires window > 0.0 && c.windowStart <= now
    ensures var (d, v) := SlidingWindow(c, max, window, now);
            var elapsed := now - c.windowStart;
            && d.count >= 1
            && (elapsed >= window ==> d.count == 1 && v.allowed && v.remaining == AfterFirst(max))
            && (elapsed < window ==>
                  && (d.count - 1) as real * window <= c.count as real * (window - elapsed) < d.count as real * window
                  && v.allowed == (d.count <= max) && v.remaining == SaturatingSub(max, d.count))
  {
    var elapsed := now - c.windowStart;
    if elapsed < window {
      var d := SlidingWindow(c, max, window, now).0;
      FloorTimes(c.count, elapsed, window, WeightedCount(c.count, elapsed, window));
    }
  }

  lemma FloorTimes(count: nat, elapsed: real, window: real, n: nat)
    requires 0.0 <= elapsed < window && n == WeightedCount(count, elapsed, window)
    ensures n as real * window <= count as real * (window - elapsed) < (n + 1) as real * window
  {
    var ratio := elapsed / window;
    var x := count as real * (1.0 - ratio);
    assert n as real <= x < (n + 1) as real;
    assert ratio * window == elapsed;
    assert x * window == count as real * (window - elapsed) by {
      assert (1.0 - ratio) * window == window - elapsed;
      Reassociate(count as real, 1.0 - ratio, window);
    }
    TimesPositive(n as real, x, window);
    TimesPositiveStrict(x, (n + 1) as real, window);
  }

  lemma Reassociate(a: real, b: real, c: real)
    ensures a * b * c == a * (b * c)
  {
  }

  lemma TimesPositive(a: real, b: real, c: real)
    requires a <= b && c > 0.0
    ensures a * c <= b * c
  {
  }

  lemma TimesPositiveStrict(a: real, b: real, c: real)
    requires a < b && c > 0.0
    ensures a * c < b * c
  {
  }

  function SlidingAdmissions(c: Client, max: nat, window: real, times: seq<real>): nat
    requires Clock(times, c.windowStart)
    decreases |times|
  {
    if times == [] then 0
    else
      var (d, v) := SlidingWindow(c, max, window, times[0]);
      (if v.allowed then 1 else 0) + SlidingAdmissions(d, max, window, times[1..])
  }

  /** A check is rejected exactly if it comes at the instant the window starts and the limit is used up; until then
      the count stays within the limit. */
  lemma SlidingCheckIff(c: Client, max: nat, window: real, now: real)
    requires max >= 1 && window > 0.0 && c.count <= max && c.windowStart <= now
    ensures var (d, v) := SlidingWindow(c, max, window, now);
            && (v.allowed <==> !(now == c.windowStart && c.count == max))
            && (v.allowed ==> d.count <= max)
            && (now == c.windowStart ==> d == c.(count := c.count + 1))
            && d.windowStart == NextStart(c.windowStart, window, now)
  {
    if now == c.windowStart {
      assert WeightedCount(c.count, 0.0, window) == c.count;
    } else {
      SlidingCountShrinks(c, max, window, now);
    }
  }

  function NextStart(start: real, window: real, now: real): real { if now - start >= window then now else start }

  /** Some window of the run starts at `x`: the client's first, or one opened by a request. */
  ghost predicate IsStart(start: real, window: real, times: seq<real>, x: real)
    decreases |times|
  {
    x == start || (times != [] && IsStart(NextStart(start, window, times[0]), window, times[1..], x))
  }

  lemma {:induction false} StartsAreApart(start: real, window: real, times: seq<real>, x: real)
    requires window > 0.0 && IsStart(start, window, times, x)
    ensures x == start || x >= start + window
    decreases |times|
  {
    if x != start {
      StartsAreApart(NextStart(start, window, times[0]), window, times[1..], x);
    }
  }

  ghost predicate AllAdmitted(c: Client, max: nat, window: real, times: seq<real>)
    requires Clock(times, c.windowStart)
  {
    SlidingAdmissions(c, max, window, times) == |times|
  }

  /** What counts against the limit at `x`: the requests there, and what the client already has there. */
  function Burst(c: Client, times: seq<real>, x: real): nat {
    (if x == c.windowStart then c.count else 0) + Count(times, x)
  }

  ghost predicate NoBurst(c: Client, max: nat, window: real, times: seq<real>) {
    forall x :: IsStart(c.windowStart, window, times, x) ==> Burst(c, times, x) <= max
  }

  lemma {:induction false} NoneBefore(times: seq<real>, from: real, x: real)
    requires Clock(times, from) && x < from
    ensures Count(times, x) == 0
    decreases |times|
  {
    if times == [] {
    } else {
      NoneBefore(times[1..], from, x);
    }
  }

  lemma {:induction false} AdmittedAtMost(c: Client, max: nat, window: real, times: seq<real>)
    requires Clock(times, c.windowStart)
    ensures SlidingAdmissions(c, max, window, times) <= |times|
    decreases |times|
  {
    if times == [] {
    } else {
      AdmittedAtMost(SlidingWindow(c, max, window, times[0]).0, max, window, times[1..]);
    }
  }

  /** One request more at the front does not change which bursts are too large, if it is admitted. */
  lemma NoBurstStep(c: Client, d: Client, max: nat, window: real, times: seq<real>)
    requires max >= 1 && window > 0.0 && c.count <= max && times != [] && Clock(times, c.windowStart)
    requires (d, true) == (SlidingWindow(c, max, window, times[0]).0, SlidingWindow(c, max, window, times[0]).1.allowed)
    ensures NoBurst(c, max, window, times) <==> NoBurst(d, max, window, times[1..])
  {
    var now, rest := times[0], times[1..];
    SlidingCheckIff(c, max, window, now);
    ClockTail(times, c.windowStart);
    var next := d.windowStart;
    forall x
      ensures IsStart(c.windowStart, window, times, x) <==> x == c.windowStart || IsStart(next, window, rest, x)
      ensures IsStart(next, window, rest, x) ==> (Burst(c, times, x) <= max <==> Burst(d, rest, x) <= max)
      ensures x == c.windowStart && x != next ==> Burst(c, times, x) <= max
    {
      BurstStep(c, d, max, window, times, x);
    }
    assert IsStart(next, window, rest, next);
  }

  lemma BurstStep(c: Client, d: Client, max: nat, window: real, times: seq<real>, x: real)
    requires max >= 1 && window > 0.0 && c.count <= max && times != [] && Clock(times, c.windowStart)
    requires (d, true) == (SlidingWindow(c, max, window, times[0]).0, SlidingWindow(c, max, window, times[0]).1.allowed)
    ensures IsStart(d.windowStart, window, times[1..], x) ==>
        (Burst(c, times, x) <= max <==> Burst(d, times[1..], x) <= max)
    ensures x == c.windowStart && x != d.windowStart ==> Burst(c, times, x) <= max
  {
    var now, rest := times[0], times[1..];
    SlidingCheckIff(c, max, window, now);
    assert Count(times, x) == (if now == x then 1 else 0) + Count(rest, x);
    if c.windowStart < now {
      if x < now {
        NoneBefore(times, now, x);
      }
    }
    if IsStart(d.windowStart, window, rest, x) {
      StartsAreApart(d.windowStart, window, rest, x);
    }
  }

  /** Every request of a run is admitted exactly if no more than `max` come at any instant at which a window starts. */
  lemma {:induction false} SlidingAdmitsAllIff(c: Client, max: nat, window: real, times: seq<real>)
    requires max >= 1 && window > 0.0 && c.count <= max && Clock(times, c.windowStart)
    ensures AllAdmitted(c, max, window, times) <==> NoBurst(c, max, window, times)
    decreases |times|
  {
    if times == [] {
      assert forall x :: Count(times, x) == 0;
    } else {
      var (d, v) := SlidingWindow(c, max, window, times[0]);
      SlidingCheckIff(c, max, window, times[0]);
      ClockTail(times, c.windowStart);
      AdmittedAtMost(d, max, window, times[1..]);
      if v.allowed {
        NoBurstStep(c, d, max, window, times);
        SlidingAdmitsAllIff(d, max, window, times[1..]);
      } else {
        assert IsStart(c.windowStart, window, times, c.windowStart);
        assert Burst(c, times, c.windowStart) > max;
      }
    }
  }

  /** So the limiter never rejects, however many requests come in one window, as long as no two come at one instant. */
  lemma SlidingWindowNeverRejects(created: real, max: nat, window: real, times: seq<real>)
    requires max >= 1 && window > 0.0 && Clock(times, created)
    requires forall i, j :: 0 <= i < j < |times| ==> times[i] != times[j]
    ensures AllAdmitted(NewClient(created), max, window, times)
  {
    forall x
      ensures Count(times, x) <= 1
    {
      CountDistinct(times, x);
    }
    SlidingAdmitsAllIff(NewClient(created), max, window, times);
  }

  lemma {:induction false} CountDistinct(times: seq<real>, x: real)
    requires forall i, j :: 0 <= i < j < |times| ==> times[i] != times[j]
    ensures Count(times, x) <= 1
    decreases |times|
  {
    if times == [] {
    } else {
      CountDistinct(times[1..], x);
      CountPositive(times[1..], x);
    }
  }

  /** Only requests at the very instant the window starts add up: of any burst there, the first `max` pass. */
  lemma {:induction false} SlidingBurst(c: Client, max: nat, window: real, n: nat)
    requires max >= 1 && window > 0.0
    ensures Clock(seq(n, i => c.windowStart), c.windowStart)
    ensures SlidingAdmissions(c, max, window, seq(n, i => c.windowStart))
         == if n <= SaturatingSub(max, c.count) then n else SaturatingSub(max, c.count)
    decreases n
  {
    if n == 0 {
    } else {
      var d := SlidingWindow(c, max, window, c.windowStart).0;
      assert WeightedCount(c.count, 0.0, window) == c.count;
      assert seq(n, i => c.windowStart)[1..] == seq(n - 1, i => d.windowStart);
      SlidingBurst(d, max, window, n - 1);
    }
  }
}
