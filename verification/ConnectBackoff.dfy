/**
 The background Connect retry: exponential backoff in int64 nanoseconds.
 Delays are modelled with Go's wrap-around, so the point where doubling
 overflows is part of the model.
 */
module ConnectBackoff {
  import opened Prelude

  const DEFAULT_INITIAL: int := 5_000_000_000
  const DEFAULT_MAX: int := 120_000_000_000

  predicate IsInt64(x: int) {
    -MAX_INT64 - 1 <= x <= MAX_INT64
  }

  /** An int64 result of unbounded arithmetic. */
  function Wrap(x: int): int {
    (x + MAX_INT64 + 1) % (2 * MAX_INT64 + 2) - MAX_INT64 - 1
  }

  /** `connectRetryBounds`. */
  function Bounds(initialDelay: int, maxDelay: int): (b: (int, int))
    ensures 0 < b.0 <= b.1
    ensures b.0 == if initialDelay > 0 then initialDelay else 5_000_000_000
    ensures maxDelay > 0 ==> b.1 == maxDelay || (b.1 == b.0 && maxDelay < b.0)
    ensures maxDelay <= 0 ==> b.1 == 120_000_000_000 || (b.1 == b.0 && 120_000_000_000 < b.0)
    ensures IsInt64(initialDelay) && IsInt64(maxDelay) ==> IsInt64(b.0) && IsInt64(b.1)
  {
    var initial := if initialDelay <= 0 then DEFAULT_INITIAL else initialDelay;
    var max := if maxDelay <= 0 then DEFAULT_MAX else maxDelay;
    (initial, if max < initial then initial else max)
  }

  /** The delay after k failures. */
  function Delay(initial: int, max: int, k: nat): int {
    if k == 0 then initial
    else NextDelay(Delay(initial, max, k - 1), max)
  }

  /** `jitter`, with the random draw as an argument. */
  function Jitter(d: int, draw: nat): int
    requires d > 0 ==> draw <= d / 2
  {
    if d <= 0 then 0 else Wrap(d + draw)
  }

  /** One failure later. */
  function NextDelay(delay: int, max: int): int {
    if Wrap(delay * 2) < max then Wrap(delay * 2) else max
  }

  /** The random draws of a run: for each wait, at most half of its delay. */
  type Draws = (nat, int) -> nat

  ghost predicate AreDraws(draws: Draws) {
    forall k: nat, d: int :: d > 0 ==> draws(k, d) <= d / 2
  }

  /** The wait before call k. */
  function Wait(initial: int, max: int, draws: Draws, k: nat): int
    requires AreDraws(draws)
  {
    Jitter(Delay(initial, max, k), draws(k, Delay(initial, max, k)))
  }

  /**
   `retryConnect` against a script of Connect results, the context ending with
   the script: the waits, one before each call, and whether it connected. It
   stops at the first success, and every wait is in bounds where the cap allows.
   */
  method RetryConnect(initialDelay: int, maxDelay: int, draws: Draws, results: seq<bool>)
    returns (waits: seq<int>, connected: bool)
    requires IsInt64(initialDelay) && IsInt64(maxDelay) && AreDraws(draws)
    ensures |waits| <= |results|
    ensures var (initial, max) := Bounds(initialDelay, maxDelay);
            && (forall i :: 0 <= i < |waits| ==> waits[i] == Wait(initial, max, draws, i))
            && (max <= MAX_INT64 / 2 ==> forall i :: 0 <= i < |waits| ==> initial <= waits[i] <= max + max / 2)
    ensures connected ==> |waits| > 0 && results[|waits| - 1]
    ensures forall i :: 0 <= i < (if connected then |waits| - 1 else |waits|) ==> !results[i]
    ensures !connected ==> |waits| == |results|
  {
    var (initial, max) := Bounds(initialDelay, maxDelay);
    var delay := initial;
    waits, connected := [], false;
    if max <= MAX_INT64 / 2 {
      WaitsStayInBounds(initialDelay, maxDelay);
    }
    while |waits| < |results|
      invariant |waits| <= |results| && !connected
      invariant delay == Delay(initial, max, |waits|)
      invariant forall i :: 0 <= i < |waits| ==> waits[i] == Wait(initial, max, draws, i) && !results[i]
      invariant max <= MAX_INT64 / 2 ==> forall i :: 0 <= i < |waits| ==> initial <= waits[i] <= max + max / 2
      decreases |results| - |waits|
    {
      var wait := Jitter(delay, draws(|waits|, delay));
      assert max <= MAX_INT64 / 2 ==> WaitsInBounds(initial, max, |waits|);
      waits := waits + [wait];
      if results[|waits| - 1] {
        connected := true;
        return;
      }
      delay := NextDelay(delay, max);
    }
  }

  function Pow2(k: nat): nat {
    if k == 0 then 1 else 2 * Pow2(k - 1)
  }

  /** The textbook backoff: doubling, capped. */
  function Capped(initial: int, max: int, k: nat): int {
    if initial * Pow2(k) < max then initial * Pow2(k) else max
  }

  lemma WrapIsIdentity(x: int)
    requires IsInt64(x)
    ensures Wrap(x) == x
  {
  }

  lemma Scale(x: int, y: int)
    ensures x * (2 * y) == 2 * (x * y)
  {
  }

  /** Below half the int64 range the delays are exactly the capped doubling, never fall and stay in bounds. */
  lemma {:induction false} DelayIsCappedDoubling(initial: int, max: int, k: nat)
    requires 0 < initial <= max <= MAX_INT64 / 2
    ensures Delay(initial, max, k) == Capped(initial, max, k)
    ensures initial <= Delay(initial, max, k) <= max
    ensures k > 0 ==> Delay(initial, max, k - 1) <= Delay(initial, max, k)
  {
    if k > 0 {
      DelayIsCappedDoubling(initial, max, k - 1);
      WrapIsIdentity(2 * Delay(initial, max, k - 1));
      Scale(initial, Pow2(k - 1));
    } else {
      assert initial * Pow2(0) == initial;
    }
  }

  /** With a larger cap the doubling wraps: from a delay in bounds, some later delay is negative. */
  lemma {:induction false} DelayOverflows(initial: int, max: int, k: nat) returns (bad: nat)
    requires 0 < initial <= max <= MAX_INT64 && max > MAX_INT64 / 2
    requires 0 < Delay(initial, max, k) <= max
    ensures Delay(initial, max, bad) < 0
    decreases MAX_INT64 - Delay(initial, max, k)
  {
    var d := Delay(initial, max, k);
    if d > MAX_INT64 / 2 {
      assert Wrap(d * 2) == d * 2 - 2 * MAX_INT64 - 2;
      bad := k + 1;
    } else {
      assert Wrap(d * 2) == d * 2;
      bad := DelayOverflows(initial, max, k + 1);
    }
  }

  /** Backoff never leaves its bounds if and only if the effective cap is at most half the int64 range. */
  lemma BackoffStaysInBounds(initialDelay: int, maxDelay: int)
    requires IsInt64(initialDelay) && IsInt64(maxDelay)
    ensures var (initial, max) := Bounds(initialDelay, maxDelay);
            (forall k: nat :: initial <= Delay(initial, max, k) <= max) <==> max <= MAX_INT64 / 2
  {
    var (initial, max) := Bounds(initialDelay, maxDelay);
    if max <= MAX_INT64 / 2 {
      forall k: nat ensures initial <= Delay(initial, max, k) <= max {
        DelayIsCappedDoubling(initial, max, k);
      }
    } else {
      var bad := DelayOverflows(initial, max, 0);
    }
  }

  /**
   Whatever is drawn, jitter adds at most half of the delay, if and only if half as much again still fits an
   int64.
   */
  lemma JitterIsBounded(d: int)
    requires 0 < d <= MAX_INT64
    ensures (forall draw: nat :: draw <= d / 2 ==> d <= Jitter(d, draw) <= d + d / 2) <==> d + d / 2 <= MAX_INT64
  {
    var half: nat := d / 2;
    if d + half > MAX_INT64 {
      assert Jitter(d, half) < 0;
    }
  }

  /**
   What the retry waits for after k failures, for every draw, stays between the first delay and half as much
   again as the cap.
   */
  ghost predicate WaitsInBounds(initial: int, max: int, k: nat) {
    var d := Delay(initial, max, k);
    forall draw: nat :: (d > 0 ==> draw <= d / 2) ==> initial <= Jitter(d, draw) <= max + max / 2
  }

  /** Every wait is in bounds, whatever is drawn, if and only if the effective cap is at most half the int64 range. */
  lemma WaitsStayInBounds(initialDelay: int, maxDelay: int)
    requires IsInt64(initialDelay) && IsInt64(maxDelay)
    ensures var (initial, max) := Bounds(initialDelay, maxDelay);
            (forall k: nat :: WaitsInBounds(initial, max, k)) <==> max <= MAX_INT64 / 2
  {
    var (initial, max) := Bounds(initialDelay, maxDelay);
    if max <= MAX_INT64 / 2 {
      forall k: nat ensures WaitsInBounds(initial, max, k) {
        DelayIsCappedDoubling(initial, max, k);
        WaitInBounds(initial, max, k);
      }
    } else {
      var bad := DelayOverflows(initial, max, 0);
      assert Jitter(Delay(initial, max, bad), 0) == 0;
      assert !WaitsInBounds(initial, max, bad);
    }
  }

  /** A positive delay is lengthened by the draw, as long as that fits; no delay waits not at all. */
  lemma JitterAddsTheDraw(d: int, draw: nat)
    requires d > 0 ==> draw <= d / 2 && d + draw <= MAX_INT64
    ensures Jitter(d, draw) == if d > 0 then d + draw else 0
  {
  }

  lemma WaitInBounds(initial: int, max: int, k: nat)
    requires 0 < initial <= Delay(initial, max, k) <= max <= MAX_INT64 / 2
    ensures WaitsInBounds(initial, max, k)
  {
    var d := Delay(initial, max, k);
    JitterIsBounded(d);
    forall draw: nat | draw <= d / 2 ensures initial <= Jitter(d, draw) <= max + max / 2 {
      assert d <= Jitter(d, draw) <= d + d / 2;
    }
  }
}
