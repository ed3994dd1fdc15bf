/** Retrying a supplier with exponential back-off. */
module Retrying {
  import opened Basics

  /** What one turn of the retry loop observes: a cancelled context, or a run of the supplier. */
  datatype Tick<V, E> = Cancelled | Succeeded(value: V) | CannotRecover(cause: E) | Failed(error: E)

  datatype Result<V, E> =
    | Returned(value: V)
    | Aborted(cause: E)
    | MaxAttemptsReached(causes: seq<E>)
    | ContextCancelled
    | StillTrying

  datatype Config = Config(
    random: bool, unlimitedAttempts: bool, attempts: nat, baseExp: nat, baseTimeout: int, maxRetryTimeout: int)

  // --- What a retry amounts to ---

  /** The first turn that is not an ordinary failure, or the number of turns. */
  function FirstDecisive<V, E>(ticks: seq<Tick<V, E>>, i: nat): (r: nat)
    requires i <= |ticks|
    ensures i <= r <= |ticks|
    ensures forall j | i <= j < r :: ticks[j].Failed?
    ensures r < |ticks| ==> !ticks[r].Failed?
    decreases |ticks| - i
  {
    if i == |ticks| || !ticks[i].Failed? then i else FirstDecisive(ticks, i + 1)
  }

  function Errors<V, E>(ticks: seq<Tick<V, E>>, n: nat): (es: seq<E>)
    requires n <= |ticks| && forall i | 0 <= i < n :: ticks[i].Failed?
    ensures |es| == n && forall i | 0 <= i < n :: es[i] == ticks[i].error
  {
    if n == 0 then [] else Errors(ticks, n - 1) + [ticks[n - 1].error]
  }

  /** At least one attempt is always made. */
  function Limit(c: Config): nat {
    Max(1, c.attempts)
  }

  /**
   The first decisive turn decides, unless the attempts run out first; then all errors so far
   are returned, in order.
   */
  function Expected<V, E>(ticks: seq<Tick<V, E>>, c: Config): Result<V, E> {
    var n := FirstDecisive(ticks, 0);
    if !c.unlimitedAttempts && Limit(c) <= n then MaxAttemptsReached(Errors(ticks, Limit(c)))
    else if n == |ticks| then StillTrying
    else match ticks[n]
      case Cancelled => ContextCancelled
      case Succeeded(v) => Returned(v)
      case CannotRecover(e) => Aborted(e)
  }

  /** How often the supplier is called. */
  function Calls<V, E>(ticks: seq<Tick<V, E>>, c: Config): nat {
    var n := FirstDecisive(ticks, 0);
    if !c.unlimitedAttempts && Limit(c) <= n then Limit(c)
    else if n == |ticks| || ticks[n].Cancelled? then n
    else n + 1
  }

  /**
   The first turn that is not an ordinary failure decides, if it comes within the attempts; if all attempts fail
   their errors are reported, in order; and as long as neither has happened the loop goes on.
   */
  lemma ExpectedExact<V, E>(ticks: seq<Tick<V, E>>, c: Config, n: nat)
    requires n <= |ticks| && (forall i | 0 <= i < n :: ticks[i].Failed?) && (c.unlimitedAttempts || n <= Limit(c))
    ensures n < |ticks| && !ticks[n].Failed? && (c.unlimitedAttempts || n < Limit(c)) ==>
              && Expected(ticks, c) == (match ticks[n]
                                        case Cancelled => ContextCancelled
                                        case Succeeded(v) => Returned(v)
                                        case CannotRecover(e) => Aborted(e)
                                        case Failed(_) => StillTrying)
              && Calls(ticks, c) == n + if ticks[n].Cancelled? then 0 else 1
    ensures !c.unlimitedAttempts && n == Limit(c) ==>
              && Expected(ticks, c).MaxAttemptsReached? && |Expected(ticks, c).causes| == n == Calls(ticks, c)
              && forall i | 0 <= i < n :: Expected(ticks, c).causes[i] == ticks[i].error
    ensures n == |ticks| && (c.unlimitedAttempts || n < Limit(c)) ==> Expected(ticks, c).StillTrying? && Calls(ticks, c) == n
  {
    var d := FirstDecisive(ticks, 0);
    assert d >= n;
  }

  /** Limited attempts bound the calls, and running out of them reports at least one cause. */
  lemma AttemptsBounded<V, E>(ticks: seq<Tick<V, E>>, c: Config)
    requires !c.unlimitedAttempts
    ensures Calls(ticks, c) <= Limit(c)
    ensures Expected(ticks, c).MaxAttemptsReached? ==>
              && |Expected(ticks, c).causes| == Calls(ticks, c) == Limit(c) > 0
              && Expected(ticks, c).causes[Limit(c) - 1] == ticks[Limit(c) - 1].error
  {
  }

  // --- Waiting times ---

  /** The whole part of a multiple of a waiting time. */
  function Scale(f: real, base: int): int {
    Times(f, base as real).Floor
  }

  function Times(f: real, b: real): real {
    f * b
  }

  /** The next waiting time from the exponential one; u is the random draw from [0, 1). */
  function Spread(c: Config, product: int, u: real): int {
    var clamped := product > c.maxRetryTimeout;
    var base := if clamped then c.maxRetryTimeout else product;
    var multiplier := if clamped then u + 1.0 else u + 0.5;
    if c.random then Scale(multiplier, base) + 1 else base
  }

  function NextTimeout(c: Config, timeout: int, u: real): int {
    Spread(c, timeout * c.baseExp, u)
  }

  /** The waiting time after k waits. */
  function TimeoutAfter(c: Config, draws: seq<real>, k: nat): int
    requires k <= |draws|
  {
    if k == 0 then c.baseTimeout else NextTimeout(c, TimeoutAfter(c, draws, k - 1), draws[k - 1])
  }

  function Pow(b: int, e: nat): int {
    if e == 0 then 1 else b * Pow(b, e - 1)
  }

  /** Without randomness the k-th wait is the base times the k-th power of the exponent, up to the maximum. */
  lemma {:induction false} BackoffExact(c: Config, draws: seq<real>, k: nat)
    requires !c.random && c.baseExp >= 1 && c.maxRetryTimeout >= 0 && 0 < k <= |draws|
    ensures TimeoutAfter(c, draws, k) == Min(c.baseTimeout * Pow(c.baseExp, k), c.maxRetryTimeout)
  {
    var b, x, m := c.baseTimeout, c.baseExp, c.maxRetryTimeout;
    if k == 1 {
      assert Pow(x, 1) == x * Pow(x, 0) == x;
    } else {
      BackoffExact(c, draws, k - 1);
      var p := b * Pow(x, k - 1);
      assert p * x == b * Pow(x, k) by { Reassociate(b, Pow(x, k - 1), x); }
      ClampThenScale(p, x, m);
    }
  }

  lemma Reassociate(a: int, b: int, c: int)
    ensures (a * b) * c == a * (c * b)
  {
  }

  lemma ClampThenScale(p: int, x: int, m: int)
    requires x >= 1 && m >= 0
    ensures Min(Min(p, m) * x, m) == Min(p * x, m)
  {
    if p > m {
      assert m * x >= m && p * x >= p by { Grows(m, x); Grows(p, x); }
    }
  }

  lemma Grows(a: int, x: int)
    requires x >= 1 && a >= 0
    ensures a * x >= a
  {
  }

  /**
   A random wait lies between one half and three halves of the exponential one, or between the
   maximum and twice the maximum once that is reached, give or take the rounding.
   */
  lemma RandomSpread(c: Config, product: int, u: real)
    requires c.random && c.maxRetryTimeout >= 0 && product >= 0 && 0.0 <= u < 1.0
    ensures var wait := Spread(c, product, u);
            if product > c.maxRetryTimeout then c.maxRetryTimeout + 1 <= wait <= 2 * c.maxRetryTimeout + 1
            else product < 2 * wait <= 3 * product + 2
  {
    hide Scale;
    if product > c.maxRetryTimeout {
      ScaleUp(c.maxRetryTimeout, u + 1.0);
    } else {
      ScaleAround(product, u + 0.5);
    }
  }

  /**
   With random waits, the k-th is the exponential one, clamped at the maximum, times the draw plus a half, or
   plus one if it was clamped, rounded up to more than that by at most one.
   */
  lemma RandomWaitExact(c: Config, draws: seq<real>, k: nat)
    requires c.random && 0 < k <= |draws|
    ensures var product := TimeoutAfter(c, draws, k - 1) * c.baseExp;
            var wait, u := TimeoutAfter(c, draws, k), draws[k - 1];
            var exact := if product > c.maxRetryTimeout then (u + 1.0) * c.maxRetryTimeout as real
                         else (u + 0.5) * product as real;
            (wait - 1) as real <= exact < wait as real
  {
  }

  lemma ScaleUp(base: int, f: real)
    requires base >= 0 && 1.0 <= f <= 2.0
    ensures base <= Scale(f, base) <= 2 * base
  {
    hide Times;
    TimesMonotone(1.0, f, base as real);
    TimesMonotone(f, 2.0, base as real);
    TimesConstants(base as real);
  }

  lemma ScaleAround(base: int, f: real)
    requires base >= 0 && 0.5 <= f <= 1.5
    ensures base < 2 * (Scale(f, base) + 1) <= 3 * base + 2
  {
    hide Times;
    TimesMonotone(0.5, f, base as real);
    TimesMonotone(f, 1.5, base as real);
    TimesConstants(base as real);
  }

  lemma TimesMonotone(a: real, f: real, b: real)
    requires a <= f && b >= 0.0
    ensures Times(a, b) <= Times(f, b)
  {
    assert (f - a) * b >= 0.0;
  }

  lemma TimesConstants(b: real)
    ensures Times(0.0, b) == 0.0 && Times(1.0, b) == b && Times(2.0, b) == b + b
    ensures 2.0 * Times(0.5, b) == b && 2.0 * Times(1.5, b) == 3.0 * b
  {
  }

  const MAX_INT64 := 0x7FFF_FFFF_FFFF_FFFF

  /** Even with random factors no wait exceeds twice the maximum plus one. */
  lemma {:induction false} BackoffBounded(c: Config, draws: seq<real>, k: nat)
    requires c.baseTimeout >= 0 && c.maxRetryTimeout >= 0 && 0 < k <= |draws|
    requires forall i | 0 <= i < |draws| :: 0.0 <= draws[i] < 1.0
    ensures 0 <= TimeoutAfter(c, draws, k) <= 2 * c.maxRetryTimeout + 1
  {
    hide Spread;
    if k > 1 { BackoffBounded(c, draws, k - 1); }
    var t, u := TimeoutAfter(c, draws, k - 1), draws[k - 1];
    ProductBounded(t, c.baseExp, t, c.baseExp);
    StepBounded(c, t * c.baseExp, u);
  }

  lemma StepBounded(c: Config, product: int, u: real)
    requires c.maxRetryTimeout >= 0 && product >= 0 && 0.0 <= u < 1.0
    ensures 0 <= Spread(c, product, u) <= 2 * c.maxRetryTimeout + 1
  {
    hide Scale;
    ScaleBounded(c.maxRetryTimeout, u + 1.0);
    ScaleBounded(product, u + 0.5);
  }

  lemma ScaleBounded(base: int, f: real)
    requires base >= 0 && 0.0 <= f <= 2.0
    ensures 0 <= Scale(f, base) <= 2 * base
  {
    hide Times;
    TimesMonotone(0.0, f, base as real);
    TimesMonotone(f, 2.0, base as real);
    TimesConstants(base as real);
  }

  /** With a maximum of at most 2^54 nanoseconds and a base no larger, no product overflows 64 bits. */
  lemma NoOverflow(c: Config, draws: seq<real>, k: nat)
    requires 0 <= c.baseTimeout <= 2 * c.maxRetryTimeout + 1 && k <= |draws|
    requires c.baseExp <= 255 && 0 <= c.maxRetryTimeout <= 0x40_0000_0000_0000
    requires forall i | 0 <= i < |draws| :: 0.0 <= draws[i] < 1.0
    ensures 0 <= TimeoutAfter(c, draws, k) * c.baseExp <= MAX_INT64
  {
    hide Spread;
    if k > 0 { BackoffBounded(c, draws, k); }
    ProductBounded(TimeoutAfter(c, draws, k), c.baseExp, 0x80_0000_0000_0001, 255);
  }

  lemma ProductBounded(t: int, x: int, a: int, b: int)
    requires 0 <= t <= a && 0 <= x <= b
    ensures 0 <= t * x <= a * b
  {
    assert t * x <= a * x <= a * b;
  }

  // --- The loop ---

  method RetryWithConfig<V, E>(ticks: seq<Tick<V, E>>, draws: seq<real>, c: Config)
    returns (r: Result<V, E>, calls: nat, waits: seq<int>)
    requires |draws| >= |ticks|
    ensures r == Expected(ticks, c) && calls == Calls(ticks, c)
    ensures |waits| == if r.MaxAttemptsReached? then Limit(c) - 1 else FirstDecisive(ticks, 0)
    ensures |waits| <= |ticks| && forall k | 0 <= k < |waits| :: waits[k] == TimeoutAfter(c, draws, k + 1)
  {
    hide NextTimeout;
    var errs: seq<E> := [];
    var timeout := c.baseTimeout;
    var attempts := 0;
    var maxAttempts := if c.unlimitedAttempts then -1 else c.attempts;
    waits, calls := [], 0;
    var i := 0;
    while i < |ticks|
      invariant i <= |ticks| && attempts == calls == i == |waits|
      invariant forall j | 0 <= j < i :: ticks[j].Failed?
      invariant FirstDecisive(ticks, 0) == FirstDecisive(ticks, i)
      invariant errs == Errors(ticks, i)
      invariant c.unlimitedAttempts || i == 0 || i < Limit(c)
      invariant timeout == TimeoutAfter(c, draws, i)
      invariant forall k | 0 <= k < i :: waits[k] == TimeoutAfter(c, draws, k + 1)
    {
      match ticks[i] {
        case Cancelled => return ContextCancelled, calls, waits;
        case Succeeded(v) => return Returned(v), calls + 1, waits;
        case CannotRecover(e) => return Aborted(e), calls + 1, waits;
        case Failed(e) => errs := errs + [e];
      }
      calls := calls + 1;
      attempts := attempts + 1;
      if attempts >= maxAttempts && maxAttempts >= 0 {
        return MaxAttemptsReached(errs), calls, waits;
      }
      timeout := NextTimeout(c, timeout, draws[i]);
      waits := waits + [timeout];
      i := i + 1;
    }
    r := StillTrying;
  }
}
