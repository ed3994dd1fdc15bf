/** The latency window: the most recent samples, kept in an array of twice that size that is compacted in place. */
module LatencyWindow {
  import opened Basics

  /** The last n elements, or all of them. */
  function Last(s: seq<int>, n: nat): (r: seq<int>)
    ensures |r| == Min(|s|, n)
  {
    s[|s| - Min(|s|, n)..]
  }

  function Sum(s: seq<int>): int {
    if s == [] then 0 else Sum(s[..|s| - 1]) + s[|s| - 1]
  }

  /** The sum is that of the parts, and of one sample the sample itself. */
  lemma {:induction false} SumAppend(a: seq<int>, b: seq<int>)
    ensures Sum(a + b) == Sum(a) + Sum(b)
    ensures |b| == 1 ==> Sum(b) == b[0]
    decreases |b|
  {
    if b == [] {
      assert a + b == a;
    } else {
      assert (a + b)[..|a + b| - 1] == a + b[..|b| - 1];
      SumAppend(a, b[..|b| - 1]);
    }
  }

  lemma {:induction false} SumBounded(s: seq<int>, lo: int, hi: int)
    requires forall i | 0 <= i < |s| :: lo <= s[i] <= hi
    ensures lo * |s| <= Sum(s) <= hi * |s|
  {
    if s != [] {
      SumBounded(s[..|s| - 1], lo, hi);
      assert lo * |s| == lo * (|s| - 1) + lo && hi * |s| == hi * (|s| - 1) + hi;
    }
  }

  /** The average lies between the least and the greatest sample. */
  lemma AverageBetween(s: seq<int>, lo: int, hi: int)
    requires s != [] && forall i | 0 <= i < |s| :: lo <= s[i] <= hi
    ensures lo as real <= Sum(s) as real / |s| as real <= hi as real
  {
    SumBounded(s, lo, hi);
    Quotient(Sum(s), |s|, lo, hi);
  }

  lemma Quotient(sum: int, n: nat, lo: int, hi: int)
    requires n > 0 && lo * n <= sum <= hi * n
    ensures lo as real <= sum as real / n as real <= hi as real
  {
    var x, q := n as real, sum as real / n as real;
    assert q * x == sum as real;
    assert (lo * n) as real == lo as real * x && (hi * n) as real == hi as real * x;
    Sign(q - lo as real, x);
    Sign(hi as real - q, x);
  }

  lemma Sign(d: real, x: real)
    requires x > 0.0 && d * x >= 0.0
    ensures d >= 0.0
  {
    assert d == (d * x) / x;
  }

  /** After one more sample the last n are the old ones and the new, less the oldest if there were n. */
  lemma LastAppend(s: seq<int>, x: int, n: nat)
    requires n > 0
    ensures Last(s + [x], n) == (if |Last(s, n)| == n then Last(s, n)[1..] else Last(s, n)) + [x]
  {
  }

  class IntWindow {
    var offset: nat
    var end: nat
    const maxSamples: nat
    const window: array<int>
    /** Every sample ever added. */
    ghost var samples: seq<int>

    ghost predicate Valid()
      reads this, window
    {
      && 1 <= maxSamples && window.Length == 2 * maxSamples
      && offset <= end < window.Length
      && window[offset..end] == Last(samples, maxSamples)
      && (offset > 0 ==> end - offset == maxSamples)
    }

    constructor (maxSamples: nat)
      requires 1 <= maxSamples < 0x8000_0000
      ensures Valid() && samples == [] && this.maxSamples == maxSamples && fresh(window)
    {
      this.maxSamples := maxSamples;
      window := new int[2 * maxSamples];
      offset, end, samples := 0, 0, [];
    }

    method Add(sample: int)
      requires Valid()
      modifies this, window
      ensures Valid() && samples == old(samples) + [sample]
    {
      hide Last;
      ghost var recent := Last(samples, maxSamples);
      LastAppend(samples, sample, maxSamples);
      Store(sample);
      samples := samples + [sample];
      if end == window.Length {
        assert window[maxSamples..] == window[offset..end][1..];
        Compact();
        assert window[offset..end] == window[..maxSamples];
      }
      if end - offset > maxSamples {
        assert window[offset + 1..end] == window[offset..end][1..];
        offset := end - maxSamples;
      }
    }

    method Store(sample: int)
      requires offset <= end < window.Length
      modifies this`end, window
      ensures end == old(end) + 1 && window[offset..end] == old(window[offset..end]) + [sample]
    {
      window[end] := sample;
      end := end + 1;
    }

    /** Moves the last maxSamples elements to the front of the full array. */
    method Compact()
      requires 1 <= maxSamples && window.Length == 2 * maxSamples == end
      modifies this`offset, this`end, window
      ensures offset == 0 && end == maxSamples
      ensures window[..maxSamples] == old(window[maxSamples..])
    {
      ghost var full := window[..];
      var index := window.Length - maxSamples;
      var i := 0;
      while i < maxSamples
        invariant 0 <= i <= maxSamples
        invariant forall j {:trigger window[j]} | 0 <= j < i :: window[j] == full[index + j]
        invariant forall j {:trigger window[j]} | i <= j < window.Length :: window[j] == full[j]
      {
        window[i] := window[index + i];
        i := i + 1;
      }
      offset, end := 0, maxSamples;
    }

    /** The average of exactly the samples in the window, or 0 if there are none. */
    method Average() returns (avg: real)
      requires Valid()
      ensures var recent := Last(samples, maxSamples);
              avg == if recent == [] then 0.0 else Sum(recent) as real / |recent| as real
    {
      var sum := 0;
      ghost var recent := window[offset..end];
      for i := offset to end
        invariant sum == Sum(window[offset..i])
      {
        sum := sum + window[i];
        assert window[offset..i + 1][..i - offset] == window[offset..i];
      }
      avg := if end > offset then sum as real / (end - offset) as real else 0.0;
    }
  }
}
