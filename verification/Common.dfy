/** Option, first known values, counting of instants inside a closed time window, permutations. */
module Common {

  datatype Option<+T> = None | Some(value: T) {
    function Or(other: Option<T>): Option<T> {
      if Some? then this else other
    }
  }

  /** A scan from the front for the first source that knows. */
  function FirstKnown<T>(sources: seq<Option<T>>): Option<T> {
    if sources == [] then None else if sources[0].Some? then sources[0] else FirstKnown(sources[1..])
  }

  function Max(a: int, b: int): int {
    if a >= b then a else b
  }

  /** Successive instants are at least `gap` apart. */
  ghost predicate Spaced(times: seq<int>, gap: nat) {
    forall i :: 0 <= i && i + 1 < |times| ==> times[i] + gap <= times[i + 1]
  }

  /** How many of `times` fall in the closed window [lo, hi]. */
  function CountIn(times: seq<int>, lo: int, hi: int): nat {
    if times == [] then 0
    else (if lo <= times[0] <= hi then 1 else 0) + CountIn(times[1..], lo, hi)
  }

  lemma {:induction false} CountInAppend(a: seq<int>, b: seq<int>, lo: int, hi: int)
    ensures CountIn(a + b, lo, hi) == CountIn(a, lo, hi) + CountIn(b, lo, hi)
  {
    if a == [] {
      assert a + b == b;
    } else {
      assert (a + b)[1..] == a[1..] + b;
      CountInAppend(a[1..], b, lo, hi);
    }
  }

  /** A sequence that starts after the window has nothing in it. */
  lemma {:induction false} CountInAfter(times: seq<int>, lo: int, hi: int)
    requires forall i :: 0 <= i < |times| ==> hi < times[i]
    ensures CountIn(times, lo, hi) == 0
  {
    if times != [] {
      CountInAfter(times[1..], lo, hi);
    }
  }

  lemma {:induction false} SpacedIsSorted(times: seq<int>, gap: nat, i: nat, j: nat)
    requires Spaced(times, gap) && i <= j < |times|
    ensures times[i] <= times[j]
    ensures i < j ==> times[i] + gap <= times[j]
    decreases j - i
  {
    if i < j {
      SpacedIsSorted(times, gap, i, j - 1);
      assert times[j - 1] + gap <= times[j - 1 + 1];
    }
  }

  /** Instants at least `gap` apart: n of them in a closed window of length w need (n-1) gaps. */
  lemma {:induction false} SpacedSpan(times: seq<int>, gap: nat, lo: int, w: nat)
    requires Spaced(times, gap)
    ensures CountIn(times, lo, lo + w) * gap <= w + gap
    decreases |times|
  {
    if times != [] {
      var rest := times[1..];
      assert Spaced(rest, gap) by {
        forall i | 0 <= i && i + 1 < |rest| ensures rest[i] + gap <= rest[i + 1] {
          assert times[i + 1] + gap <= times[i + 1 + 1];
        }
      }
      if lo <= times[0] <= lo + w {
        forall i | 0 <= i < |rest| ensures times[0] + gap <= rest[i] {
          SpacedIsSorted(times, gap, 0, i + 1);
        }
        var n := CountIn(rest, lo, lo + w);
        assert CountIn(times, lo, lo + w) * gap == gap + n * gap;
        if times[0] + gap <= lo + w {
          CountInFrom(rest, lo, times[0] + gap, lo + w);
          SpacedSpan(rest, gap, times[0] + gap, lo + w - times[0] - gap);
        } else {
          CountInAfter(rest, lo, lo + w);
        }
      } else {
        SpacedSpan(rest, gap, lo, w);
      }
    }
  }

  lemma {:induction false} SpanToCount(n: nat, w: nat, gap: nat)
    requires gap > 0 && n * gap <= w + gap
    ensures n <= w / gap + 1
  {
    var q := w / gap;
    assert w < (q + 1) * gap;
    assert (q + 2) * gap == (q + 1) * gap + gap;
    FactorLess(n, q + 2, gap);
  }

  lemma {:induction false} FactorLess(a: nat, b: nat, c: nat)
    requires a * c < b * c
    ensures a < b
  {
  }

  /** A closed window of length w holds at most w/gap + 1 instants that are `gap` apart. */
  lemma {:induction false} SpacedWindow(times: seq<int>, gap: nat, lo: int, w: nat)
    requires Spaced(times, gap) && gap > 0
    ensures CountIn(times, lo, lo + w) <= w / gap + 1
  {
    SpacedSpan(times, gap, lo, w);
    SpanToCount(CountIn(times, lo, lo + w), w, gap);
  }

  /** The left end of the window may be moved up to the first instant. */
  lemma {:induction false} CountInFrom(times: seq<int>, lo: int, lo': int, hi: int)
    requires lo <= lo' && forall i :: 0 <= i < |times| ==> lo' <= times[i]
    ensures CountIn(times, lo, hi) == CountIn(times, lo', hi)
  {
    if times != [] {
      CountInFrom(times[1..], lo, lo', hi);
    }
  }

  /** Permutations have one length. */
  lemma {:induction false} SameLength<T>(a: seq<T>, b: seq<T>)
    requires multiset(a) == multiset(b)
    ensures |a| == |b|
  {
    assert |multiset(a)| == |a| && |multiset(b)| == |b|;
  }
}
