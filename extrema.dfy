/**
 * Maxima, minima, sums and first maximisers of sequences of scores, each
 * folded from the left as the agents' loops fold their children's values.
 * The functions only compute; what they compute is stated by the lemmas
 * that follow each of them.
 */
module Extrema {

  function Last(xs: seq<real>): real
    requires |xs| > 0
  {
    xs[|xs| - 1]
  }

  function Init(xs: seq<real>): seq<real>
    requires |xs| > 0
  {
    xs[..|xs| - 1]
  }

  /** `v` occurs in `xs`. */
  predicate Attains(xs: seq<real>, v: real) {
    exists i :: 0 <= i < |xs| && xs[i] == v
  }

  /** The largest element of a non-empty sequence, folded from the left. */
  function Max(xs: seq<real>): real
    requires |xs| > 0
  {
    if |xs| == 1 then xs[0]
    else
      var m := Max(Init(xs));
      if Last(xs) > m then Last(xs) else m
  }

  /** `Max` is at least every element and is one of them. */
  lemma {:induction false} MaxSpec(xs: seq<real>)
    requires |xs| > 0
    ensures forall i :: 0 <= i < |xs| ==> xs[i] <= Max(xs)
    ensures exists i :: 0 <= i < |xs| && xs[i] == Max(xs)
  {
    if |xs| > 1 {
      MaxSpec(Init(xs));
      assert forall i :: 0 <= i < |xs| - 1 ==> Init(xs)[i] == xs[i];
      var k :| 0 <= k < |xs| - 1 && Init(xs)[k] == Max(Init(xs));
      if Last(xs) > Max(Init(xs)) {
        assert xs[|xs| - 1] == Max(xs);
      } else {
        assert xs[k] == Max(xs);
      }
    } else {
      assert xs[0] == Max(xs);
    }
  }

  /** The largest of `b` and every element of `xs`, folded from the left from `b`. */
  function MaxWith(b: real, xs: seq<real>): real {
    if xs == [] then b
    else
      var m := MaxWith(b, Init(xs));
      if Last(xs) > m then Last(xs) else m
  }

  /** `MaxWith` is at least `b` and every element, and is `b` or one of them. */
  lemma {:induction false} MaxWithSpec(b: real, xs: seq<real>)
    ensures b <= MaxWith(b, xs) && forall i :: 0 <= i < |xs| ==> xs[i] <= MaxWith(b, xs)
    ensures MaxWith(b, xs) == b || exists i :: 0 <= i < |xs| && xs[i] == MaxWith(b, xs)
  {
    if xs != [] {
      MaxWithSpec(b, Init(xs));
      assert forall i :: 0 <= i < |xs| - 1 ==> Init(xs)[i] == xs[i];
      if Last(xs) > MaxWith(b, Init(xs)) {
        assert xs[|xs| - 1] == MaxWith(b, xs);
      } else if MaxWith(b, Init(xs)) != b {
        var k :| 0 <= k < |xs| - 1 && Init(xs)[k] == MaxWith(b, Init(xs));
        assert xs[k] == MaxWith(b, xs);
      }
    }
  }

  /** Folding from `b` over a non-empty sequence gives the larger of `b` and its maximum. */
  lemma {:induction false} MaxWithMax(b: real, xs: seq<real>)
    requires |xs| > 0
    ensures MaxWith(b, xs) == if Max(xs) > b then Max(xs) else b
  {
    if |xs| > 1 {
      MaxWithMax(b, Init(xs));
    } else {
      assert Init(xs) == [];
    }
  }

  /** The smallest of `b` and every element of `xs`, folded from the left from `b`. */
  function MinWith(b: real, xs: seq<real>): real {
    if xs == [] then b
    else
      var m := MinWith(b, Init(xs));
      if Last(xs) < m then Last(xs) else m
  }

  /** `MinWith` is at most `b` and every element, and is `b` or one of them. */
  lemma {:induction false} MinWithSpec(b: real, xs: seq<real>)
    ensures MinWith(b, xs) <= b && forall i :: 0 <= i < |xs| ==> MinWith(b, xs) <= xs[i]
    ensures MinWith(b, xs) == b || exists i :: 0 <= i < |xs| && xs[i] == MinWith(b, xs)
  {
    if xs != [] {
      MinWithSpec(b, Init(xs));
      assert forall i :: 0 <= i < |xs| - 1 ==> Init(xs)[i] == xs[i];
      if Last(xs) < MinWith(b, Init(xs)) {
        assert xs[|xs| - 1] == MinWith(b, xs);
      } else if MinWith(b, Init(xs)) != b {
        var k :| 0 <= k < |xs| - 1 && Init(xs)[k] == MinWith(b, Init(xs));
        assert xs[k] == MinWith(b, xs);
      }
    }
  }

  function Sum(xs: seq<real>): real {
    if xs == [] then 0.0 else Sum(Init(xs)) + Last(xs)
  }

  /** The arithmetic mean of a non-empty sequence. */
  function Mean(xs: seq<real>): real
    requires |xs| > 0
  {
    Sum(xs) / (|xs| as real)
  }

  /** A sum of values between `lo` and `hi` lies between `|xs|*lo` and `|xs|*hi`. */
  lemma {:induction false} SumBounds(xs: seq<real>, lo: real, hi: real)
    requires forall i :: 0 <= i < |xs| ==> lo <= xs[i] <= hi
    ensures (|xs| as real) * lo <= Sum(xs) <= (|xs| as real) * hi
  {
    if xs != [] {
      SumBounds(Init(xs), lo, hi);
      assert (|xs| as real) * lo == ((|xs| - 1) as real) * lo + lo;
      assert (|xs| as real) * hi == ((|xs| - 1) as real) * hi + hi;
    }
  }

  /** The mean of a non-empty sequence lies between any lower and upper bound of its elements. */
  lemma MeanBetween(xs: seq<real>, lo: real, hi: real)
    requires |xs| > 0
    requires forall i :: 0 <= i < |xs| ==> lo <= xs[i] <= hi
    ensures lo <= Mean(xs) <= hi
  {
    SumBounds(xs, lo, hi);
    DivBetween(Sum(xs), |xs| as real, lo, hi);
  }

  /** Dividing by a positive `n` takes the bounds `n * lo` and `n * hi` to `lo` and `hi`. */
  lemma DivBetween(t: real, n: real, lo: real, hi: real)
    requires 0.0 < n && n * lo <= t <= n * hi
    ensures lo <= t / n <= hi
  {
    var q := t / n;
    assert t == n * q;
    assert n * (q - lo) == t - n * lo;
    assert n * (hi - q) == n * hi - t;
  }

  /**
   * `k` is where the maximum of `xs` first occurs: no element exceeds
   * `xs[k]` and every element before `k` is strictly smaller.
   */
  predicate IsFirstMax(xs: seq<real>, k: nat) {
    && k < |xs|
    && (forall j :: 0 <= j < |xs| ==> xs[j] <= xs[k])
    && (forall j :: 0 <= j < k ==> xs[j] < xs[k])
  }

  /**
   * The index a left-to-right scan ends with when it replaces its candidate
   * only on a strictly greater value.
   */
  function ArgMax(xs: seq<real>): (k: nat)
    requires |xs| > 0
    ensures k < |xs|
  {
    if |xs| == 1 then 0
    else
      var k := ArgMax(Init(xs));
      if Last(xs) > xs[k] then |xs| - 1 else k
  }

  /** The scan ends at the first occurrence of the maximum. */
  lemma {:induction false} ArgMaxSpec(xs: seq<real>)
    requires |xs| > 0
    ensures IsFirstMax(xs, ArgMax(xs))
    ensures xs[ArgMax(xs)] == Max(xs)
  {
    if |xs| > 1 {
      ArgMaxSpec(Init(xs));
      assert forall i :: 0 <= i < |xs| - 1 ==> Init(xs)[i] == xs[i];
    }
  }

  /** A one-element extension adds one candidate to the maximum. */
  lemma MaxWithSnoc(b: real, xs: seq<real>, x: real)
    ensures MaxWith(b, xs + [x]) == if x > MaxWith(b, xs) then x else MaxWith(b, xs)
  {
    assert Init(xs + [x]) == xs;
  }

  lemma MinWithSnoc(b: real, xs: seq<real>, x: real)
    ensures MinWith(b, xs + [x]) == if x < MinWith(b, xs) then x else MinWith(b, xs)
  {
    assert Init(xs + [x]) == xs;
  }

  lemma SumSnoc(xs: seq<real>, x: real)
    ensures Sum(xs + [x]) == Sum(xs) + x
  {
    assert Init(xs + [x]) == xs;
  }

  lemma MaxSnoc(xs: seq<real>, x: real)
    requires |xs| > 0
    ensures Max(xs + [x]) == if x > Max(xs) then x else Max(xs)
  {
    assert Init(xs + [x]) == xs;
  }

  lemma ArgMaxSnoc(xs: seq<real>, x: real)
    requires |xs| > 0
    ensures ArgMax(xs + [x]) == if x > xs[ArgMax(xs)] then |xs| else ArgMax(xs)
  {
    assert Init(xs + [x]) == xs;
    assert (xs + [x])[ArgMax(xs)] == xs[ArgMax(xs)];
  }
}
