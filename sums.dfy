/**
 * Running sums (itertools.accumulate) and their inverse, the differences of
 * consecutive elements: the two list shapes of the blueprint and upgrade ladders.
 */
module Sums {

  function Sum(s: seq<int>): int {
    if s == [] then 0 else Sum(s[..|s| - 1]) + s[|s| - 1]
  }

  /** list(accumulate(s)): element i is the sum of the first i + 1 elements. */
  function RunningSums(s: seq<int>): (r: seq<int>)
    ensures |r| == |s|
    ensures forall i {:trigger r[i]} :: 0 <= i < |s| ==> r[i] == Sum(s[..i + 1])
  {
    if s == [] then []
    else
      var p := s[..|s| - 1];
      var rp := RunningSums(p);
      var r := rp + [Sum(p) + s[|s| - 1]];
      assert s[..|s|] == s;
      forall i | 0 <= i < |p| ensures r[i] == Sum(s[..i + 1]) {
        assert s[..i + 1] == p[..i + 1];
      }
      r
  }

  /** The differences of consecutive elements, the first element kept as it is. */
  function Deltas(c: seq<int>): (d: seq<int>)
    ensures |d| == |c|
  {
    seq(|c|, i requires 0 <= i < |c| => if i == 0 then c[0] else c[i] - c[i - 1])
  }

  lemma {:induction false} SumSnoc(s: seq<int>, x: int)
    ensures Sum(s + [x]) == Sum(s) + x
  {
    assert (s + [x])[..|s|] == s;
  }

  /** Summing the differences of a prefix gives back its last element. */
  lemma {:induction false} SumDeltasPrefix(c: seq<int>, n: nat)
    requires 0 < n <= |c|
    ensures Sum(Deltas(c)[..n]) == c[n - 1]
  {
    var d := Deltas(c);
    if n == 1 {
      assert d[..1] == [c[0]];
      assert d[..1][..0] == [];
    } else {
      SumDeltasPrefix(c, n - 1);
      assert d[..n] == d[..n - 1] + [c[n - 1] - c[n - 2]];
      SumSnoc(d[..n - 1], c[n - 1] - c[n - 2]);
    }
  }

  /** The sum of the per-step differences is the last cumulative value. */
  lemma {:induction false} SumDeltas(c: seq<int>)
    requires c != []
    ensures Sum(Deltas(c)) == c[|c| - 1]
  {
    SumDeltasPrefix(c, |c|);
    assert Deltas(c)[..|c|] == Deltas(c);
  }

  /** Accumulating the differences rebuilds the cumulative list. */
  lemma {:induction false} RunningSumsOfDeltas(c: seq<int>)
    ensures RunningSums(Deltas(c)) == c
  {
    var r := RunningSums(Deltas(c));
    forall i | 0 <= i < |c| ensures r[i] == c[i] {
      SumDeltasPrefix(c, i + 1);
    }
  }

  /** Differencing the running sums gives back the original list. */
  lemma {:induction false} DeltasOfRunningSums(s: seq<int>)
    ensures Deltas(RunningSums(s)) == s
  {
    var r := RunningSums(s);
    forall i | 0 <= i < |s| ensures Deltas(r)[i] == s[i] {
      if i == 0 {
        assert s[..1] == [] + [s[0]];
        SumSnoc([], s[0]);
      } else {
        assert s[..i + 1] == s[..i] + [s[i]];
        SumSnoc(s[..i], s[i]);
      }
    }
  }

  /** With non-negative steps the running sums never decrease. */
  lemma {:induction false} RunningSumsMonotone(s: seq<int>)
    requires forall i :: 0 <= i < |s| ==> s[i] >= 0
    ensures forall i, j :: 0 <= i <= j < |s| ==> RunningSums(s)[i] <= RunningSums(s)[j]
  {
    var r := RunningSums(s);
    forall i | 0 <= i < |s| - 1 ensures r[i] <= r[i + 1] {
      assert s[..i + 2] == s[..i + 1] + [s[i + 1]];
      SumSnoc(s[..i + 1], s[i + 1]);
    }
    forall i, j | 0 <= i <= j < |s| ensures r[i] <= r[j] {
      StepsUp(r, i, j);
    }
  }

  lemma {:induction false} StepsUp(r: seq<int>, i: nat, j: nat)
    requires i <= j < |r|
    requires forall k :: 0 <= k < |r| - 1 ==> r[k] <= r[k + 1]
    ensures r[i] <= r[j]
    decreases j - i
  {
    if i < j {
      StepsUp(r, i + 1, j);
    }
  }
}
