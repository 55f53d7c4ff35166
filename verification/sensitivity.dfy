/**
 * The weight-sensitivity verdict (run_sensitivity.py): the Jaccard
 * similarity of two top-k leaderboards, and the rule that calls the
 * leaderboard stable when both alternative weightings keep it above 0.8.
 */
module Sensitivity {

  /** |a ∩ b| / |a ∪ b|, and 0 when both sets are empty. */
  function Jaccard<T>(a: set<T>, b: set<T>): (j: real)
    ensures 0.0 <= j <= 1.0
    ensures j == 0.0 <==> a * b == {}
    ensures a + b != {} ==> j * (|a + b| as real) == |a * b| as real
  {
    if a + b == {} then 0.0
    else
      var inter, union := |a * b| as real, |a + b| as real;
      SubsetSize(a * b, a + b);
      if a * b == {} then 0.0
      else
        RatioInUnit(inter, union);
        inter / union
  }

  /** A positive part over a whole at least as large lies in (0, 1]. */
  lemma RatioInUnit(part: real, whole: real)
    requires 0.0 < part <= whole
    ensures 0.0 < part / whole <= 1.0
    ensures part / whole * whole == part
  {
    assert part / whole * whole == part;
  }

  /** The similarity of two leaderboards does not depend on which one comes first. */
  lemma JaccardSymmetric<T>(a: set<T>, b: set<T>)
    ensures Jaccard(a, b) == Jaccard(b, a)
  {
    assert a * b == b * a && a + b == b + a;
  }

  /** Two empty leaderboards have similarity 0, not 1. */
  lemma JaccardOfEmpty<T>()
    ensures Jaccard<T>({}, {}) == 0.0
  {
  }

  /** A subset has at most as many elements as its superset, and as many only when it is the superset. */
  lemma SubsetSize<T>(a: set<T>, b: set<T>)
    requires a <= b
    ensures |b - a| == |b| - |a|
    ensures |a| <= |b|
    ensures |a| == |b| ==> a == b
  {
    assert b == (b - a) + a;
    assert (b - a) * a == {};
  }

  /** The similarity is 1 exactly for two equal, non-empty leaderboards. */
  lemma JaccardOne<T>(a: set<T>, b: set<T>)
    ensures Jaccard(a, b) == 1.0 <==> a == b && a != {}
  {
    if a + b != {} {
      var inter, union := |a * b| as real, |a + b| as real;
      if Jaccard(a, b) == 1.0 {
        assert inter / union == 1.0;
        assert inter == union by {
          assert inter / union * union == inter;
        }
        SubsetSize(a * b, a + b);
        assert a <= a * b && b <= a * b;
      }
      if a == b && a != {} {
        assert a * b == a + b;
      }
    }
  }

  datatype Verdict = Stable | Sensitive

  /** The threshold both similarities must exceed. */
  const StabilityThreshold: real := 0.8

  /** Stable when both alternative weightings keep the similarity strictly above 0.8. */
  function LeaderboardVerdict(j1: real, j2: real): (v: Verdict)
    ensures v == Stable <==> j1 > StabilityThreshold && j2 > StabilityThreshold
  {
    if j1 > 0.8 && j2 > 0.8 then Stable else Sensitive
  }

  /**
   * The verdict on three leaderboards: stable when each alternative shares
   * more than 80% of the base leaderboard's union with it. Unchanged,
   * non-empty leaderboards are stable; one disjoint from the base is not.
   */
  lemma VerdictOfLeaderboards<T>(base: set<T>, alt1: set<T>, alt2: set<T>)
    ensures base != {} && alt1 == base && alt2 == base ==>
              LeaderboardVerdict(Jaccard(base, alt1), Jaccard(base, alt2)) == Stable
    ensures base * alt1 == {} || base * alt2 == {} ==>
              LeaderboardVerdict(Jaccard(base, alt1), Jaccard(base, alt2)) == Sensitive
  {
    if base != {} && alt1 == base && alt2 == base {
      JaccardOne(base, base);
    }
  }
}
