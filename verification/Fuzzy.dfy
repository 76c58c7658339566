/**
 The best-match loops of the pipeline: walk over candidates, keep the first one with the highest
 positive similarity (src/services/pipeline_viewer.py). `difflib`'s ratio is an arbitrary function.
 */
module Fuzzy {
  import opened Text

  /** The similarity of two texts; the lower-casing of both belongs to it. */
  type Ratio = (string, string) -> real

  /** The place and the value of the best score; candidates that are skipped have no score. */
  function Best(scores: seq<Option<real>>): (int, real) {
    if scores == [] then (-1, 0.0)
    else
      var n := |scores| - 1;
      var b := Best(scores[..n]);
      if scores[n].Some? && scores[n].value > b.1 then (n, scores[n].value) else b
  }

  /** What the loops look for: the first place of the greatest positive score. */
  ghost predicate IsBest(scores: seq<Option<real>>, i: int, r: real) {
    && -1 <= i < |scores|
    && (forall k | 0 <= k < |scores| && scores[k].Some? :: scores[k].value <= r)
    && (i < 0 ==> r == 0.0)
    && (i >= 0 ==> scores[i] == Some(r) && r > 0.0)
    && (forall k | 0 <= k < i && scores[k].Some? :: scores[k].value < r)
  }

  lemma {:induction false} BestIsBest(scores: seq<Option<real>>)
    ensures IsBest(scores, Best(scores).0, Best(scores).1)
  {
    if scores != [] {
      BestIsBest(scores[..|scores| - 1]);
    }
  }

  /** There is only one best match. */
  lemma BestUnique(scores: seq<Option<real>>, i: int, r: real)
    requires IsBest(scores, i, r)
    ensures Best(scores) == (i, r)
  {
    BestIsBest(scores);
  }
}
