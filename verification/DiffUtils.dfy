/**
 Search-and-replace edits on markdown (src/utils/diff_utils.py).
 */
module DiffUtils {
  import opened Text

  datatype Verdict = Valid | EmptySearch | Identical | NotFound | Ambiguous(count: nat)

  function ValidateSearchReplace(markdown: string, search: string, replace: string): Verdict {
    if search == "" then EmptySearch
    else if search == replace then Identical
    else
      var count := Count(markdown, search);
      if count == 0 then NotFound
      else if count > 1 then Ambiguous(count)
      else Valid
  }

  function ApplyDiff(markdown: string, search: string, replace: string): Option<string> {
    if ValidateSearchReplace(markdown, search, replace).Valid?
    then Some(ReplaceFirst(markdown, search, replace))
    else None
  }

  /** Which answer validation gives: an edit is valid when its text is found and not again at or after its end. */
  lemma VerdictIs(markdown: string, search: string, replace: string)
    ensures var v := ValidateSearchReplace(markdown, search, replace);
            (v == EmptySearch <==> search == "")
            && (v == Identical <==> search != "" && search == replace)
            && (v == NotFound <==> search != "" && search != replace && !Contains(markdown, search))
            && (v == Valid <==>
                  search != "" && search != replace && Contains(markdown, search)
                  && forall j | Find(markdown, search) + |search| <= j <= |markdown| :: !OccursAt(markdown, search, j))
            && (v.Ambiguous? ==> v.count == Count(markdown, search) > 1)
  {
    hide OccursAt;
    if search != "" {
      CountIsOne(markdown, search);
    }
  }

  // ---------------------------------------------------------------------------
  // Undoing an edit
  // ---------------------------------------------------------------------------

  /** The text around the one match, before and after the edit. */
  lemma AppliedShape(markdown: string, search: string, replace: string) returns (a: string, b: string)
    requires ValidateSearchReplace(markdown, search, replace).Valid?
    ensures markdown == a + search + b && |a| == Find(markdown, search)
    ensures ApplyDiff(markdown, search, replace) == Some(a + replace + b)
  {
    hide OccursAt;
    var i := Find(markdown, search);
    CutAt(markdown, search, i);
    a, b := markdown[..i], markdown[i + |search|..];
  }

  /** Putting `search` back at an earlier place would make an earlier match than the first one. */
  lemma EarlierPlaceDiffers(markdown: string, search: string, c: string, d: string)
    requires Find(markdown, search) > |c|
    ensures c + search + d != markdown
  {
    assert (c + search + d)[|c|..|c| + |search|] == search;
    assert OccursAt(c + search + d, search, |c|);
  }

  /**
   An applied edit is undone by swapping search and replacement if and only if the replacement is not
   empty, is counted once in the new text, and its first match there is the place of the edit.
   */
  lemma UndoIff(markdown: string, search: string, replace: string)
    requires ValidateSearchReplace(markdown, search, replace).Valid?
    ensures var edited := ApplyDiff(markdown, search, replace).value;
            ApplyDiff(edited, replace, search) == Some(markdown) <==>
            && replace != ""
            && Count(edited, replace) == 1
            && Find(edited, replace) == Find(markdown, search)
  {
    hide OccursAt;
    var a, b := AppliedShape(markdown, search, replace);
    var edited := a + replace + b;
    if ValidateSearchReplace(edited, replace, search).Valid? {
      var c, d := AppliedShape(edited, replace, search);
      StandsAt(a, replace, b);
      if |c| < |a| {
        EarlierPlaceDiffers(markdown, search, c, d);
      } else {
        assert c == edited[..|a|] == a;
        assert d == edited[|a| + |replace|..] == b;
      }
    }
  }

  lemma StandsAt(a: string, p: string, b: string)
    ensures OccursAt(a + p + b, p, |a|)
    ensures 0 <= Find(a + p + b, p) <= |a|
  {
    assert (a + p + b)[|a|..|a| + |p|] == p;
    assert OccursAt(a + p + b, p, |a|);
  }

  /** All places at which `p` stands in `s`, overlapping ones too. */
  ghost function Places(s: string, p: string): set<int> {
    set i | 0 <= i <= |s| && OccursAt(s, p, i)
  }

  lemma OnlyPlace(s: string, p: string, i: int)
    requires |Places(s, p)| == 1 && OccursAt(s, p, i)
    ensures forall j | 0 <= j <= |s| :: OccursAt(s, p, j) ==> j == i
  {
    var others := Places(s, p) - {i};
    assert i in Places(s, p) && |others| == 0;
    forall j | 0 <= j <= |s| && OccursAt(s, p, j) && j != i ensures j in others {
      assert j in Places(s, p);
    }
  }

  /** One place, counting overlaps, is enough for the undo. */
  lemma UndoWhenOnePlace(markdown: string, search: string, replace: string)
    requires ValidateSearchReplace(markdown, search, replace).Valid? && replace != ""
    requires |Places(ApplyDiff(markdown, search, replace).value, replace)| == 1
    ensures ApplyDiff(ApplyDiff(markdown, search, replace).value, replace, search) == Some(markdown)
  {
    var a, b := AppliedShape(markdown, search, replace);
    var edited := a + replace + b;
    StandsAt(a, replace, b);
    OnlyPlace(edited, replace, |a|);
    CountIsOne(edited, replace);
    UndoIff(markdown, search, replace);
  }

  /** `str.count` says one, but the text stands at two places, and the undo hits the wrong one. */
  lemma CountOneIsNotOnePlace()
    ensures Count("aaa", "aa") == 1 && 0 in Places("aaa", "aa") && 1 in Places("aaa", "aa")
    ensures ApplyDiff("ab", "b", "aa") == Some("aaa")
    ensures ApplyDiff("aaa", "aa", "b") == Some("ba")
  {
    assert OccursAt("aaa", "aa", 0) && OccursAt("aaa", "aa", 1);
    assert "aaa"[2..] == "a" && Find("a", "aa") == -1;
    assert "ab"[0..1] == "a" && "ab"[1..2] == "b";
    assert !OccursAt("ab", "b", 0) && OccursAt("ab", "b", 1);
    assert "ab"[2..] == "" && Find("", "b") == -1;
    assert "ab"[..1] + "aa" + "" == "aaa";
    assert "aaa"[..0] + "b" + "a" == "ba";
  }

  /** Two places of a pattern that overlap make a border of it. */
  lemma OverlapIsBorder(s: string, p: string, i: int, j: int)
    requires OccursAt(s, p, i) && OccursAt(s, p, j) && i < j < i + |p|
    ensures !Unbordered(p)
  {
    var a := j - i;
    assert p[a..] == s[j..i + |p|] == p[..|p| - a] by {
      assert p == s[i..i + |p|] && p == s[j..j + |p|];
    }
  }

  lemma CountedAtOnePlace(s: string, p: string)
    requires Unbordered(p) && Count(s, p) == 1
    ensures |Places(s, p)| == 1
  {
    CountIsOne(s, p);
    var i := Find(s, p);
    forall j | j in Places(s, p)
      ensures j == i
    {
      if j > i {
        OverlapIsBorderIf(s, p, i, j);
      }
    }
    assert Places(s, p) == {i};
  }

  lemma OverlapIsBorderIf(s: string, p: string, i: int, j: int)
    ensures OccursAt(s, p, i) && OccursAt(s, p, j) && i < j < i + |p| ==> !Unbordered(p)
  {
    if OccursAt(s, p, i) && OccursAt(s, p, j) && i < j < i + |p| {
      OverlapIsBorder(s, p, i, j);
    }
  }

  lemma BorderPlaces(p: string, a: nat)
    requires 0 < a < |p| && p[a..] == p[..|p| - a]
    ensures var s := p[..a] + p;
            OccursAt(s, p, 0) && OccursAt(s, p, a) && Find(s, p) == 0 && {0, a} <= Places(s, p)
            && forall j | |p| <= j <= |s| :: !OccursAt(s, p, j)
  {
    var s := p[..a] + p;
    assert s[..|p|] == p[..a] + p[..|p| - a] == p;
    assert s[a..a + |p|] == p;
    assert s[0..0 + |p|] == s[..|p|];
  }

  /** A border lets the pattern overlap itself in a text in which it is counted once. */
  lemma BorderHidesAPlace(p: string, a: nat)
    requires 0 < a < |p| && p[a..] == p[..|p| - a]
    ensures var s := p[..a] + p; Count(s, p) == 1 && {0, a} <= Places(s, p) && |Places(s, p)| != 1
  {
    var s := p[..a] + p;
    BorderPlaces(p, a);
    hide OccursAt, Count;
    CountIsOne(s, p);
    assert Places(s, p) == {0, a} + (Places(s, p) - {0, a});
    assert |{0, a}| == 2;
  }

  /**
   A count of one means one place, in every text, if and only if the pattern has no border: no proper beginning
   of it is also its end.
   */
  lemma CountMeansOnePlaceIff(p: string)
    requires p != ""
    ensures (forall s | Count(s, p) == 1 :: |Places(s, p)| == 1) <==> Unbordered(p)
  {
    if Unbordered(p) {
      forall s | Count(s, p) == 1
        ensures |Places(s, p)| == 1
      {
        CountedAtOnePlace(s, p);
      }
    } else {
      var a :| 0 < a < |p| && p[a..] == p[..|p| - a];
      BorderHidesAPlace(p, a);
    }
  }

  // ---------------------------------------------------------------------------
  // Finding a unique context
  // ---------------------------------------------------------------------------

  function Min(a: int, b: int): int { if a <= b then a else b }

  function Max(a: int, b: int): int { if a <= b then b else a }

  /** `s[start:end]`, where a negative `end` counts from the end of the text. */
  function PySlice(s: string, start: nat, end: int): string {
    var stop := if end < 0 then Max(0, |s| + end) else Min(end, |s|);
    if start < stop then s[start..stop] else ""
  }

  /** The target with `ctx` characters on each side, cut at the ends of the text. */
  function Candidate(markdown: string, target: string, ctx: int): string {
    var idx := Find(markdown, target);
    PySlice(markdown, Max(0, idx - ctx), Min(|markdown|, idx + |target| + ctx))
  }

  /** The first width of `range(ctx, maxContext + 1, 10)` whose candidate is unique. */
  function FirstUnique(markdown: string, target: string, ctx: int, maxContext: int): Option<string>
    decreases maxContext - ctx
  {
    if ctx > maxContext then None
    else if Count(markdown, Candidate(markdown, target, ctx)) == 1 then Some(Candidate(markdown, target, ctx))
    else FirstUnique(markdown, target, ctx + 10, maxContext)
  }

  function UniqueContext(markdown: string, target: string, minContext: int, maxContext: int): Option<string> {
    if !Contains(markdown, target) then None
    else if Count(markdown, target) == 1 then Some(target)
    else FirstUnique(markdown, target, minContext, maxContext)
  }

  method FindUniqueContext(markdown: string, target: string, minContext: int, maxContext: int)
    returns (r: Option<string>)
    ensures r == UniqueContext(markdown, target, minContext, maxContext)
  {
    hide OccursAt, Count, PySlice, Find;
    if !Contains(markdown, target) {
      return None;
    }
    if Count(markdown, target) == 1 {
      return Some(target);
    }
    var idx := Find(markdown, target);
    var ctx := minContext;
    while ctx < maxContext + 1
      invariant FirstUnique(markdown, target, ctx, maxContext)
             == FirstUnique(markdown, target, minContext, maxContext)
      decreases maxContext - ctx
    {
      var start := Max(0, idx - ctx);
      var end := Min(|markdown|, idx + |target| + ctx);
      var candidate := PySlice(markdown, start, end);
      if Count(markdown, candidate) == 1 {
        return Some(candidate);
      }
      ctx := ctx + 10;
    }
    return None;
  }

  lemma SliceOfSlice(s: string, a: nat, b: nat, c: nat, d: nat)
    requires a <= c <= d <= b <= |s|
    ensures s[a..b][c - a..d - a] == s[c..d]
  {
    var t, u := s[a..b][c - a..d - a], s[c..d];
    assert |t| == |u|;
    forall i | 0 <= i < |t|
      ensures t[i] == u[i]
    {
      assert t[i] == s[a..b][c - a + i] == s[c + i] == u[i];
    }
  }

  lemma CandidateContains(markdown: string, target: string, ctx: int)
    requires ctx >= 0 && target != "" && Find(markdown, target) >= 0
    ensures Contains(Candidate(markdown, target, ctx), target)
  {
    var idx := Find(markdown, target);
    var start, end := Max(0, idx - ctx), Min(|markdown|, idx + |target| + ctx);
    SliceOfSlice(markdown, start, end, idx, idx + |target|);
    assert OccursAt(Candidate(markdown, target, ctx), target, idx - start);
  }

  /** A candidate stands around the first match, `ctx` characters to each side as far as the text goes. */
  lemma CandidateReaches(markdown: string, target: string, ctx: int)
    requires ctx >= 0 && Find(markdown, target) >= 0
    ensures var idx := Find(markdown, target);
            var start := if idx < ctx then 0 else idx - ctx;
            var end := if idx + |target| + ctx < |markdown| then idx + |target| + ctx else |markdown|;
            OccursAt(markdown, Candidate(markdown, target, ctx), start)
            && start + |Candidate(markdown, target, ctx)| == end
  {
  }

  ghost predicate NoneNarrower(markdown: string, target: string, ctx: int, k: nat) {
    forall j: nat | j < k :: !Unique(markdown, target, ctx, j)
  }

  /** What is found is the candidate of the least width that is unique. */
  lemma {:induction false} FirstUniqueIs(markdown: string, target: string, ctx: int, maxContext: int)
    requires FirstUnique(markdown, target, ctx, maxContext).Some?
    ensures exists k: nat :: Unique(markdown, target, ctx, k) && ctx + 10 * k <= maxContext
              && FirstUnique(markdown, target, ctx, maxContext) == Some(Candidate(markdown, target, ctx + 10 * k))
              && NoneNarrower(markdown, target, ctx, k)
    decreases maxContext - ctx
  {
    hide Count, Candidate;
    assert ctx + 10 * 0 == ctx;
    if Unique(markdown, target, ctx, 0) {
      assert FirstUnique(markdown, target, ctx, maxContext) == Some(Candidate(markdown, target, ctx + 10 * 0));
    } else {
      FirstUniqueIs(markdown, target, ctx + 10, maxContext);
      var k: nat :| Unique(markdown, target, ctx + 10, k) && ctx + 10 + 10 * k <= maxContext
        && FirstUnique(markdown, target, ctx + 10, maxContext) == Some(Candidate(markdown, target, ctx + 10 + 10 * k))
        && NoneNarrower(markdown, target, ctx + 10, k);
      assert ctx + 10 + 10 * k == ctx + 10 * (k + 1);
      assert Unique(markdown, target, ctx, k + 1);
      forall j: nat | j < k + 1
        ensures !Unique(markdown, target, ctx, j)
      {
        if j > 0 {
          assert ctx + 10 + 10 * (j - 1) == ctx + 10 * j;
          assert !Unique(markdown, target, ctx + 10, j - 1);
        }
      }
    }
  }

  lemma {:induction false} FirstUniqueContains(markdown: string, target: string, ctx: int, maxContext: int)
    requires target != "" && Find(markdown, target) >= 0
    ensures var r := FirstUnique(markdown, target, ctx, maxContext);
            r.Some? ==> Count(markdown, r.value) == 1 && (ctx >= 0 ==> Contains(r.value, target))
    decreases maxContext - ctx
  {
    hide OccursAt, Candidate;
    if ctx <= maxContext {
      if ctx >= 0 {
        CandidateContains(markdown, target, ctx);
      }
      FirstUniqueContains(markdown, target, ctx + 10, maxContext);
    }
  }

  /**
   What is found for a nonempty target is a search text that validation accepts with every replacement
   but itself, and for contexts of at least zero characters it contains the target.
   */
  lemma UniqueContextAccepted(markdown: string, target: string, minContext: int, maxContext: int, replace: string)
    requires target != "" && UniqueContext(markdown, target, minContext, maxContext).Some?
    ensures var search := UniqueContext(markdown, target, minContext, maxContext).value;
            && (search != replace ==> ValidateSearchReplace(markdown, search, replace).Valid?)
            && (minContext >= 0 ==> Contains(search, target))
  {
    hide OccursAt;
    FirstUniqueContains(markdown, target, minContext, maxContext);
    ContainsItself(target);
  }

  lemma ContainsItself(s: string)
    ensures Contains(s, s)
  {
    assert s[0..|s|] == s;
    assert OccursAt(s, s, 0);
  }

  /** The candidate of the k-th width tried is unique. */
  ghost predicate Unique(markdown: string, target: string, ctx: int, k: nat) {
    Count(markdown, Candidate(markdown, target, ctx + 10 * k)) == 1
  }

  ghost predicate NoneUnique(markdown: string, target: string, ctx: int, maxContext: int) {
    forall k: nat | ctx + 10 * k <= maxContext :: !Unique(markdown, target, ctx, k)
  }

  /** Nothing is found exactly when the target is missing, or neither it nor any candidate is unique. */
  lemma {:induction false} NoneFound(markdown: string, target: string, ctx: int, maxContext: int)
    ensures FirstUnique(markdown, target, ctx, maxContext).None? <==>
            NoneUnique(markdown, target, ctx, maxContext)
    decreases maxContext - ctx
  {
    hide Count, Candidate;
    if ctx <= maxContext {
      NoneFound(markdown, target, ctx + 10, maxContext);
      assert NoneUnique(markdown, target, ctx, maxContext) <==>
             Count(markdown, Candidate(markdown, target, ctx)) != 1
             && NoneUnique(markdown, target, ctx + 10, maxContext) by {
        assert ctx == ctx + 10 * 0;
        forall k: nat ensures ctx + 10 + 10 * k == ctx + 10 * (k + 1) {}
        if Count(markdown, Candidate(markdown, target, ctx)) != 1
           && NoneUnique(markdown, target, ctx + 10, maxContext) {
          forall k: nat | ctx + 10 * k <= maxContext ensures !Unique(markdown, target, ctx, k) {
            if k > 0 {
              assert !Unique(markdown, target, ctx + 10, k - 1);
            }
          }
        }
        if NoneUnique(markdown, target, ctx, maxContext) {
          assert !Unique(markdown, target, ctx, 0);
          forall k: nat | ctx + 10 + 10 * k <= maxContext ensures !Unique(markdown, target, ctx + 10, k) {
            assert !Unique(markdown, target, ctx, k + 1);
          }
        }
      }
    }
  }
}
