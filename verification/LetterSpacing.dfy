/**
 Collapsing letter-spaced text (src/utils/text_cleanup.py, `collapse_letter_spacing`): the pattern is
 \b((?:[a-zA-Z] ){3,}[a-zA-Z])\b and the spaces of every match are removed.
 */
module LetterSpacing {
  import opened Text

  // ---------------------------------------------------------------------------
  // The pattern and the scan
  // ---------------------------------------------------------------------------

  /** The `j`-th letter of a spaced word, and the space after it. */
  predicate LetterAt(s: string, j: nat) {
    2 * j < |s| && IsLetter(s[2 * j])
  }

  predicate SpaceAt(s: string, j: nat) {
    2 * j + 1 < |s| && s[2 * j + 1] == ' '
  }

  /** Behind a word boundary, `s` starts with `k` pairs of letter and space, a letter, and a word boundary. */
  ghost predicate Shape(s: string, beyond: char -> bool, k: nat) {
    && (forall j: nat | j <= k :: LetterAt(s, j))
    && (forall j: nat | j < k :: SpaceAt(s, j))
    && (2 * k + 1 < |s| ==> !IsWord(s[2 * k + 1], beyond))
  }

  /** The number of letters in a row at the start of `s` that stand alone, one space between each two. */
  function Run(s: string, beyond: char -> bool): nat {
    if s == "" || !IsLetter(s[0]) then 0
    else if |s| == 1 then 1
    else if IsWord(s[1], beyond) then 0
    else if s[1] == ' ' then 1 + Run(s[2..], beyond)
    else 1
  }

  /** The greedy match: the longest one, found by giving back pairs, has `Run` letters. */
  lemma {:induction false} RunIsLongestMatch(s: string, beyond: char -> bool, k: nat)
    ensures Shape(s, beyond, k) ==> k < Run(s, beyond)
    ensures k + 1 == Run(s, beyond) ==> Shape(s, beyond, k)
    decreases k
  {
    if k > 0 && |s| >= 2 {
      hide Shape;
      RunIsLongestMatch(s[2..], beyond, k - 1);
      ShapeTail(s, beyond, k);
      SpaceIsNoWord(beyond);
    } else if Shape(s, beyond, k) {
      assert LetterAt(s, 0);
      assert k > 0 ==> SpaceAt(s, 0);
    }
  }

  lemma SpaceIsNoWord(beyond: char -> bool)
    ensures !IsWord(' ', beyond)
  {
  }

  lemma ShapeTail(s: string, beyond: char -> bool, k: nat)
    requires k > 0 && |s| >= 2
    ensures Shape(s, beyond, k) <==>
            LetterAt(s, 0) && SpaceAt(s, 0) && Shape(s[2..], beyond, k - 1)
  {
    hide IsWord, IsLetter;
    var t := s[2..];
    forall j: nat ensures LetterAt(t, j) == LetterAt(s, j + 1) && SpaceAt(t, j) == SpaceAt(s, j + 1) {}
    if LetterAt(s, 0) && SpaceAt(s, 0) && Shape(t, beyond, k - 1) {
      forall j: nat | j <= k ensures LetterAt(s, j) { if j > 0 { assert LetterAt(t, j - 1); } }
      forall j: nat | j < k ensures SpaceAt(s, j) { if j > 0 { assert SpaceAt(t, j - 1); } }
    }
  }

  lemma {:induction false} RunLength(s: string, beyond: char -> bool)
    ensures Run(s, beyond) > 0 ==> 2 * Run(s, beyond) - 1 <= |s|
  {
    if s != "" && |s| > 1 && s[1] == ' ' {
      RunLength(s[2..], beyond);
    }
  }

  /** The first `n` characters at even places. */
  function Letters(s: string, n: nat): string
    requires n > 0 ==> 2 * n - 1 <= |s|
  {
    if n == 0 then "" else if n == 1 then [s[0]] else [s[0]] + Letters(s[2..], n - 1)
  }

  /** `re.sub` from left to right; `inWord` says whether a word character stands before `s`. */
  function Collapse(inWord: bool, s: string, beyond: char -> bool): string
    decreases |s|
  {
    RunLength(s, beyond);
    var n := Run(s, beyond);
    if s == "" then ""
    else if !inWord && n >= 4 then Letters(s, n) + Collapse(true, s[2 * n - 1..], beyond)
    else [s[0]] + Collapse(IsWord(s[0], beyond), s[1..], beyond)
  }

  function CollapseLetterSpacing(text: string, beyond: char -> bool): string {
    Collapse(false, text, beyond)
  }

  // ---------------------------------------------------------------------------
  // The declarative reading
  // ---------------------------------------------------------------------------

  /** A letter that is a word of its own. */
  predicate Standalone(t: string, beyond: char -> bool, i: int) {
    && 0 <= i < |t| && IsLetter(t[i])
    && (i > 0 ==> !IsWord(t[i - 1], beyond))
    && (i + 1 < |t| ==> !IsWord(t[i + 1], beyond))
  }

  /** `m + 1` standalone letters from `i` on, separated by single spaces. */
  ghost predicate Linked(t: string, beyond: char -> bool, i: int, m: nat)
    decreases m
  {
    && Standalone(t, beyond, i)
    && (m > 0 ==> i + 1 < |t| && t[i + 1] == ' ' && Linked(t, beyond, i + 2, m - 1))
  }

  lemma {:induction false} LinkedAt(t: string, beyond: char -> bool, i: int, m: nat, j: nat)
    requires Linked(t, beyond, i, m) && j <= m
    ensures Linked(t, beyond, i + 2 * j, m - j)
    ensures j > 0 ==> 0 <= i + 2 * j - 1 < |t| && t[i + 2 * j - 1] == ' '
    decreases j
  {
    if j > 0 {
      LinkedAt(t, beyond, i + 2, m - 1, j - 1);
    }
  }

  lemma {:induction false} LinkedShorter(t: string, beyond: char -> bool, i: int, m: nat, l: nat)
    requires Linked(t, beyond, i, m) && l <= m
    ensures Linked(t, beyond, i, l)
    decreases l
  {
    if l > 0 {
      LinkedShorter(t, beyond, i + 2, m - 1, l - 1);
    }
  }

  /** Four standalone letters from `a` on, separated by single spaces. */
  predicate Window(t: string, beyond: char -> bool, a: int) {
    && Standalone(t, beyond, a) && Standalone(t, beyond, a + 2)
    && Standalone(t, beyond, a + 4) && Standalone(t, beyond, a + 6)
    && t[a + 1] == ' ' && t[a + 3] == ' ' && t[a + 5] == ' '
  }

  /** The character at `p` is a space inside a run of at least four standalone letters. */
  predicate Dropped(t: string, beyond: char -> bool, p: int) {
    Window(t, beyond, p - 1) || Window(t, beyond, p - 3) || Window(t, beyond, p - 5)
  }

  /** What is left of `t[i..]` when exactly those spaces are taken out. */
  function Kept(t: string, beyond: char -> bool, i: nat): string
    requires i <= |t|
    decreases |t| - i
  {
    if i == |t| then ""
    else (if Dropped(t, beyond, i) then "" else [t[i]]) + Kept(t, beyond, i + 1)
  }

  /** A run seen by the scan is a chain of standalone letters, when a word boundary stands before it. */
  lemma {:induction false} RunIsLinked(t: string, beyond: char -> bool, i: nat, m: nat)
    requires i <= |t| && (i > 0 ==> !IsWord(t[i - 1], beyond))
    ensures Run(t[i..], beyond) > m <==> Linked(t, beyond, i, m)
    decreases m
  {
    var s := t[i..];
    if i + 2 <= |t| && t[i + 1] == ' ' && m > 0 {
      assert s[2..] == t[i + 2..];
      RunIsLinked(t, beyond, i + 2, m - 1);
    }
  }

  /** Every window that begins before `i` also ends before `i`. */
  ghost predicate Settled(t: string, beyond: char -> bool, i: nat) {
    forall a: int | a < i :: Window(t, beyond, a) ==> a + 6 < i
  }

  lemma WindowIsLinked(t: string, beyond: char -> bool, a: int)
    ensures Window(t, beyond, a) <==> Linked(t, beyond, a, 3)
  {
    assert Linked(t, beyond, a + 6, 0) <==> Standalone(t, beyond, a + 6);
    assert Linked(t, beyond, a + 4, 1) <==>
      Standalone(t, beyond, a + 4) && a + 5 < |t| && t[a + 5] == ' ' && Linked(t, beyond, a + 6, 0);
    assert Linked(t, beyond, a + 2, 2) <==>
      Standalone(t, beyond, a + 2) && a + 3 < |t| && t[a + 3] == ' ' && Linked(t, beyond, a + 4, 1);
  }

  /** Of `n` letters from `i` on none is dropped, and each space between two of them is. */
  ghost predicate KeptLetters(t: string, beyond: char -> bool, i: nat, n: nat)
    decreases n
  {
    n >= 1 && !Dropped(t, beyond, i) && (n > 1 ==> Dropped(t, beyond, i + 1) && KeptLetters(t, beyond, i + 2, n - 1))
  }

  /** Taking the letters of a run one by one, each with the space after it. */
  lemma {:induction false} KeptOfRun(t: string, beyond: char -> bool, i: nat, n: nat)
    requires n >= 1 && i + 2 * n - 1 <= |t| && KeptLetters(t, beyond, i, n)
    ensures Kept(t, beyond, i) == Letters(t[i..], n) + Kept(t, beyond, i + 2 * n - 1)
    decreases n
  {
    hide Dropped, Kept, Letters;
    if n == 1 {
      KeptOne(t, beyond, i);
    } else {
      KeptTwo(t, beyond, i);
      LettersTwo(t, i, n);
      KeptOfRun(t, beyond, i + 2, n - 1);
      var letters, rest := Letters(t[i + 2..], n - 1), Kept(t, beyond, i + 2 * n - 1);
      assert i + 2 + 2 * (n - 1) - 1 == i + 2 * n - 1;
      assert Kept(t, beyond, i + 2) == letters + rest;
      Assoc([t[i]], letters, rest);
    }
  }

  lemma KeptOne(t: string, beyond: char -> bool, i: nat)
    requires i < |t| && !Dropped(t, beyond, i)
    ensures Kept(t, beyond, i) == Letters(t[i..], 1) + Kept(t, beyond, i + 1)
  {
    hide Dropped;
    assert Letters(t[i..], 1) == [t[i]];
  }

  lemma KeptTwo(t: string, beyond: char -> bool, i: nat)
    requires i + 2 <= |t| && !Dropped(t, beyond, i) && Dropped(t, beyond, i + 1)
    ensures Kept(t, beyond, i) == [t[i]] + Kept(t, beyond, i + 2)
  {
    hide Dropped;
    assert Kept(t, beyond, i + 1) == "" + Kept(t, beyond, i + 2);
  }

  lemma LettersTwo(t: string, i: nat, n: nat)
    requires n > 1 && i + 2 * n - 1 <= |t|
    ensures Letters(t[i..], n) == [t[i]] + Letters(t[i + 2..], n - 1)
  {
    assert t[i..][2..] == t[i + 2..];
  }

  lemma {:induction false} RunIsKept(t: string, beyond: char -> bool, i: nat, n: nat, j: nat)
    requires n >= 4 && Linked(t, beyond, i, n - 1) && j < n
    ensures KeptLetters(t, beyond, i + 2 * j, n - j)
    decreases n - j
  {
    hide Dropped, Linked;
    DroppedInRun(t, beyond, i, n);
    assert !Dropped(t, beyond, i + 2 * j);
    if j + 1 < n {
      assert Dropped(t, beyond, i + 2 * j + 1);
      RunIsKept(t, beyond, i, n, j + 1);
      assert i + 2 * (j + 1) == i + 2 * j + 2;
    }
  }

  /** In a run of `n >= 4` letters all inner spaces are dropped and no letter is. */
  lemma DroppedInRun(t: string, beyond: char -> bool, i: nat, n: nat)
    requires n >= 4 && Linked(t, beyond, i, n - 1)
    ensures forall j | 0 <= j < n :: !Dropped(t, beyond, i + 2 * j)
    ensures forall j | 0 <= j < n - 1 :: Dropped(t, beyond, i + 2 * j + 1)
  {
    hide IsWord;
    forall j | 0 <= j < n ensures !Dropped(t, beyond, i + 2 * j) {
      LinkedAt(t, beyond, i, n - 1, j);
    }
    forall j | 0 <= j < n - 1 ensures Dropped(t, beyond, i + 2 * j + 1) {
      var f := if j <= n - 4 then j else n - 4;
      LinkedAt(t, beyond, i, n - 1, f);
      LinkedShorter(t, beyond, i + 2 * f, n - 1 - f, 3);
      WindowIsLinked(t, beyond, i + 2 * f);
      hide Window;
      var p := i + 2 * j + 1;
      assert i + 2 * f == p - 1 || i + 2 * f == p - 3 || i + 2 * f == p - 5;
    }
  }

  /** No window reaches out of a run that is as long as it can be. */
  lemma SettledAfterRun(t: string, beyond: char -> bool, i: nat, n: nat)
    requires n >= 1 && i + 2 * n - 1 <= |t| && (i > 0 ==> !IsWord(t[i - 1], beyond))
    requires Settled(t, beyond, i) && n == Run(t[i..], beyond)
    ensures Settled(t, beyond, i + 2 * n - 1)
  {
    hide IsWord;
    RunIsLinked(t, beyond, i, n - 1);
    RunIsLinked(t, beyond, i, n);
    forall a: int | i <= a < i + 2 * n - 1 && Window(t, beyond, a)
      ensures a + 6 < i + 2 * n - 1
    {
      var f := (a - i) / 2;
      if a == i + 2 * f + 1 {
        LinkedAt(t, beyond, i, n - 1, f + 1);
      } else {
        WindowIsLinked(t, beyond, a);
        ReachesOn(t, beyond, i, n, f);
      }
    }
  }

  lemma {:induction false} ReachesOn(t: string, beyond: char -> bool, i: int, n: nat, f: nat)
    requires n >= 1 && f < n && Linked(t, beyond, i, n - 1) && Linked(t, beyond, i + 2 * f, 3)
    ensures f + 3 >= n ==> Linked(t, beyond, i, n)
    decreases f
  {
    if f + 3 >= n {
      if f == 0 {
        LinkedShorter(t, beyond, i, 3, n);
      } else {
        ReachesOn(t, beyond, i + 2, n - 1, f - 1);
      }
    }
  }

  /** The scan keeps exactly what the declarative reading keeps. */
  lemma ScanRun(t: string, beyond: char -> bool, i: nat, n: nat)
    requires i < |t| && n == Run(t[i..], beyond) && n >= 4 && i + 2 * n - 1 <= |t| && KeptLetters(t, beyond, i, n)
    requires Collapse(true, t[i + 2 * n - 1..], beyond) == Kept(t, beyond, i + 2 * n - 1)
    ensures Collapse(false, t[i..], beyond) == Kept(t, beyond, i)
  {
    assert t[i..][2 * n - 1..] == t[i + 2 * n - 1..];
    hide Run, Letters, Kept, Dropped;
    KeptOfRun(t, beyond, i, n);
  }

  lemma ScanChar(t: string, beyond: char -> bool, i: nat, inWord: bool)
    requires i < |t| && !Dropped(t, beyond, i) && (inWord || Run(t[i..], beyond) < 4)
    requires Collapse(IsWord(t[i], beyond), t[i + 1..], beyond) == Kept(t, beyond, i + 1)
    ensures Collapse(inWord, t[i..], beyond) == Kept(t, beyond, i)
  {
    hide Run, Dropped, IsWord, Letters;
    assert t[i..][1..] == t[i + 1..];
  }

  lemma {:induction false} ScanIsKept(t: string, beyond: char -> bool, i: nat)
    requires i <= |t| && Settled(t, beyond, i)
    ensures Collapse(i > 0 && IsWord(t[i - 1], beyond), t[i..], beyond) == Kept(t, beyond, i)
    decreases |t| - i
  {
    if i < |t| {
      hide Window, Shape, IsWord, Linked, Standalone, Collapse, Kept, Run, Dropped;
      var inWord := i > 0 && IsWord(t[i - 1], beyond);
      var n := Run(t[i..], beyond);
      if !inWord && n >= 4 {
        RunLength(t[i..], beyond);
        RunIsLinked(t, beyond, i, n - 1);
        RunIsKept(t, beyond, i, n, 0);
        SettledAfterRun(t, beyond, i, n);
        RunEndsInWord(t, beyond, i, n);
        ScanIsKept(t, beyond, i + 2 * n - 1);
        ScanRun(t, beyond, i, n);
      } else {
        NoWindowHere(t, beyond, i);
        ScanIsKept(t, beyond, i + 1);
        ScanChar(t, beyond, i, inWord);
      }
    }
  }

  lemma RunEndsInWord(t: string, beyond: char -> bool, i: nat, n: nat)
    requires n >= 1 && Linked(t, beyond, i, n - 1)
    ensures i + 2 * n - 2 < |t| && IsWord(t[i + 2 * n - 2], beyond)
  {
    LinkedAt(t, beyond, i, n - 1, n - 1);
  }

  lemma NoWindowHere(t: string, beyond: char -> bool, i: nat)
    requires i < |t| && Settled(t, beyond, i)
    requires (i > 0 && IsWord(t[i - 1], beyond)) || Run(t[i..], beyond) < 4
    ensures !Window(t, beyond, i) && !Dropped(t, beyond, i) && Settled(t, beyond, i + 1)
  {
    if !(i > 0 && IsWord(t[i - 1], beyond)) {
      RunIsLinked(t, beyond, i, 3);
      WindowIsLinked(t, beyond, i);
    }
  }

  /**
   The scan deletes the spaces inside every run of at least four standalone letters separated by
   single spaces, and nothing else.
   */
  lemma CollapseIsKept(text: string, beyond: char -> bool)
    ensures CollapseLetterSpacing(text, beyond) == Kept(text, beyond, 0)
  {
    forall a: int | a < 0 ensures !Window(text, beyond, a) {}
    ScanIsKept(text, beyond, 0);
    assert text[0..] == text;
  }

  // ---------------------------------------------------------------------------
  // Consequences
  // ---------------------------------------------------------------------------

  function WithoutSpaces(s: string): string {
    if s == "" then "" else (if s[0] == ' ' then "" else [s[0]]) + WithoutSpaces(s[1..])
  }

  lemma {:induction false} WithoutSpacesConcat(a: string, b: string)
    ensures WithoutSpaces(a + b) == WithoutSpaces(a) + WithoutSpaces(b)
  {
    if a == "" {
      assert a + b == b;
    } else {
      assert (a + b)[1..] == a[1..] + b;
      WithoutSpacesConcat(a[1..], b);
    }
  }

  lemma {:induction false} KeptKeepsOthers(t: string, beyond: char -> bool, i: nat)
    requires i <= |t|
    ensures WithoutSpaces(Kept(t, beyond, i)) == WithoutSpaces(t[i..])
    decreases |t| - i
  {
    hide Standalone;
    if i < |t| {
      KeptKeepsOthers(t, beyond, i + 1);
      assert t[i..][1..] == t[i + 1..];
      assert Dropped(t, beyond, i) ==> t[i] == ' ';
      hide Dropped;
      var head := if Dropped(t, beyond, i) then "" else [t[i]];
      WithoutSpacesConcat(head, Kept(t, beyond, i + 1));
      assert WithoutSpaces([t[i]]) == if t[i] == ' ' then "" else [t[i]] by { assert [t[i]][1..] == ""; }
    }
  }

  /** Every character but the space is preserved, in order. */
  lemma CollapseKeepsOthers(text: string, beyond: char -> bool)
    ensures WithoutSpaces(CollapseLetterSpacing(text, beyond)) == WithoutSpaces(text)
  {
    CollapseIsKept(text, beyond);
    KeptKeepsOthers(text, beyond, 0);
    assert text[0..] == text;
  }

  lemma {:induction false} LettersShape(s: string, beyond: char -> bool, n: nat)
    requires 1 <= n <= Run(s, beyond)
    ensures 2 * n - 1 <= |s|
    ensures |Letters(s, n)| == n && forall k | 0 <= k < n :: IsLetter(Letters(s, n)[k])
    decreases n
  {
    RunLength(s, beyond);
    if n > 1 {
      LettersShape(s[2..], beyond, n - 1);
    }
  }

  /** A run that is too short to collapse stays a run of the same length. */
  lemma {:induction false} ShortRunStays(s: string, beyond: char -> bool)
    requires Run(s, beyond) < 4
    ensures Run(Collapse(false, s, beyond), beyond) == Run(s, beyond)
    decreases |s|
  {
    if s != "" && IsLetter(s[0]) && |s| > 1 {
      var tail := Collapse(true, s[1..], beyond);
      assert Collapse(false, s, beyond) == [s[0]] + tail;
      assert tail[0] == s[1];
      if !IsWord(s[1], beyond) && s[1] == ' ' {
        assert s[1..][1..] == s[2..];
        assert tail[1..] == Collapse(false, s[2..], beyond);
        ShortRunStays(s[2..], beyond);
        assert ([s[0]] + tail)[2..] == tail[1..];
      }
    }
  }

  /** Inside a word, letters pass through the scan. */
  lemma {:induction false} LettersPass(w: string, s: string, beyond: char -> bool)
    requires forall k | 0 <= k < |w| :: IsLetter(w[k])
    ensures Collapse(true, w + s, beyond) == w + Collapse(true, s, beyond)
    decreases |w|
  {
    if w == "" {
      assert w + s == s;
    } else {
      assert (w + s)[1..] == w[1..] + s;
      LettersPass(w[1..], s, beyond);
      assert [w[0]] + (w[1..] + Collapse(true, s, beyond)) == w + Collapse(true, s, beyond);
    }
  }

  lemma {:induction false} CollapseTwice(inWord: bool, s: string, beyond: char -> bool)
    ensures Collapse(inWord, Collapse(inWord, s, beyond), beyond) == Collapse(inWord, s, beyond)
    decreases |s|
  {
    var n, out := Run(s, beyond), Collapse(inWord, s, beyond);
    RunLength(s, beyond);
    if s == "" {
    } else if !inWord && n >= 4 {
      var w, rest := Letters(s, n), s[2 * n - 1..];
      CollapseTwice(true, rest, beyond);
      LettersShape(s, beyond, n);
      assert out == w + Collapse(true, rest, beyond);
      assert Run(out, beyond) == 0;
      assert out[1..] == w[1..] + Collapse(true, rest, beyond);
      LettersPass(w[1..], Collapse(true, rest, beyond), beyond);
      assert [w[0]] + (w[1..] + Collapse(true, rest, beyond)) == out;
    } else {
      CollapseTwice(IsWord(s[0], beyond), s[1..], beyond);
      if !inWord {
        ShortRunStays(s, beyond);
      }
      assert out[1..] == Collapse(IsWord(s[0], beyond), s[1..], beyond);
    }
  }

  /** Collapsing is idempotent. */
  lemma CollapseIdempotent(text: string, beyond: char -> bool)
    ensures CollapseLetterSpacing(CollapseLetterSpacing(text, beyond), beyond)
            == CollapseLetterSpacing(text, beyond)
  {
    CollapseTwice(false, text, beyond);
  }
}
