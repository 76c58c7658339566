/**
 Private-use characters of PDF fonts (src/utils/text_cleanup.py, `replace_pua_chars` and
 `strip_replacement_chars`).
 */
module PrivateUse {
  import opened Text

  const REPLACEMENT: char := '\U{FFFD}'

  predicate IsPua(c: char) {
    || '\U{E000}' <= c <= '\U{F8FF}'
    || '\U{F0000}' <= c <= '\U{FFFFD}'
    || '\U{100000}' <= c <= '\U{10FFFD}'
  }

  predicate IsAlnum(c: char) { IsLetter(c) || IsDigit(c) }

  /** The length of the run of private-use characters at the start of `s`. */
  function RunLength(s: string): (n: nat)
    ensures n <= |s|
    ensures s != "" && IsPua(s[0]) ==> n >= 1
  {
    if s != "" && IsPua(s[0]) then 1 + RunLength(s[1..]) else 0
  }

  /**
   First substitution: a whole run between two alphanumeric characters becomes a hyphen. A shorter
   part of a run cannot match, for a private-use character stands on one side of it.
   */
  function Hyphens(afterAlnum: bool, s: string): string
    decreases |s|
  {
    if s == "" then ""
    else
      var n := RunLength(s);
      if n == 0 then [s[0]] + Hyphens(IsAlnum(s[0]), s[1..])
      else if afterAlnum && n < |s| && IsAlnum(s[n]) then "-" + Hyphens(false, s[n..])
      else s[..n] + Hyphens(false, s[n..])
  }

  /** Second substitution: every run that is left becomes one replacement character. */
  function Marks(s: string): string
    decreases |s|
  {
    if s == "" then ""
    else
      var n := RunLength(s);
      if n == 0 then [s[0]] + Marks(s[1..]) else [REPLACEMENT] + Marks(s[n..])
  }

  function ReplacePuaChars(text: string): string { Marks(Hyphens(false, text)) }

  /** The one-pass reading: each maximal run becomes a hyphen or a mark by what stands around it. */
  function Replaced(afterAlnum: bool, s: string): string
    decreases |s|
  {
    if s == "" then ""
    else
      var n := RunLength(s);
      if n == 0 then [s[0]] + Replaced(IsAlnum(s[0]), s[1..])
      else [if afterAlnum && n < |s| && IsAlnum(s[n]) then '-' else REPLACEMENT] + Replaced(false, s[n..])
  }

  lemma {:induction false} RunShape(s: string)
    ensures forall k | 0 <= k < RunLength(s) :: IsPua(s[k])
    ensures RunLength(s) < |s| ==> !IsPua(s[RunLength(s)])
  {
    if s != "" && IsPua(s[0]) {
      RunShape(s[1..]);
    }
  }

  lemma {:induction false} RunOfConcat(w: string, t: string)
    requires (forall k | 0 <= k < |w| :: IsPua(w[k])) && (t != "" ==> !IsPua(t[0]))
    ensures RunLength(w + t) == |w|
  {
    if w == "" {
      assert w + t == t;
    } else {
      assert (w + t)[1..] == w[1..] + t;
      RunOfConcat(w[1..], t);
    }
  }

  lemma {:induction false} HyphensFirst(afterAlnum: bool, s: string)
    ensures Hyphens(afterAlnum, s) == "" <==> s == ""
    ensures s != "" && !IsPua(s[0]) ==> Hyphens(afterAlnum, s)[0] == s[0]
  {
  }

  lemma {:induction false} MarksOfHyphens(afterAlnum: bool, s: string)
    ensures Marks(Hyphens(afterAlnum, s)) == Replaced(afterAlnum, s)
    decreases |s|
  {
    if s != "" {
      var n := RunLength(s);
      RunShape(s);
      if n == 0 {
        var t := Hyphens(IsAlnum(s[0]), s[1..]);
        MarksOfHyphens(IsAlnum(s[0]), s[1..]);
        assert ([s[0]] + t)[1..] == t;
      } else {
        var t := Hyphens(false, s[n..]);
        MarksOfHyphens(false, s[n..]);
        HyphensFirst(false, s[n..]);
        if afterAlnum && n < |s| && IsAlnum(s[n]) {
          assert ("-" + t)[1..] == t;
        } else {
          RunOfConcat(s[..n], t);
          assert (s[..n] + t)[n..] == t;
        }
      }
    }
  }

  /** The two substitutions are the one-pass reading. */
  lemma ReplacePuaIs(text: string)
    ensures ReplacePuaChars(text) == Replaced(false, text)
  {
    MarksOfHyphens(false, text);
  }

  /** What a run becomes. */
  function Mark(afterAlnum: bool, s: string, n: nat): string {
    if afterAlnum && n < |s| && IsAlnum(s[n]) then "-" else "\U{FFFD}"
  }

  lemma ReplacedStep(afterAlnum: bool, s: string)
    requires s != ""
    ensures var n := RunLength(s);
            Replaced(afterAlnum, s) ==
            if n == 0 then [s[0]] + Replaced(IsAlnum(s[0]), s[1..])
            else Mark(afterAlnum, s, n) + Replaced(false, s[n..])
  {
  }

  lemma ReplacedOne(afterAlnum: bool, c: char)
    requires !IsPua(c)
    ensures Replaced(afterAlnum, [c]) == [c]
  {
    assert [c][1..] == "";
  }

  lemma DropConcat(a: string, rest: string, n: nat)
    requires 0 < n <= |a|
    ensures (a + rest)[n..] == a[n..] + rest && (a + rest)[0] == a[0]
    ensures n < |a| ==> (a + rest)[n] == a[n]
  {
  }

  lemma {:induction false} ReplacedConcat(afterAlnum: bool, a: string, rest: string)
    requires a != "" && !IsPua(a[|a| - 1])
    ensures Replaced(afterAlnum, a + rest) == Replaced(afterAlnum, a) + Replaced(IsAlnum(a[|a| - 1]), rest)
    decreases |a|
  {
    var n := RunLength(a);
    var t := a + rest;
    RunShape(a);
    RunWithin(a, rest);
    ReplacedStep(afterAlnum, a);
    ReplacedStep(afterAlnum, t);
    hide Replaced, RunLength, IsPua, IsAlnum;
    var more := Replaced(IsAlnum(a[|a| - 1]), rest);
    DropConcat(a, rest, if n == 0 then 1 else n);
    if n == 0 {
      if |a| == 1 {
        assert a == [a[0]] && a[1..] == "" && t[1..] == rest;
        ReplacedOne(afterAlnum, a[0]);
      } else {
        ReplacedConcat(IsAlnum(a[0]), a[1..], rest);
        Assoc([a[0]], Replaced(IsAlnum(a[0]), a[1..]), more);
      }
    } else {
      ReplacedConcat(false, a[n..], rest);
      Assoc(Mark(afterAlnum, a, n), Replaced(false, a[n..]), more);
    }
  }

  lemma {:induction false} RunWithin(a: string, rest: string)
    requires a != "" && !IsPua(a[|a| - 1])
    ensures RunLength(a + rest) == RunLength(a) < |a|
  {
    if IsPua(a[0]) {
      assert (a + rest)[1..] == a[1..] + rest;
      RunWithin(a[1..], rest);
    }
  }

  /**
   What becomes of a maximal run of private-use characters: a hyphen when an ASCII letter or digit stands on both
   sides, and U+FFFD otherwise; what stands before and after is treated by itself.
   */
  lemma RunBecomes(a: string, run: string, b: string)
    requires run != "" && (forall k | 0 <= k < |run| :: IsPua(run[k]))
    requires (a != "" ==> !IsPua(a[|a| - 1])) && (b != "" ==> !IsPua(b[0]))
    ensures ReplacePuaChars(a + (run + b)) ==
            ReplacePuaChars(a)
            + (if a != "" && IsAlnum(a[|a| - 1]) && b != "" && IsAlnum(b[0]) then "-" else "\U{FFFD}")
            + ReplacePuaChars(b)
  {
    ReplacePuaIs(a + (run + b));
    ReplacePuaIs(a);
    ReplacePuaIs(b);
    RunOfConcat(run, b);
    assert (run + b)[|run|..] == b;
    hide ReplacePuaChars, RunLength, IsPua, IsAlnum, Replaced;
    var after := a != "" && IsAlnum(a[|a| - 1]);
    ReplacedStep(after, run + b);
    MarkOf(after, run, b);
    if a == "" {
      assert a + (run + b) == run + b;
      NothingReplaced();
    } else {
      ReplacedConcat(false, a, run + b);
      Assoc(Replaced(false, a), Mark(after, run + b, |run|), Replaced(false, b));
    }
  }

  lemma MarkOf(after: bool, run: string, b: string)
    ensures Mark(after, run + b, |run|) == if after && b != "" && IsAlnum(b[0]) then "-" else "\U{FFFD}"
  {
    assert b != "" ==> (run + b)[|run|] == b[0];
  }

  lemma NothingReplaced()
    ensures Replaced(false, "") == ""
  {
  }

  predicate NoPua(s: string) { forall k | 0 <= k < |s| :: !IsPua(s[k]) }

  lemma {:induction false} ReplacedNoPua(afterAlnum: bool, s: string)
    ensures NoPua(Replaced(afterAlnum, s))
    decreases |s|
  {
    if s != "" {
      var n := RunLength(s);
      ReplacedNoPua(if n == 0 then IsAlnum(s[0]) else false, s[if n == 0 then 1 else n..]);
    }
  }

  lemma {:induction false} ReplacedFixed(afterAlnum: bool, s: string)
    requires NoPua(s)
    ensures Replaced(afterAlnum, s) == s
    decreases |s|
  {
    if s != "" {
      ReplacedFixed(IsAlnum(s[0]), s[1..]);
    }
  }

  /** No private-use character is left, and a second application changes nothing. */
  lemma ReplacePuaClears(text: string)
    ensures NoPua(ReplacePuaChars(text))
    ensures ReplacePuaChars(ReplacePuaChars(text)) == ReplacePuaChars(text)
  {
    ReplacePuaIs(text);
    ReplacedNoPua(false, text);
    ReplacePuaIs(ReplacePuaChars(text));
    ReplacedFixed(false, ReplacePuaChars(text));
  }

  /** `strip_replacement_chars`: both substitutions delete, so what is left is what neither matches. */
  function StripReplacementChars(s: string): string {
    if s == "" then ""
    else (if IsPua(s[0]) || s[0] == REPLACEMENT then "" else [s[0]]) + StripReplacementChars(s[1..])
  }

  /** Stripping works character by character and takes out the private-use ones and U+FFFD. */
  lemma {:induction false} StripTakesOut(a: string, b: string, c: char)
    ensures StripReplacementChars(a + b) == StripReplacementChars(a) + StripReplacementChars(b)
    ensures StripReplacementChars([c]) == if IsPua(c) || c == '\U{FFFD}' then "" else [c]
  {
    assert [c][1..] == "";
    if a == "" {
      assert a + b == b;
    } else {
      assert (a + b)[1..] == a[1..] + b;
      StripTakesOut(a[1..], b, c);
    }
  }

  /** The text without its private-use runs, but with a hyphen for each run between alphanumerics. */
  function HyphensOnly(afterAlnum: bool, s: string): string
    decreases |s|
  {
    if s == "" then ""
    else
      var n := RunLength(s);
      if n == 0 then (if s[0] == REPLACEMENT then "" else [s[0]]) + HyphensOnly(IsAlnum(s[0]), s[1..])
      else (if afterAlnum && n < |s| && IsAlnum(s[n]) then "-" else "") + HyphensOnly(false, s[n..])
  }

  /** Marking and later stripping leaves all other characters, in order, and the hyphens. */
  lemma {:induction false} StripAfterReplace(afterAlnum: bool, s: string)
    ensures StripReplacementChars(Replaced(afterAlnum, s)) == HyphensOnly(afterAlnum, s)
    decreases |s|
  {
    if s != "" {
      var n := RunLength(s);
      if n == 0 {
        var t := Replaced(IsAlnum(s[0]), s[1..]);
        StripAfterReplace(IsAlnum(s[0]), s[1..]);
        assert ([s[0]] + t)[1..] == t;
      } else {
        var t := Replaced(false, s[n..]);
        StripAfterReplace(false, s[n..]);
        assert Replaced(afterAlnum, s)[1..] == t;
      }
    }
  }
}
