/**
 Python's string operations, as the pipeline uses them: find, count, split, join, replace, strip.

 A `str` is a sequence of characters. Searches work left to right, and `count` and `split` step
 over every match, so overlapping matches are never seen twice.
 */
module Text {

  datatype Option<+T> = None | Some(value: T)

  // ---------------------------------------------------------------------------
  // Searching
  // ---------------------------------------------------------------------------

  /** `p` stands in `s` at index `i`. */
  predicate OccursAt(s: string, p: string, i: int) {
    0 <= i <= |s| - |p| && s[i..i + |p|] == p
  }

  /** `s.find(p, i)`. */
  function FindFrom(s: string, p: string, i: nat): (r: int)
    requires i <= |s|
    ensures r == -1 || i <= r
    ensures r >= 0 ==> OccursAt(s, p, r)
    ensures forall j | i <= j < if r < 0 then |s| + 1 else r :: !OccursAt(s, p, j)
    decreases |s| - i
  {
    if OccursAt(s, p, i) then i
    else if i == |s| then -1
    else FindFrom(s, p, i + 1)
  }

  /** `s.find(p)`: the least index at which `p` stands, or -1. */
  function Find(s: string, p: string): (r: int)
    ensures -1 <= r <= |s| - |p| || r == -1
    ensures r >= 0 ==> OccursAt(s, p, r)
    ensures forall j | 0 <= j < if r < 0 then |s| + 1 else r :: !OccursAt(s, p, j)
  {
    FindFrom(s, p, 0)
  }

  /** `p in s`. */
  predicate Contains(s: string, p: string) { Find(s, p) >= 0 }

  /** `s.count(p)`: matches that do not overlap; the empty pattern matches in every gap. */
  function Count(s: string, p: string): nat
    decreases |s|
  {
    if p == "" then |s| + 1
    else
      var i := Find(s, p);
      if i < 0 then 0 else 1 + Count(s[i + |p|..], p)
  }

  /** `s.replace(old, new, 1)`. */
  function ReplaceFirst(s: string, old_: string, new_: string): string {
    var i := Find(s, old_);
    if i < 0 then s else s[..i] + new_ + s[i + |old_|..]
  }

  /** What is replaced is the first occurrence, and nothing else changes. */
  lemma ReplaceFirstIs(s: string, old_: string, new_: string) returns (a: string, b: string)
    requires Contains(s, old_)
    ensures s == a + old_ + b && ReplaceFirst(s, old_, new_) == a + new_ + b
    ensures forall j | 0 <= j < |a| :: !OccursAt(s, old_, j)
  {
    var i := Find(s, old_);
    CutAt(s, old_, i);
    a, b := s[..i], s[i + |old_|..];
  }

  /** An occurrence in a suffix is an occurrence in the whole, shifted. */
  lemma OccursShift(a: string, s: string, p: string, i: int)
    requires 0 <= i
    ensures OccursAt(s, p, i) <==> OccursAt(a + s, p, |a| + i)
  {
    if i <= |s| - |p| {
      assert (a + s)[|a| + i..|a| + i + |p|] == s[i..i + |p|];
    }
  }

  /** An occurrence that ends inside the first part does not see the second part. */
  lemma OccursPrefix(a: string, s: string, p: string, i: int)
    requires 0 <= i && i + |p| <= |a|
    ensures OccursAt(a, p, i) <==> OccursAt(a + s, p, i)
  {
    assert (a + s)[i..i + |p|] == a[i..i + |p|];
  }

  lemma OccursCharAt(s: string, p: string, i: int, k: nat)
    requires k < |p|
    ensures OccursAt(s, p, i) ==> s[i + k] == p[k]
  {
    assert OccursAt(s, p, i) ==> s[i..i + |p|][k] == s[i + k];
  }

  lemma Assoc(a: string, b: string, c: string)
    ensures a + (b + c) == a + b + c
  {
  }

  /** Text in front in which no match begins only moves the first match. */
  lemma FindShift(a: string, x: string, p: string)
    requires p != ""
    requires forall j | 0 <= j < |a| :: !OccursAt(a + x, p, j)
    ensures Find(a + x, p) == if Find(x, p) < 0 then -1 else |a| + Find(x, p)
  {
    var i, k := Find(a + x, p), Find(x, p);
    if i >= 0 {
      OccursShift(a, x, p, i - |a|);
    }
    if k >= 0 {
      OccursShift(a, x, p, k);
    }
  }

  /** Text behind into which no match reaches does not change the first match. */
  lemma FindStable(x: string, b: string, p: string)
    requires p != ""
    requires forall j | 0 <= j && |x| < j + |p| :: !OccursAt(x + b, p, j)
    ensures Find(x + b, p) == Find(x, p)
  {
    var i, k := Find(x + b, p), Find(x, p);
    if i >= 0 {
      OccursPrefix(x, b, p, i);
    }
    if k >= 0 {
      OccursPrefix(x, b, p, k);
    }
  }

  /** What `str.count(p) == 1` means: there is a match, and none at or beyond the end of the first. */
  lemma CountIsOne(s: string, p: string)
    requires p != ""
    ensures Count(s, p) == 1 <==>
            Contains(s, p) && forall j | Find(s, p) + |p| <= j <= |s| :: !OccursAt(s, p, j)
  {
    var i := Find(s, p);
    if i >= 0 {
      var rest := s[i + |p|..];
      assert s == s[..i + |p|] + rest;
      forall j | i + |p| <= j <= |s|
        ensures OccursAt(s, p, j) <==> OccursAt(rest, p, j - i - |p|)
      {
        OccursShift(s[..i + |p|], rest, p, j - i - |p|);
      }
      if Contains(rest, p) {
        var k := Find(rest, p);
        assert OccursAt(s, p, k + i + |p|);
        assert Count(rest, p) >= 1;
      } else {
        assert Count(rest, p) == 0;
      }
    }
  }

  // ---------------------------------------------------------------------------
  // Splitting and joining
  // ---------------------------------------------------------------------------

  /** `s.split(sep)`. */
  function Split(s: string, sep: string): (parts: seq<string>)
    requires sep != ""
    ensures |parts| >= 1
    decreases |s|
  {
    var i := Find(s, sep);
    if i < 0 then [s] else [s[..i]] + Split(s[i + |sep|..], sep)
  }

  /** `sep.join(parts)`. */
  function Join(parts: seq<string>, sep: string): string {
    if |parts| == 0 then ""
    else if |parts| == 1 then parts[0]
    else parts[0] + sep + Join(parts[1..], sep)
  }

  lemma CutAt(s: string, p: string, i: int)
    requires OccursAt(s, p, i)
    ensures s == s[..i] + p + s[i + |p|..]
  {
    assert s == s[..i] + s[i..i + |p|] + s[i + |p|..];
  }

  lemma JoinCons(p: string, parts: seq<string>, sep: string)
    requires |parts| >= 1
    ensures Join([p] + parts, sep) == p + sep + Join(parts, sep)
  {
    assert ([p] + parts)[1..] == parts;
  }

  /** Joining undoes splitting, for every text and separator. */
  lemma {:induction false} JoinSplit(s: string, sep: string)
    requires sep != ""
    ensures Join(Split(s, sep), sep) == s
    decreases |s|
  {
    var i := Find(s, sep);
    if i >= 0 {
      var rest := s[i + |sep|..];
      JoinSplit(rest, sep);
      JoinCons(s[..i], Split(rest, sep), sep);
      CutAt(s, sep, i);
    }
  }

  /** No piece of a split still holds the separator. */
  lemma {:induction false} SplitParts(s: string, sep: string)
    requires sep != ""
    ensures forall k | 0 <= k < |Split(s, sep)| :: !Contains(Split(s, sep)[k], sep)
    decreases |s|
  {
    var i := Find(s, sep);
    if i >= 0 {
      var rest := s[i + |sep|..];
      SplitParts(rest, sep);
      forall j | 0 <= j <= i ensures !OccursAt(s[..i], sep, j) {
        if OccursAt(s[..i], sep, j) {
          assert s == s[..i] + s[i..];
          OccursPrefix(s[..i], s[i..], sep, j);
        }
      }
    }
  }

  /** No proper suffix of `m` is also a prefix of it, so two matches of `m` never overlap. */
  ghost predicate Unbordered(m: string) {
    m != "" && forall a | 0 < a < |m| :: m[a..] != m[..|m| - a]
  }

  /** A pattern whose first character does not come back in it is unbordered. */
  lemma DistinctFirstUnbordered(m: string)
    requires m != "" && forall k | 0 < k < |m| :: m[k] != m[0]
    ensures Unbordered(m)
  {
    forall a | 0 < a < |m| ensures m[a..] != m[..|m| - a] {
      assert m[a..][0] == m[a] && m[..|m| - a][0] == m[0];
    }
  }

  /** A match that starts in `p` and ends beyond it overlaps the `m` that follows: a border of `m`. */
  lemma StraddleBorder(p: string, m: string, rest: string, j: int)
    requires 0 <= j < |p| < j + |m| && OccursAt(p + m + rest, m, j)
    ensures m[|p| - j..] == m[..|m| - (|p| - j)]
  {
    var s, a := p + m + rest, |p| - j;
    forall k | 0 <= k < |m| - a ensures m[a + k] == m[k] {
      OccursCharAt(s, m, j, a + k);
    }
  }

  /** When `m` is unbordered, no match of `m` straddles the place where a page was joined. */
  lemma FindAtJoin(p: string, m: string, rest: string)
    requires Unbordered(m) && !Contains(p, m)
    ensures Find(p + m + rest, m) == |p|
  {
    var s := p + m + rest;
    assert s[|p|..|p| + |m|] == m;
    forall j | 0 <= j < |p| ensures !OccursAt(s, m, j) {
      if j + |m| <= |p| {
        assert s == p + (m + rest);
        OccursPrefix(p, m + rest, m, j);
      } else if OccursAt(s, m, j) {
        StraddleBorder(p, m, rest, j);
      }
    }
    assert OccursAt(s, m, |p|);
  }

  lemma SplitAt(head: string, sep: string, rest: string)
    requires sep != "" && Find(head + sep + rest, sep) == |head|
    ensures Split(head + sep + rest, sep) == [head] + Split(rest, sep)
  {
    hide OccursAt;
    assert (head + sep + rest)[..|head|] == head;
    assert (head + sep + rest)[|head| + |sep|..] == rest;
  }

  /** Splitting undoes joining when the separator is unbordered and stands in no piece. */
  lemma {:induction false} SplitJoin(parts: seq<string>, sep: string)
    requires Unbordered(sep) && |parts| >= 1
    requires forall k | 0 <= k < |parts| :: !Contains(parts[k], sep)
    ensures Split(Join(parts, sep), sep) == parts
    decreases |parts|
  {
    if |parts| == 1 {
      assert Find(parts[0], sep) < 0;
    } else {
      var rest := Join(parts[1..], sep);
      var s := parts[0] + sep + rest;
      assert !Contains(parts[0], sep);
      FindAtJoin(parts[0], sep, rest);
      SplitJoin(parts[1..], sep);
      assert s[..|parts[0]|] == parts[0];
      assert s[|parts[0]| + |sep|..] == rest;
    }
  }

  // ---------------------------------------------------------------------------
  // Lines
  // ---------------------------------------------------------------------------

  const NL: string := "\n"

  /** A line: a text without a newline. */
  predicate IsLine(s: string) { '\n' !in s }

  /** `s.split("\n")`. */
  function Lines(s: string): (ls: seq<string>)
    ensures |ls| >= 1
  {
    Split(s, NL)
  }

  /** `"\n".join(ls)`. */
  function Unlines(ls: seq<string>): string { Join(ls, NL) }

  lemma LineContains(s: string)
    ensures Contains(s, NL) <==> !IsLine(s)
  {
    if Contains(s, NL) {
      var i :| 0 <= i <= |s| && OccursAt(s, NL, i);
      OccursCharAt(s, NL, i, 0);
    }
    if !IsLine(s) {
      var i :| 0 <= i < |s| && s[i] == '\n';
      assert s[i..i + 1] == NL;
      assert OccursAt(s, NL, i);
    }
  }

  lemma LinesAreLines(s: string)
    ensures forall k | 0 <= k < |Lines(s)| :: IsLine(Lines(s)[k])
    ensures Unlines(Lines(s)) == s
  {
    SplitParts(s, NL);
    JoinSplit(s, NL);
    forall k | 0 <= k < |Lines(s)| ensures IsLine(Lines(s)[k]) {
      LineContains(Lines(s)[k]);
    }
  }

  lemma LinesUnlines(ls: seq<string>)
    requires |ls| >= 1 && forall k | 0 <= k < |ls| :: IsLine(ls[k])
    ensures Lines(Unlines(ls)) == ls
  {
    forall k | 0 <= k < |ls| ensures !Contains(ls[k], NL) {
      LineContains(ls[k]);
    }
    SplitJoin(ls, NL);
  }

  lemma {:induction false} UnlinesConcat(a: seq<string>, b: seq<string>)
    requires |a| >= 1 && |b| >= 1
    ensures Unlines(a + b) == Unlines(a) + NL + Unlines(b)
    decreases |a|
  {
    if |a| == 1 {
      JoinCons(a[0], b, NL);
      assert a + b == [a[0]] + b;
    } else {
      UnlinesConcat(a[1..], b);
      JoinCons(a[0], a[1..] + b, NL);
      assert a + b == [a[0]] + (a[1..] + b);
    }
  }

  /** A text of several lines put in as one element counts as those lines. */
  lemma UnlinesNested(a: seq<string>, c: seq<string>, b: seq<string>)
    requires |c| >= 1
    ensures Unlines(a + [Unlines(c)] + b) == Unlines(a + c + b)
  {
    var x := [Unlines(c)];
    assert Unlines(x) == Unlines(c);
    assert Unlines(a + x) == Unlines(a + c) by {
      if a == [] {
        assert a + x == x && a + c == c;
      } else {
        UnlinesConcat(a, x);
        UnlinesConcat(a, c);
      }
    }
    if b == [] {
      assert a + x + b == a + x && a + c + b == a + c;
    } else {
      UnlinesConcat(a + x, b);
      UnlinesConcat(a + c, b);
    }
  }

  /** What change logs keep of a long text: 200 characters. */
  function Preview(s: string): string {
    if |s| > 200 then s[..200] + "..." else s
  }

  // ---------------------------------------------------------------------------
  // Whitespace and words
  // ---------------------------------------------------------------------------

  /** The characters for which `str.isspace` holds and which `strip` removes. */
  predicate IsSpace(c: char) {
    || '\U{0009}' <= c <= '\U{000D}'
    || '\U{001C}' <= c <= '\U{0020}'
    || c == '\U{0085}' || c == '\U{00A0}' || c == '\U{1680}'
    || '\U{2000}' <= c <= '\U{200A}'
    || c == '\U{2028}' || c == '\U{2029}' || c == '\U{202F}' || c == '\U{205F}' || c == '\U{3000}'
  }

  predicate IsLetter(c: char) { 'a' <= c <= 'z' || 'A' <= c <= 'Z' }

  predicate IsDigit(c: char) { '0' <= c <= '9' }

  /**
   `\w` of Python's `re`. Beyond ASCII it follows the Unicode tables, which are the parameter
   `beyond`; it never holds of a space.
   */
  predicate IsWord(c: char, beyond: char -> bool) {
    IsLetter(c) || IsDigit(c) || c == '_' || (c >= '\U{0080}' && !IsSpace(c) && beyond(c))
  }

  predicate Blank(s: string) { forall k | 0 <= k < |s| :: IsSpace(s[k]) }

  /** `s.lstrip()`. */
  function LStrip(s: string): string {
    if s != "" && IsSpace(s[0]) then LStrip(s[1..]) else s
  }

  /** `s.rstrip()`. */
  function RStrip(s: string): string {
    if s != "" && IsSpace(s[|s| - 1]) then RStrip(s[..|s| - 1]) else s
  }

  /** `s.strip()`. */
  function Strip(s: string): string { RStrip(LStrip(s)) }

  /** Neither end of `s` is whitespace. */
  predicate Trimmed(s: string) {
    s != "" ==> !IsSpace(s[0]) && !IsSpace(s[|s| - 1])
  }

  lemma {:induction false} LStripShape(s: string) returns (a: string)
    ensures Blank(a) && s == a + LStrip(s)
    ensures LStrip(s) != "" ==> !IsSpace(LStrip(s)[0])
    decreases |s|
  {
    if s != "" && IsSpace(s[0]) {
      var b := LStripShape(s[1..]);
      a := [s[0]] + b;
    } else {
      a := "";
    }
  }

  lemma {:induction false} RStripShape(s: string) returns (b: string)
    ensures Blank(b) && s == RStrip(s) + b
    ensures RStrip(s) != "" ==> !IsSpace(RStrip(s)[|RStrip(s)| - 1])
    decreases |s|
  {
    if s != "" && IsSpace(s[|s| - 1]) {
      var c := RStripShape(s[..|s| - 1]);
      b := c + [s[|s| - 1]];
    } else {
      b := "";
    }
  }

  /** `strip` removes whitespace at the two ends and nothing else. */
  lemma StripShape(s: string) returns (a: string, b: string)
    ensures Blank(a) && Blank(b) && s == a + Strip(s) + b && Trimmed(Strip(s))
  {
    a := LStripShape(s);
    b := RStripShape(LStrip(s));
    var l := LStrip(s);
    assert Strip(s) != "" ==> Strip(s)[0] == l[0];
  }

  lemma {:induction false} LStripBlank(a: string, core: string)
    requires Blank(a)
    ensures LStrip(a + core) == LStrip(core)
    decreases |a|
  {
    if a != "" {
      assert (a + core)[1..] == a[1..] + core;
      LStripBlank(a[1..], core);
    } else {
      assert a + core == core;
    }
  }

  lemma {:induction false} RStripBlank(core: string, b: string)
    requires Blank(b)
    ensures RStrip(core + b) == RStrip(core)
    decreases |b|
  {
    if b != "" {
      assert (core + b)[..|core + b| - 1] == core + b[..|b| - 1];
      RStripBlank(core, b[..|b| - 1]);
    } else {
      assert core + b == core;
    }
  }

  /** ... and it removes all of it: the trimmed text between two blanks is what `strip` returns. */
  lemma StripIs(a: string, core: string, b: string)
    requires Blank(a) && Blank(b) && Trimmed(core)
    ensures Strip(a + core + b) == core
  {
    assert a + core + b == a + (core + b);
    LStripBlank(a, core + b);
    if core == "" {
      assert core + b == b + "";
      LStripBlank(b, "");
    } else {
      RStripBlank(core, b);
    }
  }

  lemma StripTrimmed(s: string)
    requires Trimmed(s)
    ensures Strip(s) == s
  {
    StripIs("", s, "");
    assert "" + s + "" == s;
  }

  lemma StripEmpty(s: string)
    ensures Strip(s) == "" <==> Blank(s)
  {
    hide OccursAt;
    var a, b := StripShape(s);
    assert Strip(s) != "" ==> s[|a|] == Strip(s)[0];
  }
}
