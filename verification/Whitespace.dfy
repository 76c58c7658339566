/**
 Whitespace cleanup (src/utils/text_cleanup.py).
 */
module Whitespace {
  import opened Text
  import LetterSpacing

  // ---------------------------------------------------------------------------
  // fix_excessive_whitespace
  // ---------------------------------------------------------------------------

  /** How many times `c` stands at the start of `s`. */
  function Leading(s: string, c: char): (n: nat)
    ensures n <= |s|
    ensures s != "" && s[0] == c ==> n >= 1
  {
    if s != "" && s[0] == c then 1 + Leading(s[1..], c) else 0
  }

  /** `re.sub(r" {2,}", " ", s)`. */
  function SingleSpaces(s: string): string
    decreases |s|
  {
    if s == "" then ""
    else
      var n := Leading(s, ' ');
      if n >= 2 then " " + SingleSpaces(s[n..]) else [s[0]] + SingleSpaces(s[1..])
  }

  /** `re.sub(r"\n{3,}", "\n\n", s)`. */
  function DoubleNewlines(s: string): string
    decreases |s|
  {
    if s == "" then ""
    else
      var n := Leading(s, '\n');
      if n >= 3 then "\n\n" + DoubleNewlines(s[n..])
      else if n > 0 then s[..n] + DoubleNewlines(s[n..])
      else [s[0]] + DoubleNewlines(s[1..])
  }

  function RStripAll(lines: seq<string>): seq<string> {
    seq(|lines|, k requires 0 <= k < |lines| => RStrip(lines[k]))
  }

  function FixWhitespace(text: string): string {
    Unlines(RStripAll(Lines(DoubleNewlines(SingleSpaces(text)))))
  }

  /** Whitespace that does not end a line. */
  predicate Inner(c: char) { IsSpace(c) && c != '\n' }

  /** Character by character: whitespace goes when only whitespace follows on its line. */
  function CutTrailing(s: string): string {
    if s == "" then ""
    else
      var r := CutTrailing(s[1..]);
      if Inner(s[0]) && (r == "" || r[0] == '\n') then r else [s[0]] + r
  }

  predicate NoDoubleSpace(s: string) {
    forall i | 0 < i < |s| :: !(s[i - 1] == ' ' && s[i] == ' ')
  }

  predicate NoTripleNewline(s: string) {
    forall i | 1 < i < |s| :: !(s[i - 2] == '\n' && s[i - 1] == '\n' && s[i] == '\n')
  }

  /** No line ends in whitespace. */
  predicate NoTrailing(s: string) {
    forall i | 0 <= i < |s| && Inner(s[i]) :: i + 1 < |s| && s[i + 1] != '\n'
  }

  predicate Clean(s: string) {
    NoDoubleSpace(s) && NoTripleNewline(s) && NoTrailing(s)
  }

  // --- the line-wise strip is the character-wise one ---

  lemma FindNewline(c: char, s: string)
    ensures Find([c] + s, NL) == if c == '\n' then 0 else if Find(s, NL) < 0 then -1 else 1 + Find(s, NL)
  {
    var t := [c] + s;
    if c == '\n' {
      assert OccursAt(t, NL, 0);
    } else {
      OccursCharAt(t, NL, 0, 0);
      FindShift([c], s, NL);
    }
  }

  lemma LinesCons(c: char, s: string)
    ensures Lines([c] + s) ==
            if c == '\n' then [""] + Lines(s) else [[c] + Lines(s)[0]] + Lines(s)[1..]
  {
    hide OccursAt;
    var t := [c] + s;
    FindNewline(c, s);
    var i := Find(s, NL);
    if c == '\n' {
      assert t == "" + NL + s;
      SplitAt("", NL, s);
    } else if i >= 0 {
      CutAt(s, NL, i);
      var head, rest := s[..i], s[i + |NL|..];
      assert t == [c] + head + NL + rest;
      SplitAt([c] + head, NL, rest);
      SplitAt(head, NL, rest);
      assert Lines(s)[1..] == Lines(rest);
    }
  }

  lemma {:induction false} RStripCons(c: char, l: string)
    ensures RStrip([c] + l) == if IsSpace(c) && RStrip(l) == "" then "" else [c] + RStrip(l)
    decreases |l|
  {
    if l != "" && IsSpace(l[|l| - 1]) {
      assert ([c] + l)[..|l|] == [c] + l[..|l| - 1];
      RStripCons(c, l[..|l| - 1]);
    } else if l == "" {
      assert [c] + l == [c] && [c][..0] == "";
    }
  }

  lemma EmptyLines()
    ensures Lines("") == [""] && RStripAll([""]) == [""] && Unlines([""]) == ""
  {
    assert Find("", NL) == -1;
  }

  lemma RStripAllCons(l: string, ls: seq<string>)
    ensures RStripAll([l] + ls) == [RStrip(l)] + RStripAll(ls)
  {
    hide RStrip;
  }

  lemma HeadNotNewline(h: string, others: seq<string>)
    requires IsLine(h)
    ensures var s := Unlines([h] + others); s == "" || s[0] == '\n' <==> h == ""
  {
    UnlinesHead(h, others);
  }

  /** Putting a character before some lines, after the lines have been stripped. */
  lemma StripStep(c: char, first: string, others: seq<string>)
    requires IsLine(first)
    ensures var x := Unlines(RStripAll([first] + others));
            && Unlines(RStripAll([""] + ([first] + others))) == "\n" + x
            && (c != '\n' ==> Unlines(RStripAll([[c] + first] + others)) ==
                              if Inner(c) && (x == "" || x[0] == '\n') then x else [c] + x)
  {
    var l, more := RStrip(first), RStripAll(others);
    RStripAllCons(first, others);
    RStripAllCons("", [first] + others);
    RStripAllCons([c] + first, others);
    RStripCons(c, first);
    RStripLine(first);
    hide RStripAll, RStrip;
    JoinCons("", [l] + more, NL);
    HeadNotNewline(l, more);
    ConsToHead(c, l, more);
  }

  lemma ConsToHead(c: char, l: string, more: seq<string>)
    ensures Unlines([[c] + l] + more) == [c] + Unlines([l] + more)
  {
    UnlinesHead([c] + l, more);
    UnlinesHead(l, more);
  }

  lemma {:induction false} CutIsRStrip(s: string)
    ensures CutTrailing(s) == Unlines(RStripAll(Lines(s)))
    decreases |s|
  {
    if s == "" {
      EmptyLines();
    } else {
      var c, rest := s[0], s[1..];
      assert s == [c] + rest;
      CutIsRStrip(rest);
      LinesCons(c, rest);
      LinesAreLines(rest);
      var ls := Lines(rest);
      hide Lines, RStripAll, Unlines, OccursAt;
      assert ls == [ls[0]] + ls[1..];
      StripStep(c, ls[0], ls[1..]);
    }
  }

  lemma RStripLine(l: string)
    requires IsLine(l)
    ensures IsLine(RStrip(l))
  {
    var b := RStripShape(l);
    assert forall k | 0 <= k < |RStrip(l)| :: RStrip(l)[k] == l[k];
  }

  lemma UnlinesHead(h: string, others: seq<string>)
    ensures Unlines([h] + others) == if others == [] then h else h + NL + Unlines(others)
  {
    if others != [] {
      JoinCons(h, others, NL);
    }
  }

  // --- what the three passes establish and keep ---

  lemma {:induction false} LeadingShape(s: string, c: char)
    ensures forall k | 0 <= k < Leading(s, c) :: s[k] == c
    ensures Leading(s, c) < |s| ==> s[Leading(s, c)] != c
  {
    if s != "" && s[0] == c {
      LeadingShape(s[1..], c);
    }
  }

  lemma {:induction false} SingleSpacesEstablishes(s: string)
    ensures NoDoubleSpace(SingleSpaces(s))
    ensures SingleSpaces(s) == "" <==> s == ""
    ensures s != "" ==> SingleSpaces(s)[0] == s[0]
    decreases |s|
  {
    if s != "" {
      var n := Leading(s, ' ');
      LeadingShape(s, ' ');
      if n >= 2 {
        SingleSpacesEstablishes(s[n..]);
      } else {
        assert n == 1 && |s| > 1 ==> s[1..][0] != ' ';
        SingleSpacesEstablishes(s[1..]);
      }
    }
  }

  lemma {:induction false} SingleSpacesFixed(s: string)
    requires NoDoubleSpace(s)
    ensures SingleSpaces(s) == s
    decreases |s|
  {
    if s != "" {
      LeadingShape(s, ' ');
      assert |s| >= 2 ==> !(s[1 - 1] == ' ' && s[1] == ' ');
      SingleSpacesFixed(s[1..]);
    }
  }

  lemma {:induction false} DoubleNewlinesEstablishes(s: string)
    ensures NoTripleNewline(DoubleNewlines(s))
    ensures DoubleNewlines(s) == "" <==> s == ""
    ensures s != "" ==> DoubleNewlines(s)[0] == s[0]
    decreases |s|
  {
    if s != "" {
      var n := Leading(s, '\n');
      LeadingShape(s, '\n');
      DoubleNewlinesEstablishes(s[if n > 0 then n else 1..]);
    }
  }

  lemma {:induction false} DoubleNewlinesFixed(s: string)
    requires NoTripleNewline(s)
    ensures DoubleNewlines(s) == s
    decreases |s|
  {
    if s != "" {
      var n := Leading(s, '\n');
      LeadingShape(s, '\n');
      assert |s| >= 3 ==> !(s[2 - 2] == '\n' && s[2 - 1] == '\n' && s[2] == '\n');
      DoubleNewlinesFixed(s[if n > 0 then n else 1..]);
    }
  }

  /** Collapsing newlines makes no new pair of spaces, and no new trailing whitespace. */
  lemma {:induction false} DoubleNewlinesKeepsSpaces(s: string)
    requires NoDoubleSpace(s)
    ensures NoDoubleSpace(DoubleNewlines(s))
    decreases |s|
  {
    if s != "" {
      var n := Leading(s, '\n');
      LeadingShape(s, '\n');
      var m := if n > 0 then n else 1;
      SuffixKeeps(s, m);
      DoubleNewlinesKeepsSpaces(s[m..]);
      DoubleNewlinesEstablishes(s[m..]);
      if n == 0 && |s| > 1 {
        assert !(s[1 - 1] == ' ' && s[1] == ' ');
      }
      SpacesConcat(if n == 0 then [s[0]] else if n >= 3 then "\n\n" else s[..n], DoubleNewlines(s[m..]));
    }
  }

  lemma SpacesConcat(a: string, b: string)
    requires NoDoubleSpace(a) && NoDoubleSpace(b) && |a| > 0
    requires b != "" ==> !(a[|a| - 1] == ' ' && b[0] == ' ')
    ensures NoDoubleSpace(a + b)
  {
  }

  lemma {:induction false} DoubleNewlinesKeepsEnds(s: string)
    requires NoTrailing(s)
    ensures NoTrailing(DoubleNewlines(s))
    decreases |s|
  {
    if s != "" {
      var n := Leading(s, '\n');
      LeadingShape(s, '\n');
      var m := if n > 0 then n else 1;
      SuffixKeeps(s, m);
      DoubleNewlinesKeepsEnds(s[m..]);
      DoubleNewlinesEstablishes(s[m..]);
      var head := if n == 0 then [s[0]] else if n >= 3 then "\n\n" else s[..n];
      assert forall k | 0 <= k < |head| :: n > 0 ==> head[k] == '\n';
      EndsConcat(head, DoubleNewlines(s[m..]));
    }
  }

  lemma EndsConcat(a: string, b: string)
    requires NoTrailing(b)
    requires (forall k | 0 <= k < |a| :: a[k] == '\n') || (|a| == 1 && (Inner(a[0]) ==> b != "" && b[0] != '\n'))
    ensures NoTrailing(a + b)
  {
    forall i | 0 <= i < |a + b| && Inner((a + b)[i])
      ensures i + 1 < |a + b| && (a + b)[i + 1] != '\n'
    {
      if i >= |a| {
        assert Inner(b[i - |a|]);
      }
    }
  }

  lemma SuffixKeeps(s: string, m: nat)
    requires m <= |s|
    ensures NoDoubleSpace(s) ==> NoDoubleSpace(s[m..])
    ensures NoTrailing(s) ==> NoTrailing(s[m..])
  {
    var t := s[m..];
    assert forall i | 0 <= i < |t| :: t[i] == s[m + i];
    if NoDoubleSpace(s) {
      forall i | 0 < i < |t| ensures !(t[i - 1] == ' ' && t[i] == ' ') {
        assert t[i] == s[m + i] && t[i - 1] == s[m + i - 1];
      }
    }
    if NoTrailing(s) {
      forall i | 0 <= i < |t| && Inner(t[i]) ensures i + 1 < |t| && t[i + 1] != '\n' {
        assert Inner(s[m + i]);
      }
    }
  }

  lemma {:induction false} CutEstablishes(s: string)
    ensures NoTrailing(CutTrailing(s))
    ensures NoDoubleSpace(s) ==> NoDoubleSpace(CutTrailing(s))
    ensures CutTrailing(s) != "" && CutTrailing(s)[0] != '\n' && s != "" ==> CutTrailing(s)[0] == s[0]
    decreases |s|
  {
    if s != "" {
      CutEstablishes(s[1..]);
      SuffixKeeps(s, 1);
      CutFirst(s);
    }
  }

  /** If something is left of the first line, its first character is. */
  lemma {:induction false} CutFirst(s: string)
    ensures var r := CutTrailing(s); r == "" || r[0] == '\n' || (s != "" && r[0] == s[0])
    decreases |s|
  {
    if s != "" {
      CutFirst(s[1..]);
    }
  }

  lemma {:induction false} CutFixed(s: string)
    requires NoTrailing(s)
    ensures CutTrailing(s) == s
    decreases |s|
  {
    if s != "" {
      SuffixKeeps(s, 1);
      CutFixed(s[1..]);
      assert Inner(s[0]) ==> s[1..] != "" && s[1..][0] != '\n';
    }
  }

  lemma FixIsThreePasses(text: string)
    ensures FixWhitespace(text) == CutTrailing(DoubleNewlines(SingleSpaces(text)))
  {
    CutIsRStrip(DoubleNewlines(SingleSpaces(text)));
  }

  lemma OnePass(text: string)
    ensures NoDoubleSpace(FixWhitespace(text)) && NoTrailing(FixWhitespace(text))
  {
    hide NoDoubleSpace, NoTrailing;
    FixIsThreePasses(text);
    SingleSpacesEstablishes(text);
    DoubleNewlinesKeepsSpaces(SingleSpaces(text));
    CutEstablishes(DoubleNewlines(SingleSpaces(text)));
  }

  /** After the first pass, only newlines are left to collapse. */
  lemma SecondPass(text: string)
    requires NoDoubleSpace(text) && NoTrailing(text)
    ensures FixWhitespace(text) == DoubleNewlines(text)
  {
    hide NoDoubleSpace, NoTrailing;
    FixIsThreePasses(text);
    SingleSpacesFixed(text);
    DoubleNewlinesKeepsEnds(text);
    CutFixed(DoubleNewlines(text));
  }

  /** Two passes reach a clean text, and a third one changes nothing: for every text. */
  lemma TwoPassesEnough(text: string)
    ensures Clean(FixWhitespace(FixWhitespace(text)))
    ensures FixWhitespace(FixWhitespace(FixWhitespace(text))) == FixWhitespace(FixWhitespace(text))
  {
    hide NoDoubleSpace, NoTrailing, NoTripleNewline;
    var once := FixWhitespace(text);
    OnePass(text);
    SecondPass(once);
    DoubleNewlinesKeepsSpaces(once);
    DoubleNewlinesKeepsEnds(once);
    DoubleNewlinesEstablishes(once);
    CleanIsFixed(DoubleNewlines(once));
  }

  lemma CleanIsFixed(s: string)
    requires Clean(s)
    ensures FixWhitespace(s) == s
  {
    hide NoDoubleSpace, NoTrailing, NoTripleNewline;
    SecondPass(s);
    DoubleNewlinesFixed(s);
  }

  /** A text is left alone exactly when it is clean. */
  lemma FixedIffClean(s: string)
    ensures FixWhitespace(s) == s <==> Clean(s)
  {
    hide NoDoubleSpace, NoTrailing, NoTripleNewline;
    if FixWhitespace(s) == s {
      OnePass(s);
      SecondPass(s);
      DoubleNewlinesEstablishes(s);
    }
    if Clean(s) {
      CleanIsFixed(s);
    }
  }

  /** Two blank lines in a row between other lines. */
  ghost predicate BlankPair(lines: seq<string>) {
    exists k | 0 < k && k + 2 < |lines| :: Blank(lines[k]) && Blank(lines[k + 1])
  }

  lemma NewlineBreaksRStrip(l: string)
    ensures RStrip(l) == "" <==> Blank(l)
  {
    var b := RStripShape(l);
    var k := |RStrip(l)|;
    assert k > 0 ==> l[k - 1] == RStrip(l)[k - 1];
    assert k == 0 ==> l == b;
  }

  /**
   One pass is enough exactly when, before the lines are stripped, no two lines in a row that lie
   between other lines are blank.
   */
  lemma OnePassIff(text: string)
    ensures FixWhitespace(FixWhitespace(text)) == FixWhitespace(text) <==>
            !BlankPair(Lines(DoubleNewlines(SingleSpaces(text))))
  {
    hide NoDoubleSpace, NoTrailing, NoTripleNewline;
    var lines := Lines(DoubleNewlines(SingleSpaces(text)));
    var stripped := RStripAll(lines);
    OnePass(text);
    FixedIffClean(FixWhitespace(text));
    LinesAreLines(DoubleNewlines(SingleSpaces(text)));
    hide Split;
    forall k | 0 <= k < |lines| ensures IsLine(stripped[k]) && (stripped[k] == "" <==> Blank(lines[k])) {
      RStripLine(lines[k]);
      NewlineBreaksRStrip(lines[k]);
    }
    TripleIsEmptyPair(stripped);
  }

  ghost predicate EmptyPair(lines: seq<string>) {
    exists k | 0 < k && k + 2 < |lines| :: lines[k] == "" && lines[k + 1] == ""
  }

  /** Three newlines in a row are two empty lines in a row between other lines. */
  lemma {:induction false} TripleIsEmptyPair(lines: seq<string>)
    requires |lines| >= 1 && forall k | 0 <= k < |lines| :: IsLine(lines[k])
    ensures NoTripleNewline(Unlines(lines)) <==> !EmptyPair(lines)
    decreases |lines|
  {
    if |lines| == 1 {
      assert Unlines(lines) == lines[0];
    } else {
      var rest := lines[1..];
      TripleIsEmptyPair(rest);
      StartsWithTwo(rest);
      TripleAtHead(lines[0], Unlines(rest));
      assert Unlines(lines) == lines[0] + NL + Unlines(rest);
      PairTail(lines);
    }
  }

  lemma PairTail(lines: seq<string>)
    requires |lines| >= 2
    ensures EmptyPair(lines) <==>
            EmptyPair(lines[1..]) || (|lines| >= 4 && lines[1] == "" && lines[2] == "")
  {
    var rest := lines[1..];
    assert forall k | 0 <= k < |rest| :: rest[k] == lines[k + 1];
    if EmptyPair(lines) {
      var k :| 0 < k && k + 2 < |lines| && lines[k] == "" && lines[k + 1] == "";
      assert k > 1 ==> rest[k - 1] == "" && rest[k - 1 + 1] == "";
    }
    if EmptyPair(rest) {
      var k :| 0 < k && k + 2 < |rest| && rest[k] == "" && rest[k + 1] == "";
      assert lines[k + 1] == "" && lines[k + 1 + 1] == "";
    }
  }

  /** The text of some lines starts with two newlines exactly when the first two lines are empty and a third follows. */
  lemma StartsWithTwo(lines: seq<string>)
    requires |lines| >= 1 && forall k | 0 <= k < |lines| :: IsLine(lines[k])
    ensures (|Unlines(lines)| >= 2 && Unlines(lines)[0] == '\n' && Unlines(lines)[1] == '\n') <==>
            (|lines| >= 3 && lines[0] == "" && lines[1] == "")
  {
    var s := Unlines(lines);
    if |lines| >= 2 {
      assert s == lines[0] + NL + Unlines(lines[1..]);
      var t := Unlines(lines[1..]);
      assert |lines| == 2 ==> t == lines[1];
      assert |lines| > 2 ==> t == lines[1] + NL + Unlines(lines[1..][1..]);
      assert lines[0] == "" ==> s[0] == '\n' && s[1..] == t;
      assert lines[0] != "" ==> s[0] == lines[0][0];
      assert lines[1] != "" ==> t[0] == lines[1][0];
    } else {
      assert s == lines[0];
    }
  }

  lemma TripleAtHead(l: string, t: string)
    requires IsLine(l)
    ensures NoTripleNewline(l + NL + t) <==>
            NoTripleNewline(t) && !(|t| >= 2 && t[0] == '\n' && t[1] == '\n')
  {
    var s, n := l + NL + t, |l| + 1;
    HeadChars(l, t);
    if NoTripleNewline(s) {
      TailFree(s, t, n);
      assert |t| >= 2 ==> !(s[n + 1 - 2] == '\n' && s[n + 1 - 1] == '\n' && s[n + 1] == '\n');
    }
    if NoTripleNewline(t) && !(|t| >= 2 && t[0] == '\n' && t[1] == '\n') {
      WholeFree(l, s, t);
    }
  }

  lemma TailFree(s: string, t: string, n: nat)
    requires NoTripleNewline(s) && |s| == n + |t| && forall i | n <= i < |s| :: s[i] == t[i - n]
    ensures NoTripleNewline(t)
  {
    forall i | 1 < i < |t| ensures !(t[i - 2] == '\n' && t[i - 1] == '\n' && t[i] == '\n') {
      var j := n + i;
      assert s[j - 2] == t[i - 2] && s[j - 1] == t[i - 1] && s[j] == t[i];
    }
  }

  lemma WholeFree(l: string, s: string, t: string)
    requires NoTripleNewline(t) && !(|t| >= 2 && t[0] == '\n' && t[1] == '\n')
    requires |s| == |l| + 1 + |t| && (forall i | 0 <= i < |l| :: s[i] != '\n')
    requires forall i | |l| < i < |s| :: s[i] == t[i - |l| - 1]
    ensures NoTripleNewline(s)
  {
    var n := |l| + 1;
    forall i | 1 < i < |s| ensures !(s[i - 2] == '\n' && s[i - 1] == '\n' && s[i] == '\n') {
      if i >= n + 2 {
        var j := i - n;
        assert s[i - 2] == t[j - 2] && s[i - 1] == t[j - 1] && s[i] == t[j];
      }
    }
  }

  lemma HeadChars(l: string, t: string)
    requires IsLine(l)
    ensures var s, n := l + NL + t, |l| + 1;
            |s| == n + |t| && s[n - 1] == '\n'
            && (forall i | 0 <= i < |l| :: s[i] != '\n')
            && (forall i | n <= i < |s| :: s[i] == t[i - n])
  {
  }

  lemma NotEnoughFor(s: string, lines: seq<string>)
    requires Unlines(lines) == s && NoDoubleSpace(s) && NoTripleNewline(s)
    requires |lines| == 4 && forall k | 0 <= k < 4 :: IsLine(lines[k])
    requires Blank(lines[1]) && Blank(lines[1 + 1])
    ensures FixWhitespace(FixWhitespace(s)) != FixWhitespace(s)
  {
    hide NoDoubleSpace, NoTripleNewline, FixWhitespace;
    SingleSpacesFixed(s);
    DoubleNewlinesFixed(s);
    LinesUnlines(lines);
    hide Lines, Unlines, Blank;
    assert BlankPair(lines);
    OnePassIff(s);
  }

  /** One pass is not enough: stripping the lines lines up newlines that had whitespace between them. */
  lemma OnePassNotEnough()
    ensures FixWhitespace(FixWhitespace("a\n \n\nb")) != FixWhitespace("a\n \n\nb")
  {
    var s, lines := "a\n \n\nb", ["a", " ", "", "b"];
    assert Unlines(lines) == s by {
      assert lines[1..] == [" ", "", "b"] && lines[1..][1..] == ["", "b"] && ["", "b"][1..] == ["b"];
    }
    assert NoDoubleSpace(s) && NoTripleNewline(s);
    NotEnoughFor(s, lines);
  }

  // --- conservation ---

  /** The characters that are not whitespace. */
  function Solid(s: string): string {
    if s == "" then "" else (if IsSpace(s[0]) then "" else [s[0]]) + Solid(s[1..])
  }

  lemma {:induction false} SolidSkip(s: string, n: nat)
    requires n <= |s| && forall k | 0 <= k < n :: IsSpace(s[k])
    ensures Solid(s[n..]) == Solid(s)
  {
    if n > 0 {
      assert s[1..][n - 1..] == s[n..];
      SolidSkip(s[1..], n - 1);
    } else {
      assert s[0..] == s;
    }
  }

  lemma SolidPrepend(w: string, s: string)
    requires Blank(w)
    ensures Solid(w + s) == Solid(s)
  {
    assert (w + s)[|w|..] == s;
    SolidSkip(w + s, |w|);
  }

  lemma {:induction false} SolidSingleSpaces(s: string)
    ensures Solid(SingleSpaces(s)) == Solid(s)
    decreases |s|
  {
    if s != "" {
      var n := Leading(s, ' ');
      LeadingShape(s, ' ');
      if n >= 2 {
        SolidSingleSpaces(s[n..]);
        SolidPrepend(" ", SingleSpaces(s[n..]));
        SolidSkip(s, n);
      } else {
        SolidSingleSpaces(s[1..]);
        assert ([s[0]] + SingleSpaces(s[1..]))[1..] == SingleSpaces(s[1..]);
      }
    }
  }

  lemma {:induction false} SolidDoubleNewlines(s: string)
    ensures Solid(DoubleNewlines(s)) == Solid(s)
    decreases |s|
  {
    if s != "" {
      var n := Leading(s, '\n');
      LeadingShape(s, '\n');
      if n > 0 {
        SolidDoubleNewlines(s[n..]);
        SolidPrepend(if n >= 3 then "\n\n" else s[..n], DoubleNewlines(s[n..]));
        SolidSkip(s, n);
      } else {
        SolidDoubleNewlines(s[1..]);
        assert ([s[0]] + DoubleNewlines(s[1..]))[1..] == DoubleNewlines(s[1..]);
      }
    }
  }

  lemma {:induction false} SolidCut(s: string)
    ensures Solid(CutTrailing(s)) == Solid(s)
  {
    if s != "" {
      SolidCut(s[1..]);
      assert ([s[0]] + CutTrailing(s[1..]))[1..] == CutTrailing(s[1..]);
    }
  }

  /** Only whitespace is ever removed; everything else is preserved, in order. */
  lemma FixKeepsSolid(text: string)
    ensures Solid(FixWhitespace(text)) == Solid(text)
  {
    FixIsThreePasses(text);
    SolidSingleSpaces(text);
    SolidDoubleNewlines(SingleSpaces(text));
    SolidCut(DoubleNewlines(SingleSpaces(text)));
  }

  // --- what the two substitutions take out, character by character ---

  /** How many `c` stand directly before place `i`. */
  function RunBefore(s: string, c: char, i: nat): nat
    requires i <= |s|
  {
    if i == 0 || s[i - 1] != c then 0 else RunBefore(s, c, i - 1) + 1
  }

  /** What is left of `s[i..]` without the `c` that have at least `most` of their kind directly before them. */
  function Thinned(s: string, c: char, most: nat, i: nat): string
    requires i <= |s|
    decreases |s| - i
  {
    if i == |s| then ""
    else (if s[i] == c && RunBefore(s, c, i) >= most then "" else [s[i]]) + Thinned(s, c, most, i + 1)
  }

  /** The same from left to right; `before` many `c` stand directly before `s`. */
  function Thin(s: string, c: char, most: nat, before: nat): string
    decreases |s|
  {
    if s == "" then ""
    else (if s[0] == c && before >= most then "" else [s[0]])
         + Thin(s[1..], c, most, if s[0] == c then before + 1 else 0)
  }

  lemma {:induction false} ThinIsThinned(s: string, c: char, most: nat, i: nat)
    requires i <= |s|
    ensures Thin(s[i..], c, most, RunBefore(s, c, i)) == Thinned(s, c, most, i)
    decreases |s| - i
  {
    if i < |s| {
      ThinIsThinned(s, c, most, i + 1);
      assert s[i..][1..] == s[i + 1..];
    }
  }

  /** Past `most`, a whole run goes. */
  lemma {:induction false} ThinDropsRun(s: string, c: char, most: nat, before: nat)
    requires before >= most || Leading(s, c) == 0
    ensures Thin(s, c, most, before) == Thin(s[Leading(s, c)..], c, most, 0)
    decreases |s|
  {
    if s != "" && s[0] == c {
      ThinDropsRun(s[1..], c, most, before + 1);
      assert s[1..][Leading(s[1..], c)..] == s[Leading(s, c)..];
    } else {
      assert s[0..] == s;
    }
  }

  lemma {:induction false} SingleSpacesThin(s: string)
    ensures SingleSpaces(s) == Thin(s, ' ', 1, 0)
    decreases |s|
  {
    if s != "" {
      var n := Leading(s, ' ');
      if s[0] == ' ' {
        ThinDropsRun(s[1..], ' ', 1, 1);
        assert s[1..][Leading(s[1..], ' ')..] == s[n..];
        SingleSpacesThin(s[n..]);
      } else {
        SingleSpacesThin(s[1..]);
      }
    }
  }

  lemma {:induction false} DoubleNewlinesThin(s: string)
    ensures DoubleNewlines(s) == Thin(s, '\n', 2, 0)
    decreases |s|
  {
    if s != "" {
      var n := Leading(s, '\n');
      if n == 0 {
        DoubleNewlinesThin(s[1..]);
      } else {
        DoubleNewlinesThin(s[n..]);
        if n == 1 {
          ThinDropsRun(s[1..], '\n', 2, 1);
          assert s[1..][0..] == s[1..] && s[..1] == "\n";
        } else {
          ThinTwo(s, n);
          assert n == 2 ==> s[..2] == "\n\n";
        }
      }
    }
  }

  lemma LeadingNext(s: string, c: char)
    requires Leading(s, c) > 0
    ensures s != "" && s[0] == c && Leading(s[1..], c) == Leading(s, c) - 1
  {
  }

  lemma ThinKeeps(s: string, c: char, most: nat, before: nat)
    requires s != "" && s[0] == c && before < most
    ensures Thin(s, c, most, before) == [c] + Thin(s[1..], c, most, before + 1)
  {
  }

  lemma ThinTwo(s: string, n: nat)
    requires n == Leading(s, '\n') && n >= 2
    ensures Thin(s, '\n', 2, 0) == "\n\n" + Thin(s[n..], '\n', 2, 0)
  {
    hide Thin, Leading;
    var u := s[1..];
    LeadingNext(s, '\n');
    LeadingNext(u, '\n');
    ThinKeeps(s, '\n', 2, 0);
    ThinKeeps(u, '\n', 2, 1);
    ThinDropsRun(u[1..], '\n', 2, 2);
    assert u[1..][n - 2..] == s[n..];
    Assoc("\n", "\n", Thin(s[n..], '\n', 2, 0));
  }

  /** Collapsing spaces takes out exactly the spaces that directly follow a space. */
  lemma SingleSpacesIs(s: string)
    ensures SingleSpaces(s) == Thinned(s, ' ', 1, 0)
  {
    SingleSpacesThin(s);
    ThinIsThinned(s, ' ', 1, 0);
    assert s[0..] == s;
  }

  /** Collapsing newlines takes out exactly those that directly follow two: a paragraph break survives as such. */
  lemma DoubleNewlinesIs(s: string)
    ensures DoubleNewlines(s) == Thinned(s, '\n', 2, 0)
  {
    DoubleNewlinesThin(s);
    ThinIsThinned(s, '\n', 2, 0);
    assert s[0..] == s;
  }

  // --- composition with letter spacing ---

  function CollapseThenFix(text: string, beyond: char -> bool): string {
    FixWhitespace(LetterSpacing.CollapseLetterSpacing(text, beyond))
  }

  // Every step only shortens, so a text that comes back unchanged passed every step unchanged.

  lemma {:induction false} SingleSpacesShorter(s: string)
    ensures |SingleSpaces(s)| <= |s|
    decreases |s|
  {
    if s != "" {
      var n := Leading(s, ' ');
      SingleSpacesShorter(s[if n >= 2 then n else 1..]);
    }
  }

  lemma {:induction false} DoubleNewlinesShorter(s: string)
    ensures |DoubleNewlines(s)| <= |s|
    decreases |s|
  {
    if s != "" {
      var n := Leading(s, '\n');
      DoubleNewlinesShorter(s[if n > 0 then n else 1..]);
    }
  }

  lemma {:induction false} CutShorter(s: string)
    ensures |CutTrailing(s)| <= |s|
  {
    if s != "" {
      CutShorter(s[1..]);
    }
  }

  lemma FixShorter(text: string)
    ensures |FixWhitespace(text)| <= |text|
  {
    FixIsThreePasses(text);
    SingleSpacesShorter(text);
    DoubleNewlinesShorter(SingleSpaces(text));
    CutShorter(DoubleNewlines(SingleSpaces(text)));
  }

  /** No space of the text lies inside a run of standalone letters that the scan would close up. */
  predicate NoLooseRun(s: string, beyond: char -> bool) {
    forall p: nat | p < |s| :: !LetterSpacing.Dropped(s, beyond, p)
  }

  lemma {:induction false} KeptShorter(s: string, beyond: char -> bool, i: nat)
    requires i <= |s|
    ensures |LetterSpacing.Kept(s, beyond, i)| <= |s| - i
    ensures |LetterSpacing.Kept(s, beyond, i)| == |s| - i ==>
              forall p: nat | i <= p < |s| :: !LetterSpacing.Dropped(s, beyond, p)
    decreases |s| - i
  {
    hide LetterSpacing.Dropped;
    if i < |s| {
      KeptShorter(s, beyond, i + 1);
    }
  }

  lemma CollapseFixedIff(s: string, beyond: char -> bool)
    ensures |LetterSpacing.CollapseLetterSpacing(s, beyond)| <= |s|
    ensures |LetterSpacing.CollapseLetterSpacing(s, beyond)| == |s| <==> NoLooseRun(s, beyond)
    ensures NoLooseRun(s, beyond) ==> LetterSpacing.CollapseLetterSpacing(s, beyond) == s
  {
    hide LetterSpacing.Dropped;
    LetterSpacing.CollapseIsKept(s, beyond);
    KeptShorter(s, beyond, 0);
    if NoLooseRun(s, beyond) {
      KeptAll(s, beyond, 0);
      assert s[0..] == s;
    }
  }

  /** The composition leaves a text alone exactly when it is clean and has no loose run of letters. */
  lemma CompositionFixedIff(s: string, beyond: char -> bool)
    ensures CollapseThenFix(s, beyond) == s <==> Clean(s) && NoLooseRun(s, beyond)
  {
    hide Clean, NoLooseRun, FixWhitespace, LetterSpacing.CollapseLetterSpacing;
    CollapseFixedIff(s, beyond);
    FixShorter(LetterSpacing.CollapseLetterSpacing(s, beyond));
    FixedIffClean(s);
  }

  // --- stripping line ends and newlines neither makes nor breaks a loose run ---

  /** The scan of `collapse_letter_spacing` finds a run to close up. */
  predicate HasRun(inWord: bool, s: string, beyond: char -> bool)
    decreases |s|
  {
    s != ""
    && ((!inWord && LetterSpacing.Run(s, beyond) >= 4) || HasRun(IsWord(s[0], beyond), s[1..], beyond))
  }

  lemma {:induction false} LettersShorter(s: string, n: nat)
    requires n > 0 ==> 2 * n - 1 <= |s|
    ensures |LetterSpacing.Letters(s, n)| == n
  {
    if n > 1 {
      LettersShorter(s[2..], n - 1);
    }
  }

  lemma {:induction false} CollapseShorterIff(inWord: bool, s: string, beyond: char -> bool)
    ensures |LetterSpacing.Collapse(inWord, s, beyond)| <= |s|
    ensures |LetterSpacing.Collapse(inWord, s, beyond)| < |s| <==> HasRun(inWord, s, beyond)
    decreases |s|
  {
    if s != "" {
      var n := LetterSpacing.Run(s, beyond);
      LetterSpacing.RunLength(s, beyond);
      if !inWord && n >= 4 {
        LettersShorter(s, n);
        CollapseShorterIff(true, s[2 * n - 1..], beyond);
      } else {
        CollapseShorterIff(IsWord(s[0], beyond), s[1..], beyond);
      }
    }
  }

  lemma LooseIsRun(s: string, beyond: char -> bool)
    ensures NoLooseRun(s, beyond) <==> !HasRun(false, s, beyond)
  {
    hide NoLooseRun, HasRun;
    CollapseFixedIff(s, beyond);
    CollapseShorterIff(false, s, beyond);
  }

  lemma {:induction false} RunAfterCut(s: string, beyond: char -> bool)
    ensures LetterSpacing.Run(CutTrailing(s), beyond) == LetterSpacing.Run(s, beyond)
    decreases |s|
  {
    if |s| >= 2 {
      assert CutTrailing(s[1..]) == if Inner(s[1]) && (CutTrailing(s[2..]) == "" || CutTrailing(s[2..])[0] == '\n')
        then CutTrailing(s[2..]) else [s[1]] + CutTrailing(s[2..]) by {
        assert s[1..][1..] == s[2..];
      }
      RunAfterCut(s[2..], beyond);
      if IsLetter(s[0]) {
        var r := CutTrailing(s[1..]);
        assert CutTrailing(s) == [s[0]] + r;
        assert r != "" ==> CutTrailing(s)[1] == r[0];
        assert r != "" ==> CutTrailing(s)[2..] == r[1..];
      }
    }
  }

  lemma {:induction false} HasRunAfterCut(inWord: bool, s: string, beyond: char -> bool)
    ensures HasRun(inWord, CutTrailing(s), beyond) <==> HasRun(inWord, s, beyond)
    decreases |s|
  {
    if s != "" {
      var r := CutTrailing(s[1..]);
      RunAfterCut(s, beyond);
      HasRunAfterCut(IsWord(s[0], beyond), s[1..], beyond);
      if Inner(s[0]) && (r == "" || r[0] == '\n') {
        assert LetterSpacing.Run(s, beyond) == 0 && !IsWord(s[0], beyond);
      } else {
        assert ([s[0]] + r)[1..] == r;
      }
    }
  }

  lemma {:induction false} RunAfterDouble(s: string, beyond: char -> bool)
    ensures LetterSpacing.Run(DoubleNewlines(s), beyond) == LetterSpacing.Run(s, beyond)
    decreases |s|
  {
    FirstAfterDouble(s);
    if |s| >= 2 && IsLetter(s[0]) {
      FirstAfterDouble(s[1..]);
      assert Leading(s, '\n') == 0;
      assert DoubleNewlines(s) == [s[0]] + DoubleNewlines(s[1..]);
      if s[1] == ' ' {
        assert Leading(s[1..], '\n') == 0 && s[1..][1..] == s[2..];
        assert DoubleNewlines(s)[2..] == DoubleNewlines(s[2..]);
        RunAfterDouble(s[2..], beyond);
      }
    }
  }

  lemma FirstAfterDouble(s: string)
    ensures DoubleNewlines(s) == "" <==> s == ""
    ensures s != "" ==> DoubleNewlines(s)[0] == s[0]
  {
    LeadingShape(s, '\n');
  }

  lemma {:induction false} HasRunPastNewlines(inWord: bool, n: nat, t: string, beyond: char -> bool)
    ensures HasRun(inWord, seq(n, _ => '\n') + t, beyond) <==> HasRun(if n > 0 then false else inWord, t, beyond)
    decreases n
  {
    var s := seq(n, _ => '\n') + t;
    if n == 0 {
      assert s == t;
    } else {
      assert s[0] == '\n' && s[1..] == seq(n - 1, _ => '\n') + t;
      HasRunPastNewlines(false, n - 1, t, beyond);
    }
  }

  lemma {:induction false} HasRunAfterDouble(inWord: bool, s: string, beyond: char -> bool)
    ensures HasRun(inWord, DoubleNewlines(s), beyond) <==> HasRun(inWord, s, beyond)
    decreases |s|
  {
    if s != "" {
      var n := Leading(s, '\n');
      if n == 0 {
        RunAfterDouble(s, beyond);
        HasRunAfterDouble(IsWord(s[0], beyond), s[1..], beyond);
        assert DoubleNewlines(s)[1..] == DoubleNewlines(s[1..]);
      } else {
        var m := if n >= 3 then 2 else n;
        LeadingShape(s, '\n');
        HasRunAfterDouble(false, s[n..], beyond);
        assert s == seq(n, _ => '\n') + s[n..];
        assert DoubleNewlines(s) == seq(m, _ => '\n') + DoubleNewlines(s[n..]);
        HasRunPastNewlines(inWord, n, s[n..], beyond);
        HasRunPastNewlines(inWord, m, DoubleNewlines(s[n..]), beyond);
      }
    }
  }

  lemma LooseRunAfterFix(text: string, beyond: char -> bool)
    ensures NoLooseRun(FixWhitespace(text), beyond) <==> NoLooseRun(SingleSpaces(text), beyond)
  {
    hide NoLooseRun, HasRun, FixWhitespace;
    FixIsThreePasses(text);
    LooseIsRun(FixWhitespace(text), beyond);
    LooseIsRun(SingleSpaces(text), beyond);
    HasRunAfterDouble(false, SingleSpaces(text), beyond);
    HasRunAfterCut(false, DoubleNewlines(SingleSpaces(text)), beyond);
  }

  /**
   A second application changes nothing if and only if, once letters are collapsed and spaces are single, no two
   neighbouring inner lines are blank and no loose run of letters has appeared.
   */
  lemma CompositionIdempotentIff(text: string, beyond: char -> bool)
    ensures var single := SingleSpaces(LetterSpacing.CollapseLetterSpacing(text, beyond));
            var once := CollapseThenFix(text, beyond);
            CollapseThenFix(once, beyond) == once
            <==> !BlankPair(Lines(DoubleNewlines(single))) && NoLooseRun(single, beyond)
  {
    hide Clean, NoLooseRun, FixWhitespace, BlankPair, LetterSpacing.CollapseLetterSpacing;
    var collapsed := LetterSpacing.CollapseLetterSpacing(text, beyond);
    CompositionFixedIff(FixWhitespace(collapsed), beyond);
    OnePassIff(collapsed);
    FixedIffClean(FixWhitespace(collapsed));
    LooseRunAfterFix(collapsed, beyond);
  }

  /** Collapsing letters and then whitespace is not idempotent: the second step can finish a run of letters. */
  lemma CompositionNotIdempotent(beyond: char -> bool)
    ensures CollapseThenFix("a  b c d", beyond) == "a b c d"
    ensures CollapseThenFix("a b c d", beyond) == "abcd"
  {
    hide FixWhitespace, LetterSpacing.CollapseLetterSpacing;
    LooseLetters(beyond);
    FourLetters(beyond);
    FixTwoSpaces();
    FixOneWord();
  }

  lemma FixOneWord()
    ensures FixWhitespace("abcd") == "abcd"
  {
    assert Clean("abcd");
    CleanIsFixed("abcd");
  }

  lemma TwoSpacesToOne()
    ensures SingleSpaces("a  b c d") == "a b c d"
  {
    var s, rest := "a  b c d", "b c d";
    var u := s[1..];
    assert u == "  " + rest && u[1..] == " " + rest && u[1..][1..] == rest;
    assert Leading(rest, ' ') == 0 && Leading(u[1..], ' ') == 1 && Leading(u, ' ') == 2;
    assert u[2..] == rest;
    assert NoDoubleSpace(rest);
    SingleSpacesFixed(rest);
    assert SingleSpaces(u) == " " + rest;
    assert Leading(s, ' ') == 0;
  }

  lemma FixTwoSpaces()
    ensures FixWhitespace("a  b c d") == "a b c d"
  {
    hide Unlines, Lines;
    FixIsThreePasses("a  b c d");
    TwoSpacesToOne();
    hide SingleSpaces, CutTrailing, DoubleNewlines;
    assert Clean("a b c d");
    DoubleNewlinesFixed("a b c d");
    CutFixed("a b c d");
  }

  lemma FourLetters(beyond: char -> bool)
    ensures LetterSpacing.CollapseLetterSpacing("a b c d", beyond) == "abcd"
  {
    var s := "a b c d";
    assert s[2..] == "b c d" && s[2..][2..] == "c d" && s[2..][2..][2..] == "d";
    assert LetterSpacing.Run("d", beyond) == 1 && LetterSpacing.Run("c d", beyond) == 2 by {
      assert "c d"[2..] == "d";
    }
    assert LetterSpacing.Run("b c d", beyond) == 3 by { assert "b c d"[2..] == "c d"; }
    assert LetterSpacing.Run(s, beyond) == 4;
    assert LetterSpacing.Letters("d", 1) == "d";
    assert LetterSpacing.Letters("c d", 2) == "cd" by { assert "c d"[2..] == "d"; }
    assert LetterSpacing.Letters("b c d", 3) == "bcd" by { assert "b c d"[2..] == "c d"; }
    assert LetterSpacing.Letters(s, 4) == "abcd";
    assert s[7..] == "";
  }

  lemma LooseLetters(beyond: char -> bool)
    ensures LetterSpacing.CollapseLetterSpacing("a  b c d", beyond) == "a  b c d"
  {
    var s := "a  b c d";
    LetterSpacing.CollapseIsKept(s, beyond);
    forall p: nat | p < |s| ensures !LetterSpacing.Dropped(s, beyond, p) {
      forall a: int ensures !LetterSpacing.Window(s, beyond, a) {
        assert LetterSpacing.Window(s, beyond, a) ==> 0 <= a <= 1;
      }
    }
    hide LetterSpacing.Dropped;
    KeptAll(s, beyond, 0);
    assert s[0..] == s;
  }

  lemma {:induction false} KeptAll(s: string, beyond: char -> bool, i: nat)
    requires i <= |s| && forall p: nat | i <= p < |s| :: !LetterSpacing.Dropped(s, beyond, p)
    ensures LetterSpacing.Kept(s, beyond, i) == s[i..]
    decreases |s| - i
  {
    hide LetterSpacing.Dropped;
    if i < |s| {
      KeptAll(s, beyond, i + 1);
      assert [s[i]] + s[i + 1..] == s[i..];
    }
  }
}
