/**
 Splitting the document into sections at the headings that the outline knows
 (src/services/pipeline_viewer.py, `_build_section_map`).
 */
module SectionMap {
  import opened Text
  import opened Fuzzy
  import opened Headings

  const SECTION_MAP_MATCH_THRESHOLD: real := 0.6

  datatype SectionEntry = SectionEntry(
    index: nat,
    headingText: string,
    headingLevel: nat,
    pages: seq<nat>,
    markdown: string,
    outlinePosition: int)

  /** A heading of the document and the outline entry it was matched to. */
  datatype Matched = Matched(line: nat, heading: Heading, outline: nat)

  // ---------------------------------------------------------------------------
  // The lines of the document and the pages that own them
  // ---------------------------------------------------------------------------

  function PageLines(pages: map<nat, string>, page: nat): (ls: seq<string>)
    ensures |ls| >= 1
  {
    Lines(PageText(pages, page))
  }

  /** The lines of pages `1..n` of a document with `total` pages; a blank line follows every page but the last. */
  function AllLines(pages: map<nat, string>, total: nat, n: nat): seq<string> {
    if n == 0 then []
    else AllLines(pages, total, n - 1) + PageLines(pages, n) + (if n < total then [""] else [])
  }

  /** The first line of every page. */
  function Starts(pages: map<nat, string>, total: nat, n: nat): (s: seq<nat>)
    ensures |s| == n
  {
    if n == 0 then [] else Starts(pages, total, n - 1) + [|AllLines(pages, total, n - 1)|]
  }

  method CollectLines(pages: map<nat, string>, total: nat) returns (lines: seq<string>, starts: seq<nat>)
    ensures lines == AllLines(pages, total, total) && starts == Starts(pages, total, total)
  {
    hide Lines, PageText;
    lines, starts := [], [];
    var page := 1;
    while page <= total
      invariant 1 <= page <= total + 1
      invariant lines == AllLines(pages, total, page - 1) && starts == Starts(pages, total, page - 1)
    {
      starts := starts + [|lines|];
      lines := lines + PageLines(pages, page);
      if page < total {
        lines := lines + [""];
      }
      page := page + 1;
    }
  }

  /** `_line_to_page`: the last page that starts at or before the line. */
  function PageOf(starts: seq<nat>, line: nat): nat {
    PageFrom(starts, line, 0, 1)
  }

  function PageFrom(starts: seq<nat>, line: nat, k: nat, page: nat): nat
    requires k <= |starts|
    decreases |starts| - k
  {
    if k == |starts| || starts[k] > line then page else PageFrom(starts, line, k + 1, k + 1)
  }

  method LineToPage(starts: seq<nat>, line: nat) returns (page: nat)
    ensures page == PageOf(starts, line)
  {
    page := 1;
    var k := 0;
    while k < |starts|
      invariant 0 <= k <= |starts| && PageFrom(starts, line, k, page) == PageOf(starts, line)
    {
      if starts[k] <= line {
        page := k + 1;
      } else {
        break;
      }
      k := k + 1;
    }
  }

  /** Line `line` of the document belongs to page `p`: it is one of its lines or the blank one after it. */
  ghost predicate Owns(starts: seq<nat>, p: nat, line: nat) {
    1 <= p <= |starts| && starts[p - 1] <= line && (p < |starts| ==> line < starts[p])
  }

  ghost predicate Increasing(s: seq<nat>) {
    forall j, k | 0 <= j < k < |s| :: s[j] < s[k]
  }

  lemma {:induction false} StartsIncrease(pages: map<nat, string>, total: nat, n: nat)
    requires n <= total
    ensures Increasing(Starts(pages, total, n))
    ensures n > 0 ==> Starts(pages, total, n)[0] == 0
    ensures forall k | 0 <= k < n :: Starts(pages, total, n)[k] < |AllLines(pages, total, n)|
  {
    hide Lines, PageText;
    if n > 0 {
      StartsIncrease(pages, total, n - 1);
    }
  }

  lemma {:induction false} PageFromIs(starts: seq<nat>, line: nat, k: nat)
    requires Increasing(starts) && 1 <= k <= |starts| && starts[k - 1] <= line
    ensures Owns(starts, PageFrom(starts, line, k, k), line)
    decreases |starts| - k
  {
    if k < |starts| && starts[k] <= line {
      PageFromIs(starts, line, k + 1);
    }
  }

  lemma AtMost(s: seq<nat>, j: nat, k: nat)
    requires Increasing(s) && j <= k < |s|
    ensures s[j] <= s[k]
  {
  }

  /** Every line has exactly one page, and `_line_to_page` finds it. */
  lemma LineHasOnePage(starts: seq<nat>, line: nat, p: nat)
    requires Increasing(starts) && |starts| > 0 && starts[0] == 0
    ensures Owns(starts, p, line) <==> p == PageOf(starts, line)
  {
    PageFromIs(starts, line, 1);
    var q := PageOf(starts, line);
    if 1 <= p < q {
      AtMost(starts, p, q - 1);
    } else if q < p <= |starts| {
      AtMost(starts, q, p - 1);
    }
  }

  lemma PageOfMonotone(starts: seq<nat>, line: nat, later: nat)
    requires Increasing(starts) && |starts| > 0 && starts[0] == 0 && line <= later
    ensures 1 <= PageOf(starts, line) <= PageOf(starts, later) <= |starts|
  {
    LineHasOnePage(starts, line, PageOf(starts, line));
    LineHasOnePage(starts, later, PageOf(starts, later));
  }

  /** The lines a page owns are its own ones, in order. */
  lemma {:induction false} OwnedLine(pages: map<nat, string>, total: nat, n: nat, p: nat, k: nat)
    requires 1 <= p <= n <= total && k < |PageLines(pages, p)|
    ensures Starts(pages, total, n)[p - 1] + k < |AllLines(pages, total, n)|
    ensures AllLines(pages, total, n)[Starts(pages, total, n)[p - 1] + k] == PageLines(pages, p)[k]
    ensures p < n ==> Starts(pages, total, n)[p] == Starts(pages, total, n)[p - 1] + |PageLines(pages, p)| + 1
  {
    hide Lines, PageText;
    if p < n {
      OwnedLine(pages, total, n - 1, p, k);
    }
  }

  /** The texts of pages `1..n`, those that are missing being empty. */
  function Texts(pages: map<nat, string>, n: nat): seq<string> {
    seq(n, k requires 0 <= k < n => PageText(pages, k + 1))
  }

  /** The lines are those of the pages joined by blank lines. */
  lemma {:induction false} LinesOfWhole(pages: map<nat, string>, total: nat, n: nat)
    requires 1 <= n <= total
    ensures var lines := AllLines(pages, total, n);
            lines != [] && Unlines(lines) == Join(Texts(pages, n), "\n\n") + (if n < total then "\n" else "")
    decreases n
  {
    hide Lines, Join, PageText;
    var before, own := AllLines(pages, total, n - 1), PageLines(pages, n);
    OwnLines(pages, n);
    var sofar := Join(Texts(pages, n), "\n\n");
    if n == 1 {
      assert before + own == own;
      OneText(pages);
    } else {
      LinesOfWhole(pages, total, n - 1);
      UnlinesConcat(before, own);
      NextText(pages, n);
      SeparatorsAdd(Join(Texts(pages, n - 1), "\n\n"), PageText(pages, n));
    }
    if n < total {
      UnlinesConcat(before + own, [""]);
      UnlinesEmpty();
    } else {
      assert before + own + [] == before + own;
    }
  }

  lemma SeparatorsAdd(a: string, b: string)
    ensures a + "\n" + "\n" + b == a + "\n\n" + b
  {
    assert a + "\n" + "\n" == a + "\n\n";
  }

  lemma UnlinesEmpty()
    ensures Unlines([""]) == ""
  {
  }

  lemma OwnLines(pages: map<nat, string>, page: nat)
    ensures Unlines(PageLines(pages, page)) == PageText(pages, page)
  {
    JoinSplit(PageText(pages, page), NL);
  }

  lemma OneText(pages: map<nat, string>)
    ensures Join(Texts(pages, 1), "\n\n") == PageText(pages, 1)
  {
    assert Texts(pages, 1) == [PageText(pages, 1)];
  }

  lemma NextText(pages: map<nat, string>, n: nat)
    requires n >= 2
    ensures Join(Texts(pages, n), "\n\n") == Join(Texts(pages, n - 1), "\n\n") + "\n\n" + PageText(pages, n)
  {
    assert Texts(pages, n) == Texts(pages, n - 1) + [PageText(pages, n)];
    JoinSnoc(Texts(pages, n - 1), PageText(pages, n), "\n\n");
  }

  lemma {:induction false} JoinSnoc(parts: seq<string>, last: string, sep: string)
    requires parts != []
    ensures Join(parts + [last], sep) == Join(parts, sep) + sep + last
  {
    if |parts| == 1 {
      assert parts + [last] == [parts[0], last];
      assert [parts[0], last][1..] == [last];
    } else {
      assert (parts + [last])[1..] == parts[1..] + [last];
      JoinSnoc(parts[1..], last, sep);
      assert parts[0] + sep + (Join(parts[1..], sep) + sep + last)
          == parts[0] + sep + Join(parts[1..], sep) + sep + last;
    }
  }

  // ---------------------------------------------------------------------------
  // Matching headings to the outline
  // ---------------------------------------------------------------------------

  /** Scores of the outline entries that are still free. */
  function FreeScores(ratio: Ratio, outline: seq<OutlineEntry>, used: set<nat>, text: string): seq<Option<real>> {
    seq(|outline|, k requires 0 <= k < |outline| =>
      if k in used then None else Some(ratio(text, outline[k].text)))
  }

  method BestFree(ratio: Ratio, outline: seq<OutlineEntry>, used: set<nat>, text: string)
    returns (best: int, bestRatio: real)
    ensures (best, bestRatio) == Best(FreeScores(ratio, outline, used, text))
    ensures -1 <= best < |outline|
  {
    best, bestRatio := -1, 0.0;
    ghost var scores := FreeScores(ratio, outline, used, text);
    var k := 0;
    while k < |outline|
      invariant 0 <= k <= |outline| && -1 <= best < |outline|
      invariant (best, bestRatio) == Best(scores[..k])
    {
      assert scores[..k + 1][..k] == scores[..k];
      if k !in used {
        var r := ratio(text, outline[k].text);
        if r > bestRatio {
          best, bestRatio := k, r;
        }
      }
      k := k + 1;
    }
    assert scores[..|outline|] == scores;
  }

  function UsedBy(ms: seq<Matched>): set<nat> {
    set m | m in ms :: m.outline
  }

  /** The headings among the first `n` lines that found a free outline entry, in order. */
  function MatchHeadings(ratio: Ratio, outline: seq<OutlineEntry>, lines: seq<string>, n: nat): seq<Matched>
    requires n <= |lines|
  {
    if n == 0 then []
    else
      var before := MatchHeadings(ratio, outline, lines, n - 1);
      match ParseHeading(lines[n - 1])
      case None => before
      case Some(h) =>
        var b := Best(FreeScores(ratio, outline, UsedBy(before), h.text));
        if b.0 >= 0 && b.1 >= SECTION_MAP_MATCH_THRESHOLD then before + [Matched(n - 1, h, b.0)] else before
  }

  method MatchOutline(ratio: Ratio, outline: seq<OutlineEntry>, lines: seq<string>) returns (ms: seq<Matched>)
    ensures ms == MatchHeadings(ratio, outline, lines, |lines|)
  {
    hide Strip, FreeScores;
    ms := [];
    var used: set<nat> := {};
    var n := 0;
    while n < |lines|
      invariant 0 <= n <= |lines|
      invariant ms == MatchHeadings(ratio, outline, lines, n) && used == UsedBy(ms)
    {
      var parsed := ParseHeading(lines[n]);
      if parsed.Some? {
        var best, bestRatio := BestFree(ratio, outline, used, parsed.value.text);
        if best >= 0 && bestRatio >= SECTION_MAP_MATCH_THRESHOLD {
          UsedBySnoc(ms, Matched(n, parsed.value, best));
          used := used + {best};
          ms := ms + [Matched(n, parsed.value, best)];
        }
      }
      n := n + 1;
    }
  }

  lemma UsedBySnoc(ms: seq<Matched>, m: Matched)
    ensures UsedBy(ms + [m]) == UsedBy(ms) + {m.outline}
  {
    assert forall x :: x in ms + [m] <==> x in ms || x == m;
  }

  /** Matched headings follow one another in a document of `count` lines. */
  ghost predicate Ordered(ms: seq<Matched>, count: nat) {
    && (forall k | 0 <= k < |ms| :: ms[k].line < count)
    && (forall j, k | 0 <= j < k < |ms| :: ms[j].line < ms[k].line)
  }

  /** A matched heading is the heading on its line and is similar enough to its outline entry. */
  ghost predicate IsMatch(ratio: Ratio, outline: seq<OutlineEntry>, lines: seq<string>, m: Matched) {
    && m.line < |lines| && ParseHeading(lines[m.line]) == Some(m.heading)
    && m.outline < |outline| && ratio(m.heading.text, outline[m.outline].text) >= SECTION_MAP_MATCH_THRESHOLD
  }

  lemma BestIsFree(ratio: Ratio, outline: seq<OutlineEntry>, used: set<nat>, text: string)
    ensures var b := Best(FreeScores(ratio, outline, used, text));
            && -1 <= b.0 < |outline|
            && (b.0 >= 0 ==> b.0 !in used && b.1 == ratio(text, outline[b.0].text))
  {
    BestIsBest(FreeScores(ratio, outline, used, text));
  }

  /** Headings are matched in document order, and no outline entry is used twice. */
  lemma {:induction false} MatchesDistinct(ratio: Ratio, outline: seq<OutlineEntry>, lines: seq<string>, n: nat)
    requires n <= |lines|
    ensures Ordered(MatchHeadings(ratio, outline, lines, n), n)
    ensures var ms := MatchHeadings(ratio, outline, lines, n);
            && (forall k | 0 <= k < |ms| :: IsMatch(ratio, outline, lines, ms[k]))
            && (forall j, k | 0 <= j < k < |ms| :: ms[j].outline != ms[k].outline)
  {
    hide Strip, FreeScores, ParseHeading, Best;
    if n > 0 {
      MatchesDistinct(ratio, outline, lines, n - 1);
      var before := MatchHeadings(ratio, outline, lines, n - 1);
      var ms := MatchHeadings(ratio, outline, lines, n);
      if ms != before {
        var h := ParseHeading(lines[n - 1]).value;
        BestIsFree(ratio, outline, UsedBy(before), h.text);
        var m := Matched(n - 1, h, Best(FreeScores(ratio, outline, UsedBy(before), h.text)).0);
        assert ms == before + [m] && IsMatch(ratio, outline, lines, m);
        forall k | 0 <= k < |before| ensures before[k].outline in UsedBy(before) {
          assert before[k] in before;
        }
      }
    }
  }

  /** The outline entries taken by headings above line `n`. */
  ghost function TakenAbove(ms: seq<Matched>, n: nat): set<nat> {
    set m | m in ms && m.line < n :: m.outline
  }

  /** Outline entry `k` is the first of the most similar ones that are free, at a similarity of at least 0.6. */
  ghost predicate TakesBest(ratio: Ratio, outline: seq<OutlineEntry>, taken: set<nat>, text: string, k: nat) {
    k < |outline| && k !in taken && ratio(text, outline[k].text) >= 0.6
    && (forall j | 0 <= j < |outline| && j !in taken :: ratio(text, outline[j].text) <= ratio(text, outline[k].text))
    && (forall j | 0 <= j < k && j !in taken :: ratio(text, outline[j].text) < ratio(text, outline[k].text))
  }

  ghost predicate NoneFree(ratio: Ratio, outline: seq<OutlineEntry>, taken: set<nat>, text: string) {
    forall j | 0 <= j < |outline| && j !in taken :: ratio(text, outline[j].text) < 0.6
  }

  lemma BestDecides(ratio: Ratio, outline: seq<OutlineEntry>, used: set<nat>, text: string)
    ensures var b := Best(FreeScores(ratio, outline, used, text));
            if b.0 >= 0 && b.1 >= SECTION_MAP_MATCH_THRESHOLD then TakesBest(ratio, outline, used, text, b.0)
            else NoneFree(ratio, outline, used, text)
  {
    var scores := FreeScores(ratio, outline, used, text);
    BestIsBest(scores);
    assert forall j | 0 <= j < |outline| && j !in used :: scores[j] == Some(ratio(text, outline[j].text));
  }

  /** A heading at line `i` has the best entry that is free there, or there is none. */
  ghost predicate Settles(ratio: Ratio, outline: seq<OutlineEntry>, lines: seq<string>, ms: seq<Matched>, i: nat)
    requires i < |lines| && ParseHeading(lines[i]).Some?
  {
    var h := ParseHeading(lines[i]).value;
    if exists m :: m in ms && m.line == i
    then forall m | m in ms && m.line == i ::
           m.heading == h && TakesBest(ratio, outline, TakenAbove(ms, i), h.text, m.outline)
    else NoneFree(ratio, outline, TakenAbove(ms, i), h.text)
  }

  /**
   The matching is complete: every heading of the document takes the best outline entry not taken above it, and
   stays unmatched only when no free entry is similar enough.
   */
  lemma {:induction false} MatchesComplete(ratio: Ratio, outline: seq<OutlineEntry>, lines: seq<string>, n: nat)
    requires n <= |lines|
    ensures var ms := MatchHeadings(ratio, outline, lines, n);
            forall i | 0 <= i < n && ParseHeading(lines[i]).Some? :: Settles(ratio, outline, lines, ms, i)
    decreases n
  {
    hide Strip, FreeScores, ParseHeading, Best, TakesBest, NoneFree, Settles;
    if n > 0 {
      var before, ms := MatchHeadings(ratio, outline, lines, n - 1), MatchHeadings(ratio, outline, lines, n);
      MatchesComplete(ratio, outline, lines, n - 1);
      MatchesDistinct(ratio, outline, lines, n - 1);
      forall i | 0 <= i < n && ParseHeading(lines[i]).Some?
        ensures Settles(ratio, outline, lines, ms, i)
      {
        if i < n - 1 {
          if ms != before {
            SettlesStill(ratio, outline, lines, before, ms[|ms| - 1], i);
          }
        } else {
          var h := ParseHeading(lines[i]).value;
          BestDecides(ratio, outline, UsedBy(before), h.text);
          LastSettles(ratio, outline, lines, before, ms, i);
        }
      }
    }
  }

  lemma SettlesStill(ratio: Ratio, outline: seq<OutlineEntry>, lines: seq<string>, before: seq<Matched>, m: Matched,
    i: nat)
    requires i < |lines| && ParseHeading(lines[i]).Some? && Settles(ratio, outline, lines, before, i) && m.line > i
    ensures Settles(ratio, outline, lines, before + [m], i)
  {
    hide ParseHeading, TakesBest, NoneFree;
    assert forall x :: x in before + [m] <==> x in before || x == m;
    assert TakenAbove(before + [m], i) == TakenAbove(before, i);
  }

  lemma LastSettles(ratio: Ratio, outline: seq<OutlineEntry>, lines: seq<string>, before: seq<Matched>,
    ms: seq<Matched>, i: nat)
    requires i < |lines| && ParseHeading(lines[i]).Some? && Ordered(before, i)
    requires var h := ParseHeading(lines[i]).value;
             (ms == before && NoneFree(ratio, outline, UsedBy(before), h.text))
             || (exists k :: ms == before + [Matched(i, h, k)] && TakesBest(ratio, outline, UsedBy(before), h.text, k))
    ensures Settles(ratio, outline, lines, ms, i)
  {
    hide ParseHeading, TakesBest, NoneFree;
    assert forall m | m in before :: m.line < i;
    assert TakenAbove(before, i) == UsedBy(before);
    if ms != before {
      var h := ParseHeading(lines[i]).value;
      var k :| ms == before + [Matched(i, h, k)] && TakesBest(ratio, outline, UsedBy(before), h.text, k);
      assert forall x :: x in ms <==> x in before || x == Matched(i, h, k);
      assert TakenAbove(ms, i) == UsedBy(before);
      assert ms[|before|] == Matched(i, h, k);
    }
  }

  // ---------------------------------------------------------------------------
  // Building the sections
  // ---------------------------------------------------------------------------

  /** `sorted(s)` for a set of page numbers up to `n`. */
  function Sorted(s: set<nat>, n: nat): seq<nat> {
    if n == 0 then [] else Sorted(s, n - 1) + (if n in s then [n] else [])
  }

  /** The pages that own a nonblank line of `lines[lo..hi]`. */
  function PagesIn(starts: seq<nat>, lines: seq<string>, lo: nat, hi: nat): set<nat>
    requires hi <= |lines|
  {
    set li: nat | lo <= li < hi && Strip(lines[li]) != "" :: PageOf(starts, li)
  }

  function PageList(starts: seq<nat>, lines: seq<string>, lo: nat, hi: nat): seq<nat>
    requires hi <= |lines|
  {
    Sorted(PagesIn(starts, lines, lo, hi), |starts|)
  }

  function Excerpt(lines: seq<string>, lo: nat, hi: nat): string
    requires lo <= hi <= |lines|
  {
    Strip(Unlines(lines[lo..hi]))
  }

  /** Where section `k` ends: at the next matched heading, or at the end of the document. */
  function EndOf(ms: seq<Matched>, count: nat, k: nat): nat
    requires k < |ms|
  {
    if k + 1 < |ms| then ms[k + 1].line else count
  }

  /** The part before the first heading, unless it is blank. */
  function Preamble(starts: seq<nat>, lines: seq<string>, first: nat): seq<SectionEntry>
    requires first <= |lines|
  {
    if first > 0 && Excerpt(lines, 0, first) != "" then
      var pages := PageList(starts, lines, 0, first);
      [SectionEntry(0, "(Preamble)", 0, if pages == [] then [1] else pages, Excerpt(lines, 0, first), -1)]
    else []
  }

  function SectionAt(starts: seq<nat>, lines: seq<string>, ms: seq<Matched>, index: nat, k: nat): SectionEntry
    requires k < |ms| && Ordered(ms, |lines|)
  {
    var lo, hi := ms[k].line, EndOf(ms, |lines|, k);
    var pages := PageList(starts, lines, lo, hi);
    SectionEntry(index, ms[k].heading.text, ms[k].heading.level,
                 if pages == [] then [PageOf(starts, lo)] else pages, Excerpt(lines, lo, hi), ms[k].outline)
  }

  function HeadingSections(starts: seq<nat>, lines: seq<string>, ms: seq<Matched>, from: nat,
    n: nat): (r: seq<SectionEntry>)
    requires n <= |ms| && Ordered(ms, |lines|)
    ensures |r| == n
  {
    if n == 0 then []
    else HeadingSections(starts, lines, ms, from, n - 1) + [SectionAt(starts, lines, ms, from + n - 1, n - 1)]
  }

  function UpTo(n: nat): seq<nat> { seq(n, k requires 0 <= k < n => k + 1) }

  function Sections(starts: seq<nat>, lines: seq<string>, ms: seq<Matched>): seq<SectionEntry>
    requires Ordered(ms, |lines|)
  {
    if ms == [] then
      if Excerpt(lines, 0, |lines|) == "" then []
      else [SectionEntry(0, "(Preamble)", 0, UpTo(|starts|), Excerpt(lines, 0, |lines|), -1)]
    else
      var preamble := Preamble(starts, lines, ms[0].line);
      preamble + HeadingSections(starts, lines, ms, |preamble|, |ms|)
  }

  /** `sorted({_line_to_page(li) for li in range(lo, hi) if lines[li].strip()})`. */
  method CollectPages(starts: seq<nat>, lines: seq<string>, lo: nat, hi: nat) returns (pages: seq<nat>)
    requires lo <= hi <= |lines|
    ensures pages == PageList(starts, lines, lo, hi)
  {
    hide Strip, PageOf;
    var found: set<nat> := {};
    var li := lo;
    while li < hi
      invariant lo <= li <= hi
      invariant found == PagesIn(starts, lines, lo, li)
    {
      PagesInSnoc(starts, lines, lo, li);
      if Strip(lines[li]) != "" {
        var page := LineToPage(starts, li);
        found := found + {page};
      }
      li := li + 1;
    }
    pages := Sorted(found, |starts|);
  }

  lemma PagesInSnoc(starts: seq<nat>, lines: seq<string>, lo: nat, li: nat)
    requires lo <= li < |lines|
    ensures PagesIn(starts, lines, lo, li + 1) ==
            PagesIn(starts, lines, lo, li) + if Strip(lines[li]) != "" then {PageOf(starts, li)} else {}
  {
    hide Strip, PageOf;
    var more := if Strip(lines[li]) != "" then {PageOf(starts, li)} else {};
    forall p: nat ensures p in PagesIn(starts, lines, lo, li + 1) <==> p in PagesIn(starts, lines, lo, li) + more {
      if p in PagesIn(starts, lines, lo, li + 1) {
        var x: nat :| lo <= x < li + 1 && Strip(lines[x]) != "" && PageOf(starts, x) == p;
      }
    }
  }

  lemma HeadingSectionsNone(starts: seq<nat>, lines: seq<string>, ms: seq<Matched>)
    requires Ordered(ms, |lines|)
    ensures forall from :: HeadingSections(starts, lines, ms, from, 0) == []
  {
  }

  lemma HeadingSectionsNext(starts: seq<nat>, lines: seq<string>, ms: seq<Matched>, from: nat, k: nat)
    requires k < |ms| && Ordered(ms, |lines|)
    ensures HeadingSections(starts, lines, ms, from, k + 1)
            == HeadingSections(starts, lines, ms, from, k) + [SectionAt(starts, lines, ms, from + k, k)]
  {
  }

  method SplitAtHeadings(starts: seq<nat>, lines: seq<string>, ms: seq<Matched>) returns (sections: seq<SectionEntry>)
    requires |ms| > 0 && Ordered(ms, |lines|)
    ensures sections == Sections(starts, lines, ms)
  {
    hide Strip, PageList, Unlines, PageOf, HeadingSections;
    HeadingSectionsNone(starts, lines, ms);
    sections := [];
    var first := ms[0].line;
    if first > 0 {
      var md := Strip(Unlines(lines[0..first]));
      if md != "" {
        var found := CollectPages(starts, lines, 0, first);
        sections := [SectionEntry(0, "(Preamble)", 0, if found == [] then [1] else found, md, -1)];
      }
    }
    ghost var preamble := sections;
    var index := |sections|;
    var k := 0;
    while k < |ms|
      invariant 0 <= k <= |ms| && index == |preamble| + k
      invariant preamble == Preamble(starts, lines, first)
      invariant sections == preamble + HeadingSections(starts, lines, ms, |preamble|, k)
    {
      var lo := ms[k].line;
      var hi := if k + 1 < |ms| then ms[k + 1].line else |lines|;
      var found := CollectPages(starts, lines, lo, hi);
      if found == [] {
        var page := LineToPage(starts, lo);
        found := [page];
      }
      HeadingSectionsNext(starts, lines, ms, |preamble|, k);
      var entry := SectionEntry(index, ms[k].heading.text, ms[k].heading.level, found,
                                Strip(Unlines(lines[lo..hi])), ms[k].outline);
      assert entry == SectionAt(starts, lines, ms, index, k);
      sections := sections + [entry];
      index := index + 1;
      k := k + 1;
    }
  }

  method BuildSectionMap(pages: map<nat, string>, total: nat, outline: seq<OutlineEntry>, ratio: Ratio)
    returns (sections: seq<SectionEntry>)
    ensures var lines := AllLines(pages, total, total);
            var ms := MatchHeadings(ratio, outline, lines, |lines|);
            Ordered(ms, |lines|) && sections == Sections(Starts(pages, total, total), lines, ms)
  {
    hide Strip, PageList, AllLines, Starts, MatchHeadings, IsMatch, Unlines, PageOf;
    var lines, starts := CollectLines(pages, total);
    var ms := MatchOutline(ratio, outline, lines);
    MatchesDistinct(ratio, outline, lines, |lines|);
    if |ms| > 0 {
      sections := SplitAtHeadings(starts, lines, ms);
    } else {
      sections := [];
      var md := Strip(Unlines(lines[0..|lines|]));
      if md != "" {
        sections := [SectionEntry(0, "(Preamble)", 0, UpTo(|starts|), md, -1)];
      }
    }
  }

  // ---------------------------------------------------------------------------
  // The sections partition the document
  // ---------------------------------------------------------------------------

  /** The lines of the heading sections, one after the other. */
  function Spans(lines: seq<string>, ms: seq<Matched>, n: nat): seq<string>
    requires n <= |ms| && Ordered(ms, |lines|)
  {
    if n == 0 then [] else Spans(lines, ms, n - 1) + lines[ms[n - 1].line..EndOf(ms, |lines|, n - 1)]
  }

  lemma {:induction false} SpansCover(lines: seq<string>, ms: seq<Matched>, n: nat)
    requires 1 <= n <= |ms| && Ordered(ms, |lines|)
    ensures Spans(lines, ms, n) == lines[ms[0].line..EndOf(ms, |lines|, n - 1)]
  {
    if n > 1 {
      SpansCover(lines, ms, n - 1);
    } else {
      assert Spans(lines, ms, 0) == [];
    }
  }

  lemma {:induction false} UnlinesBlank(ls: seq<string>)
    ensures Blank(Unlines(ls)) <==> forall k | 0 <= k < |ls| :: Blank(ls[k])
  {
    if |ls| == 0 {
    } else if |ls| == 1 {
      assert Unlines(ls) == ls[0];
    } else {
      UnlinesBlank(ls[1..]);
      var s := ls[0] + NL + Unlines(ls[1..]);
      assert Unlines(ls) == s;
      BlankConcat(ls[0], NL + Unlines(ls[1..]));
      BlankConcat(NL, Unlines(ls[1..]));
      assert s == ls[0] + (NL + Unlines(ls[1..]));
      assert forall k | 0 <= k < |ls| - 1 :: ls[1..][k] == ls[k + 1];
      assert forall k | 0 < k < |ls| :: ls[k] == ls[1..][k - 1];
    }
  }

  lemma BlankConcat(a: string, b: string)
    ensures Blank(a + b) <==> Blank(a) && Blank(b)
  {
    if Blank(a + b) {
      assert forall k | 0 <= k < |a| :: (a + b)[k] == a[k];
      assert forall k | 0 <= k < |b| :: (a + b)[|a| + k] == b[k];
    }
  }

  lemma {:induction false} HeadingSectionsAt(starts: seq<nat>, lines: seq<string>, ms: seq<Matched>, from: nat,
    n: nat, k: nat)
    requires k < n <= |ms| && Ordered(ms, |lines|)
    ensures HeadingSections(starts, lines, ms, from, n)[k] == SectionAt(starts, lines, ms, from + k, k)
  {
    hide SectionAt;
    if k < n - 1 {
      HeadingSectionsAt(starts, lines, ms, from, n - 1, k);
    }
  }

  /**
   The heading sections carry consecutive stretches of lines that together are the document from the
   first matched heading on; the preamble carries the lines before it and is left out only when they
   are all blank. Section numbers count up from 0.
   */
  lemma SectionsPartition(starts: seq<nat>, lines: seq<string>, ms: seq<Matched>)
    requires |ms| > 0 && Ordered(ms, |lines|)
    ensures var secs, pre := Sections(starts, lines, ms), |Preamble(starts, lines, ms[0].line)|;
            && |secs| == pre + |ms| && pre <= 1
            && (forall k | 0 <= k < |ms| ::
                  secs[pre + k] == SectionAt(starts, lines, ms, pre + k, k)
                  && secs[pre + k].markdown == Excerpt(lines, ms[k].line, EndOf(ms, |lines|, k)))
            && (pre == 1 ==> secs[0].index == 0 && secs[0].markdown == Excerpt(lines, 0, ms[0].line))
            && (pre == 0 <==> forall i | 0 <= i < ms[0].line :: Blank(lines[i]))
    ensures Spans(lines, ms, |ms|) == lines[ms[0].line..]
  {
    hide Strip, Unlines, PageList, HeadingSections, Preamble, Spans, SectionAt, Excerpt, Blank;
    var first := ms[0].line;
    var pre := |Preamble(starts, lines, first)|;
    SpansCover(lines, ms, |ms|);
    PreambleShape(starts, lines, first);
    SectionsAre(starts, lines, ms);
    hide Sections;
    forall k | 0 <= k < |ms|
      ensures HeadingSections(starts, lines, ms, pre, |ms|)[k] == SectionAt(starts, lines, ms, pre + k, k)
      ensures SectionAt(starts, lines, ms, pre + k, k).markdown == Excerpt(lines, ms[k].line, EndOf(ms, |lines|, k))
    {
      HeadingSectionsAt(starts, lines, ms, pre, |ms|, k);
      SectionText(starts, lines, ms, pre + k, k);
    }
  }

  lemma SectionText(starts: seq<nat>, lines: seq<string>, ms: seq<Matched>, index: nat, k: nat)
    requires k < |ms| && Ordered(ms, |lines|)
    ensures SectionAt(starts, lines, ms, index, k).markdown == Excerpt(lines, ms[k].line, EndOf(ms, |lines|, k))
  {
  }

  /** Without a matched heading the whole document is one section on all pages, unless it is blank. */
  lemma WholeIsOneSection(starts: seq<nat>, lines: seq<string>)
    requires lines != []
    ensures var secs := Sections(starts, lines, []);
            (secs == [] <==> Blank(Unlines(lines)))
            && (secs != [] ==>
                  |secs| == 1 && secs[0].index == 0 && secs[0].headingText == "(Preamble)"
                  && secs[0].headingLevel == 0 && secs[0].outlinePosition == -1
                  && secs[0].markdown == Strip(Unlines(lines))
                  && |secs[0].pages| == |starts| && forall k | 0 <= k < |starts| :: secs[0].pages[k] == k + 1)
  {
    hide Strip, Unlines, Blank;
    assert lines[0..|lines|] == lines;
    StripEmpty(Unlines(lines));
  }

  /** What a section says about itself: the heading on its first line, its outline entry, and its own lines, trimmed. */
  lemma SectionFields(ratio: Ratio, outline: seq<OutlineEntry>, starts: seq<nat>, lines: seq<string>,
    ms: seq<Matched>, k: nat)
    requires |ms| > 0 && Ordered(ms, |lines|) && k < |ms|
    requires forall j | 0 <= j < |ms| :: IsMatch(ratio, outline, lines, ms[j])
    ensures var secs, pre := Sections(starts, lines, ms), |Preamble(starts, lines, ms[0].line)|;
            var end := if k + 1 < |ms| then ms[k + 1].line else |lines|;
            |secs| == pre + |ms| && pre <= 1 && ms[k].line < end <= |lines|
            && ParseHeading(lines[ms[k].line]) == Some(Heading(secs[pre + k].headingLevel, secs[pre + k].headingText))
            && secs[pre + k].outlinePosition == ms[k].outline
            && secs[pre + k].markdown == Strip(Unlines(lines[ms[k].line..end]))
            && (pre == 1 ==> secs[0].headingText == "(Preamble)" && secs[0].headingLevel == 0
                             && secs[0].outlinePosition == -1
                             && secs[0].markdown == Strip(Unlines(lines[0..ms[0].line])))
  {
    hide Strip, Unlines, PageList, ParseHeading, Spans;
    SectionsPartition(starts, lines, ms);
    assert IsMatch(ratio, outline, lines, ms[k]);
  }

  lemma SectionsAre(starts: seq<nat>, lines: seq<string>, ms: seq<Matched>)
    requires |ms| > 0 && Ordered(ms, |lines|)
    ensures var pre := Preamble(starts, lines, ms[0].line);
            Sections(starts, lines, ms) == pre + HeadingSections(starts, lines, ms, |pre|, |ms|)
  {
  }

  lemma PreambleShape(starts: seq<nat>, lines: seq<string>, first: nat)
    requires first <= |lines|
    ensures var pre := Preamble(starts, lines, first);
            |pre| <= 1
            && (|pre| == 1 ==> pre[0].index == 0 && pre[0].markdown == Excerpt(lines, 0, first))
            && (pre == [] <==> forall i | 0 <= i < first :: Blank(lines[i]))
  {
    hide Strip, Unlines, PageList;
    UnlinesBlank(lines[0..first]);
    StripEmpty(Unlines(lines[0..first]));
    assert forall i | 0 <= i < first :: lines[0..first][i] == lines[i];
  }

  // ---------------------------------------------------------------------------
  // The pages of a section
  // ---------------------------------------------------------------------------

  lemma {:induction false} SortedShape(s: set<nat>, n: nat)
    ensures Increasing(Sorted(s, n))
    ensures forall p: nat :: p in Sorted(s, n) <==> p in s && 1 <= p <= n
  {
    if n > 0 {
      SortedShape(s, n - 1);
      var before := Sorted(s, n - 1);
      forall k | 0 <= k < |before| ensures before[k] < n {
        assert before[k] in before;
      }
    }
  }

  ghost predicate GoodStarts(starts: seq<nat>) {
    Increasing(starts) && |starts| > 0 && starts[0] == 0
  }

  /** A page list is strictly increasing and names exactly the pages with a nonblank line of the stretch. */
  lemma PageListShape(starts: seq<nat>, lines: seq<string>, lo: nat, hi: nat)
    requires GoodStarts(starts) && hi <= |lines|
    ensures Increasing(PageList(starts, lines, lo, hi))
    ensures forall p: nat :: p in PageList(starts, lines, lo, hi) <==> p in PagesIn(starts, lines, lo, hi)
  {
    hide Strip, PageOf;
    SortedShape(PagesIn(starts, lines, lo, hi), |starts|);
    forall li: nat | lo <= li < hi ensures 1 <= PageOf(starts, li) <= |starts| {
      PageOfMonotone(starts, li, li);
    }
  }

  /** A heading line is never blank. */
  lemma HeadingNotBlank(line: string)
    requires ParseHeading(line).Some?
    ensures Strip(line) != ""
  {
    StripEmpty(line);
    HashPrefixShape(line);
    assert line[0] == '#';
  }

  /** Every page of an earlier stretch is at most every page of a later one. */
  lemma PagesOrdered(starts: seq<nat>, lines: seq<string>, lo: nat, mid: nat, lo': nat, hi: nat, p: nat, q: nat)
    requires GoodStarts(starts) && mid <= lo' && mid <= |lines| && hi <= |lines|
    requires p in PagesIn(starts, lines, lo, mid) && q in PagesIn(starts, lines, lo', hi)
    ensures p <= q
  {
    hide Strip, PageOf;
    var x: nat :| lo <= x < mid && Strip(lines[x]) != "" && PageOf(starts, x) == p;
    var y: nat :| lo' <= y < hi && Strip(lines[y]) != "" && PageOf(starts, y) == q;
    PageOfMonotone(starts, x, y);
  }

  /** The stretch of lines of the k-th section, the preamble included. */
  function Stretch(ms: seq<Matched>, count: nat, pre: nat, k: nat): (nat, nat)
    requires pre <= 1 && k < pre + |ms| && |ms| > 0
  {
    if k < pre then (0, ms[0].line) else (ms[k - pre].line, EndOf(ms, count, k - pre))
  }

  /** The pages of a section are those of its stretch: the fallbacks of the source never come into play. */
  lemma SectionPages(ratio: Ratio, outline: seq<OutlineEntry>, starts: seq<nat>, lines: seq<string>,
    ms: seq<Matched>, k: nat)
    requires |ms| > 0 && Ordered(ms, |lines|) && GoodStarts(starts)
    requires forall j | 0 <= j < |ms| :: IsMatch(ratio, outline, lines, ms[j])
    requires k < |Sections(starts, lines, ms)|
    ensures var pre := |Preamble(starts, lines, ms[0].line)|;
            && pre <= 1 && k < pre + |ms|
            && var (lo, hi) := Stretch(ms, |lines|, pre, k);
            && hi <= |lines| && Sections(starts, lines, ms)[k].index == k
            && Sections(starts, lines, ms)[k].pages == PageList(starts, lines, lo, hi)
            && PagesIn(starts, lines, lo, hi) != {}
  {
    hide Strip, PageOf, ParseHeading, PageList, Spans, Unlines, HeadingSections, Blank;
    SectionsPartition(starts, lines, ms);
    var pre := |Preamble(starts, lines, ms[0].line)|;
    var (lo, hi) := Stretch(ms, |lines|, pre, k);
    if k >= pre {
      assert IsMatch(ratio, outline, lines, ms[k - pre]);
      HeadingNotBlank(lines[lo]);
    } else {
      FirstNonblank(lines, lo, hi);
    }
    var li: nat :| lo <= li < hi && Strip(lines[li]) != "";
    assert PageOf(starts, li) in PagesIn(starts, lines, lo, hi);
    PageListShape(starts, lines, lo, hi);
    assert PageOf(starts, li) in PageList(starts, lines, lo, hi);
  }

  lemma FirstNonblank(lines: seq<string>, lo: nat, hi: nat)
    requires lo <= hi <= |lines| && Excerpt(lines, lo, hi) != ""
    ensures exists li: nat | lo <= li < hi :: Strip(lines[li]) != ""
  {
    StripEmpty(Unlines(lines[lo..hi]));
    UnlinesBlank(lines[lo..hi]);
    var k :| 0 <= k < hi - lo && !Blank(lines[lo..hi][k]);
    StripEmpty(lines[lo + k]);
  }

  /**
   Over the whole document: sections are numbered in order, the page list of every section is nonempty
   and strictly increasing, and no section starts on an earlier page than the one before it ended on.
   */
  lemma PagesNeverGoBack(pages: map<nat, string>, total: nat, outline: seq<OutlineEntry>, ratio: Ratio)
    ensures var lines, starts := AllLines(pages, total, total), Starts(pages, total, total);
            var ms := MatchHeadings(ratio, outline, lines, |lines|);
            && Ordered(ms, |lines|)
            && var secs := Sections(starts, lines, ms);
            && (forall k | 0 <= k < |secs| :: secs[k].index == k && |secs[k].pages| > 0 && Increasing(secs[k].pages))
            && (forall k | 0 <= k < |secs| - 1 :: secs[k].pages[|secs[k].pages| - 1] <= secs[k + 1].pages[0])
  {
    hide Strip, AllLines, Starts, MatchHeadings, IsMatch, Unlines, PageOf, Sections;
    var lines, starts := AllLines(pages, total, total), Starts(pages, total, total);
    var ms := MatchHeadings(ratio, outline, lines, |lines|);
    StartsIncrease(pages, total, total);
    MatchesDistinct(ratio, outline, lines, |lines|);
    assert Ordered(ms, |lines|);
    if ms == [] || total == 0 {
      OneSection(pages, total, starts, lines, ms);
    } else {
      var secs := Sections(starts, lines, ms);
      forall k | 0 <= k < |secs|
        ensures secs[k].index == k && |secs[k].pages| > 0 && Increasing(secs[k].pages)
      {
        SectionPages(ratio, outline, starts, lines, ms, k);
        SectionPagesShape(starts, lines, ms, k);
      }
      forall k | 0 <= k < |secs| - 1
        ensures secs[k].pages[|secs[k].pages| - 1] <= secs[k + 1].pages[0]
      {
        SectionPages(ratio, outline, starts, lines, ms, k);
        SectionPages(ratio, outline, starts, lines, ms, k + 1);
        NextSectionLater(starts, lines, ms, k);
      }
    }
  }

  lemma OneSection(pages: map<nat, string>, total: nat, starts: seq<nat>, lines: seq<string>, ms: seq<Matched>)
    requires lines == AllLines(pages, total, total) && |starts| == total && Ordered(ms, |lines|)
    requires ms == [] || total == 0
    ensures var secs := Sections(starts, lines, ms);
            |secs| <= 1 && (|secs| == 1 ==> secs[0].index == 0 && |secs[0].pages| > 0 && Increasing(secs[0].pages))
  {
    if total == 0 {
      assert lines == [];
      assert |ms| > 0 ==> ms[0].line < 0;
      StripEmpty("");
      assert Excerpt(lines, 0, 0) == "";
    }
  }

  lemma SectionPagesShape(starts: seq<nat>, lines: seq<string>, ms: seq<Matched>, k: nat)
    requires |ms| > 0 && Ordered(ms, |lines|) && GoodStarts(starts) && k < |Sections(starts, lines, ms)|
    requires var pre := |Preamble(starts, lines, ms[0].line)|;
             && pre <= 1 && k < pre + |ms|
             && var (lo, hi) := Stretch(ms, |lines|, pre, k);
             && hi <= |lines|
             && Sections(starts, lines, ms)[k].pages == PageList(starts, lines, lo, hi)
             && PagesIn(starts, lines, lo, hi) != {}
    ensures var ps := Sections(starts, lines, ms)[k].pages; |ps| > 0 && Increasing(ps)
    ensures var (lo, hi) := Stretch(ms, |lines|, |Preamble(starts, lines, ms[0].line)|, k);
            forall p :: p in Sections(starts, lines, ms)[k].pages <==> p in PagesIn(starts, lines, lo, hi)
  {
    hide Strip, PageOf, PageList, Sections, Preamble;
    var (lo, hi) := Stretch(ms, |lines|, |Preamble(starts, lines, ms[0].line)|, k);
    PageListShape(starts, lines, lo, hi);
    var p: nat :| p in PagesIn(starts, lines, lo, hi);
    assert p in PageList(starts, lines, lo, hi);
  }

  lemma NextSectionLater(starts: seq<nat>, lines: seq<string>, ms: seq<Matched>, k: nat)
    requires |ms| > 0 && Ordered(ms, |lines|) && GoodStarts(starts) && k + 1 < |Sections(starts, lines, ms)|
    requires var pre := |Preamble(starts, lines, ms[0].line)|;
             && pre <= 1 && k + 1 < pre + |ms|
             && (forall j | j == k || j == k + 1 ::
                   var (lo, hi) := Stretch(ms, |lines|, pre, j);
                   && hi <= |lines|
                   && Sections(starts, lines, ms)[j].pages == PageList(starts, lines, lo, hi)
                   && PagesIn(starts, lines, lo, hi) != {})
    ensures var a, b := Sections(starts, lines, ms)[k].pages, Sections(starts, lines, ms)[k + 1].pages;
            |a| > 0 && |b| > 0 && a[|a| - 1] <= b[0]
  {
    hide Strip, PageOf, PageList, Sections, Preamble, PagesIn;
    var pre := |Preamble(starts, lines, ms[0].line)|;
    var a, b := Sections(starts, lines, ms)[k].pages, Sections(starts, lines, ms)[k + 1].pages;
    SectionPagesShape(starts, lines, ms, k);
    SectionPagesShape(starts, lines, ms, k + 1);
    var (lo, mid) := Stretch(ms, |lines|, pre, k);
    var (lo', hi) := Stretch(ms, |lines|, pre, k + 1);
    assert a[|a| - 1] in a && b[0] in b;
    PagesOrdered(starts, lines, lo, mid, lo', hi, a[|a| - 1], b[0]);
  }
}
