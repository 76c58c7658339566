/**
 Markdown headings and the step that corrects their levels from the outline
 (src/services/pipeline_viewer.py).
 */
module Headings {
  import opened Text
  import opened Fuzzy

  const HEADING_MATCH_THRESHOLD: real := 0.8

  datatype Heading = Heading(level: nat, text: string)

  datatype OutlineEntry = OutlineEntry(level: int, text: string, page: int)

  datatype Change = Change(page: int, oldText: string, newText: string)

  /** The number of `#` at the start of a line. */
  function HashPrefix(line: string): (n: nat)
    ensures n <= |line|
  {
    if line != "" && line[0] == '#' then 1 + HashPrefix(line[1..]) else 0
  }

  /**
   `^(#{1,6})\s+(.+)$` on one line: one to six hashes, then whitespace, then at least one more
   character. The text is stripped, so how the whitespace is shared out does not matter.
   */
  function ParseHeading(line: string): Option<Heading> {
    var n := HashPrefix(line);
    if 1 <= n <= 6 && n + 2 <= |line| && IsSpace(line[n])
    then Some(Heading(n, Strip(line[n..])))
    else None
  }

  /** `"#" * level`. */
  function Hashes(level: int): string {
    if level <= 0 then "" else Hashes(level - 1) + "#"
  }

  function EntryScores(ratio: Ratio, entries: seq<OutlineEntry>, text: string): seq<Option<real>> {
    seq(|entries|, k requires 0 <= k < |entries| => Some(ratio(text, entries[k].text)))
  }

  /** The outline entry that decides the level of a heading with this text. */
  function MatchEntry(ratio: Ratio, entries: seq<OutlineEntry>, text: string): (r: Option<OutlineEntry>)
  {
    var b := Best(EntryScores(ratio, entries, text));
    BestIsBest(EntryScores(ratio, entries, text));
    if b.0 < 0 || b.1 < HEADING_MATCH_THRESHOLD then None else Some(entries[b.0])
  }

  /** What becomes of one line. */
  function FixLine(ratio: Ratio, entries: seq<OutlineEntry>, line: string): string {
    match ParseHeading(line)
    case None => line
    case Some(h) =>
      match MatchEntry(ratio, entries, h.text)
      case None => line
      case Some(e) => if Hashes(h.level) == Hashes(e.level) then line else Hashes(e.level) + " " + h.text
  }

  function FixLines(ratio: Ratio, entries: seq<OutlineEntry>, lines: seq<string>): seq<string> {
    seq(|lines|, k requires 0 <= k < |lines| => FixLine(ratio, entries, lines[k]))
  }

  /** `[e for e in outline if e.page == page]`. */
  function EntriesOn(outline: seq<OutlineEntry>, page: int): seq<OutlineEntry> {
    if outline == [] then []
    else (if outline[0].page == page then [outline[0]] else []) + EntriesOn(outline[1..], page)
  }

  function FixPage(ratio: Ratio, outline: seq<OutlineEntry>, page: int, md: string): string {
    if EntriesOn(outline, page) == [] then md
    else Unlines(FixLines(ratio, EntriesOn(outline, page), Lines(md)))
  }

  // ---------------------------------------------------------------------------
  // The step
  // ---------------------------------------------------------------------------

  /** `page_mds.get(str(page), "")`. */
  function PageText(pages: map<nat, string>, page: nat): string {
    if page in pages then pages[page] else ""
  }

  /** The lines that differ, in order. */
  function DiffLog(page: int, before: seq<string>, after: seq<string>): seq<Change>
    requires |before| == |after|
  {
    if before == [] then []
    else
      var n := |before| - 1;
      DiffLog(page, before[..n], after[..n])
        + (if before[n] == after[n] then [] else [Change(page, before[n], after[n])])
  }

  lemma EmptyDiff(page: int, lines: seq<string>)
    ensures DiffLog(page, lines[..0], lines[..0]) == []
  {
  }

  lemma DiffLogSnoc(page: int, before: seq<string>, after: seq<string>, i: nat, line: string)
    requires |before| == |after| && i < |before|
    ensures DiffLog(page, before[..i + 1], after[i := line][..i + 1])
            == DiffLog(page, before[..i], after[..i])
               + (if before[i] == line then [] else [Change(page, before[i], line)])
  {
    assert before[..i + 1][..i] == before[..i] && after[i := line][..i + 1][..i] == after[..i];
  }

  function PageLog(ratio: Ratio, outline: seq<OutlineEntry>, page: int, md: string): seq<Change> {
    DiffLog(page, Lines(md), FixLines(ratio, EntriesOn(outline, page), Lines(md)))
  }

  /** The log of pages `1..n`. */
  function StepLog(ratio: Ratio, outline: seq<OutlineEntry>, pages: map<nat, string>, n: nat): seq<Change> {
    if n == 0 then []
    else StepLog(ratio, outline, pages, n - 1) + PageLog(ratio, outline, n, PageText(pages, n))
  }

  /** The pages after pages `1..n` have been corrected. */
  function StepPages(ratio: Ratio, outline: seq<OutlineEntry>, pages: map<nat, string>, n: nat): map<nat, string> {
    map k | k in pages :: if 1 <= k <= n then FixPage(ratio, outline, k, pages[k]) else pages[k]
  }

  function Range(pages: map<nat, string>, n: nat): seq<string> {
    seq(n, k requires 0 <= k < n => PageText(pages, k + 1))
  }

  class PipelineResult {
    var totalPages: nat
    var pageMarkdowns: map<nat, string>
    var version: string
    var steps: seq<seq<Change>>

    constructor (totalPages: nat, pageMarkdowns: map<nat, string>, version: string)
      ensures this.totalPages == totalPages && this.pageMarkdowns == pageMarkdowns
      ensures this.version == version && steps == []
    {
      this.totalPages, this.pageMarkdowns, this.version, steps := totalPages, pageMarkdowns, version, [];
    }

    /** Walks over the lines of one page, correcting them in place. */
    method FixPageLines(ratio: Ratio, entries: seq<OutlineEntry>, page: int, md: string)
      returns (lines: seq<string>, log: seq<Change>)
      ensures lines == FixLines(ratio, entries, Lines(md))
      ensures log == DiffLog(page, Lines(md), lines)
    {
      hide Split, Join, Strip, OccursAt, DiffLog, Hashes;
      var source := Lines(md);
      EmptyDiff(page, source);
      lines, log := source, [];
      var i := 0;
      while i < |source|
        invariant 0 <= i <= |source| == |lines|
        invariant forall k | 0 <= k < i :: lines[k] == FixLine(ratio, entries, source[k])
        invariant forall k | i <= k < |source| :: lines[k] == source[k]
        invariant log == DiffLog(page, source[..i], lines[..i])
      {
        var line := source[i];
        var parsed := ParseHeading(line);
        var fixed := line;
        if parsed.Some? {
          var heading := parsed.value;
          var best, bestRatio := BestEntry(ratio, entries, heading.text);
          if 0 <= best && bestRatio >= HEADING_MATCH_THRESHOLD {
            var correct := Hashes(entries[best].level);
            if Hashes(heading.level) != correct {
              HashesInjective(heading.level, entries[best].level);
              NewLineDiffers(line, entries[best].level);
              fixed := correct + " " + heading.text;
              log := log + [Change(page, line, fixed)];
            }
          }
        }
        DiffLogSnoc(page, source, lines, i, fixed);
        lines := lines[i := fixed];
        i := i + 1;
      }
      assert source[..|source|] == source && lines[..|source|] == lines;
    }

    method BestEntry(ratio: Ratio, entries: seq<OutlineEntry>, text: string) returns (best: int, bestRatio: real)
      ensures (best, bestRatio) == Best(EntryScores(ratio, entries, text))
      ensures -1 <= best < |entries|
    {
      best, bestRatio := -1, 0.0;
      ghost var scores := EntryScores(ratio, entries, text);
      var k := 0;
      while k < |entries|
        invariant 0 <= k <= |entries| && -1 <= best < |entries|
        invariant (best, bestRatio) == Best(scores[..k])
      {
        var r := ratio(text, entries[k].text);
        assert scores[..k + 1][..k] == scores[..k];
        if r > bestRatio {
          best, bestRatio := k, r;
        }
        k := k + 1;
      }
      assert scores[..|entries|] == scores;
    }

    method StepHeadingLevels(ratio: Ratio, outline: seq<OutlineEntry>)
      modifies this
      ensures totalPages == old(totalPages)
      ensures pageMarkdowns == StepPages(ratio, outline, old(pageMarkdowns), totalPages)
      ensures steps == old(steps) + [StepLog(ratio, outline, old(pageMarkdowns), totalPages)]
      ensures version == if StepLog(ratio, outline, old(pageMarkdowns), totalPages) == [] then old(version)
                         else Join(Range(pageMarkdowns, totalPages), "\n\n")
    {
      hide Split, Join, FixLines, DiffLog, PageLog, FixPage, StepPages, PageText, Lines, Unlines;
      StepPagesStart(ratio, outline, pageMarkdowns);
      var changes := [];
      var page := 1;
      ghost var pages := pageMarkdowns;
      while page <= totalPages
        invariant 1 <= page <= totalPages + 1 && totalPages == old(totalPages)
        invariant version == old(version) && steps == old(steps)
        invariant pageMarkdowns == StepPages(ratio, outline, pages, page - 1)
        invariant changes == StepLog(ratio, outline, pages, page - 1)
      {
        var md := PageText(pageMarkdowns, page);
        var entries := EntriesOn(outline, page);
        StepPagesNext(ratio, outline, pages, page);
        if entries != [] {
          var lines, log := FixPageLines(ratio, entries, page, md);
          LogIsPageLog(ratio, outline, page, md);
          if log != [] {
            pageMarkdowns := pageMarkdowns[page := Unlines(lines)];
          }
          changes := changes + log;
        }
        page := page + 1;
      }
      if changes != [] {
        version := Join(Range(pageMarkdowns, totalPages), "\n\n");
      }
      steps := steps + [changes];
    }
  }

  // ---------------------------------------------------------------------------
  // What the step keeps
  // ---------------------------------------------------------------------------

  lemma {:induction false} HashesShape(level: int)
    ensures |Hashes(level)| == if level <= 0 then 0 else level
    ensures forall k | 0 <= k < |Hashes(level)| :: Hashes(level)[k] == '#'
  {
    if level > 0 {
      HashesShape(level - 1);
    }
  }

  lemma HashesInjective(a: nat, level: int)
    requires a >= 1
    ensures Hashes(a) == Hashes(level) <==> a == level
  {
    HashesShape(a);
    HashesShape(level);
  }

  lemma {:induction false} HashPrefixIs(line: string, n: nat)
    requires n <= |line| && forall k | 0 <= k < n :: line[k] == '#'
    requires n < |line| ==> line[n] != '#'
    ensures HashPrefix(line) == n
  {
    if n > 0 {
      HashPrefixIs(line[1..], n - 1);
    }
  }

  lemma {:induction false} HashPrefixShape(line: string)
    ensures forall k | 0 <= k < HashPrefix(line) :: line[k] == '#'
    ensures HashPrefix(line) < |line| ==> line[HashPrefix(line)] != '#'
  {
    if line != "" && line[0] == '#' {
      HashPrefixShape(line[1..]);
    }
  }

  lemma StripOfSpaced(text: string)
    requires Trimmed(text)
    ensures Strip(" " + text) == text
  {
    StripIs(" ", text, "");
    assert " " + text + "" == " " + text;
  }

  /** What a rewritten heading reads as: the same text under the outline's level, or no heading at all. */
  lemma RewrittenParses(level: int, text: string)
    requires Trimmed(text)
    ensures ParseHeading(Hashes(level) + " " + text) ==
            if 1 <= level <= 6 && text != "" then Some(Heading(level, text)) else None
  {
    hide Strip, Trimmed;
    var line, n := Hashes(level) + " " + text, |Hashes(level)|;
    HashesShape(level);
    assert line[n] == ' ';
    HashPrefixIs(line, n);
    assert line[n..] == " " + text;
    StripOfSpaced(text);
  }

  lemma ParsedText(line: string)
    requires ParseHeading(line).Some?
    ensures Trimmed(ParseHeading(line).value.text)
  {
    var a, b := StripShape(line[ParseHeading(line).value.level..]);
  }

  lemma NewLineDiffers(line: string, level: int)
    requires ParseHeading(line).Some? && level != ParseHeading(line).value.level
    ensures Hashes(level) + " " + ParseHeading(line).value.text != line
  {
    ParsedText(line);
    RewrittenParses(level, ParseHeading(line).value.text);
  }

  /** A heading is one to six hashes, whitespace, and at least one more character; its text is the rest, trimmed. */
  lemma HeadingIff(line: string, level: nat, text: string)
    ensures ParseHeading(line) == Some(Heading(level, text)) <==>
            exists rest :: line == Hashes(level) + rest && 1 <= level <= 6
              && |rest| >= 2 && IsSpace(rest[0]) && text == Strip(rest)
  {
    hide ParseHeading, Strip, Hashes;
    if ParseHeading(line) == Some(Heading(level, text)) {
      HeadingSplits(line, level, text);
    }
    forall rest | line == Hashes(level) + rest && 1 <= level <= 6
                  && |rest| >= 2 && IsSpace(rest[0]) && text == Strip(rest)
      ensures ParseHeading(line) == Some(Heading(level, text))
    {
      HeadingOf(level, rest);
    }
  }

  lemma HeadingSplits(line: string, level: nat, text: string)
    requires ParseHeading(line) == Some(Heading(level, text))
    ensures exists rest :: line == Hashes(level) + rest && 1 <= level <= 6
              && |rest| >= 2 && IsSpace(rest[0]) && text == Strip(rest)
  {
    hide Strip;
    HashPrefixShape(line);
    HashesShape(level);
    var rest := line[level..];
    hide HashPrefix, Hashes;
    assert line == Hashes(level) + rest;
  }

  lemma HeadingOf(level: nat, rest: string)
    requires 1 <= level <= 6 && |rest| >= 2 && IsSpace(rest[0])
    ensures ParseHeading(Hashes(level) + rest) == Some(Heading(level, Strip(rest)))
  {
    hide Strip;
    var line := Hashes(level) + rest;
    HashesShape(level);
    assert line[level] == rest[0];
    assert forall k | 0 <= k < level :: line[k] == Hashes(level)[k];
    HashPrefixIs(line, level);
    hide HashPrefix, Hashes;
    assert line[level..] == rest;
  }

  /** The entries of a page are those of the outline with its number, in their order, each as often as it is there. */
  lemma {:induction false} EntriesOnIs(outline: seq<OutlineEntry>, page: int)
    ensures forall e :: e in EntriesOn(outline, page) <==> e in outline && e.page == page
    ensures forall other | other != page :: EntriesOn(EntriesOn(outline, page), other) == []
    ensures EntriesOn(EntriesOn(outline, page), page) == EntriesOn(outline, page)
    ensures multiset(EntriesOn(outline, page)) <= multiset(outline)
  {
    if outline != [] {
      var rest := outline[1..];
      EntriesOnIs(rest, page);
      assert outline == [outline[0]] + rest;
      if outline[0].page == page {
        var kept := EntriesOn(rest, page);
        assert ([outline[0]] + kept)[1..] == kept;
      } else {
        assert EntriesOn(outline, page) == EntriesOn(rest, page);
      }
    }
  }

  /** The entry that decides is the first of the most similar ones, at a similarity of at least 0.8. */
  lemma MatchEntryIs(ratio: Ratio, entries: seq<OutlineEntry>, text: string)
    ensures match MatchEntry(ratio, entries, text)
            case Some(e) =>
              exists k | 0 <= k < |entries| ::
                entries[k] == e && ratio(text, e.text) >= 0.8
                && (forall j | 0 <= j < |entries| :: ratio(text, entries[j].text) <= ratio(text, e.text))
                && (forall j | 0 <= j < k :: ratio(text, entries[j].text) < ratio(text, e.text))
            case None => forall j | 0 <= j < |entries| :: ratio(text, entries[j].text) < 0.8
  {
    var scores := EntryScores(ratio, entries, text);
    var b := Best(scores);
    BestIsBest(scores);
    assert forall j | 0 <= j < |entries| :: scores[j] == Some(ratio(text, entries[j].text));
    if MatchEntry(ratio, entries, text).Some? {
      assert entries[b.0] == MatchEntry(ratio, entries, text).value;
    }
  }

  /** The log of a page holds exactly the lines that differ, and each of them once. */
  lemma {:induction false} DiffLogIs(page: int, before: seq<string>, after: seq<string>)
    requires |before| == |after|
    ensures forall c :: c in DiffLog(page, before, after) <==>
              exists k | 0 <= k < |before| :: before[k] != after[k] && c == Change(page, before[k], after[k])
    ensures |DiffLog(page, before, after)| == |Differing(before, after)|
  {
    if before == [] {
      assert Differing(before, after) == {};
    } else {
      var n := |before| - 1;
      DiffLogIs(page, before[..n], after[..n]);
      assert Differing(before, after) == Differing(before[..n], after[..n]) + if before[n] != after[n] then {n} else {};
      forall c
        ensures c in DiffLog(page, before, after) <==>
                exists k | 0 <= k < |before| :: before[k] != after[k] && c == Change(page, before[k], after[k])
      {
        if k :| 0 <= k < |before| && before[k] != after[k] && c == Change(page, before[k], after[k]) {
          if k < n {
            assert before[..n][k] == before[k] && after[..n][k] == after[k];
          }
        }
        if c in DiffLog(page, before[..n], after[..n]) {
          var k :| 0 <= k < |before[..n]| && before[..n][k] != after[..n][k]
                   && c == Change(page, before[..n][k], after[..n][k]);
          assert before[k] == before[..n][k] && after[k] == after[..n][k];
        }
      }
    }
  }

  ghost predicate InPageOrder(log: seq<Change>, n: nat) {
    (forall k | 0 <= k < |log| :: 1 <= log[k].page <= n)
    && (forall j, k | 0 <= j < k < |log| :: log[j].page <= log[k].page)
  }

  predicate AllOf(log: seq<Change>, page: int) {
    forall k | 0 <= k < |log| :: log[k].page == page
  }

  /** The log of the step goes through the pages in order. */
  lemma {:induction false} StepLogOrdered(ratio: Ratio, outline: seq<OutlineEntry>, pages: map<nat, string>, n: nat)
    ensures InPageOrder(StepLog(ratio, outline, pages, n), n)
    decreases n
  {
    hide PageLog, PageText;
    if n > 0 {
      StepLogOrdered(ratio, outline, pages, n - 1);
      PageLogPage(ratio, outline, n, PageText(pages, n));
    }
  }

  /** What the log of the step says of a page is that page's own log. */
  lemma {:induction false} StepLogOfPage(ratio: Ratio, outline: seq<OutlineEntry>, pages: map<nat, string>, n: nat,
    p: nat, c: Change)
    requires 1 <= p <= n
    ensures (c in StepLog(ratio, outline, pages, n) && c.page == p)
            <==> c in PageLog(ratio, outline, p, PageText(pages, p))
    decreases n
  {
    hide PageLog, PageText;
    var before, own := StepLog(ratio, outline, pages, n - 1), PageLog(ratio, outline, n, PageText(pages, n));
    PageLogPage(ratio, outline, n, PageText(pages, n));
    PageLogPage(ratio, outline, p, PageText(pages, p));
    StepLogOrdered(ratio, outline, pages, n - 1);
    assert c in before + own <==> c in before || c in own;
    if p < n {
      StepLogOfPage(ratio, outline, pages, n - 1, p, c);
    }
  }

  lemma PageLogPage(ratio: Ratio, outline: seq<OutlineEntry>, page: int, md: string)
    ensures AllOf(PageLog(ratio, outline, page, md), page)
  {
    hide Lines;
    var before, after := Lines(md), FixLines(ratio, EntriesOn(outline, page), Lines(md));
    DiffLogIs(page, before, after);
    var log := DiffLog(page, before, after);
    forall k | 0 <= k < |log|
      ensures log[k].page == page
    {
      assert log[k] in log;
    }
  }

  function Differing(before: seq<string>, after: seq<string>): set<nat>
    requires |before| == |after|
  {
    set k: nat | k < |before| && before[k] != after[k]
  }

  /**
   A line that changes is a heading whose level the outline disagrees with. It becomes the outline's
   hashes, one space, and the same text; for the levels 1-6 and a nonblank text it is again a heading
   with that text and with the level of the outline. All other lines stay as they are.
   */
  lemma ChangedLine(ratio: Ratio, entries: seq<OutlineEntry>, line: string)
    ensures FixLine(ratio, entries, line) != line <==>
            && ParseHeading(line).Some?
            && MatchEntry(ratio, entries, ParseHeading(line).value.text).Some?
            && MatchEntry(ratio, entries, ParseHeading(line).value.text).value.level != ParseHeading(line).value.level
    ensures FixLine(ratio, entries, line) != line ==>
              var h := ParseHeading(line).value;
              var level := MatchEntry(ratio, entries, h.text).value.level;
              && FixLine(ratio, entries, line) == Hashes(level) + " " + h.text
              && (1 <= level <= 6 && h.text != "" ==>
                  ParseHeading(FixLine(ratio, entries, line)) == Some(Heading(level, h.text)))
  {
    hide Strip, MatchEntry;
    if ParseHeading(line).Some? {
      var h := ParseHeading(line).value;
      ParsedText(line);
      if MatchEntry(ratio, entries, h.text).Some? {
        var level := MatchEntry(ratio, entries, h.text).value.level;
        HashesInjective(h.level, level);
        RewrittenParses(level, h.text);
        if level != h.level {
          NewLineDiffers(line, level);
        }
      }
    }
  }

  /** Correcting a corrected line changes nothing, whatever the levels and texts are. */
  lemma FixLineIdempotent(ratio: Ratio, entries: seq<OutlineEntry>, line: string)
    ensures FixLine(ratio, entries, FixLine(ratio, entries, line)) == FixLine(ratio, entries, line)
  {
    hide Strip, MatchEntry;
    ChangedLine(ratio, entries, line);
    if FixLine(ratio, entries, line) != line {
      var h := ParseHeading(line).value;
      ParsedText(line);
      RewrittenParses(MatchEntry(ratio, entries, h.text).value.level, h.text);
    }
  }

  lemma FixLineIsLine(ratio: Ratio, entries: seq<OutlineEntry>, line: string)
    requires IsLine(line)
    ensures IsLine(FixLine(ratio, entries, line))
  {
    hide Strip, MatchEntry;
    ChangedLine(ratio, entries, line);
    if FixLine(ratio, entries, line) != line {
      var h := ParseHeading(line).value;
      HashesShape(MatchEntry(ratio, entries, h.text).value.level);
      var a, b := StripShape(line[h.level..]);
      assert forall k | 0 <= k < |h.text| :: h.text[k] == line[h.level + |a| + k];
    }
  }

  /** Every page keeps its number of lines, and each line is corrected by itself. */
  lemma PageKeepsLines(ratio: Ratio, outline: seq<OutlineEntry>, page: int, md: string)
    ensures |Lines(FixPage(ratio, outline, page, md))| == |Lines(md)|
    ensures forall k | 0 <= k < |Lines(md)| ::
              Lines(FixPage(ratio, outline, page, md))[k] == FixLine(ratio, EntriesOn(outline, page), Lines(md)[k])
  {
    hide Split, Join, FixLine, OccursAt;
    var entries, lines := EntriesOn(outline, page), Lines(md);
    LinesAreLines(md);
    if entries == [] {
      NoEntriesNoChange(ratio, lines);
      assert forall k | 0 <= k < |lines| :: FixLines(ratio, [], lines)[k] == FixLine(ratio, [], lines[k]);
    } else {
      var fixed := FixLines(ratio, entries, lines);
      forall k | 0 <= k < |fixed| ensures IsLine(fixed[k]) {
        FixLineIsLine(ratio, entries, lines[k]);
      }
      LinesUnlines(fixed);
    }
  }

  lemma NoEntriesNoChange(ratio: Ratio, lines: seq<string>)
    ensures FixLines(ratio, [], lines) == lines
  {
    forall k | 0 <= k < |lines| ensures FixLine(ratio, [], lines[k]) == lines[k] {
      if ParseHeading(lines[k]).Some? {
        assert EntryScores(ratio, [], ParseHeading(lines[k]).value.text) == [];
      }
    }
  }

  lemma MissingPageSilent(ratio: Ratio, entries: seq<OutlineEntry>, page: int)
    ensures Lines("") == [""] && FixLines(ratio, entries, [""]) == [""]
    ensures DiffLog(page, [""], [""]) == []
  {
    assert Find("", NL) == -1;
    DiffLogEmpty(page, [""], [""]);
  }

  lemma LogIsPageLog(ratio: Ratio, outline: seq<OutlineEntry>, page: int, md: string)
    ensures var lines := FixLines(ratio, EntriesOn(outline, page), Lines(md));
            && PageLog(ratio, outline, page, md) == DiffLog(page, Lines(md), lines)
            && (EntriesOn(outline, page) != [] ==> FixPage(ratio, outline, page, md) == Unlines(lines))
  {
  }

  /** A page without entries logs nothing, and a page that logs nothing stays the same text. */
  lemma PageCases(ratio: Ratio, outline: seq<OutlineEntry>, page: int, md: string)
    ensures EntriesOn(outline, page) == [] ==> PageLog(ratio, outline, page, md) == []
    ensures PageLog(ratio, outline, page, md) == [] ==> FixPage(ratio, outline, page, md) == md
  {
    hide Split, Join, FixLines, DiffLog;
    var entries, lines := EntriesOn(outline, page), Lines(md);
    LinesAreLines(md);
    if entries == [] {
      NoEntriesNoChange(ratio, lines);
    }
    FixLinesCount(ratio, entries, lines);
    DiffLogEmpty(page, lines, FixLines(ratio, entries, lines));
  }

  lemma StepPagesStart(ratio: Ratio, outline: seq<OutlineEntry>, pages: map<nat, string>)
    ensures StepPages(ratio, outline, pages, 0) == pages
  {
  }

  /** Correcting page `n` after the pages before it; nothing is stored for a page that logs nothing. */
  lemma StepPagesNext(ratio: Ratio, outline: seq<OutlineEntry>, pages: map<nat, string>, n: nat)
    requires n >= 1
    ensures var before, md := StepPages(ratio, outline, pages, n - 1), PageText(pages, n);
            var log := PageLog(ratio, outline, n, md);
            && PageText(before, n) == md
            && (EntriesOn(outline, n) == [] ==> log == [])
            && StepPages(ratio, outline, pages, n) ==
               if log == [] then before else before[n := FixPage(ratio, outline, n, md)]
  {
    hide PageLog, FixPage;
    PageCases(ratio, outline, n, PageText(pages, n));
    EmptyPageLog(ratio, outline, n);
  }

  lemma FixLinesCount(ratio: Ratio, entries: seq<OutlineEntry>, lines: seq<string>)
    ensures |FixLines(ratio, entries, lines)| == |lines|
  {
  }

  /** The log is empty exactly when no line differs. */
  lemma {:induction false} DiffLogEmpty(page: int, before: seq<string>, after: seq<string>)
    requires |before| == |after|
    ensures DiffLog(page, before, after) == [] <==> before == after
  {
    if before != [] {
      var n := |before| - 1;
      DiffLogEmpty(page, before[..n], after[..n]);
      assert before == before[..n] + [before[n]] && after == after[..n] + [after[n]];
    }
  }

  lemma FixLinesIdempotent(ratio: Ratio, entries: seq<OutlineEntry>, lines: seq<string>)
    ensures FixLines(ratio, entries, FixLines(ratio, entries, lines)) == FixLines(ratio, entries, lines)
  {
    hide FixLine;
    forall k | 0 <= k < |lines|
      ensures FixLine(ratio, entries, FixLine(ratio, entries, lines[k])) == FixLine(ratio, entries, lines[k])
    {
      FixLineIdempotent(ratio, entries, lines[k]);
    }
  }

  lemma PageSecondRun(ratio: Ratio, outline: seq<OutlineEntry>, page: int, md: string)
    ensures PageLog(ratio, outline, page, FixPage(ratio, outline, page, md)) == []
  {
    hide Split, Join, FixLine, OccursAt, DiffLog;
    var entries := EntriesOn(outline, page);
    PageKeepsLines(ratio, outline, page, md);
    var fixed := Lines(FixPage(ratio, outline, page, md));
    assert fixed == FixLines(ratio, entries, Lines(md));
    FixLinesIdempotent(ratio, entries, Lines(md));
    DiffLogEmpty(page, fixed, fixed);
  }

  /** A second run over the corrected pages logs nothing, for every document and outline. */
  lemma {:induction false} SecondRunSilent(ratio: Ratio, outline: seq<OutlineEntry>, pages: map<nat, string>,
    total: nat, n: nat)
    requires n <= total
    ensures StepLog(ratio, outline, StepPages(ratio, outline, pages, total), n) == []
  {
    hide PageLog, FixPage;
    if n > 0 {
      SecondRunSilent(ratio, outline, pages, total, n - 1);
      if n in pages {
        PageSecondRun(ratio, outline, n, pages[n]);
      } else {
        EmptyPageLog(ratio, outline, n);
      }
    }
  }

  lemma EmptyPageLog(ratio: Ratio, outline: seq<OutlineEntry>, page: int)
    ensures PageLog(ratio, outline, page, "") == []
  {
    MissingPageSilent(ratio, EntriesOn(outline, page), page);
  }
}
