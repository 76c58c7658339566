/**
 Splitting the exported markdown into pages at the page-break marker
 (src/services/docling_response_parser.py).

 The source keys the result by the decimal text of the 1-based page number; here the key is the number.
 */
module PageSplit {
  import opened Text

  const PAGE_BREAK: string := "<!-- PAGE_BREAK -->"

  /** Every page that is not blank is kept, and page 1 in any case. */
  predicate Kept(pages: seq<string>, i: nat) {
    1 <= i <= |pages| && (pages[i - 1] != "" || i == 1)
  }

  function KeepPages(pages: seq<string>): map<nat, string> {
    map i: nat | 1 <= i <= |pages| && Kept(pages, i) :: pages[i - 1]
  }

  function StripAll(parts: seq<string>): seq<string> {
    seq(|parts|, k requires 0 <= k < |parts| => Strip(parts[k]))
  }

  function SplitPages(md: string, marker: string): map<nat, string>
    requires marker != ""
  {
    if md == "" then map[] else KeepPages(StripAll(Split(md, marker)))
  }

  method SplitMarkdownByPage(md: string, marker: string) returns (result: map<nat, string>)
    requires marker != ""
    ensures result == SplitPages(md, marker)
  {
    hide Strip, Split, OccursAt;
    if md == "" {
      return map[];
    }
    var pages := Split(md, marker);
    result := map[];
    var i := 1;
    while i <= |pages|
      invariant 1 <= i <= |pages| + 1
      invariant result == KeepPages(StripAll(pages[..i - 1]))
    {
      var stripped := Strip(pages[i - 1]);
      assert StripAll(pages[..i]) == StripAll(pages[..i - 1]) + [stripped];
      if stripped != "" || i == 1 {
        result := result[i := stripped];
      }
      i := i + 1;
    }
    assert pages[..|pages|] == pages;
  }

  /** Which pages there are, and what is on them: the first part and every part that is not blank, stripped. */
  lemma PagesAre(md: string, marker: string)
    requires marker != ""
    ensures md == "" ==> SplitPages(md, marker) == map[]
    ensures md != "" ==>
              var parts, pages := Split(md, marker), SplitPages(md, marker);
              forall i :: (i in pages <==> 1 <= i <= |parts| && (i == 1 || !Blank(parts[i - 1])))
                && (i in pages ==> pages[i] == Strip(parts[i - 1]))
  {
    hide Strip, Blank, Split;
    var parts := Split(md, marker);
    forall i | 0 <= i < |parts|
      ensures Strip(parts[i]) == "" <==> Blank(parts[i])
    {
      StripEmpty(parts[i]);
    }
  }

  /** The same for pages that were joined: whatever whitespace they have around them, each comes back without it. */
  lemma SplitStripsJoin(pages: seq<string>)
    requires |pages| >= 1 && forall k | 0 <= k < |pages| :: !Contains(pages[k], PAGE_BREAK)
    requires Join(pages, PAGE_BREAK) != ""
    ensures var split := SplitPages(Join(pages, PAGE_BREAK), PAGE_BREAK);
            forall i :: (i in split <==> 1 <= i <= |pages| && (i == 1 || !Blank(pages[i - 1])))
              && (i in split ==> split[i] == Strip(pages[i - 1]))
  {
    hide SplitPages, Join, Contains, Strip, Blank;
    PageBreakUnbordered();
    SplitStripsJoinFor(pages, PAGE_BREAK);
  }

  lemma SplitStripsJoinFor(pages: seq<string>, marker: string)
    requires Unbordered(marker) && |pages| >= 1 && forall k | 0 <= k < |pages| :: !Contains(pages[k], marker)
    requires Join(pages, marker) != ""
    ensures var split := SplitPages(Join(pages, marker), marker);
            forall i :: (i in split <==> 1 <= i <= |pages| && (i == 1 || !Blank(pages[i - 1])))
              && (i in split ==> split[i] == Strip(pages[i - 1]))
  {
    hide OccursAt, Strip, Blank, Split, SplitPages, Join, Contains;
    JoinedParts(pages, marker);
    PagesAre(Join(pages, marker), marker);
  }

  lemma JoinedParts(pages: seq<string>, marker: string)
    requires Unbordered(marker) && |pages| >= 1 && forall k | 0 <= k < |pages| :: !Contains(pages[k], marker)
    ensures Split(Join(pages, marker), marker) == pages
  {
    SplitJoin(pages, marker);
  }

  lemma PageBreakUnbordered()
    ensures Unbordered(PAGE_BREAK)
  {
    DistinctFirstUnbordered(PAGE_BREAK);
  }

  /**
   Splitting is the inverse of joining: trimmed pages without the marker come back one by one under
   their own 1-based numbers. Blank pages after the first are dropped, and the empty document has no pages.
   */
  lemma SplitInvertsJoin(pages: seq<string>)
    requires |pages| >= 1
    requires forall k | 0 <= k < |pages| :: Trimmed(pages[k]) && !Contains(pages[k], PAGE_BREAK)
    ensures SplitPages(Join(pages, PAGE_BREAK), PAGE_BREAK) ==
            if pages == [""] then map[] else KeepPages(pages)
  {
    PageBreakUnbordered();
    SplitInvertsJoinFor(pages, PAGE_BREAK);
  }

  lemma SplitInvertsJoinFor(pages: seq<string>, marker: string)
    requires Unbordered(marker) && |pages| >= 1
    requires forall k | 0 <= k < |pages| :: Trimmed(pages[k]) && !Contains(pages[k], marker)
    ensures SplitPages(Join(pages, marker), marker) == if pages == [""] then map[] else KeepPages(pages)
  {
    hide OccursAt, Strip;
    SplitJoin(pages, marker);
    forall k | 0 <= k < |pages| ensures Strip(pages[k]) == pages[k] {
      StripTrimmed(pages[k]);
    }
    assert StripAll(pages) == pages;
    if |pages| > 1 {
      assert |Join(pages, marker)| >= |marker|;
    }
  }
}
