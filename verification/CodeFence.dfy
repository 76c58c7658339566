/**
 Putting a detected code block into fences (src/services/pipeline_viewer.py, `_fuzzy_find_line` and
 `_apply_code_block_fence`).
 */
module CodeFence {
  import opened Text
  import opened Fuzzy

  const FENCE: string := "```"

  const CODE_BLOCK_MATCH_THRESHOLD: real := 0.6

  const FUZZY_LINE_MATCH_THRESHOLD: real := 0.6

  datatype CodeBlock = CodeBlock(language: string, firstLine: string, lastLine: string)

  datatype Change = Change(page: int, oldText: string, newText: string)

  /** What the similarity and the word characters are; both are arbitrary. */
  datatype Env = Env(ratio: Ratio, beyond: char -> bool)

  // ---------------------------------------------------------------------------
  // Fences
  // ---------------------------------------------------------------------------

  /** `re.match(r"^```", line)`. */
  predicate IsFence(line: string) {
    FENCE <= line
  }

  function WordPrefix(s: string, beyond: char -> bool): (n: nat)
    ensures n <= |s|
  {
    if s != "" && IsWord(s[0], beyond) then 1 + WordPrefix(s[1..], beyond) else 0
  }

  /** The language group of a match of "^```(\w*)\s*$". */
  function FenceTag(line: string, beyond: char -> bool): Option<string> {
    if !IsFence(line) then None
    else
      var rest := line[3..];
      var n := WordPrefix(rest, beyond);
      if Blank(rest[n..]) then Some(rest[..n]) else None
  }

  /** A line that can close a fence. */
  predicate Closes(line: string) {
    Strip(line) == FENCE
  }

  /** The first closing line at `j` or later, or -1. */
  function CloseFrom(lines: seq<string>, j: nat): (r: int)
    ensures r == -1 || j <= r < |lines|
    ensures r >= 0 ==> Closes(lines[r])
    ensures forall k | j <= k < (if r < 0 then |lines| else r) :: !Closes(lines[k])
    decreases |lines| - j
  {
    if j >= |lines| then -1 else if Closes(lines[j]) then j else CloseFrom(lines, j + 1)
  }

  /** `fence_depth` after some lines: whether an odd number of them are fences. */
  function Inside(lines: seq<string>): bool {
    if lines == [] then false
    else
      var n := |lines| - 1;
      if IsFence(lines[n]) then !Inside(lines[..n]) else Inside(lines[..n])
  }

  function Fences(lines: seq<string>): nat {
    if lines == [] then 0
    else Fences(lines[..|lines| - 1]) + if IsFence(lines[|lines| - 1]) then 1 else 0
  }

  // ---------------------------------------------------------------------------
  // Finding a line
  // ---------------------------------------------------------------------------

  function Similarity(env: Env, target: string, line: string): real {
    env.ratio(Strip(target), Strip(line))
  }

  function LineScores(env: Env, lines: seq<string>, target: string): seq<Option<real>> {
    seq(|lines|, k requires 0 <= k < |lines| =>
      if Strip(lines[k]) == "" then None else Some(Similarity(env, target, lines[k])))
  }

  /** `_fuzzy_find_line`. */
  function FindLine(env: Env, lines: seq<string>, target: string): int {
    if Strip(target) == "" then -1
    else
      var b := Best(LineScores(env, lines, target));
      if b.1 >= FUZZY_LINE_MATCH_THRESHOLD then b.0 else -1
  }

  method FuzzyFindLine(env: Env, lines: seq<string>, target: string) returns (r: int)
    ensures r == FindLine(env, lines, target)
  {
    hide Strip;
    if Strip(target) == "" {
      return -1;
    }
    var bestIdx, bestRatio := -1, 0.0;
    ghost var scores := LineScores(env, lines, target);
    var i := 0;
    while i < |lines|
      invariant 0 <= i <= |lines|
      invariant (bestIdx, bestRatio) == Best(scores[..i])
    {
      assert scores[..i + 1][..i] == scores[..i];
      if Strip(lines[i]) != "" {
        var r := Similarity(env, target, lines[i]);
        if r > bestRatio {
          bestRatio, bestIdx := r, i;
        }
      }
      i := i + 1;
    }
    assert scores[..|lines|] == scores;
    r := if bestRatio >= FUZZY_LINE_MATCH_THRESHOLD then bestIdx else -1;
  }

  lemma FindLineShape(env: Env, lines: seq<string>, target: string)
    ensures var r := FindLine(env, lines, target);
            && -1 <= r < |lines|
            && (r >= 0 ==> Similarity(env, target, lines[r]) >= FUZZY_LINE_MATCH_THRESHOLD)
  {
    hide Strip;
    BestIsBest(LineScores(env, lines, target));
  }

  // ---------------------------------------------------------------------------
  // The decision
  // ---------------------------------------------------------------------------

  datatype Outcome = Unchanged | Tag(at: nat) | Wrap(start: nat, end: nat)

  datatype Scan = AlreadyTagged | Bare(at: nat) | NoFence

  /** Case 1: walks over the fenced blocks from line `i` on, looking for the one that holds the code. */
  function ScanFences(env: Env, lines: seq<string>, cb: CodeBlock, i: nat): Scan
    decreases |lines| - i
  {
    if i >= |lines| then NoFence
    else
      match FenceTag(lines[i], env.beyond)
      case None => ScanFences(env, lines, cb, i + 1)
      case Some(tag) =>
        var j := CloseFrom(lines, i + 1);
        if j < 0 then ScanFences(env, lines, cb, i + 1)
        else if Similarity(env, cb.firstLine, lines[i + 1]) >= CODE_BLOCK_MATCH_THRESHOLD
        then (if tag != "" then AlreadyTagged else Bare(i))
        else ScanFences(env, lines, cb, j + 1)
  }

  /** Case 2: the region to be wrapped. */
  function FindRegion(env: Env, lines: seq<string>, cb: CodeBlock): Outcome {
    FindLineShape(env, lines, cb.firstLine);
    var start := FindLine(env, lines, cb.firstLine);
    if start < 0 || Inside(lines[..start]) then Unchanged
    else
      FindLineShape(env, lines[start..], cb.lastLine);
      var offset := FindLine(env, lines[start..], cb.lastLine);
      Wrap(start, start + if offset < 0 then 0 else offset)
  }

  function Decide(env: Env, lines: seq<string>, cb: CodeBlock): Outcome {
    match ScanFences(env, lines, cb, 0)
    case AlreadyTagged => Unchanged
    case Bare(i) => Tag(i)
    case NoFence => FindRegion(env, lines, cb)
  }

  ghost predicate Fits(lines: seq<string>, o: Outcome) {
    && (o.Tag? ==> o.at < |lines|)
    && (o.Wrap? ==> o.start <= o.end < |lines|)
  }

  /** The lines after the decision has been carried out. */
  function Carry(lines: seq<string>, o: Outcome, language: string): seq<string>
    requires Fits(lines, o)
  {
    match o
    case Unchanged => lines
    case Tag(i) => lines[i := FENCE + language]
    case Wrap(start, end) =>
      lines[..start] + ([FENCE + language] + lines[start..end + 1] + [FENCE]) + lines[end + 1..]
  }

  lemma {:induction false} ScanFits(env: Env, lines: seq<string>, cb: CodeBlock, i: nat)
    ensures var s := ScanFences(env, lines, cb, i);
            s.Bare? ==> i <= s.at < |lines| && FenceTag(lines[s.at], env.beyond) == Some("")
    decreases |lines| - i
  {
    hide FenceTag, Strip, Closes;
    if i < |lines| && FenceTag(lines[i], env.beyond).Some? && CloseFrom(lines, i + 1) >= 0 {
      ScanFits(env, lines, cb, CloseFrom(lines, i + 1) + 1);
    }
    if i < |lines| {
      ScanFits(env, lines, cb, i + 1);
    }
  }

  lemma DecideFits(env: Env, lines: seq<string>, cb: CodeBlock)
    ensures Fits(lines, Decide(env, lines, cb))
  {
    hide FenceTag, Strip, ScanFences, FindLine;
    ScanFits(env, lines, cb, 0);
    FindLineShape(env, lines, cb.firstLine);
    var start := FindLine(env, lines, cb.firstLine);
    if start >= 0 {
      FindLineShape(env, lines[start..], cb.lastLine);
    }
  }

  function FenceLines(env: Env, lines: seq<string>, cb: CodeBlock): seq<string> {
    DecideFits(env, lines, cb);
    Carry(lines, Decide(env, lines, cb), cb.language)
  }

  // ---------------------------------------------------------------------------
  // The implementation
  // ---------------------------------------------------------------------------

  method FindClose(lines: seq<string>, from: nat) returns (j: int)
    requires from <= |lines|
    ensures j == CloseFrom(lines, from)
  {
    hide Closes;
    j := from;
    while j < |lines|
      invariant from <= j <= |lines| && CloseFrom(lines, j) == CloseFrom(lines, from)
    {
      if Closes(lines[j]) {
        return;
      }
      j := j + 1;
    }
    j := -1;
  }

  method FindTagged(env: Env, lines: seq<string>, cb: CodeBlock) returns (s: Scan)
    ensures s == ScanFences(env, lines, cb, 0)
  {
    hide FenceTag, Closes, Strip;
    var skipTo := -1;
    var i := 0;
    while i < |lines|
      invariant 0 <= i <= |lines| && -1 <= skipTo < |lines|
      invariant ScanFences(env, lines, cb, 0) == ScanFences(env, lines, cb, if i <= skipTo then skipTo + 1 else i)
    {
      if i > skipTo {
        var tag := FenceTag(lines[i], env.beyond);
        if tag.Some? {
          var j := FindClose(lines, i + 1);
          if j >= 0 {
            if Similarity(env, cb.firstLine, lines[i + 1]) >= CODE_BLOCK_MATCH_THRESHOLD {
              return if tag.value != "" then AlreadyTagged else Bare(i);
            }
            skipTo := j;
          }
        }
      }
      i := i + 1;
    }
    s := NoFence;
  }

  method FenceDepth(lines: seq<string>, n: nat) returns (depth: int)
    requires n <= |lines|
    ensures depth == if Inside(lines[..n]) then 1 else 0
  {
    depth := 0;
    var k := 0;
    while k < n
      invariant 0 <= k <= n && depth == if Inside(lines[..k]) then 1 else 0
    {
      assert lines[..k + 1][..k] == lines[..k];
      if IsFence(lines[k]) {
        depth := 1 - depth;
      }
      k := k + 1;
    }
  }

  method ApplyCodeBlockFence(env: Env, pageMd: string, cb: CodeBlock, page: int)
    returns (md: string, change: Option<Change>)
    ensures var lines := Lines(pageMd);
            var o := Decide(env, lines, cb);
            && md == Unlines(FenceLines(env, lines, cb))
            && (change.None? <==> o.Unchanged?)
            && (change.None? ==> md == pageMd)
            && Fits(lines, o)
            && (o.Tag? ==> change == Some(Change(page, lines[o.at], FENCE + cb.language)))
            && (o.Wrap? ==>
                var code := lines[o.start..o.end + 1];
                change == Some(Change(page, Preview(Unlines(code)),
                                      Preview(Unlines([FENCE + cb.language] + code + [FENCE])))))
  {
    hide FenceTag, Closes, Strip, Split, Join, FindLine, ScanFences, Inside;
    var lines := Lines(pageMd);
    LinesAreLines(pageMd);
    DecideFits(env, lines, cb);
    var s := FindTagged(env, lines, cb);
    if s.AlreadyTagged? {
      return pageMd, None;
    }
    if s.Bare? {
      var tagged := lines[s.at := FENCE + cb.language];
      return Unlines(tagged), Some(Change(page, lines[s.at], FENCE + cb.language));
    }
    var start := FuzzyFindLine(env, lines, cb.firstLine);
    FindLineShape(env, lines, cb.firstLine);
    if start < 0 {
      return pageMd, None;
    }
    var depth := FenceDepth(lines, start);
    if depth != 0 {
      return pageMd, None;
    }
    var end := FuzzyFindLine(env, lines[start..], cb.lastLine);
    FindLineShape(env, lines[start..], cb.lastLine);
    if end < 0 {
      end := 0;
    }
    end := end + start;
    var code := lines[start..end + 1];
    var oldText := Unlines(code);
    var newText := FENCE + cb.language + NL + oldText + NL + FENCE;
    FencedText(cb.language, code);
    UnlinesNested(lines[..start], [FENCE + cb.language] + code + [FENCE], lines[end + 1..]);
    md := Unlines(lines[..start] + [newText] + lines[end + 1..]);
    change := Some(Change(page, Preview(oldText), Preview(newText)));
  }

  lemma FencedText(language: string, code: seq<string>)
    requires |code| >= 1
    ensures FENCE + language + NL + Unlines(code) + NL + FENCE == Unlines([FENCE + language] + code + [FENCE])
  {
    hide Join;
    UnlinesConcat([FENCE + language] + code, [FENCE]);
    UnlinesConcat([FENCE + language], code);
    UnlinesOne(FENCE + language);
    UnlinesOne(FENCE);
  }

  lemma UnlinesOne(s: string)
    ensures Unlines([s]) == s
  {
  }

  // ---------------------------------------------------------------------------
  // What is kept
  // ---------------------------------------------------------------------------

  /** The lines without the two at places `i < j`. */
  function Erase(lines: seq<string>, i: nat, j: nat): seq<string>
    requires i < j < |lines|
  {
    lines[..i] + lines[i + 1..j] + lines[j + 1..]
  }

  /**
   The result leaves the page alone, or changes one bare fence line into a tagged one, or puts two
   fence lines around a stretch of lines that starts at a line similar to the block's first line and
   outside of every fence; erasing the two gives back the page.
   */
  lemma FenceShape(env: Env, lines: seq<string>, cb: CodeBlock)
    ensures var o, after := Decide(env, lines, cb), FenceLines(env, lines, cb);
            && Fits(lines, o)
            && (o.Unchanged? ==> after == lines)
            && (o.Tag? ==>
                && FenceTag(lines[o.at], env.beyond) == Some("")
                && |after| == |lines| && after[o.at] == FENCE + cb.language
                && forall k | 0 <= k < |lines| && k != o.at :: after[k] == lines[k])
            && (o.Wrap? ==>
                && |after| == |lines| + 2
                && after[o.start] == FENCE + cb.language && after[o.end + 2] == FENCE
                && Erase(after, o.start, o.end + 2) == lines
                && IsRegion(env, lines, cb, o.start, o.end))
  {
    hide FenceTag, Strip, ScanFences, FindLine, Inside, IsRegion;
    DecideFits(env, lines, cb);
    var o := Decide(env, lines, cb);
    if o.Wrap? {
      WrapRegion(env, lines, cb);
      EraseWrapped(lines, o.start, o.end, cb.language);
      hide Decide, Carry, Similarity, Erase;
    } else if o.Tag? {
      TagsBare(env, lines, cb);
      hide Decide;
    }
  }

  /**
   The region starts at the line that looking up the block's first line finds, outside of every fence, and goes on
   to the line that looking up its last line from there on finds; it is one line when that finds none.
   */
  ghost predicate IsRegion(env: Env, lines: seq<string>, cb: CodeBlock, start: nat, end: nat) {
    start <= end < |lines| && !Inside(lines[..start])
    && Found(env, lines, cb.firstLine, start)
    && (if exists k :: Found(env, lines[start..], cb.lastLine, k)
        then Found(env, lines[start..], cb.lastLine, end - start)
        else end == start)
  }

  lemma TagsBare(env: Env, lines: seq<string>, cb: CodeBlock)
    requires Decide(env, lines, cb).Tag?
    ensures var at := Decide(env, lines, cb).at; at < |lines| && FenceTag(lines[at], env.beyond) == Some("")
  {
    hide FenceTag, Strip, ScanFences, FindLine, Inside;
    ScanFits(env, lines, cb, 0);
  }

  lemma WrapRegion(env: Env, lines: seq<string>, cb: CodeBlock)
    requires Decide(env, lines, cb).Wrap?
    ensures var o := Decide(env, lines, cb); IsRegion(env, lines, cb, o.start, o.end)
  {
    hide FenceTag, Strip, ScanFences, FindLine, Inside, Similarity, Found;
    FindLineIff(env, lines, cb.firstLine);
    FindLineIff(env, lines[Decide(env, lines, cb).start..], cb.lastLine);
  }

  /**
   What looking a line up means: the target is not blank, and line `k` is the first of the nonblank lines most
   similar to it, at a similarity of at least 0.6.
   */
  ghost predicate Found(env: Env, lines: seq<string>, target: string, k: int) {
    Strip(target) != ""
    && exists r :: IsBest(LineScores(env, lines, target), k, r) && k >= 0 && r >= 0.6
  }

  /** The same said out: similarities are those of the stripped texts, and blank lines do not take part. */
  lemma FoundMeans(env: Env, lines: seq<string>, target: string, k: int)
    ensures Found(env, lines, target, k) <==>
            Strip(target) != "" && 0 <= k < |lines| && Strip(lines[k]) != ""
            && var r := env.ratio(Strip(target), Strip(lines[k]));
               r >= 0.6
               && (forall j | 0 <= j < |lines| && Strip(lines[j]) != "" ::
                     env.ratio(Strip(target), Strip(lines[j])) <= r)
               && (forall j | 0 <= j < k && Strip(lines[j]) != "" :: env.ratio(Strip(target), Strip(lines[j])) < r)
  {
    hide Strip;
    var scores := LineScores(env, lines, target);
    if 0 <= k < |lines| && Strip(lines[k]) != "" {
      var r := env.ratio(Strip(target), Strip(lines[k]));
      assert scores[k] == Some(r);
      assert forall j | 0 <= j < |lines| && Strip(lines[j]) != "" ::
          scores[j] == Some(env.ratio(Strip(target), Strip(lines[j])));
      if r >= 0.6 && (forall j | 0 <= j < |lines| && Strip(lines[j]) != "" ::
                        env.ratio(Strip(target), Strip(lines[j])) <= r)
         && (forall j | 0 <= j < k && Strip(lines[j]) != "" :: env.ratio(Strip(target), Strip(lines[j])) < r) {
        assert IsBest(scores, k, r);
      }
    }
  }

  lemma FindLineIff(env: Env, lines: seq<string>, target: string)
    ensures var r := FindLine(env, lines, target);
            -1 <= r < |lines| && (r >= 0 ==> Found(env, lines, target, r))
            && (r < 0 ==> forall k :: !Found(env, lines, target, k))
  {
    hide Strip;
    var scores := LineScores(env, lines, target);
    BestIsBest(scores);
    forall k | Found(env, lines, target, k)
      ensures FindLine(env, lines, target) == k
    {
      var r :| IsBest(scores, k, r) && k >= 0 && r >= 0.6;
      BestUnique(scores, k, r);
    }
  }

  lemma FoundSimilar(env: Env, lines: seq<string>, target: string, k: int)
    requires Found(env, lines, target, k)
    ensures 0 <= k < |lines| && Similarity(env, target, lines[k]) >= FUZZY_LINE_MATCH_THRESHOLD
  {
    hide Strip;
  }

  // --- which fence is looked at, and which is taken ---

  /** The opening lines the scan looks at from line `i` on when none of them is taken. */
  function Openings(lines: seq<string>, beyond: char -> bool, i: nat): seq<nat>
    decreases |lines| - i
  {
    if i >= |lines| then []
    else if FenceTag(lines[i], beyond).None? || CloseFrom(lines, i + 1) < 0 then Openings(lines, beyond, i + 1)
    else [i] + Openings(lines, beyond, CloseFrom(lines, i + 1) + 1)
  }

  /** Each opening is a fence line that is closed, and closed above the next. */
  predicate Paired(lines: seq<string>, beyond: char -> bool, os: seq<nat>) {
    os == []
    || (os[0] < |lines| && FenceTag(lines[os[0]], beyond).Some? && CloseFrom(lines, os[0] + 1) >= 0
        && (|os| > 1 ==> CloseFrom(lines, os[0] + 1) < os[1])
        && Paired(lines, beyond, os[1..]))
  }

  lemma {:induction false} OpeningsPaired(lines: seq<string>, beyond: char -> bool, i: nat)
    ensures var os := Openings(lines, beyond, i);
            Paired(lines, beyond, os) && (os != [] ==> os[0] >= i)
    decreases |lines| - i
  {
    hide FenceTag, Closes;
    if i < |lines| {
      if FenceTag(lines[i], beyond).None? || CloseFrom(lines, i + 1) < 0 {
        OpeningsPaired(lines, beyond, i + 1);
      } else {
        var rest := Openings(lines, beyond, CloseFrom(lines, i + 1) + 1);
        OpeningsPaired(lines, beyond, CloseFrom(lines, i + 1) + 1);
        assert ([i] + rest)[1..] == rest;
      }
    }
  }

  /** The block begins below this opening. */
  predicate Begins(env: Env, lines: seq<string>, cb: CodeBlock, at: nat) {
    at + 1 < |lines| && env.ratio(Strip(cb.firstLine), Strip(lines[at + 1])) >= 0.6
  }

  /** The first of `os` below which the block begins, if there is one. */
  function FirstBegin(env: Env, lines: seq<string>, cb: CodeBlock, os: seq<nat>): Option<nat> {
    if os == [] then None
    else if Begins(env, lines, cb, os[0]) then Some(os[0])
    else FirstBegin(env, lines, cb, os[1..])
  }

  lemma {:induction false} FirstBeginIs(env: Env, lines: seq<string>, cb: CodeBlock, os: seq<nat>)
    ensures match FirstBegin(env, lines, cb, os)
            case None => forall k | 0 <= k < |os| :: !Begins(env, lines, cb, os[k])
            case Some(at) =>
              exists k | 0 <= k < |os| :: os[k] == at && Begins(env, lines, cb, at)
                                         && forall j | 0 <= j < k :: !Begins(env, lines, cb, os[j])
  {
    hide Begins;
    if os != [] && !Begins(env, lines, cb, os[0]) {
      FirstBeginIs(env, lines, cb, os[1..]);
      if FirstBegin(env, lines, cb, os[1..]).Some? {
        var k :| 0 <= k < |os[1..]| && os[1..][k] == FirstBegin(env, lines, cb, os[1..]).value
                 && forall j | 0 <= j < k :: !Begins(env, lines, cb, os[1..][j]);
        assert os[k + 1] == os[1..][k];
        assert forall j | 0 < j < k + 1 :: os[j] == os[1..][j - 1];
      }
    }
  }

  /**
   The scan takes the first opening below which the block begins: to tag it when it is bare, to leave the page
   alone when it is tagged; and it finds nothing exactly when there is none.
   */
  lemma {:induction false} ScanTakesFirst(env: Env, lines: seq<string>, cb: CodeBlock, i: nat)
    ensures ScanFences(env, lines, cb, i) ==
            match FirstBegin(env, lines, cb, Openings(lines, env.beyond, i))
            case None => NoFence
            case Some(at) =>
              if at < |lines| && FenceTag(lines[at], env.beyond) == Some("") then Bare(at) else AlreadyTagged
    decreases |lines| - i
  {
    hide FenceTag, Closes, Strip;
    if i < |lines| {
      if FenceTag(lines[i], env.beyond).None? || CloseFrom(lines, i + 1) < 0 {
        ScanTakesFirst(env, lines, cb, i + 1);
      } else {
        var rest := Openings(lines, env.beyond, CloseFrom(lines, i + 1) + 1);
        ScanTakesFirst(env, lines, cb, CloseFrom(lines, i + 1) + 1);
        assert ([i] + rest)[0] == i && ([i] + rest)[1..] == rest;
      }
    }
  }

  /**
   The whole decision: the first closed fence below which the block begins settles it; without one, the line
   most similar to the block's first line does, unless it is too dissimilar or stands inside a fence.
   */
  lemma DecidesBy(env: Env, lines: seq<string>, cb: CodeBlock)
    ensures var o := Decide(env, lines, cb);
            match FirstBegin(env, lines, cb, Openings(lines, env.beyond, 0))
            case Some(at) =>
              o == if at < |lines| && FenceTag(lines[at], env.beyond) == Some("") then Tag(at) else Unchanged
            case None =>
              (o.Unchanged? || o.Wrap?)
              && (o.Wrap? <==>
                    exists k :: Found(env, lines, cb.firstLine, k) && 0 <= k < |lines| && !Inside(lines[..k]))
  {
    hide FenceTag, Strip, ScanFences, FindLine, Inside, Similarity, Found, Openings, FirstBegin;
    ScanTakesFirst(env, lines, cb, 0);
    FindLineIff(env, lines, cb.firstLine);
    FoundOnce(env, lines, cb.firstLine);
  }

  lemma FoundOnce(env: Env, lines: seq<string>, target: string)
    ensures forall j, k :: Found(env, lines, target, j) && Found(env, lines, target, k) ==> j == k
  {
    hide Strip;
    forall j, k | Found(env, lines, target, j) && Found(env, lines, target, k)
      ensures j == k
    {
      var r :| IsBest(LineScores(env, lines, target), j, r);
      BestUnique(LineScores(env, lines, target), j, r);
      var q :| IsBest(LineScores(env, lines, target), k, q);
      BestUnique(LineScores(env, lines, target), k, q);
    }
  }

  // --- what the fence patterns accept ---

  /** A fence line is three backticks, a tag of word characters, and whitespace. */
  lemma FenceTagIff(line: string, beyond: char -> bool, tag: string)
    ensures FenceTag(line, beyond) == Some(tag) <==>
            IsWordText(tag, beyond) && exists w :: Blank(w) && line == FENCE + tag + w
  {
    if FenceTag(line, beyond) == Some(tag) {
      WordPrefixIs(line[3..], beyond);
      var w := line[3 + |tag|..];
      assert line[3..][|tag|..] == w && line == FENCE + tag + w;
    }
    if IsWordText(tag, beyond) && exists w :: Blank(w) && line == FENCE + tag + w {
      var w :| Blank(w) && line == FENCE + tag + w;
      assert line[3..] == tag + w;
      WordPrefixOf(tag, w, beyond);
      assert (tag + w)[|tag|..] == w && (tag + w)[..|tag|] == tag;
    }
  }

  lemma {:induction false} WordPrefixIs(s: string, beyond: char -> bool)
    ensures IsWordText(s[..WordPrefix(s, beyond)], beyond)
  {
    if s != "" && IsWord(s[0], beyond) {
      WordPrefixIs(s[1..], beyond);
      var n := WordPrefix(s[1..], beyond);
      assert s[..n + 1] == [s[0]] + s[1..][..n];
    }
  }

  lemma {:induction false} WordPrefixOf(tag: string, w: string, beyond: char -> bool)
    requires IsWordText(tag, beyond) && Blank(w)
    ensures WordPrefix(tag + w, beyond) == |tag|
  {
    if tag == "" {
      assert tag + w == w;
    } else {
      assert (tag + w)[1..] == tag[1..] + w;
      WordPrefixOf(tag[1..], w, beyond);
    }
  }

  lemma EraseWrapped(lines: seq<string>, start: nat, end: nat, language: string)
    requires start <= end < |lines|
    ensures var after := Carry(lines, Wrap(start, end), language);
            && |after| == |lines| + 2
            && after[start] == FENCE + language && after[end + 2] == FENCE
            && (forall k | start <= k <= end :: after[k + 1] == lines[k])
            && Erase(after, start, end + 2) == lines
  {
    var after := Carry(lines, Wrap(start, end), language);
    var code := lines[start..end + 1];
    var fenced := [FENCE + language] + code + [FENCE];
    assert after == lines[..start] + fenced + lines[end + 1..];
    assert after[..start] == lines[..start] && after[start + 1..end + 2] == code;
    assert after[end + 3..] == lines[end + 1..];
    assert lines == lines[..start] + code + lines[end + 1..];
  }

  lemma {:induction false} FencesConcat(a: seq<string>, b: seq<string>)
    ensures Fences(a + b) == Fences(a) + Fences(b)
    decreases |b|
  {
    if b == [] {
      assert a + b == a;
    } else {
      assert (a + b)[..|a + b| - 1] == a + b[..|b| - 1];
      FencesConcat(a, b[..|b| - 1]);
    }
  }

  lemma FencesOne(line: string)
    ensures Fences([line]) == if IsFence(line) then 1 else 0
  {
    assert [line][..0] == [];
  }

  lemma FencesAround(a: seq<string>, c: seq<string>, b: seq<string>)
    ensures Fences(a + c + b) == Fences(a) + Fences(c) + Fences(b)
  {
    FencesConcat(a + c, b);
    FencesConcat(a, c);
  }

  lemma TagIsFence(line: string, beyond: char -> bool)
    requires FenceTag(line, beyond).Some?
    ensures IsFence(line)
  {
  }

  /** The number of fence lines stays or grows by two: fences that were balanced stay so. */
  lemma FencesKeptEven(env: Env, lines: seq<string>, cb: CodeBlock)
    ensures Fences(FenceLines(env, lines, cb)) ==
            Fences(lines) + if Decide(env, lines, cb).Wrap? then 2 else 0
  {
    hide FenceTag, Strip, Inside, ScanFences, FindRegion, Fences;
    FenceShape(env, lines, cb);
    var o := Decide(env, lines, cb);
    var open := FENCE + cb.language;
    if o.Tag? {
      TagIsFence(lines[o.at], env.beyond);
      FencesAround(lines[..o.at], [lines[o.at]], lines[o.at + 1..]);
      FencesAround(lines[..o.at], [open], lines[o.at + 1..]);
      FencesOne(lines[o.at]);
      FencesOne(open);
      assert lines == lines[..o.at] + [lines[o.at]] + lines[o.at + 1..];
      assert lines[o.at := open] == lines[..o.at] + [open] + lines[o.at + 1..];
    } else if o.Wrap? {
      var a, code, b := lines[..o.start], lines[o.start..o.end + 1], lines[o.end + 1..];
      FencesAround(a, code, b);
      FencesAround(a, [open] + code + [FENCE], b);
      FencesAround([open], code, [FENCE]);
      FencesOne(open);
      FencesOne(FENCE);
      assert lines == a + code + b;
    }
  }

  /** `Inside` is the parity of the number of fences. */
  lemma {:induction false} InsideIsOdd(lines: seq<string>)
    ensures Inside(lines) <==> Fences(lines) % 2 == 1
  {
    if lines != [] {
      InsideIsOdd(lines[..|lines| - 1]);
    }
  }

  // ---------------------------------------------------------------------------
  // A second application
  // ---------------------------------------------------------------------------

  predicate IsWordText(s: string, beyond: char -> bool) {
    forall k | 0 <= k < |s| :: IsWord(s[k], beyond)
  }

  lemma {:induction false} WordPrefixAll(s: string, beyond: char -> bool)
    requires IsWordText(s, beyond)
    ensures WordPrefix(s, beyond) == |s|
  {
    if s != "" {
      WordPrefixAll(s[1..], beyond);
    }
  }

  lemma TagOfOpening(language: string, beyond: char -> bool)
    requires IsWordText(language, beyond)
    ensures FenceTag(FENCE + language, beyond) == Some(language)
  {
    WordPrefixAll(language, beyond);
    assert (FENCE + language)[3..] == language;
    assert language[..|language|] == language;
  }

  /** A bare fence could close a block opened above it. */
  lemma BareCloses(line: string, beyond: char -> bool)
    requires FenceTag(line, beyond) == Some("")
    ensures Closes(line)
  {
    var rest := line[3..];
    assert rest[0..] == rest;
    assert line == "" + FENCE + rest;
    StripIs("", FENCE, rest);
  }

  lemma FenceCloses()
    ensures Closes(FENCE)
  {
    StripTrimmed(FENCE);
  }

  lemma {:induction false} CloseFromSame(lines: seq<string>, after: seq<string>, j: nat, n: nat)
    requires n <= |lines| && n <= |after| && lines[..n] == after[..n]
    requires 0 <= CloseFrom(lines, j) < n
    ensures CloseFrom(after, j) == CloseFrom(lines, j)
    decreases |lines| - j
  {
    hide Closes;
    assert lines[j] == lines[..n][j] == after[..n][j] == after[j];
    if !Closes(lines[j]) {
      CloseFromSame(lines, after, j + 1, n);
    }
  }

  lemma {:induction false} CloseFromTail(lines: seq<string>, after: seq<string>, j: nat)
    requires |lines| == |after| && j <= |lines| && lines[j..] == after[j..]
    ensures CloseFrom(after, j) == CloseFrom(lines, j)
    decreases |lines| - j
  {
    hide Closes;
    if j < |lines| {
      assert lines[j] == lines[j..][0] == after[j..][0] == after[j];
      assert lines[j + 1..] == lines[j..][1..] && after[j + 1..] == after[j..][1..];
      CloseFromTail(lines, after, j + 1);
    }
  }

  lemma ScanAtTag(env: Env, lines: seq<string>, cb: CodeBlock, at: nat)
    requires at < |lines| && ScanFences(env, lines, cb, at) == Bare(at) && IsWordText(cb.language, env.beyond)
    ensures ScanFences(env, lines[at := FENCE + cb.language], cb, at) ==
            if cb.language != "" then AlreadyTagged else Bare(at)
  {
    hide FenceTag, Closes, Strip, IsWordText, Similarity;
    TagOfOpening(cb.language, env.beyond);
    CloseFromTail(lines, lines[at := FENCE + cb.language], at + 1);
    ScanFits(env, lines, cb, at + 1);
    if FenceTag(lines[at], env.beyond).Some? && CloseFrom(lines, at + 1) >= 0 {
      ScanFits(env, lines, cb, CloseFrom(lines, at + 1) + 1);
    }
  }

  /** Both scans pass over a closed fence above line `at` in which the block does not begin. */
  lemma ScanSkips(env: Env, lines: seq<string>, after: seq<string>, cb: CodeBlock, at: nat, i: nat)
    requires i < at < |lines| && after == lines[at := FENCE + cb.language]
    requires ScanFences(env, lines, cb, i) == Bare(at)
    requires FenceTag(lines[i], env.beyond).Some? && CloseFrom(lines, i + 1) >= 0
    ensures var j := CloseFrom(lines, i + 1);
            ScanFences(env, lines, cb, j + 1) == Bare(at)
            && ScanFences(env, after, cb, i) == ScanFences(env, after, cb, j + 1)
  {
    hide FenceTag, Closes, Strip, Similarity;
    var j := CloseFrom(lines, i + 1);
    ScanFits(env, lines, cb, j + 1);
    CloseFromSame(lines, after, i + 1, at);
    hide CloseFrom;
  }

  /** Tagging a bare fence does not change how the scan comes to it. */
  lemma {:induction false} ScanAfterTag(env: Env, lines: seq<string>, cb: CodeBlock, at: nat, i: nat)
    requires ScanFences(env, lines, cb, i) == Bare(at) && at < |lines|
    requires IsWordText(cb.language, env.beyond)
    ensures ScanFences(env, lines[at := FENCE + cb.language], cb, i) ==
            if cb.language != "" then AlreadyTagged else Bare(at)
    decreases |lines| - i
  {
    hide FenceTag, Closes, Strip, IsWordText, Similarity;
    var after := lines[at := FENCE + cb.language];
    ScanFits(env, lines, cb, i);
    if i == at {
      ScanAtTag(env, lines, cb, at);
    } else if FenceTag(lines[i], env.beyond).Some? && CloseFrom(lines, i + 1) >= 0 {
      var j := CloseFrom(lines, i + 1);
      ScanSkips(env, lines, after, cb, at, i);
      hide ScanFences, CloseFrom;
      ScanAfterTag(env, lines, cb, at, j + 1);
    } else {
      if FenceTag(lines[i], env.beyond).Some? {
        BareCloses(lines[at], env.beyond);
      }
      ScanAfterTag(env, lines, cb, at, i + 1);
    }
  }

  /** Every fence that the scan sees open above line `start` is closed above it. */
  ghost predicate ClosedAbove(lines: seq<string>, beyond: char -> bool, i: nat, start: nat)
    decreases |lines| - i
  {
    if i >= start || i >= |lines| then i == start
    else if FenceTag(lines[i], beyond).None? then ClosedAbove(lines, beyond, i + 1, start)
    else
      var j := CloseFrom(lines, i + 1);
      0 <= j < start && ClosedAbove(lines, beyond, j + 1, start)
  }

  /** The scan of a page that agrees above line `start` comes to that line unchanged. */
  lemma {:induction false} ScanReaches(env: Env, lines: seq<string>, after: seq<string>, cb: CodeBlock,
    start: nat, i: nat)
    requires ScanFences(env, lines, cb, i) == NoFence && ClosedAbove(lines, env.beyond, i, start)
    requires start < |lines| && start <= |after| && lines[..start] == after[..start]
    ensures ScanFences(env, after, cb, i) == ScanFences(env, after, cb, start)
    decreases |lines| - i
  {
    hide FenceTag, Closes, Strip;
    if i < start {
      assert lines[i] == lines[..start][i] == after[..start][i] == after[i];
      if FenceTag(lines[i], env.beyond).None? {
        ScanReaches(env, lines, after, cb, start, i + 1);
      } else {
        var j := CloseFrom(lines, i + 1);
        CloseFromSame(lines, after, i + 1, start);
        assert lines[i + 1] == lines[..start][i + 1] == after[..start][i + 1] == after[i + 1];
        ScanReaches(env, lines, after, cb, start, j + 1);
      }
    }
  }

  /** At the inserted opening the scan finds the block again. */
  lemma ScanAtOpening(env: Env, after: seq<string>, cb: CodeBlock, start: nat, close: nat)
    requires IsWordText(cb.language, env.beyond)
    requires start + 1 < close < |after| && after[start] == FENCE + cb.language && after[close] == FENCE
    requires Similarity(env, cb.firstLine, after[start + 1]) >= CODE_BLOCK_MATCH_THRESHOLD
    ensures ScanFences(env, after, cb, start) == if cb.language != "" then AlreadyTagged else Bare(start)
  {
    hide Strip, IsWordText, Closes;
    TagOfOpening(cb.language, env.beyond);
    FenceCloses();
    hide FenceTag;
  }

  /** The condition under which fencing is stable; it can be read off the page before the call. */
  ghost predicate Stable(env: Env, lines: seq<string>, cb: CodeBlock) {
    && IsWordText(cb.language, env.beyond)
    && (Decide(env, lines, cb).Wrap? ==> ClosedAbove(lines, env.beyond, 0, Decide(env, lines, cb).start))
  }

  /** Fencing the same block a second time changes nothing. */
  lemma SecondTimeNothing(env: Env, lines: seq<string>, cb: CodeBlock)
    requires Stable(env, lines, cb)
    ensures FenceLines(env, FenceLines(env, lines, cb), cb) == FenceLines(env, lines, cb)
  {
    hide FenceTag, Strip, FindLine, Inside, IsWordText, ScanFences, ClosedAbove;
    FenceShape(env, lines, cb);
    var o, after := Decide(env, lines, cb), FenceLines(env, lines, cb);
    if o.Tag? {
      ScanAfterTag(env, lines, cb, o.at, 0);
    } else if o.Wrap? {
      EraseWrapped(lines, o.start, o.end, cb.language);
      assert lines[..o.start] == after[..o.start];
      assert after[o.start + 1] == lines[o.start];
      ScanReaches(env, lines, after, cb, o.start, 0);
      ScanAtOpening(env, after, cb, o.start, o.end + 2);
    }
  }

  /** The same for pages: no text changes when the block is fenced again. */
  lemma SecondTimeSamePage(env: Env, pageMd: string, cb: CodeBlock)
    requires Stable(env, Lines(pageMd), cb)
    ensures var once := Unlines(FenceLines(env, Lines(pageMd), cb));
            Lines(once) == FenceLines(env, Lines(pageMd), cb)
            && Unlines(FenceLines(env, Lines(once), cb)) == once
  {
    hide Strip, Split, Join, Decide, ScanFences, Inside, FindRegion;
    var lines := Lines(pageMd);
    LinesAreLines(pageMd);
    FenceShape(env, lines, cb);
    SecondTimeNothing(env, lines, cb);
    var o, after := Decide(env, lines, cb), FenceLines(env, lines, cb);
    WordTextIsLine(cb.language, env.beyond);
    if o.Wrap? {
      EraseWrapped(lines, o.start, o.end, cb.language);
    }
    CarriedAreLines(lines, o, cb.language);
    LinesUnlines(after);
  }

  lemma WordTextIsLine(s: string, beyond: char -> bool)
    requires IsWordText(s, beyond)
    ensures IsLine(FENCE + s)
  {
  }

  lemma CarriedAreLines(lines: seq<string>, o: Outcome, language: string)
    requires Fits(lines, o) && IsLine(FENCE + language) && |lines| >= 1
    requires forall k | 0 <= k < |lines| :: IsLine(lines[k])
    ensures |Carry(lines, o, language)| >= 1
    ensures forall k | 0 <= k < |Carry(lines, o, language)| :: IsLine(Carry(lines, o, language)[k])
  {
    assert IsLine(FENCE);
    hide IsLine;
  }

  /**
   Below a fence that is never closed the second application can wrap its own opening line. The page
   has two unclosed fences and a code line with one backtick lost; the inserted opening is more similar to the
   block's first line than that line is. The similarities are the ones `difflib` gives these texts.
   */
  lemma UnclosedFenceUnstable(env: Env)
    requires env.ratio("``py", "```") == 4.0 / 7.0 && env.ratio("``py", "```x") == 0.5
    requires env.ratio("``py", "`py") == 6.0 / 7.0 && env.ratio("``py", "```py") == 8.0 / 9.0
    ensures var lines, cb := ["```", "```x", "`py"], CodeBlock("py", "``py", "");
            && Decide(env, lines, cb) == Wrap(2, 2) && !ClosedAbove(lines, env.beyond, 0, 2)
            && FenceLines(env, lines, cb) == ["```", "```x", "```py", "`py", "```"]
            && FenceLines(env, FenceLines(env, lines, cb), cb) != FenceLines(env, lines, cb)
  {
    var lines, cb := ["```", "```x", "`py"], CodeBlock("py", "``py", "");
    var after := ["```", "```x", "```py", "`py", "```"];
    SmallStrips();
    assert FenceTag("```", env.beyond) == Some("") by { TagOfOpening("", env.beyond); assert FENCE + "" == "```"; }
    assert FenceTag("```x", env.beyond) == Some("x") by { TagOfOpening("x", env.beyond); assert FENCE + "x" == "```x"; }
    hide Strip, FenceTag;
    assert SmallEnv(env);
    SmallFirst(env, lines, cb);
    SmallSecond(env, after, cb);
    SmallCarry();
  }

  lemma SmallCarry()
    ensures Carry(["```", "```x", "`py"], Wrap(2, 2), "py") == ["```", "```x", "```py", "`py", "```"]
  {
    var lines := ["```", "```x", "`py"];
    assert FENCE + "py" == "```py";
    assert lines[..2] == ["```", "```x"] && lines[2..3] == ["`py"] && lines[3..] == [];
  }

  lemma SmallStrips()
    ensures Strip("``py") == "``py" && Strip("`py") == "`py" && Strip("") == ""
    ensures Strip("```") == "```" && Strip("```x") == "```x" && Strip("```py") == "```py"
  {
    StripTrimmed("``py");
    StripTrimmed("`py");
    StripTrimmed("");
    StripTrimmed("```");
    StripTrimmed("```x");
    StripTrimmed("```py");
  }

  ghost predicate SmallEnv(env: Env) {
    && env.ratio("``py", "```") == 4.0 / 7.0 && env.ratio("``py", "```x") == 0.5
    && env.ratio("``py", "`py") == 6.0 / 7.0 && env.ratio("``py", "```py") == 8.0 / 9.0
    && FenceTag("```", env.beyond) == Some("") && FenceTag("```x", env.beyond) == Some("x")
  }

  lemma SmallFirst(env: Env, lines: seq<string>, cb: CodeBlock)
    requires SmallEnv(env) && lines == ["```", "```x", "`py"] && cb == CodeBlock("py", "``py", "")
    ensures Decide(env, lines, cb) == Wrap(2, 2) && !ClosedAbove(lines, env.beyond, 0, 2)
  {
    SmallStrips();
    hide Strip;
    assert CloseFrom(lines, 1) == -1 && CloseFrom(lines, 2) == -1;
    assert FenceTag("`py", env.beyond) == None;
    hide FenceTag;
    assert ScanFences(env, lines, cb, 3) == NoFence;
    assert ScanFences(env, lines, cb, 2) == NoFence;
    assert ScanFences(env, lines, cb, 1) == NoFence;
    assert ScanFences(env, lines, cb, 0) == NoFence;
    assert IsBest(LineScores(env, lines, "``py"), 2, 6.0 / 7.0);
    BestUnique(LineScores(env, lines, "``py"), 2, 6.0 / 7.0);
    assert lines[..2][..1] == ["```"] && lines[..2] == ["```", "```x"] && ["```"][..0] == [];
    assert !Inside(lines[..2]);
  }

  lemma SmallSecond(env: Env, after: seq<string>, cb: CodeBlock)
    requires SmallEnv(env) && after == ["```", "```x", "```py", "`py", "```"] && cb == CodeBlock("py", "``py", "")
    ensures Decide(env, after, cb) == Wrap(2, 2)
  {
    SmallStrips();
    hide Strip, FenceTag;
    assert CloseFrom(after, 4) == 4 && CloseFrom(after, 3) == 4 && CloseFrom(after, 2) == 4;
    assert CloseFrom(after, 1) == 4;
    assert ScanFences(env, after, cb, 5) == NoFence;
    assert ScanFences(env, after, cb, 0) == NoFence;
    assert IsBest(LineScores(env, after, "``py"), 2, 8.0 / 9.0);
    BestUnique(LineScores(env, after, "``py"), 2, 8.0 / 9.0);
    assert after[..2][..1] == ["```"] && after[..2] == ["```", "```x"] && ["```"][..0] == [];
    assert !Inside(after[..2]);
  }
}
