/**
 Substituting figure references for the exporter's image placeholders, and how that commutes with
 splitting the document into pages (src/services/pipeline_viewer.py).

 The pipeline substitutes twice: once in the whole document with all figures, and once in every page
 with the figures of that page. The main result says exactly when the two agree. The lemmas are about
 an image marker `m` and a page marker `b` of the shape both markers of the pipeline have.
 */
module ImagePlaceholders {
  import opened Text
  import opened PageSplit

  const PLACEHOLDER: string := "<!-- image -->"

  datatype Figure = Figure(refId: string, caption: string, pageNumber: int)

  /** `caption.replace("]", "\\]")`. */
  function EscapeAlt(caption: string): string {
    if caption == "" then ""
    else (if caption[0] == ']' then "\\]" else [caption[0]]) + EscapeAlt(caption[1..])
  }

  function ImageRef(f: Figure): string {
    "![" + EscapeAlt(f.caption) + "](figures/" + f.refId + ".png)"
  }

  /** Takes out every backslash that stands directly before a closing bracket. */
  function Unescape(s: string): string
    decreases |s|
  {
    if s == "" then ""
    else if |s| >= 2 && s[0] == '\\' && s[1] == ']' then "]" + Unescape(s[2..])
    else [s[0]] + Unescape(s[1..])
  }

  predicate Escaped(s: string) {
    forall k | 0 <= k < |s| && s[k] == ']' :: k > 0 && s[k - 1] == '\\'
  }

  /** Every closing bracket of a caption comes out escaped, and unescaping gives the caption back. */
  lemma {:induction false} EscapeRoundTrip(caption: string)
    ensures Escaped(EscapeAlt(caption)) && Unescape(EscapeAlt(caption)) == caption
  {
    if caption != "" {
      var rest := EscapeAlt(caption[1..]);
      EscapeRoundTrip(caption[1..]);
      if caption[0] == ']' {
        assert ("\\]" + rest)[2..] == rest;
      } else {
        assert ([caption[0]] + rest)[1..] == rest;
      }
    }
  }

  /** A reference shows the caption, with its brackets escaped, and links to the figure's own file. */
  lemma ImageRefIs(f: Figure)
    ensures exists alt :: ImageRef(f) == "![" + alt + "](figures/" + f.refId + ".png)"
              && Escaped(alt) && Unescape(alt) == f.caption
  {
    EscapeRoundTrip(f.caption);
    assert ImageRef(f) == "![" + EscapeAlt(f.caption) + "](figures/" + f.refId + ".png)";
  }

  function Refs(figures: seq<Figure>): seq<string> {
    seq(|figures|, k requires 0 <= k < |figures| => ImageRef(figures[k]))
  }

  /** One figure after the other takes the first marker that is left. */
  function Replace(md: string, m: string, refs: seq<string>): string
    decreases |refs|
  {
    if refs == [] then md
    else
      var i := Find(md, m);
      if i < 0 then md
      else Replace(md[..i] + refs[0] + md[i + |m|..], m, refs[1..])
  }

  method ReplaceImagePlaceholders(markdown: string, figures: seq<Figure>) returns (r: string)
    ensures r == Replace(markdown, PLACEHOLDER, Refs(figures))
  {
    r := ReplaceAll(markdown, PLACEHOLDER, figures);
  }

  /** The loop, for any marker. */
  method ReplaceAll(markdown: string, placeholder: string, figures: seq<Figure>) returns (r: string)
    ensures r == Replace(markdown, placeholder, Refs(figures))
  {
    hide OccursAt, ImageRef;
    r := markdown;
    ghost var refs := Refs(figures);
    var n := 0;
    while n < |figures|
      invariant 0 <= n <= |figures|
      invariant Replace(r, placeholder, refs[n..]) == Replace(markdown, placeholder, refs)
    {
      var i := Find(r, placeholder);
      if i == -1 {
        break;
      }
      assert refs[n..][1..] == refs[n + 1..];
      r := r[..i] + ImageRef(figures[n]) + r[i + |placeholder|..];
      n := n + 1;
    }
  }

  // ---------------------------------------------------------------------------
  // References neither make nor break markers
  // ---------------------------------------------------------------------------

  /** What the two markers have in common. */
  ghost predicate Marker(m: string) {
    && |m| >= 2 && m[0] == '<' && m[|m| - 1] == '>'
    && (forall k | 0 < k < |m| :: m[k] != '<')
    && '[' !in m && ')' !in m
  }

  /** Two markers, neither of which begins with the other. */
  ghost predicate Markers(m: string, b: string) {
    Marker(m) && Marker(b) && !(m <= b) && !(b <= m)
  }

  lemma TheMarkers()
    ensures Markers(PLACEHOLDER, PAGE_BREAK)
  {
    assert PLACEHOLDER[5] == 'i' && PAGE_BREAK[5] == 'P';
  }

  lemma MarkerUnbordered(m: string)
    requires Marker(m)
    ensures Unbordered(m)
  {
    DistinctFirstUnbordered(m);
  }

  /** A reference in which neither marker stands; captions and ids decide this. */
  ghost predicate Clean(ref: string, m: string, b: string) {
    && |ref| >= 3 && ref[0] == '!' && ref[1] == '[' && ref[|ref| - 1] == ')'
    && !Contains(ref, m) && !Contains(ref, b)
  }

  ghost predicate AllClean(refs: seq<string>, m: string, b: string) {
    forall k | 0 <= k < |refs| :: Clean(refs[k], m, b)
  }

  lemma ImageRefShape(f: Figure)
    ensures var ref := ImageRef(f); |ref| >= 3 && ref[0] == '!' && ref[1] == '[' && ref[|ref| - 1] == ')'
  {
  }

  /** Neither marker has a bracket or a backslash, so none can arise around or inside an escaped caption. */
  ghost predicate Plain(m: string) {
    Marker(m) && ']' !in m && '\\' !in m
  }

  lemma {:induction false} EscapedPrefix(caption: string, m: string)
    requires ']' !in m && '\\' !in m && m <= EscapeAlt(caption)
    ensures m <= caption
  {
    if m != "" {
      assert caption != "" && m[0] == EscapeAlt(caption)[0];
      assert caption[0] != ']';
      assert EscapeAlt(caption)[1..] == EscapeAlt(caption[1..]);
      EscapedPrefix(caption[1..], m[1..]);
    }
  }

  lemma {:induction false} EscapedOccurs(caption: string, m: string, j: nat)
    requires Plain(m) && OccursAt(EscapeAlt(caption), m, j)
    ensures Contains(caption, m)
  {
    var piece := if caption[0] == ']' then "\\]" else [caption[0]];
    var rest := EscapeAlt(caption[1..]);
    assert EscapeAlt(caption) == piece + rest;
    if j >= |piece| {
      OccursRight(piece, rest, m, j);
      hide OccursAt, EscapeAlt;
      EscapedOccurs(caption[1..], m, j - |piece|);
      ContainsLater(caption, m);
    } else {
      assert m[0] == (piece + rest)[j];
      assert j == 0 && m <= EscapeAlt(caption);
      EscapedPrefix(caption, m);
      assert OccursAt(caption, m, 0);
    }
  }

  lemma OccursRight(piece: string, rest: string, m: string, j: nat)
    requires OccursAt(piece + rest, m, j) && j >= |piece|
    ensures OccursAt(rest, m, j - |piece|)
  {
    assert (piece + rest)[j..j + |m|] == rest[j - |piece|..j - |piece| + |m|];
  }

  lemma ContainsLater(s: string, m: string)
    requires s != "" && Contains(s[1..], m)
    ensures Contains(s, m)
  {
    var k := Find(s[1..], m);
    assert s[1..][k..k + |m|] == s[k + 1..k + 1 + |m|];
    Standing(s, m, k + 1);
  }

  /** A figure whose caption and id hold no marker gives a reference that holds none. */
  lemma CaptionDecides(f: Figure, m: string)
    requires Plain(m) && !Contains(f.caption, m) && !Contains(f.refId, m)
    ensures !Contains(ImageRef(f), m)
  {
    hide Contains;
    forall j: nat | OccursAt(ImageRef(f), m, j)
      ensures false
    {
      PlaceInRef(f, EscapeAlt(f.caption), m, j);
      if OccursAt(EscapeAlt(f.caption), m, j - 2) {
        EscapedOccurs(f.caption, m, j - 2);
      }
    }
    NoPlace(ImageRef(f), m);
  }

  lemma NoPlace(s: string, m: string)
    requires forall j: nat :: !OccursAt(s, m, j)
    ensures !Contains(s, m)
  {
  }

  lemma PlaceInRef(f: Figure, alt: string, m: string, j: nat)
    requires Plain(m) && OccursAt("![" + alt + "](figures/" + f.refId + ".png)", m, j)
    ensures j >= 2
    ensures OccursAt(alt, m, j - 2) || Contains(f.refId, m)
  {
    PlaceBetween("![", alt, "](figures/", f.refId, ".png)", m, j);
  }

  lemma PlaceBetween(a: string, x: string, mid: string, y: string, z: string, m: string, j: nat)
    requires Plain(m) && OccursAt(a + x + mid + y + z, m, j)
    requires |a| == 2 && a[1] == '[' && mid != "" && mid[0] == ']' && '<' !in a && '<' !in mid && '>' !in z
    ensures j >= 2
    ensures OccursAt(x, m, j - 2) || Contains(y, m)
  {
    hide Contains;
    var s := a + x + mid + y + z;
    var p, q := 2 + |x|, 2 + |x| + |mid|;
    assert m == s[j..j + |m|];
    assert m[0] == s[j] && m[|m| - 1] == s[j + |m| - 1];
    CharInPlace(s, m, j, p);
    assert s[p] == mid[0];
    if j < p {
      assert s[j..j + |m|] == x[j - 2..j - 2 + |m|];
    } else {
      assert s[j..j + |m|] == y[j - q..j - q + |m|];
      Standing(y, m, j - q);
    }
  }

  lemma CharInPlace(s: string, m: string, j: nat, p: nat)
    requires OccursAt(s, m, j) && p < |s|
    ensures j <= p < j + |m| ==> s[p] in m
  {
    assert j <= p < j + |m| ==> s[p] == s[j..j + |m|][p - j];
  }

  lemma Standing(s: string, m: string, j: nat)
    requires OccursAt(s, m, j)
    ensures Contains(s, m)
  {
  }

  /** A marker in `a + ref + c` lies wholly in one of the three parts. */
  lemma MarkerPlaces(a: string, ref: string, c: string, m: string, j: int)
    requires Marker(m) && |ref| >= 3 && ref[0] == '!' && ref[1] == '[' && ref[|ref| - 1] == ')'
    requires OccursAt(a + ref + c, m, j)
    ensures || OccursAt(a, m, j)
            || OccursAt(ref, m, j - |a|)
            || OccursAt(c, m, j - |a + ref|)
  {
    var s := a + ref + c;
    assert s == a + (ref + c);
    OccursCharAt(s, m, j, |m| - 1);
    if j >= |a + ref| {
      OccursShift(a + ref, c, m, j - |a + ref|);
    } else {
      if j + |m| > |a + ref| - 1 {
        OccursCharAt(s, m, j, |a + ref| - 1 - j);
      }
      if j >= |a| {
        OccursShift(a, ref + c, m, j - |a|);
        OccursPrefix(ref, c, m, j - |a|);
      } else {
        if j + |m| > |a| + 1 {
          OccursCharAt(s, m, j, |a| + 1 - j);
        }
        OccursPrefix(a, ref + c, m, j);
      }
    }
  }

  /** No marker arises where a reference is put between two texts that hold none. */
  lemma NoMarkerAcross(a: string, ref: string, c: string, m: string)
    requires Marker(m) && |ref| >= 3 && ref[0] == '!' && ref[1] == '[' && ref[|ref| - 1] == ')'
    requires !Contains(a, m) && !Contains(ref, m) && !Contains(c, m)
    ensures !Contains(a + ref + c, m)
  {
    if Contains(a + ref + c, m) {
      MarkerPlaces(a, ref, c, m, Find(a + ref + c, m));
    }
  }

  // ---------------------------------------------------------------------------
  // Substitution from left to right
  // ---------------------------------------------------------------------------

  /** The k-th marker becomes the k-th reference, reading left to right. */
  function Fill(md: string, m: string, refs: seq<string>): string
    decreases |refs|
  {
    if refs == [] then md
    else
      var i := Find(md, m);
      if i < 0 then md
      else md[..i] + refs[0] + Fill(md[i + |m|..], m, refs[1..])
  }

  lemma Assoc4(a: string, c: string, d: string, e: string)
    ensures a + (c + d + e) == a + c + d + e
  {
  }

  lemma FillAt(head: string, m: string, rest: string, refs: seq<string>)
    requires refs != [] && Find(head + m + rest, m) == |head|
    ensures Fill(head + m + rest, m, refs) == head + refs[0] + Fill(rest, m, refs[1..])
  {
    hide OccursAt;
    assert (head + m + rest)[..|head|] == head;
    assert (head + m + rest)[|head| + |m|..] == rest;
  }

  lemma ReplaceAt(head: string, m: string, rest: string, refs: seq<string>)
    requires refs != [] && Find(head + m + rest, m) == |head|
    ensures Replace(head + m + rest, m, refs) == Replace(head + refs[0] + rest, m, refs[1..])
  {
    hide OccursAt;
    assert (head + m + rest)[..|head|] == head;
    assert (head + m + rest)[|head| + |m|..] == rest;
  }

  function Take<T>(refs: seq<T>, n: nat): seq<T> {
    if |refs| <= n then refs else refs[..n]
  }

  function Drop<T>(refs: seq<T>, n: nat): seq<T> {
    if |refs| <= n then [] else refs[n..]
  }

  /** Text already substituted: nothing in it can be taken for a marker any more. */
  ghost predicate Settled(pre: string, m: string) {
    pre == "" || (pre[|pre| - 1] == ')' && !Contains(pre, m))
  }

  lemma FindAfterSettled(pre: string, md: string, m: string)
    requires Marker(m) && Settled(pre, m)
    ensures Find(pre + md, m) == if Find(md, m) < 0 then -1 else |pre| + Find(md, m)
  {
    forall j | 0 <= j < |pre| ensures !OccursAt(pre + md, m, j) {
      if j + |m| <= |pre| {
        OccursPrefix(pre, md, m, j);
      } else {
        OccursCharAt(pre + md, m, j, |pre| - 1 - j);
      }
    }
    FindShift(pre, md, m);
  }

  /** What stands before the first marker holds none. */
  lemma BeforeFirst(md: string, m: string)
    requires m != "" && Find(md, m) >= 0
    ensures !Contains(md[..Find(md, m)], m)
  {
    var i := Find(md, m);
    assert md == md[..i] + md[i..];
    if Contains(md[..i], m) {
      OccursPrefix(md[..i], md[i..], m, Find(md[..i], m));
    }
  }

  lemma SettledNext(pre: string, head: string, ref: string, m: string, b: string)
    requires Marker(m) && Settled(pre, m) && Find(head, m) < 0 && Clean(ref, m, b)
    ensures Settled(pre + head + ref, m)
  {
    FindAfterSettled(pre, head, m);
    NoMarkerAcross(pre + head, ref, "", m);
    assert pre + head + ref + "" == pre + head + ref;
  }

  /** The loop and the left-to-right reading agree on clean references. */
  lemma {:induction false} ReplaceIsFill(pre: string, md: string, m: string, b: string, refs: seq<string>)
    requires Marker(m) && Settled(pre, m) && AllClean(refs, m, b)
    ensures Replace(pre + md, m, refs) == pre + Fill(md, m, refs)
    decreases |refs|
  {
    hide OccursAt, Settled;
    FindAfterSettled(pre, md, m);
    var i := Find(md, m);
    if refs != [] && i >= 0 {
      var head, rest, tail := md[..i], md[i + |m|..], refs[1..];
      CutAt(md, m, i);
      BeforeFirst(md, m);
      SettledNext(pre, head, refs[0], m, b);
      ReplaceIsFill(pre + head + refs[0], rest, m, b, tail);
      Assoc4(pre, head, m, rest);
      ReplaceAt(pre + head, m, rest, refs);
      FillAt(head, m, rest, refs);
      Assoc4(pre, head, refs[0], Fill(rest, m, tail));
    }
  }

  lemma ReplaceFills(md: string, m: string, b: string, refs: seq<string>)
    requires Marker(m) && AllClean(refs, m, b)
    ensures Replace(md, m, refs) == Fill(md, m, refs)
  {
    ReplaceIsFill("", md, m, b, refs);
    assert "" + md == md;
    assert "" + Fill(md, m, refs) == Fill(md, m, refs);
  }

  // ---------------------------------------------------------------------------
  // Substitution and page breaks
  // ---------------------------------------------------------------------------

  lemma FreeParts(a: string, c: string, d: string, m: string)
    requires !Contains(a + c + d, m)
    ensures !Contains(a, m) && !Contains(d, m)
  {
    if Contains(a, m) {
      assert a + c + d == a + (c + d);
      OccursPrefix(a, c + d, m, Find(a, m));
    }
    if Contains(d, m) {
      OccursShift(a + c, d, m, Find(d, m));
    }
  }

  /** Substitution makes no page break. */
  lemma {:induction false} FillKeepsFree(p: string, m: string, b: string, refs: seq<string>)
    requires Markers(m, b) && AllClean(refs, m, b) && !Contains(p, b)
    ensures !Contains(Fill(p, m, refs), b)
    decreases |refs|
  {
    hide OccursAt;
    var i := Find(p, m);
    if refs != [] && i >= 0 {
      var rest := p[i + |m|..];
      CutAt(p, m, i);
      FreeParts(p[..i], m, rest, b);
      FillKeepsFree(rest, m, b, refs[1..]);
      NoMarkerAcross(p[..i], refs[0], Fill(rest, m, refs[1..]), b);
    }
  }

  /** No image marker begins in a page break, nor in a page that has none. */
  lemma FindPastBreak(p: string, m: string, b: string, rest: string)
    requires Markers(m, b) && Find(p, m) < 0
    ensures Find(p + b + rest, m) == if Find(rest, m) < 0 then -1 else |p + b| + Find(rest, m)
  {
    var s := p + b + rest;
    assert s == p + (b + rest);
    forall j | 0 <= j < |p + b| ensures !OccursAt(s, m, j) {
      if j + |m| <= |p| {
        OccursPrefix(p, b + rest, m, j);
      } else {
        BreakIsNoImage(p, m, b, rest, j);
      }
    }
    FindShift(p + b, rest, m);
  }

  lemma PrefixOccurs(m: string, b: string)
    ensures OccursAt(m, b, 0) <==> b <= m
  {
  }

  lemma PrefixCompare(m: string, b: string, rest: string)
    ensures m <= b + rest ==> m <= b || b <= m
  {
    var k := if |m| <= |b| then |m| else |b|;
    assert m <= b + rest ==> m[..k] == b[..k];
  }

  lemma BreakIsNoImage(p: string, m: string, b: string, rest: string, j: int)
    requires Markers(m, b) && 0 <= j < |p + b| && |p| < j + |m|
    ensures !OccursAt(p + b + rest, m, j)
  {
    var s := p + b + rest;
    OccursCharAt(s, m, j, 0);
    if j < |p| {
      OccursCharAt(s, m, j, |p| - j);
    } else if j > |p| {
      assert s[j] == b[j - |p|];
    } else {
      Assoc(p, b, rest);
      OccursShift(p, b + rest, m, 0);
      PrefixOccurs(b + rest, m);
      PrefixCompare(m, b, rest);
    }
  }

  lemma FindBeforeBreak(p: string, tail: string, m: string)
    requires m != "" && Find(p, m) >= 0
    ensures Find(p + tail, m) == Find(p, m)
  {
    var i := Find(p, m);
    OccursPrefix(p, tail, m, i);
    if 0 <= Find(p + tail, m) < i {
      OccursPrefix(p, tail, m, Find(p + tail, m));
    }
  }

  lemma DropTail(refs: seq<string>, n: nat)
    requires refs != []
    ensures Drop(refs[1..], n) == Drop(refs, n + 1)
  {
  }

  /** A page takes as many references as it has markers; the rest go on to the next page. */
  lemma {:induction false} FillAcrossBreak(p: string, m: string, b: string, rest: string, refs: seq<string>)
    requires Markers(m, b)
    ensures Fill(p + b + rest, m, refs) == Fill(p, m, refs) + b + Fill(rest, m, Drop(refs, Count(p, m)))
    decreases |refs|
  {
    hide OccursAt;
    var s, i := p + b + rest, Find(p, m);
    var over := Drop(refs, Count(p, m));
    if refs == [] {
    } else if i >= 0 {
      var head, p' := p[..i], p[i + |m|..];
      CutAt(p, m, i);
      Assoc(p, b, rest);
      FindBeforeBreak(p, b + rest, m);
      assert s == head + m + (p' + b + rest);
      FillAt(head, m, p' + b + rest, refs);
      FillAcrossBreak(p', m, b, rest, refs[1..]);
      DropTail(refs, Count(p', m));
      FillAt(head, m, p', refs);
      Assoc4(head + refs[0], Fill(p', m, refs[1..]), b, Fill(rest, m, over));
    } else {
      FindPastBreak(p, m, b, rest);
      var k := Find(rest, m);
      if k >= 0 {
        var head, rest' := rest[..k], rest[k + |m|..];
        CutAt(rest, m, k);
        Assoc4(p + b, head, m, rest');
        assert s == p + b + head + m + rest';
        FillAt(p + b + head, m, rest', refs);
        FillAt(head, m, rest', refs);
        Assoc4(p + b, head, refs[0], Fill(rest', m, refs[1..]));
      }
    }
  }

  /** Substituting page by page, each page taking what the pages before it left over. */
  function FillPages(parts: seq<string>, m: string, refs: seq<string>): (r: seq<string>)
    ensures |r| == |parts|
  {
    if parts == [] then []
    else [Fill(parts[0], m, refs)] + FillPages(parts[1..], m, Drop(refs, Count(parts[0], m)))
  }

  lemma {:induction false} SplitOfFill(md: string, m: string, b: string, refs: seq<string>)
    requires Markers(m, b) && AllClean(refs, m, b)
    ensures Split(Fill(md, m, refs), b) == FillPages(Split(md, b), m, refs)
    decreases |md|
  {
    hide OccursAt;
    var i := Find(md, b);
    if i < 0 {
      FillKeepsFree(md, m, b, refs);
      assert [md][1..] == [];
    } else {
      var p, rest := md[..i], md[i + |b|..];
      var left := Drop(refs, Count(p, m));
      CutAt(md, b, i);
      BeforeFirst(md, b);
      FillKeepsFree(p, m, b, refs);
      FillAcrossBreak(p, m, b, rest, refs);
      MarkerUnbordered(b);
      FindAtJoin(Fill(p, m, refs), b, Fill(rest, m, left));
      var s := Fill(md, m, refs);
      assert s[..|Fill(p, m, refs)|] == Fill(p, m, refs);
      assert s[|Fill(p, m, refs)| + |b|..] == Fill(rest, m, left);
      SplitOfFill(rest, m, b, left);
      assert Split(md, b)[1..] == Split(rest, b);
    }
  }

  // ---------------------------------------------------------------------------
  // Substitution and stripping
  // ---------------------------------------------------------------------------

  lemma FindBlankRight(x: string, w: string, m: string)
    requires Marker(m) && Blank(w)
    ensures Find(x + w, m) == Find(x, m)
  {
    forall j | 0 <= j && |x| < j + |m| ensures !OccursAt(x + w, m, j) {
      OccursCharAt(x + w, m, j, |m| - 1);
    }
    FindStable(x, w, m);
  }

  lemma FindBlankLeft(w: string, x: string, m: string)
    requires Marker(m) && Blank(w)
    ensures Find(w + x, m) == if Find(x, m) < 0 then -1 else |w| + Find(x, m)
  {
    forall j | 0 <= j < |w| ensures !OccursAt(w + x, m, j) {
      OccursCharAt(w + x, m, j, 0);
    }
    FindShift(w, x, m);
  }

  lemma {:induction false} FillBlankRight(x: string, w: string, m: string, refs: seq<string>)
    requires Marker(m) && Blank(w)
    ensures Fill(x + w, m, refs) == Fill(x, m, refs) + w
    decreases |refs|
  {
    hide OccursAt;
    FindBlankRight(x, w, m);
    var i := Find(x, m);
    if refs != [] && i >= 0 {
      var head, rest := x[..i], x[i + |m|..];
      CutAt(x, m, i);
      Assoc(head + m, rest, w);
      FillAt(head, m, rest + w, refs);
      FillAt(head, m, rest, refs);
      FillBlankRight(rest, w, m, refs[1..]);
      Assoc(head + refs[0], Fill(rest, m, refs[1..]), w);
    }
  }

  lemma FillBlankLeft(w: string, x: string, m: string, refs: seq<string>)
    requires Marker(m) && Blank(w)
    ensures Fill(w + x, m, refs) == w + Fill(x, m, refs)
  {
    hide OccursAt;
    FindBlankLeft(w, x, m);
    var i := Find(x, m);
    if refs != [] && i >= 0 {
      var head, rest := x[..i], x[i + |m|..];
      CutAt(x, m, i);
      Assoc4(w, head, m, rest);
      FillAt(w + head, m, rest, refs);
      FillAt(head, m, rest, refs);
      Assoc4(w, head, refs[0], Fill(rest, m, refs[1..]));
    }
  }

  /** A text that does not begin or end in whitespace does not after substitution either. */
  lemma {:induction false} FillTrimmed(x: string, m: string, b: string, refs: seq<string>)
    requires Marker(m) && AllClean(refs, m, b) && (x != "" ==> !IsSpace(x[|x| - 1]))
    ensures var y := Fill(x, m, refs);
            && (y == "" <==> x == "")
            && (y != "" ==> !IsSpace(y[|y| - 1]) && (!IsSpace(x[0]) ==> !IsSpace(y[0])))
    decreases |refs|
  {
    hide OccursAt;
    var i := Find(x, m);
    if refs != [] && i >= 0 {
      FillTrimmed(x[i + |m|..], m, b, refs[1..]);
      assert Clean(refs[0], m, b);
    }
  }

  lemma FillStrip(p: string, m: string, b: string, refs: seq<string>)
    requires Marker(m) && AllClean(refs, m, b)
    ensures Strip(Fill(p, m, refs)) == Fill(Strip(p), m, refs)
    ensures Fill(Strip(p), m, refs) == "" <==> Strip(p) == ""
  {
    hide OccursAt, Strip, Fill, AllClean;
    var w, v := StripShape(p);
    var core := Strip(p);
    assert p == w + (core + v);
    FillBlankLeft(w, core + v, m, refs);
    FillBlankRight(core, v, m, refs);
    FillTrimmed(core, m, b, refs);
    assert Fill(p, m, refs) == w + Fill(core, m, refs) + v;
    StripIs(w, Fill(core, m, refs), v);
  }

  lemma {:induction false} FillIsEmpty(md: string, m: string, b: string, refs: seq<string>)
    requires Marker(m) && AllClean(refs, m, b)
    ensures Fill(md, m, refs) == "" <==> md == ""
  {
    if refs != [] && Find(md, m) >= 0 {
      assert Clean(refs[0], m, b);
    }
  }

  // ---------------------------------------------------------------------------
  // Where the whole-document substitution puts the figures
  // ---------------------------------------------------------------------------

  /** The number of markers on the pages before page `i`. */
  function UsedBefore(parts: seq<string>, m: string, i: nat): nat
    requires i <= |parts|
  {
    if i == 0 then 0 else UsedBefore(parts, m, i - 1) + Count(parts[i - 1], m)
  }

  lemma {:induction false} UsedBeforeTail(parts: seq<string>, m: string, i: nat)
    requires 1 <= i <= |parts|
    ensures UsedBefore(parts, m, i) == Count(parts[0], m) + UsedBefore(parts[1..], m, i - 1)
  {
    if i > 1 {
      UsedBeforeTail(parts, m, i - 1);
    } else {
      assert UsedBefore(parts, m, 0) == 0;
    }
  }

  lemma DropDrop(refs: seq<string>, n: nat, k: nat)
    ensures Drop(Drop(refs, n), k) == Drop(refs, n + k)
  {
  }

  lemma {:induction false} FillPagesAt(parts: seq<string>, m: string, refs: seq<string>, i: nat)
    requires i < |parts|
    ensures FillPages(parts, m, refs)[i] == Fill(parts[i], m, Drop(refs, UsedBefore(parts, m, i)))
    decreases |parts|
  {
    hide OccursAt, Count, Fill, FillPages, UsedBefore, Drop;
    if i > 0 {
      var n, k := Count(parts[0], m), UsedBefore(parts[1..], m, i - 1);
      FillPagesTail(parts, m, refs, i);
      UsedBeforeTail(parts, m, i);
      DropDrop(refs, n, k);
      FillPagesAt(parts[1..], m, Drop(refs, n), i - 1);
      assert parts[1..][i - 1] == parts[i];
      assert Drop(Drop(refs, n), k) == Drop(refs, UsedBefore(parts, m, i));
    } else {
      FillPagesHead(parts, m, refs);
    }
  }

  lemma FillPagesTail(parts: seq<string>, m: string, refs: seq<string>, i: nat)
    requires 0 < i < |parts|
    ensures FillPages(parts, m, refs)[i] == FillPages(parts[1..], m, Drop(refs, Count(parts[0], m)))[i - 1]
  {
    hide OccursAt, Count, Fill, Drop;
  }

  lemma FillPagesHead(parts: seq<string>, m: string, refs: seq<string>)
    requires parts != []
    ensures FillPages(parts, m, refs)[0] == Fill(parts[0], m, Drop(refs, UsedBefore(parts, m, 0)))
  {
    hide OccursAt, Count, Fill;
    assert Drop(refs, 0) == refs;
  }

  /** The references that are left when the whole-document substitution comes to page `i`. */
  function Left(parts: seq<string>, m: string, refs: seq<string>, i: nat): seq<string>
    requires 1 <= i <= |parts|
  {
    Drop(refs, UsedBefore(parts, m, i - 1))
  }

  lemma PageOfWhole(md: string, m: string, b: string, refs: seq<string>, i: nat)
    requires Markers(m, b) && AllClean(refs, m, b) && 1 <= i <= |Split(md, b)|
    ensures var parts, filled := Split(md, b), Split(Replace(md, m, refs), b);
            && |filled| == |parts|
            && Strip(filled[i - 1]) == Replace(Strip(parts[i - 1]), m, Left(parts, m, refs, i))
            && (Strip(filled[i - 1]) == "" <==> Strip(parts[i - 1]) == "")
  {
    hide OccursAt, Strip, Split, Fill, FillPages, Count, UsedBefore, Replace, Contains;
    var parts := Split(md, b);
    var left := Left(parts, m, refs, i);
    ReplaceFills(md, m, b, refs);
    SplitOfFill(md, m, b, refs);
    FillPagesAt(parts, m, refs, i - 1);
    FillStrip(parts[i - 1], m, b, left);
    ReplaceFills(Strip(parts[i - 1]), m, b, left);
  }

  lemma SameKept(xs: seq<string>, ys: seq<string>)
    requires |xs| == |ys| && forall i: nat | 1 <= i <= |ys| :: Kept(xs, i) <==> Kept(ys, i)
    ensures KeepPages(xs).Keys == KeepPages(ys).Keys
  {
  }

  /**
   Where the whole-document substitution puts the figures, for every document and every clean list of
   references: the pages stay the same ones, and each page is filled from the references that are left
   after one for each marker of the earlier pages.
   */
  lemma WholeDocument(md: string, m: string, b: string, refs: seq<string>)
    requires Markers(m, b) && AllClean(refs, m, b)
    ensures var parts, before, after := Split(md, b), SplitPages(md, b), SplitPages(Replace(md, m, refs), b);
            && after.Keys == before.Keys
            && forall i | i in before ::
                 1 <= i <= |parts| && after[i] == Replace(before[i], m, Left(parts, m, refs, i))
  {
    hide OccursAt, Strip, Split;
    ReplaceFills(md, m, b, refs);
    FillIsEmpty(md, m, b, refs);
    if md != "" {
      var parts, filled := Split(md, b), Split(Replace(md, m, refs), b);
      PageOfWhole(md, m, b, refs, 1);
      forall i: nat | 1 <= i <= |parts|
        ensures Kept(StripAll(filled), i) <==> Kept(StripAll(parts), i)
        ensures StripAll(filled)[i - 1] == Replace(StripAll(parts)[i - 1], m, Left(parts, m, refs, i))
      {
        PageOfWhole(md, m, b, refs, i);
      }
      SameKept(StripAll(filled), StripAll(parts));
    }
  }

  // ---------------------------------------------------------------------------
  // When the two substitutions agree
  // ---------------------------------------------------------------------------

  /** `[f for f in figures if f.page_number == page]`. */
  function FiguresOn(figures: seq<Figure>, page: int): seq<Figure> {
    if figures == [] then []
    else (if figures[0].pageNumber == page then [figures[0]] else []) + FiguresOn(figures[1..], page)
  }

  /** The figures of a page are those with its number, in their order, each as often as it is there. */
  lemma {:induction false} FiguresOnIs(figures: seq<Figure>, page: int)
    ensures forall f :: f in FiguresOn(figures, page) <==> f in figures && f.pageNumber == page
    ensures FiguresOn(FiguresOn(figures, page), page) == FiguresOn(figures, page)
    ensures multiset(FiguresOn(figures, page)) <= multiset(figures)
  {
    if figures != [] {
      var rest := figures[1..];
      FiguresOnIs(rest, page);
      assert figures == [figures[0]] + rest;
      if figures[0].pageNumber == page {
        var kept := FiguresOn(rest, page);
        assert ([figures[0]] + kept)[1..] == kept;
      } else {
        assert FiguresOn(figures, page) == FiguresOn(rest, page);
      }
    }
  }

  /** The per-page substitution. */
  function PerPage(pages: map<nat, string>, m: string, figures: seq<Figure>): map<nat, string> {
    map i | i in pages :: Replace(pages[i], m, Refs(FiguresOn(figures, i)))
  }

  /**
   The references that reach page `i` in the whole document are those of its own figures, as far as it has markers.
   */
  ghost predicate PageAligned(parts: seq<string>, m: string, figures: seq<Figure>, i: nat)
    requires 1 <= i <= |parts|
  {
    var n := Count(parts[i - 1], m);
    Take(Left(parts, m, Refs(figures), i), n) == Take(Refs(FiguresOn(figures, i)), n)
  }

  /** Counting markers and looking at page numbers decides this. */
  ghost predicate Aligned(parts: seq<string>, m: string, figures: seq<Figure>) {
    forall i: nat | 1 <= i <= |parts| :: PageAligned(parts, m, figures, i)
  }

  /** No reference is a proper prefix of another one. */
  ghost predicate PrefixFree(refs: set<string>) {
    forall x, y | x in refs && y in refs :: x <= y ==> x == y
  }

  ghost function RefSet(figures: seq<Figure>): set<string> {
    set f | f in figures :: ImageRef(f)
  }

  lemma {:induction false} FillTake(p: string, m: string, refs: seq<string>)
    ensures m != "" ==> Fill(p, m, refs) == Fill(p, m, Take(refs, Count(p, m)))
    decreases |refs|
  {
    hide OccursAt;
    var i := Find(p, m);
    if m != "" && refs != [] && i >= 0 {
      var rest := p[i + |m|..];
      FillTake(rest, m, refs[1..]);
      assert Take(refs, Count(p, m))[1..] == Take(refs[1..], Count(rest, m));
    }
  }

  lemma SamePlace(a: string, x: string, u: string, y: string, v: string)
    requires x <= y || y <= x ==> x == y
    ensures a + x + u == a + y + v <==> x == y && u == v
  {
    if a + x + u == a + y + v {
      var s := a + x + u;
      assert x + u == s[|a|..] == y + v;
      var k := if |x| <= |y| then |x| else |y|;
      assert x[..k] == (x + u)[..k] == (y + v)[..k] == y[..k];
      assert u == (x + u)[|x|..];
      assert v == (y + v)[|y|..];
    }
  }

  lemma TakeFirst(xs: seq<string>, n: nat)
    requires xs != []
    ensures Take(xs, n + 1) == [xs[0]] + Take(xs[1..], n)
  {
  }

  lemma OneThenRest(x: string, xs: seq<string>, y: string, ys: seq<string>)
    ensures [x] + xs == [y] + ys <==> x == y && xs == ys
  {
    if [x] + xs == [y] + ys {
      assert ([x] + xs)[0] == x && ([y] + ys)[0] == y;
      assert xs == ([x] + xs)[1..] && ys == ([y] + ys)[1..];
    }
  }

  lemma PrefixFreePair(all: set<string>, x: string, y: string)
    requires PrefixFree(all) && x in all && y in all
    ensures x <= y || y <= x ==> x == y
  {
  }

  lemma FillChanges(p: string, m: string, b: string, xs: seq<string>)
    requires Marker(m) && xs != [] && Clean(xs[0], m, b) && Find(p, m) >= 0
    ensures Fill(p, m, xs) != p && Fill(p, m, []) == p && Take(xs, Count(p, m)) != []
  {
    OccursCharAt(p, m, Find(p, m), 0);
    assert Fill(p, m, xs)[Find(p, m)] == '!';
  }

  /** Different references leave different texts. */
  lemma {:induction false} FillInjective(p: string, m: string, b: string, xs: seq<string>, ys: seq<string>,
    all: set<string>)
    requires Marker(m) && AllClean(xs, m, b) && AllClean(ys, m, b) && PrefixFree(all)
    requires (forall k | 0 <= k < |xs| :: xs[k] in all) && (forall k | 0 <= k < |ys| :: ys[k] in all)
    ensures Fill(p, m, xs) == Fill(p, m, ys) <==> Take(xs, Count(p, m)) == Take(ys, Count(p, m))
    decreases |xs|
  {
    hide OccursAt, Clean, PrefixFree;
    var i := Find(p, m);
    if i >= 0 {
      var head, rest := p[..i], p[i + |m|..];
      CutAt(p, m, i);
      assert Count(p, m) == Count(rest, m) + 1;
      if xs != [] && ys != [] {
        FillAt(head, m, rest, xs);
        FillAt(head, m, rest, ys);
        hide Fill, Take, Count;
        FillInjective(rest, m, b, xs[1..], ys[1..], all);
        PrefixFreePair(all, xs[0], ys[0]);
        SamePlace(head, xs[0], Fill(rest, m, xs[1..]), ys[0], Fill(rest, m, ys[1..]));
        TakeFirst(xs, Count(rest, m));
        TakeFirst(ys, Count(rest, m));
        OneThenRest(xs[0], Take(xs[1..], Count(rest, m)), ys[0], Take(ys[1..], Count(rest, m)));
      } else if xs != [] {
        FillChanges(p, m, b, xs);
      } else if ys != [] {
        FillChanges(p, m, b, ys);
      }
    }
  }

  lemma {:induction false} CountBlankRight(x: string, w: string, m: string)
    requires Marker(m) && Blank(w)
    ensures Count(x + w, m) == Count(x, m)
    decreases |x|
  {
    hide OccursAt;
    FindBlankRight(x, w, m);
    var i := Find(x, m);
    if i >= 0 {
      assert (x + w)[i + |m|..] == x[i + |m|..] + w;
      CountBlankRight(x[i + |m|..], w, m);
    }
  }

  /** Stripping a page loses no marker. */
  lemma CountStrip(p: string, m: string)
    requires Marker(m)
    ensures Count(Strip(p), m) == Count(p, m)
  {
    var w, v := StripShape(p);
    hide OccursAt, Strip, Count;
    CountBlankRight(Strip(p), v, m);
    CountBlankLeft(w, Strip(p) + v, m);
    assert w + (Strip(p) + v) == p;
  }

  lemma CountBlankLeft(w: string, x: string, m: string)
    requires Marker(m) && Blank(w)
    ensures Count(w + x, m) == Count(x, m)
  {
    hide OccursAt;
    FindBlankLeft(w, x, m);
    var i := Find(x, m);
    if i >= 0 {
      assert (w + x)[|w| + i + |m|..] == x[i + |m|..];
    }
  }

  lemma {:induction false} FiguresOnFrom(figures: seq<Figure>, page: int)
    ensures forall k | 0 <= k < |FiguresOn(figures, page)| :: FiguresOn(figures, page)[k] in figures
  {
    if figures != [] {
      FiguresOnFrom(figures[1..], page);
    }
  }

  /** One page of the comparison. */
  lemma PageAgrees(parts: seq<string>, m: string, b: string, figures: seq<Figure>, i: nat)
    requires 1 <= i <= |parts| && Markers(m, b)
    requires AllClean(Refs(figures), m, b) && PrefixFree(RefSet(figures))
    ensures var page := Strip(parts[i - 1]);
            PageAligned(parts, m, figures, i) <==>
            Replace(page, m, Left(parts, m, Refs(figures), i)) == Replace(page, m, Refs(FiguresOn(figures, i)))
    ensures Strip(parts[i - 1]) == "" ==> PageAligned(parts, m, figures, i)
  {
    hide OccursAt;
    var page, refs := Strip(parts[i - 1]), Refs(figures);
    var xs, ys := Left(parts, m, refs, i), Refs(FiguresOn(figures, i));
    FiguresOnFrom(figures, i);
    forall k | 0 <= k < |ys| ensures ys[k] in RefSet(figures) && Clean(ys[k], m, b) {
      var j :| 0 <= j < |figures| && figures[j] == FiguresOn(figures, i)[k];
      assert refs[j] == ys[k];
    }
    forall k | 0 <= k < |xs| ensures xs[k] in RefSet(figures) && Clean(xs[k], m, b) {
      var j := k + UsedBefore(parts, m, i - 1);
      assert refs[j] == xs[k] && figures[j] in figures;
    }
    CountStrip(parts[i - 1], m);
    ReplaceFills(page, m, b, xs);
    ReplaceFills(page, m, b, ys);
    FillInjective(page, m, b, xs, ys, RefSet(figures));
  }

  /**
   The two substitutions of the pipeline give the same pages if and only if the figures are aligned
   with the placeholders, for clean references none of which is a proper prefix of another.
   */
  lemma CommutesIffAligned(md: string, figures: seq<Figure>)
    requires AllClean(Refs(figures), PLACEHOLDER, PAGE_BREAK) && PrefixFree(RefSet(figures))
    ensures SplitPages(Replace(md, PLACEHOLDER, Refs(figures)), PAGE_BREAK)
              == PerPage(SplitPages(md, PAGE_BREAK), PLACEHOLDER, figures)
            <==> md == "" || Aligned(Split(md, PAGE_BREAK), PLACEHOLDER, figures)
  {
    TheMarkers();
    if md == "" {
      WholeDocument(md, PLACEHOLDER, PAGE_BREAK, Refs(figures));
    } else {
      CommutesIffAlignedFor(md, PLACEHOLDER, PAGE_BREAK, figures);
    }
  }

  lemma CommutesIffAlignedFor(md: string, m: string, b: string, figures: seq<Figure>)
    requires md != "" && Markers(m, b)
    requires AllClean(Refs(figures), m, b) && PrefixFree(RefSet(figures))
    ensures SplitPages(Replace(md, m, Refs(figures)), b) == PerPage(SplitPages(md, b), m, figures)
            <==> Aligned(Split(md, b), m, figures)
  {
    hide OccursAt, Strip, Split, Replace, PageAligned, PrefixFree;
    var parts, before := Split(md, b), SplitPages(md, b);
    WholeDocument(md, m, b, Refs(figures));
    var whole, single := SplitPages(Replace(md, m, Refs(figures)), b), PerPage(before, m, figures);
    forall i: nat | 1 <= i <= |parts|
      ensures PageAligned(parts, m, figures, i) <==> (i in before ==> whole[i] == single[i])
    {
      PageAgrees(parts, m, b, figures, i);
    }
    assert whole == single <==> forall i | i in before :: whole[i] == single[i];
  }

  // ---------------------------------------------------------------------------
  // Aligned and misaligned figures
  // ---------------------------------------------------------------------------

  ghost predicate InPageOrder(figures: seq<Figure>) {
    && (forall k | 0 <= k < |figures| :: figures[k].pageNumber >= 1)
    && (forall j, k | 0 <= j < k < |figures| :: figures[j].pageNumber <= figures[k].pageNumber)
  }

  function FiguresBefore(figures: seq<Figure>, page: int): (n: nat)
    ensures n <= |figures|
  {
    if figures == [] then 0
    else (if figures[0].pageNumber < page then 1 else 0) + FiguresBefore(figures[1..], page)
  }

  lemma {:induction false} NoneBefore(figures: seq<Figure>, page: int)
    requires forall k | 0 <= k < |figures| :: figures[k].pageNumber >= page
    ensures FiguresBefore(figures, page) == 0
  {
    if figures != [] {
      NoneBefore(figures[1..], page);
    }
  }

  lemma {:induction false} FiguresCounted(figures: seq<Figure>, page: int)
    ensures FiguresBefore(figures, page) + |FiguresOn(figures, page)| == FiguresBefore(figures, page + 1)
  {
    if figures != [] {
      FiguresCounted(figures[1..], page);
    }
  }

  /** In page order the figures of a page stand together, after those of the earlier pages. */
  lemma {:induction false} FiguresTogether(figures: seq<Figure>, page: int, k: nat)
    requires InPageOrder(figures) && k < |FiguresOn(figures, page)|
    ensures FiguresBefore(figures, page) + k < |figures|
    ensures figures[FiguresBefore(figures, page) + k] == FiguresOn(figures, page)[k]
  {
    var rest := figures[1..];
    if figures[0].pageNumber < page {
      FiguresTogether(rest, page, k);
    } else {
      NoneBefore(figures, page);
      NoneBefore(rest, page);
      if figures[0].pageNumber == page {
        if k > 0 {
          FiguresTogether(rest, page, k - 1);
        }
      } else {
        FiguresTogether(rest, page, k);
        NoneBefore(figures, page + 1);
        FiguresCounted(figures, page);
      }
    }
  }

  lemma SliceOfRefs(figures: seq<Figure>, u: nat, on: seq<Figure>)
    requires u + |on| <= |figures| && forall k | 0 <= k < |on| :: figures[u + k] == on[k]
    ensures Take(Drop(Refs(figures), u), |on|) == Refs(on)
  {
  }

  lemma PageInOrder(parts: seq<string>, m: string, figures: seq<Figure>, i: nat)
    requires InPageOrder(figures) && 1 <= i <= |parts|
    requires |FiguresOn(figures, i)| == Count(parts[i - 1], m)
    requires UsedBefore(parts, m, i - 1) == FiguresBefore(figures, i)
    ensures PageAligned(parts, m, figures, i)
  {
    hide OccursAt, Count, UsedBefore, FiguresBefore, FiguresOn;
    var u, on := UsedBefore(parts, m, i - 1), FiguresOn(figures, i);
    FiguresCounted(figures, i);
    forall k: nat | k < |on| ensures figures[u + k] == on[k] {
      FiguresTogether(figures, i, k);
    }
    hide InPageOrder;
    SliceOfRefs(figures, u, on);
  }

  /** Figures in page order, one per placeholder on every page, are aligned. */
  lemma OnePerPlaceholder(parts: seq<string>, m: string, figures: seq<Figure>)
    requires InPageOrder(figures)
    requires forall i: nat | 1 <= i <= |parts| :: |FiguresOn(figures, i)| == Count(parts[i - 1], m)
    ensures Aligned(parts, m, figures)
  {
    hide OccursAt, Count, PageAligned;
    forall i: nat | 1 <= i <= |parts|
      ensures PageAligned(parts, m, figures, i)
    {
      UsedIsBefore(parts, m, figures, i - 1);
      PageInOrder(parts, m, figures, i);
    }
  }

  lemma {:induction false} UsedIsBefore(parts: seq<string>, m: string, figures: seq<Figure>, i: nat)
    requires i <= |parts| && InPageOrder(figures)
    requires forall i: nat | 1 <= i <= |parts| :: |FiguresOn(figures, i)| == Count(parts[i - 1], m)
    ensures UsedBefore(parts, m, i) == FiguresBefore(figures, i + 1)
  {
    hide OccursAt, Count;
    if i == 0 {
      NoneBefore(figures, 1);
    } else {
      UsedIsBefore(parts, m, figures, i - 1);
      FiguresCounted(figures, i);
    }
  }

  ghost predicate Unmarked(f: Figure) {
    !Contains(f.caption, PLACEHOLDER) && !Contains(f.caption, PAGE_BREAK)
    && !Contains(f.refId, PLACEHOLDER) && !Contains(f.refId, PAGE_BREAK)
  }

  /**
   When the figures are in page order and every page has as many placeholders as figures, and no caption or
   id holds a marker, substituting in the whole document and then splitting is splitting and then
   substituting page by page.
   */
  lemma SubstitutionCommutes(md: string, figures: seq<Figure>)
    requires InPageOrder(figures) && forall k | 0 <= k < |figures| :: Unmarked(figures[k])
    requires var parts := Split(md, PAGE_BREAK);
             forall i: nat | 1 <= i <= |parts| :: |FiguresOn(figures, i)| == Count(parts[i - 1], PLACEHOLDER)
    ensures SplitPages(Replace(md, PLACEHOLDER, Refs(figures)), PAGE_BREAK)
            == PerPage(SplitPages(md, PAGE_BREAK), PLACEHOLDER, figures)
  {
    hide OccursAt, Count, Split, Unmarked, InPageOrder;
    UnmarkedClean(figures);
    OnePerPlaceholder(Split(md, PAGE_BREAK), PLACEHOLDER, figures);
    TheMarkers();
    CommutesWhenAligned(md, PLACEHOLDER, PAGE_BREAK, figures);
  }

  lemma UnmarkedClean(figures: seq<Figure>)
    requires forall k | 0 <= k < |figures| :: Unmarked(figures[k])
    ensures AllClean(Refs(figures), PLACEHOLDER, PAGE_BREAK)
  {
    hide Contains;
    TheMarkers();
    PlainMarkers();
    forall k | 0 <= k < |figures|
      ensures Clean(Refs(figures)[k], PLACEHOLDER, PAGE_BREAK)
    {
      assert Unmarked(figures[k]);
      ImageRefShape(figures[k]);
      CaptionDecides(figures[k], PLACEHOLDER);
      CaptionDecides(figures[k], PAGE_BREAK);
    }
  }

  lemma PlainMarkers()
    ensures Plain(PLACEHOLDER) && Plain(PAGE_BREAK)
  {
  }

  /** Aligned figures suffice, whatever the references look like beside each other. */
  lemma CommutesWhenAligned(md: string, m: string, b: string, figures: seq<Figure>)
    requires Markers(m, b) && AllClean(Refs(figures), m, b) && Aligned(Split(md, b), m, figures)
    ensures SplitPages(Replace(md, m, Refs(figures)), b) == PerPage(SplitPages(md, b), m, figures)
  {
    hide OccursAt, Strip, Split, Replace, PageAligned;
    var parts, before := Split(md, b), SplitPages(md, b);
    WholeDocument(md, m, b, Refs(figures));
    var whole, single := SplitPages(Replace(md, m, Refs(figures)), b), PerPage(before, m, figures);
    forall i | i in before
      ensures whole[i] == single[i]
    {
      assert PageAligned(parts, m, figures, i);
      AlignedPageAgrees(parts, m, b, figures, i);
    }
  }

  lemma AlignedPageAgrees(parts: seq<string>, m: string, b: string, figures: seq<Figure>, i: nat)
    requires 1 <= i <= |parts| && Markers(m, b) && AllClean(Refs(figures), m, b)
    requires PageAligned(parts, m, figures, i)
    ensures var page := Strip(parts[i - 1]);
            Replace(page, m, Left(parts, m, Refs(figures), i)) == Replace(page, m, Refs(FiguresOn(figures, i)))
  {
    hide OccursAt;
    var page, refs := Strip(parts[i - 1]), Refs(figures);
    var xs, ys := Left(parts, m, refs, i), Refs(FiguresOn(figures, i));
    FiguresOnFrom(figures, i);
    forall k | 0 <= k < |ys| ensures Clean(ys[k], m, b) {
      var j :| 0 <= j < |figures| && figures[j] == FiguresOn(figures, i)[k];
      assert refs[j] == ys[k];
    }
    forall k | 0 <= k < |xs| ensures Clean(xs[k], m, b) {
      assert refs[k + UsedBefore(parts, m, i - 1)] == xs[k];
    }
    CountStrip(parts[i - 1], m);
    ReplaceFills(page, m, b, xs);
    ReplaceFills(page, m, b, ys);
    FillTake(page, m, xs);
    FillTake(page, m, ys);
  }

  /**
   A figure whose crop failed is dropped: with one placeholder on each of two pages and only the
   second page's figure left, the whole-document substitution puts it on the first page.
   */
  lemma DroppedFigureBreaks(f: Figure)
    requires f.pageNumber == 2 && Clean(ImageRef(f), PLACEHOLDER, PAGE_BREAK)
    ensures var md := PLACEHOLDER + PAGE_BREAK + PLACEHOLDER;
            SplitPages(Replace(md, PLACEHOLDER, Refs([f])), PAGE_BREAK)
              != PerPage(SplitPages(md, PAGE_BREAK), PLACEHOLDER, [f])
  {
    TheMarkers();
    DroppedFigureBreaksFor(f, PLACEHOLDER, PAGE_BREAK);
  }

  lemma DroppedFigureBreaksFor(f: Figure, m: string, b: string)
    requires f.pageNumber == 2 && Markers(m, b) && Clean(ImageRef(f), m, b)
    ensures var md := m + b + m;
            SplitPages(Replace(md, m, Refs([f])), b) != PerPage(SplitPages(md, b), m, [f])
  {
    hide OccursAt;
    var md, parts := m + b + m, [m, m];
    MarkerUnbordered(b);
    OtherMarker(m, b);
    assert parts[1..] == [m];
    SplitJoin(parts, b);
    SecondPageLeft(f, m, parts);
    OneRefClean(f, m, b);
    hide PageAligned, Split, Clean, AllClean, PrefixFree, RefSet, SplitPages, Replace, PerPage;
    CommutesIffAlignedFor(md, m, b, [f]);
  }

  lemma OneRefClean(f: Figure, m: string, b: string)
    requires Clean(ImageRef(f), m, b)
    ensures AllClean(Refs([f]), m, b) && PrefixFree(RefSet([f]))
  {
  }

  lemma OtherMarker(m: string, b: string)
    requires Markers(m, b)
    ensures !Contains(m, b)
  {
    if Contains(m, b) {
      OccursCharAt(m, b, Find(m, b), 0);
      PrefixOccurs(m, b);
    }
  }

  lemma SecondPageLeft(f: Figure, m: string, parts: seq<string>)
    requires f.pageNumber == 2 && Marker(m) && parts == [m, m]
    ensures !PageAligned(parts, m, [f], 1)
  {
    hide OccursAt;
    OneMarker(m);
    assert [f][1..] == [];
    assert FiguresOn([f], 1) == [];
    assert UsedBefore(parts, m, 0) == 0;
    assert Left(parts, m, Refs([f]), 1) == [ImageRef(f)];
  }

  lemma OneMarker(m: string)
    requires Marker(m)
    ensures Count(m, m) == 1
  {
    assert m[0..|m|] == m;
    assert OccursAt(m, m, 0);
    assert m[|m|..] == "";
    assert Find("", m) < 0;
  }
}
