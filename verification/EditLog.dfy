/**
 The `str_replace` and `rewrite_page` tools of the page agent and their change log
 (src/services/pipeline_viewer.py). The agent is an arbitrary sequence of tool calls.
 */
module EditLog {
  import opened Text

  datatype Change = Change(oldText: string, newText: string)

  datatype Reply = NotFound | FoundMany(count: nat) | Replaced

  datatype State = State(text: string, log: seq<Change>)

  function Verdict(text: string, oldText: string): Reply {
    var count := Count(text, oldText);
    if count == 0 then NotFound else if count > 1 then FoundMany(count) else Replaced
  }

  /** One `str_replace` call. */
  function Call(s: State, c: Change): State {
    if Verdict(s.text, c.oldText).Replaced?
    then State(ReplaceFirst(s.text, c.oldText, c.newText), s.log + [c])
    else s
  }

  function Calls(s: State, cs: seq<Change>): State
    decreases |cs|
  {
    if cs == [] then s else Calls(Call(s, cs[0]), cs[1..])
  }

  /** The closure variables `current_markdown` and `changes` that the tools share. */
  class PageEditor {
    var currentMarkdown: string
    var changes: seq<Change>

    function View(): State
      reads this
    {
      State(currentMarkdown, changes)
    }

    constructor (markdown: string)
      ensures View() == State(markdown, [])
    {
      currentMarkdown, changes := markdown, [];
    }

    method StrReplace(oldText: string, newText: string) returns (r: Reply)
      modifies this
      ensures r == Verdict(old(currentMarkdown), oldText)
      ensures View() == Call(old(View()), Change(oldText, newText))
      ensures match r
              case NotFound => Count(old(currentMarkdown), oldText) == 0
              case FoundMany(n) => n == Count(old(currentMarkdown), oldText) > 1
              case Replaced => Count(old(currentMarkdown), oldText) == 1
      ensures !r.Replaced? ==> View() == old(View())
      ensures r.Replaced? ==>
                changes == old(changes) + [Change(oldText, newText)]
                && exists a, b :: old(currentMarkdown) == a + oldText + b && currentMarkdown == a + newText + b
                     && forall j | 0 <= j < |a| :: !OccursAt(old(currentMarkdown), oldText, j)
    {
      hide OccursAt;
      var count := Count(currentMarkdown, oldText);
      if count == 0 {
        return NotFound;
      }
      if count > 1 {
        return FoundMany(count);
      }
      CountedIsThere(currentMarkdown, oldText);
      ghost var a, b := ReplaceFirstIs(currentMarkdown, oldText, newText);
      currentMarkdown := ReplaceFirst(currentMarkdown, oldText, newText);
      changes := changes + [Change(oldText, newText)];
      r := Replaced;
    }

    method RewritePage(newMarkdown: string) returns (ok: bool)
      modifies this
      ensures ok == (Strip(newMarkdown) != "")
      ensures View() == if ok then Rewrite(old(View()), newMarkdown) else old(View())
      ensures ok ==> currentMarkdown == newMarkdown
      ensures ok ==> changes == old(changes) + [Change(Preview(old(currentMarkdown)), Preview(newMarkdown))]
    {
      if Strip(newMarkdown) == "" {
        return false;
      }
      var oldContent := currentMarkdown;
      currentMarkdown := newMarkdown;
      changes := changes + [Change(Preview(oldContent), Preview(newMarkdown))];
      ok := true;
    }
  }

  lemma CountedIsThere(s: string, p: string)
    requires Count(s, p) > 0
    ensures Contains(s, p)
  {
    if p == "" {
      assert s[0..0 + |p|] == p;
      assert OccursAt(s, p, 0);
    }
  }

  // ---------------------------------------------------------------------------
  // Replaying the log
  // ---------------------------------------------------------------------------

  /** Applies the recorded changes one by one; a change that does not fit exactly once stops the replay. */
  function Replay(text: string, log: seq<Change>): Option<string>
    decreases |log|
  {
    if log == [] then Some(text)
    else if Count(text, log[0].oldText) != 1 then None
    else Replay(ReplaceFirst(text, log[0].oldText, log[0].newText), log[1..])
  }

  lemma {:induction false} ReplaySnoc(text: string, log: seq<Change>, c: Change)
    requires Replay(text, log).Some?
    ensures Replay(text, log + [c]) ==
            if Count(Replay(text, log).value, c.oldText) == 1
            then Some(ReplaceFirst(Replay(text, log).value, c.oldText, c.newText)) else None
    decreases |log|
  {
    hide Count, ReplaceFirst;
    if log == [] {
      assert (log + [c])[1..] == [];
    } else {
      assert (log + [c])[1..] == log[1..] + [c];
      ReplaySnoc(ReplaceFirst(text, log[0].oldText, log[0].newText), log[1..], c);
    }
  }

  /**
   For every sequence of `str_replace` calls, accepted and rejected ones in any order, the log replays
   the original text into the final one.
   */
  lemma {:induction false} LogReplays(original: string, s: State, cs: seq<Change>)
    requires Replay(original, s.log) == Some(s.text)
    ensures Replay(original, Calls(s, cs).log) == Some(Calls(s, cs).text)
    decreases |cs|
  {
    if cs != [] {
      ReplaySnoc(original, s.log, cs[0]);
      LogReplays(original, Call(s, cs[0]), cs[1..]);
    }
  }

  // ---------------------------------------------------------------------------
  // A rewrite cannot be replayed
  // ---------------------------------------------------------------------------

  function Rewrite(s: State, newMarkdown: string): State {
    State(newMarkdown, s.log + [Change(Preview(s.text), Preview(newMarkdown))])
  }

  /**
   The record of a rewrite tells which text was written if and only if that text has at most 200 characters;
   every longer one shares its record with another.
   */
  lemma RewriteRecoverableIff(s: State, text: string)
    requires Strip(text) != ""
    ensures (forall other | Strip(other) != "" && Rewrite(s, other).log == Rewrite(s, text).log :: other == text)
            <==> |text| <= 200
  {
    hide Strip;
    if |text| > 200 {
      var other := text + "x";
      assert other[..200] == text[..200];
      assert Strip(other) != "" by {
        StripEmpty(other);
        assert other[|text|] == 'x';
      }
      assert Rewrite(s, other).log == Rewrite(s, text).log && other != text;
    } else {
      forall other | Strip(other) != "" && Rewrite(s, other).log == Rewrite(s, text).log
        ensures other == text
      {
        var n := |s.log|;
        assert Rewrite(s, other).log[n] == Rewrite(s, text).log[n];
      }
    }
  }

  /** Two rewrites of the same page leave the same log and different pages. */
  lemma RewriteLosesText(s: State)
    ensures exists t, u :: Strip(t) != "" && Strip(u) != ""
              && Rewrite(s, t).log == Rewrite(s, u).log && Rewrite(s, t).text != Rewrite(s, u).text
  {
    var head := seq(200, _ => 'a');
    var t, u := head + "bb", head + "bc";
    StripTrimmed(t);
    StripTrimmed(u);
    assert t[201] != u[201];
    assert t[..200] == head == u[..200];
  }
}
