/**
 * Greedy word wrap and line placement used by the enhanced and simple
 * services when they draw a sentence on a 1280x720 frame.  The width of a
 * rendered string depends on the font, so it is a parameter: `width(s)` is the
 * horizontal extent of the bounding box PIL reports for `s`.
 */
module Layout {
  import opened Strings

  type Measure = string -> int

  const FrameWidth: int := 1280
  const FrameHeight: int := 720

  /**
   * The greedy packing of words into lines, line by line as groups of words:
   * a word joins the current line when the line with it is narrower than
   * `limit`, otherwise the current line is closed and the word starts the next.
   */
  function GroupFrom(ws: seq<string>, width: Measure, limit: int, done: seq<seq<string>>, cur: seq<string>): seq<seq<string>>
    decreases |ws|
  {
    if ws == [] then
      if cur != [] then done + [cur] else done
    else if cur == [] then
      GroupFrom(ws[1..], width, limit, done, [ws[0]])
    else if width(Join(cur + [ws[0]], " ")) < limit then
      GroupFrom(ws[1..], width, limit, done, cur + [ws[0]])
    else
      GroupFrom(ws[1..], width, limit, done + [cur], [ws[0]])
  }

  /** The words of each drawn line of `text`. */
  function Groups(text: string, width: Measure, limit: int): seq<seq<string>> {
    GroupFrom(SplitWords(text), width, limit, [], [])
  }

  function JoinEach(gs: seq<seq<string>>): (ls: seq<string>)
    ensures |ls| == |gs|
    ensures forall i :: 0 <= i < |gs| ==> ls[i] == Join(gs[i], " ")
  {
    seq(|gs|, i requires 0 <= i < |gs| => Join(gs[i], " "))
  }

  /** The lines a text is drawn as. */
  function Lines(text: string, width: Measure, limit: int): seq<string> {
    JoinEach(Groups(text, width, limit))
  }

  function Flatten(gs: seq<seq<string>>): seq<string> {
    if gs == [] then [] else gs[0] + Flatten(gs[1..])
  }

  lemma FlattenSnoc(gs: seq<seq<string>>, g: seq<string>)
    ensures Flatten(gs + [g]) == Flatten(gs) + g
  {
    if gs != [] {
      assert (gs + [g])[1..] == gs[1..] + [g];
    }
  }

  lemma JoinEachSnoc(gs: seq<seq<string>>, g: seq<string>)
    ensures JoinEach(gs + [g]) == JoinEach(gs) + [Join(g, " ")]
  {
  }

  lemma {:induction false} JoinOfWords(g: seq<string>)
    requires g != [] && g[0] != []
    ensures Join(g, " ") != []
  {
    if |g| > 1 {
      assert Join(g, " ") == g[0] + " " + Join(g[1..], " ");
    }
  }

  /**
   * The wrap loop as the services run it: `current` is the line being built,
   * `test` the line with the next word; a word that does not fit closes the
   * current line (when there is one) and becomes the new current line.
   */
  method WrapLines(text: string, width: Measure, limit: int) returns (lines: seq<string>)
    ensures lines == Lines(text, width, limit)
  {
    var words := SplitWords(text);
    lines := [];
    var current := "";
    ghost var done: seq<seq<string>> := [];
    ghost var cur: seq<string> := [];
    var i := 0;
    while i < |words|
      invariant 0 <= i <= |words|
      invariant lines == JoinEach(done)
      invariant current == Join(cur, " ")
      invariant cur == [] <==> i == 0
      invariant forall k :: 0 <= k < |cur| ==> IsWord(cur[k])
      invariant GroupFrom(words[i..], width, limit, done, cur) == Groups(text, width, limit)
    {
      var word := words[i];
      if cur != [] {
        JoinOfWords(cur);
        JoinSnoc(cur, word, " ");
      }
      var test := if current != "" then current + " " + word else word;
      assert words[i..][0] == word && words[i..][1..] == words[i + 1..];
      assert cur != [] ==> test == Join(cur + [word], " ");
      ghost var unfolded := GroupFrom(words[i..], width, limit, done, cur);
      if width(test) < limit {
        if cur == [] {
          assert unfolded == GroupFrom(words[i + 1..], width, limit, done, [word]);
          assert cur + [word] == [word];
        } else {
          assert unfolded == GroupFrom(words[i + 1..], width, limit, done, cur + [word]);
        }
        current := test;
        cur := cur + [word];
      } else {
        if current != "" {
          JoinEachSnoc(done, cur);
          lines := lines + [current];
          done := done + [cur];
        }
        assert unfolded == GroupFrom(words[i + 1..], width, limit, done, [word]);
        current := word;
        cur := [word];
      }
      i := i + 1;
    }
    if current != "" {
      JoinEachSnoc(done, cur);
      lines := lines + [current];
    } else {
      assert cur == [] by {
        if cur != [] { JoinOfWords(cur); }
      }
    }
  }

  /** Packing never loses, duplicates or reorders a word. */
  lemma {:induction false} GroupFromFlatten(ws: seq<string>, width: Measure, limit: int, done: seq<seq<string>>, cur: seq<string>)
    ensures Flatten(GroupFrom(ws, width, limit, done, cur)) == Flatten(done) + cur + ws
    decreases |ws|
  {
    if ws == [] {
      if cur != [] { FlattenSnoc(done, cur); }
    } else {
      var rest := ws[1..];
      assert ws == [ws[0]] + rest;
      if cur == [] {
        GroupFromFlatten(rest, width, limit, done, [ws[0]]);
      } else if width(Join(cur + [ws[0]], " ")) < limit {
        GroupFromFlatten(rest, width, limit, done, cur + [ws[0]]);
      } else {
        GroupFromFlatten(rest, width, limit, done + [cur], [ws[0]]);
        FlattenSnoc(done, cur);
      }
    }
  }

  /** The line rules, over groups of words: no empty group, every group fits or holds one word, and each group's first word overflows the group before it. */
  ghost predicate Packed(width: Measure, limit: int, gs: seq<seq<string>>) {
    (forall k :: 0 <= k < |gs| ==> gs[k] != []) &&
    (forall k :: 0 <= k < |gs| ==> |gs[k]| == 1 || width(Join(gs[k], " ")) < limit) &&
    (forall k :: 0 <= k < |gs| - 1 ==> width(Join(gs[k] + [gs[k + 1][0]], " ")) >= limit)
  }

  /**
   * Packing keeps the line rules: no line is empty, a line with more than one
   * word is narrower than the limit, and the first word of each line did not
   * fit at the end of the line before it.
   */
  lemma {:induction false} GroupFromPacked(ws: seq<string>, width: Measure, limit: int, done: seq<seq<string>>, cur: seq<string>)
    requires cur == [] ==> done == []
    requires cur != [] ==> Packed(width, limit, done + [cur])
    ensures Packed(width, limit, GroupFrom(ws, width, limit, done, cur))
    decreases |ws|
  {
    if ws == [] {
      if cur == [] {
        assert GroupFrom(ws, width, limit, done, cur) == [];
      }
    } else {
      var w := ws[0];
      if cur == [] {
        assert done + [[w]] == [[w]];
        GroupFromPacked(ws[1..], width, limit, done, [w]);
      } else if width(Join(cur + [w], " ")) < limit {
        PackedGrow(width, limit, done, cur, w);
        GroupFromPacked(ws[1..], width, limit, done, cur + [w]);
      } else {
        PackedBreak(width, limit, done, cur, w);
        GroupFromPacked(ws[1..], width, limit, done + [cur], [w]);
      }
    }
  }

  lemma PackedGrow(width: Measure, limit: int, done: seq<seq<string>>, cur: seq<string>, w: string)
    requires cur != [] && Packed(width, limit, done + [cur])
    requires width(Join(cur + [w], " ")) < limit
    ensures Packed(width, limit, done + [cur + [w]])
  {
    var before := done + [cur];
    var after := done + [cur + [w]];
    assert forall k :: 0 <= k < |done| ==> after[k] == before[k];
    assert (cur + [w])[0] == cur[0];
    forall k | 0 <= k < |after| - 1
      ensures width(Join(after[k] + [after[k + 1][0]], " ")) >= limit
    {
      assert after[k] == before[k];
      assert after[k + 1][0] == before[k + 1][0];
    }
  }

  lemma PackedBreak(width: Measure, limit: int, done: seq<seq<string>>, cur: seq<string>, w: string)
    requires cur != [] && Packed(width, limit, done + [cur])
    requires width(Join(cur + [w], " ")) >= limit
    ensures Packed(width, limit, done + [cur] + [[w]])
  {
    var before := done + [cur];
    var after := before + [[w]];
    assert forall k :: 0 <= k < |before| ==> after[k] == before[k];
    forall k | 0 <= k < |after| - 1
      ensures width(Join(after[k] + [after[k + 1][0]], " ")) >= limit
    {
      if k < |before| - 1 {
        assert after[k + 1] == before[k + 1];
      }
    }
  }

  /** Words are preserved in order: the lines' words, read in turn, are the text's words. */
  lemma GroupsFlatten(text: string, width: Measure, limit: int)
    ensures Flatten(Groups(text, width, limit)) == SplitWords(text)
  {
    GroupFromFlatten(SplitWords(text), width, limit, [], []);
  }

  lemma GroupsPacked(text: string, width: Measure, limit: int)
    ensures Packed(width, limit, Groups(text, width, limit))
  {
    GroupFromPacked(SplitWords(text), width, limit, [], []);
  }

  lemma {:induction false} JoinFlatten(gs: seq<seq<string>>)
    requires forall k :: 0 <= k < |gs| ==> gs[k] != []
    ensures Join(JoinEach(gs), " ") == Join(Flatten(gs), " ")
  {
    if |gs| == 1 {
      assert gs[1..] == [];
      assert Flatten(gs) == gs[0] + Flatten([]);
      assert Flatten(gs) == gs[0];
      assert |JoinEach(gs)| == 1;
      assert Join(JoinEach(gs), " ") == JoinEach(gs)[0];
    } else if |gs| > 1 {
      var tail := gs[1..];
      JoinFlatten(tail);
      assert JoinEach(gs)[1..] == JoinEach(tail);
      assert Flatten(tail) != [] by { assert Flatten(tail) == tail[0] + Flatten(tail[1..]); }
      JoinAppend(gs[0], Flatten(tail), " ");
    }
  }

  /** Joining the drawn lines with single spaces gives the text's words joined with single spaces. */
  lemma LinesJoin(text: string, width: Measure, limit: int)
    ensures Join(Lines(text, width, limit), " ") == Join(SplitWords(text), " ")
  {
    GroupsPacked(text, width, limit);
    GroupsFlatten(text, width, limit);
    JoinFlatten(Groups(text, width, limit));
  }

  /**
   * Every drawn line is non-empty and either narrower than the limit or one
   * single over-long word that stands alone.
   */
  lemma LinesFit(text: string, width: Measure, limit: int)
    ensures forall k :: 0 <= k < |Lines(text, width, limit)| ==>
      Lines(text, width, limit)[k] != [] &&
      (width(Lines(text, width, limit)[k]) < limit || IsWord(Lines(text, width, limit)[k]))
  {
    var gs := Groups(text, width, limit);
    GroupsPacked(text, width, limit);
    GroupsFlatten(text, width, limit);
    forall k | 0 <= k < |gs|
      ensures Join(gs[k], " ") != [] && (width(Join(gs[k], " ")) < limit || IsWord(Join(gs[k], " ")))
    {
      GroupWords(gs, k);
      JoinOfWords(gs[k]);
    }
  }

  /** Every word of a packing came from `SplitWords`, so it is a word. */
  lemma GroupWords(gs: seq<seq<string>>, k: nat)
    requires k < |gs|
    requires forall j :: 0 <= j < |Flatten(gs)| ==> IsWord(Flatten(gs)[j])
    ensures forall j :: 0 <= j < |gs[k]| ==> IsWord(gs[k][j])
  {
    if k == 0 {
      assert forall j :: 0 <= j < |gs[0]| ==> Flatten(gs)[j] == gs[0][j];
    } else {
      assert Flatten(gs) == gs[0] + Flatten(gs[1..]);
      assert forall j :: 0 <= j < |Flatten(gs[1..])| ==> Flatten(gs[1..])[j] == Flatten(gs)[|gs[0]| + j];
      GroupWords(gs[1..], k - 1);
    }
  }

  /** The wrap is greedy: the first word of every line would have made the line before it too wide. */
  lemma LinesGreedy(text: string, width: Measure, limit: int)
    ensures var gs := Groups(text, width, limit);
      forall k :: 0 <= k < |gs| - 1 ==>
        gs[k + 1] != [] && width(Lines(text, width, limit)[k] + " " + gs[k + 1][0]) >= limit
  {
    var gs := Groups(text, width, limit);
    GroupsPacked(text, width, limit);
    forall k | 0 <= k < |gs| - 1
      ensures width(Lines(text, width, limit)[k] + " " + gs[k + 1][0]) >= limit
    {
      JoinSnoc(gs[k], gs[k + 1][0], " ");
    }
  }

  /** A blank text draws no line at all. */
  lemma BlankTextNoLines(text: string, width: Measure, limit: int)
    requires AllSpace(text)
    ensures Lines(text, width, limit) == []
  {
    BlankNoWords(text);
  }

  lemma {:induction false} BlankNoWords(s: string)
    requires AllSpace(s)
    ensures SplitWords(s) == []
    decreases |s|
  {
    if |s| > 0 {
      assert IsSpace(s[0]);
      BlankNoWords(s[1..]);
    }
  }

  /** The top edge of a block of k lines of the given height, centred on the frame (floor division). */
  function StartY(k: nat, lineHeight: int): int {
    (FrameHeight - k * lineHeight) / 2
  }

  /** The left edge of a line of the given width, centred on the frame (floor division). */
  function CentredX(w: int): int {
    (FrameWidth - w) / 2
  }

  /** The block of lines is vertically centred: the margin below is the margin above or one pixel more. */
  lemma StartYCentres(k: nat, lineHeight: int)
    ensures var top := StartY(k, lineHeight);
      var bottom := FrameHeight - (top + k * lineHeight);
      0 <= bottom - top <= 1
  {
  }

  /** A line is horizontally centred: the margin on the right is the margin on the left or one pixel more. */
  lemma CentredXCentres(w: int)
    ensures var left := CentredX(w);
      var right := FrameWidth - (left + w);
      0 <= right - left <= 1
  {
  }
}
