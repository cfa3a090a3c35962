/**
 * Sentence segmentation shared by the three video services: the summary is
 * split on '.', each piece is stripped, blank pieces are dropped and '.' is put
 * back on each survivor; when nothing survives the raw summary is the only unit.
 */
module Segmenter {
  import opened Wrappers
  import opened Strings

  /** The display units made from the pieces of a split, in order. */
  function Survivors(pieces: seq<string>): (units: seq<string>)
    ensures |units| <= |pieces|
  {
    if pieces == [] then []
    else
      var p := Strip(pieces[0]);
      (if p != [] then [p + "."] else []) + Survivors(pieces[1..])
  }

  lemma {:induction false} SurvivorsAreUnits(pieces: seq<string>)
    ensures forall i :: 0 <= i < |Survivors(pieces)| ==> IsUnit(Survivors(pieces)[i])
  {
    if pieces != [] {
      var p := Strip(pieces[0]);
      SurvivorsAreUnits(pieces[1..]);
      if p != [] {
        assert (p + ".")[..|p + "."| - 1] == p;
        StripIdempotent(pieces[0]);
      }
    }
  }

  /** A unit made from a non-blank piece: stripped, non-empty text followed by '.'. */
  predicate IsUnit(u: string) {
    |u| >= 2 && u[|u| - 1] == '.' && Strip(u[..|u| - 1]) == u[..|u| - 1]
  }

  /** The ordered display units of a summary. */
  function Sentences(summary: string): (units: seq<string>)
    ensures |units| >= 1
  {
    var s := Survivors(SplitOn(summary, "."));
    if s == [] then [summary] else s
  }

  /** Unless the raw summary is the fallback unit, every unit is stripped non-empty text plus '.'. */
  lemma SentencesAreUnits(summary: string)
    ensures var units := Sentences(summary);
      units == [summary] || forall i :: 0 <= i < |units| ==> IsUnit(units[i])
  {
    SurvivorsAreUnits(SplitOn(summary, "."));
  }

  /** The number of units never exceeds the number of pieces the split produces. */
  lemma SentenceCount(summary: string)
    ensures |Sentences(summary)| <= |SplitOn(summary, ".")|
  {
  }

  /** No survivor: the units are exactly the raw, unstripped summary. */
  lemma {:induction false} AllBlankKeepsRawSummary(summary: string)
    requires forall i :: 0 <= i < |SplitOn(summary, ".")| ==> AllSpace(SplitOn(summary, ".")[i])
    ensures Sentences(summary) == [summary]
  {
    AllBlankSurvivors(SplitOn(summary, "."));
  }

  lemma {:induction false} AllBlankSurvivors(pieces: seq<string>)
    requires forall i :: 0 <= i < |pieces| ==> AllSpace(pieces[i])
    ensures Survivors(pieces) == []
  {
    if pieces != [] {
      StripEmpty(pieces[0]);
      AllBlankSurvivors(pieces[1..]);
    }
  }

  /** A non-blank summary with no '.' still becomes one unit, with '.' appended. */
  lemma NoPeriodOneUnit(summary: string)
    requires '.' !in summary
    requires !AllSpace(summary)
    ensures Sentences(summary) == [Strip(summary) + "."]
  {
    SplitWithoutSeparator(summary, '.');
    StripEmpty(summary);
  }

  /** Text that survives as one unit: non-empty, already stripped, free of '.'. */
  predicate Clean(w: string) {
    w != [] && Strip(w) == w && '.' !in w
  }

  function Dotted(ws: seq<string>): seq<string> {
    seq(|ws|, i requires 0 <= i < |ws| => ws[i] + ".")
  }

  /**
   * Sentences written as "w1. w2. ... wn." come back as the units "w1.", ..., "wn."
   * (for example "A. B. C." gives "A.", "B.", "C.").
   */
  lemma SentencesOfJoined(ws: seq<string>)
    requires |ws| >= 1
    requires forall i :: 0 <= i < |ws| ==> Clean(ws[i])
    ensures Sentences(Join(ws, ". ") + ".") == Dotted(ws)
  {
    PaddedSurvivors("", ws);
    assert "" + Join(ws, ". ") == Join(ws, ". ");
  }

  lemma {:induction false} PaddedSurvivors(pre: string, ws: seq<string>)
    requires AllSpace(pre) && |ws| >= 1
    requires forall i :: 0 <= i < |ws| ==> Clean(ws[i])
    ensures Survivors(SplitOn(pre + Join(ws, ". ") + ".", ".")) == Dotted(ws)
    decreases |ws|
  {
    var w := ws[0];
    if |ws| == 1 {
      assert pre + Join(ws, ". ") + "." == (pre + w) + ['.'] + "";
      PaddedFirst(pre, w, "");
      SplitWithoutSeparator("", '.');
    } else {
      var tail := " " + Join(ws[1..], ". ") + ".";
      assert pre + Join(ws, ". ") + "." == (pre + w) + ['.'] + tail;
      PaddedFirst(pre, w, tail);
      PaddedSurvivors(" ", ws[1..]);
    }
    DottedCons(ws);
  }

  lemma DottedCons(ws: seq<string>)
    requires |ws| >= 1
    ensures Dotted(ws) == [ws[0] + "."] + Dotted(ws[1..])
  {
  }

  /** The first piece of a padded, clean word followed by '.' survives as that word plus '.'. */
  lemma PaddedFirst(pre: string, w: string, tail: string)
    requires AllSpace(pre) && Clean(w)
    ensures Survivors(SplitOn((pre + w) + ['.'] + tail, ".")) == [w + "."] + Survivors(SplitOn(tail, "."))
  {
    assert '.' !in pre by { assert forall k :: 0 <= k < |pre| ==> IsSpace(pre[k]); }
    assert '.' !in pre + w;
    StripPadded(pre, w);
    SplitOnFirst(pre + w, '.', tail);
    var pieces := [pre + w] + SplitOn(tail, ".");
    assert pieces[1..] == SplitOn(tail, ".");
  }
}
