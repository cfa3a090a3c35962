/**
 * The summariser: the text is cut into chunks of sentences by an estimated
 * token count, long chunks are summarised one by one, short ones kept as they
 * are, the pieces are joined, a still-long result is summarised once more,
 * and any failure of the model falls back to a truncated copy of the text.
 */
module Summarization {
  import opened Wrappers
  import opened Strings

  const MaxChunkTokens: nat := 900

  /** A chunk's estimated token count: one token per four characters, rounded down. */
  function EstimatedTokens(s: string): nat {
    |s| / 4
  }

  /** Whether the sentence s closes the chunk built so far and starts the next one. */
  predicate Breaks(current: string, s: string, maxLen: nat) {
    EstimatedTokens(current + s) > maxLen && current != []
  }

  /**
   * Greedy packing: a sentence that would push the estimate over the limit
   * closes the non-empty chunk so far and becomes the whole of the next chunk;
   * otherwise it is added followed by ". ".  Closed chunks are stripped.
   */
  function PackFrom(ss: seq<string>, maxLen: nat, chunks: seq<string>, current: string): seq<string>
    decreases |ss|
  {
    if ss == [] then
      if current != [] then chunks + [Strip(current)] else chunks
    else if Breaks(current, ss[0], maxLen) then
      PackFrom(ss[1..], maxLen, chunks + [Strip(current)], ss[0])
    else
      PackFrom(ss[1..], maxLen, chunks, current + ss[0] + ". ")
  }

  /** The chunks of a text: its pieces between occurrences of ". ", packed. */
  function Chunks(text: string, maxLen: nat): seq<string> {
    PackFrom(SplitOn(text, ". "), maxLen, [], "")
  }

  /** `_chunk_text`. */
  method ChunkText(text: string, maxLen: nat) returns (chunks: seq<string>)
    ensures chunks == Chunks(text, maxLen)
  {
    var sentences := SplitOn(text, ". ");
    chunks := [];
    var current := "";
    var i := 0;
    while i < |sentences|
      invariant 0 <= i <= |sentences|
      invariant PackFrom(sentences[i..], maxLen, chunks, current) == Chunks(text, maxLen)
    {
      var sentence := sentences[i];
      assert sentences[i..][0] == sentence && sentences[i..][1..] == sentences[i + 1..];
      var estimated := |current + sentence| / 4;
      if estimated > maxLen && current != "" {
        chunks := chunks + [Strip(current)];
        current := sentence;
      } else {
        current := current + sentence + ". ";
      }
      i := i + 1;
    }
    if current != "" {
      chunks := chunks + [Strip(current)];
    }
  }

  lemma {:induction false} PackFromNonEmpty(ss: seq<string>, maxLen: nat, chunks: seq<string>, current: string)
    requires chunks != [] || current != [] || ss != []
    ensures PackFrom(ss, maxLen, chunks, current) != []
    decreases |ss|
  {
    if ss != [] {
      if Breaks(current, ss[0], maxLen) {
        PackFromNonEmpty(ss[1..], maxLen, chunks + [Strip(current)], ss[0]);
      } else {
        PackFromNonEmpty(ss[1..], maxLen, chunks, current + ss[0] + ". ");
      }
    }
  }

  /** There is always at least one chunk, even for the empty text. */
  lemma AtLeastOneChunk(text: string, maxLen: nat)
    ensures |Chunks(text, maxLen)| >= 1
  {
    PackFromNonEmpty(SplitOn(text, ". "), maxLen, [], "");
  }

  lemma {:induction false} PackFromStripped(ss: seq<string>, maxLen: nat, chunks: seq<string>, current: string)
    requires forall k :: 0 <= k < |chunks| ==> Strip(chunks[k]) == chunks[k]
    ensures forall k :: 0 <= k < |PackFrom(ss, maxLen, chunks, current)| ==>
      Strip(PackFrom(ss, maxLen, chunks, current)[k]) == PackFrom(ss, maxLen, chunks, current)[k]
    decreases |ss|
  {
    StripIdempotent(current);
    var grown := chunks + [Strip(current)];
    assert forall k :: 0 <= k < |grown| ==> Strip(grown[k]) == grown[k];
    if ss != [] {
      if Breaks(current, ss[0], maxLen) {
        PackFromStripped(ss[1..], maxLen, chunks + [Strip(current)], ss[0]);
      } else {
        PackFromStripped(ss[1..], maxLen, chunks, current + ss[0] + ". ");
      }
    }
  }

  /** Every chunk is already stripped of surrounding whitespace. */
  lemma ChunksStripped(text: string, maxLen: nat)
    ensures forall k :: 0 <= k < |Chunks(text, maxLen)| ==> Strip(Chunks(text, maxLen)[k]) == Chunks(text, maxLen)[k]
  {
    PackFromStripped(SplitOn(text, ". "), maxLen, [], "");
  }

  lemma {:induction false} PackFromCount(ss: seq<string>, maxLen: nat, chunks: seq<string>, current: string)
    ensures |PackFrom(ss, maxLen, chunks, current)| <= |chunks| + |ss| + (if current == [] then 0 else 1)
    decreases |ss|
  {
    if ss != [] {
      if Breaks(current, ss[0], maxLen) {
        PackFromCount(ss[1..], maxLen, chunks + [Strip(current)], ss[0]);
      } else {
        PackFromCount(ss[1..], maxLen, chunks, current + ss[0] + ". ");
      }
    }
  }

  /** Never more chunks than sentences. */
  lemma ChunkCount(text: string, maxLen: nat)
    ensures |Chunks(text, maxLen)| <= |SplitOn(text, ". ")|
  {
    PackFromCount(SplitOn(text, ". "), maxLen, [], "");
  }

  lemma {:induction false} PackFromNoBreak(ss: seq<string>, maxLen: nat, chunks: seq<string>, current: string)
    requires ss != []
    requires |current| + |Join(ss, ". ")| <= 4 * maxLen + 3
    ensures PackFrom(ss, maxLen, chunks, current) == chunks + [Strip(current + Join(ss, ". ") + ". ")]
    decreases |ss|
  {
    var s := ss[0];
    if |ss| > 1 {
      assert Join(ss, ". ") == s + ". " + Join(ss[1..], ". ");
    }
    assert |current + s| <= 4 * maxLen + 3;
    assert !Breaks(current, s, maxLen);
    if |ss| == 1 {
      assert ss[1..] == [];
    } else {
      PackFromNoBreak(ss[1..], maxLen, chunks, current + s + ". ");
      assert current + s + ". " + Join(ss[1..], ". ") == current + Join(ss, ". ");
    }
  }

  /**
   * A text whose estimate does not exceed the limit is one chunk: the text
   * with ". " added, stripped.
   */
  lemma ShortTextOneChunk(text: string, maxLen: nat)
    requires EstimatedTokens(text) <= maxLen
    ensures Chunks(text, maxLen) == [Strip(text + ". ")]
  {
    SplitJoin(text, ". ");
    PackFromNoBreak(SplitOn(text, ". "), maxLen, [], "");
    assert "" + text + ". " == text + ". ";
  }

  /**
   * The sentence that opens a new chunk is not followed by ". ": when the next
   * sentence joins it, the two are glued together.
   */
  lemma OpenerGlued(s: string, t: string, rest: seq<string>, maxLen: nat, chunks: seq<string>, current: string)
    requires Breaks(current, s, maxLen) && !Breaks(s, t, maxLen)
    ensures PackFrom([s, t] + rest, maxLen, chunks, current) == PackFrom(rest, maxLen, chunks + [Strip(current)], s + t + ". ")
  {
    var ss := [s, t] + rest;
    assert ss[0] == s && ss[1..] == [t] + rest;
    assert ([t] + rest)[0] == t && ([t] + rest)[1..] == rest;
  }

  /** A chunk closes only when the estimate with the next sentence is over the limit and the chunk is non-empty. */
  lemma BreakRule(s: string, rest: seq<string>, maxLen: nat, chunks: seq<string>, current: string)
    ensures Breaks(current, s, maxLen) ==> PackFrom([s] + rest, maxLen, chunks, current) == PackFrom(rest, maxLen, chunks + [Strip(current)], s)
    ensures !Breaks(current, s, maxLen) ==> PackFrom([s] + rest, maxLen, chunks, current) == PackFrom(rest, maxLen, chunks, current + s + ". ")
  {
    assert ([s] + rest)[0] == s && ([s] + rest)[1..] == rest;
  }

  /** The summarisation model: text, maximum and minimum length; None when it raises. */
  type Model = (string, nat, nat) -> Option<string>

  const ShortText: nat := 50
  const LongSummary: nat := 1000
  const FallbackLength: nat := 500

  /** The first pass: short chunks are kept verbatim, the others summarised to 30..150. */
  function FirstPass(chunks: seq<string>, model: Model): Option<seq<string>> {
    if chunks == [] then Some([])
    else
      var c := chunks[0];
      var head := if |Strip(c)| < ShortText then Some(c) else model(c, 150, 30);
      match head
      case None => None
      case Some(h) =>
        match FirstPass(chunks[1..], model)
        case None => None
        case Some(rest) => Some([h] + rest)
  }

  function Prepend(p: seq<string>, o: Option<seq<string>>): Option<seq<string>> {
    match o
    case None => None
    case Some(rest) => Some(p + rest)
  }

  lemma PrependEmpty(o: Option<seq<string>>)
    ensures Prepend([], o) == o
  {
    if o.Some? {
      assert [] + o.value == o.value;
    }
  }

  lemma PrependTwice(p: seq<string>, q: seq<string>, o: Option<seq<string>>)
    ensures Prepend(p, Prepend(q, o)) == Prepend(p + q, o)
  {
    if o.Some? {
      assert p + (q + o.value) == (p + q) + o.value;
    }
  }

  /** The error fallback: at most 500 characters of the text, marked with "..." when cut. */
  function Fallback(text: string): (r: string)
    ensures |r| <= FallbackLength + 3
    ensures |text| <= FallbackLength ==> r == text
    ensures |text| > FallbackLength ==> r == text[..FallbackLength] + "..."
  {
    if |text| > FallbackLength then text[..FallbackLength] + "..." else text
  }

  /** What `_summarize_sync` returns for a text. */
  function Summarize(text: string, model: Model): string {
    var t := Strip(text);
    if |t| < ShortText then t
    else
      match FirstPass(Chunks(t, MaxChunkTokens), model)
      case None => Fallback(t)
      case Some(summaries) =>
        var joined := Join(summaries, " ");
        if |joined| > LongSummary then
          match model(joined, 200, 50)
          case None => Fallback(t)
          case Some(s) => s
        else joined
  }

  /** `_summarize_sync`: the chunk loop, the join, the optional second pass and the fallback. */
  method SummarizeSync(text: string, model: Model) returns (r: string)
    ensures r == Summarize(text, model)
  {
    var t := Strip(text);
    if |t| < ShortText {
      return t;
    }
    var chunks := ChunkText(t, MaxChunkTokens);
    var summaries: seq<string> := [];
    assert chunks[0..] == chunks;
    PrependEmpty(FirstPass(chunks, model));
    for i := 0 to |chunks|
      invariant FirstPass(chunks, model) == Prepend(summaries, FirstPass(chunks[i..], model))
    {
      var chunk := chunks[i];
      assert chunks[i..][0] == chunk && chunks[i..][1..] == chunks[i + 1..];
      if |Strip(chunk)| < ShortText {
        PrependTwice(summaries, [chunk], FirstPass(chunks[i + 1..], model));
        summaries := summaries + [chunk];
        continue;
      }
      var s := model(chunk, 150, 30);
      if s.None? {
        assert FirstPass(chunks[i..], model) == None;
        return Fallback(t);
      }
      PrependTwice(summaries, [s.value], FirstPass(chunks[i + 1..], model));
      summaries := summaries + [s.value];
    }
    assert chunks[|chunks|..] == [];
    assert summaries + [] == summaries;
    assert FirstPass(chunks, model) == Some(summaries);
    var finalSummary := Join(summaries, " ");
    if |finalSummary| > LongSummary {
      var s := model(finalSummary, 200, 50);
      if s.None? {
        return Fallback(t);
      }
      finalSummary := s.value;
    }
    return finalSummary;
  }

  /** A stripped input under 50 characters comes back unchanged, without the model. */
  lemma ShortInputUnchanged(text: string, model: Model)
    requires |Strip(text)| < ShortText
    ensures Summarize(text, model) == Strip(text)
  {
  }

  /**
   * First-pass results line up with the chunks: short chunks verbatim, the
   * others the model's output; it fails exactly when the model fails on a long chunk.
   */
  lemma {:induction false} FirstPassShape(chunks: seq<string>, model: Model)
    ensures FirstPass(chunks, model).Some? ==>
      var ss := FirstPass(chunks, model).value;
      |ss| == |chunks| &&
      (forall i :: 0 <= i < |chunks| && |Strip(chunks[i])| < ShortText ==> ss[i] == chunks[i]) &&
      (forall i :: 0 <= i < |chunks| && |Strip(chunks[i])| >= ShortText ==> model(chunks[i], 150, 30) == Some(ss[i]))
    ensures FirstPass(chunks, model).None? <==>
      exists i :: 0 <= i < |chunks| && |Strip(chunks[i])| >= ShortText && model(chunks[i], 150, 30).None?
  {
    if chunks != [] {
      FirstPassShape(chunks[1..], model);
      var tail := chunks[1..];
      assert forall i :: 1 <= i < |chunks| ==> chunks[i] == tail[i - 1];
      if FirstPass(chunks, model).None? {
        var c := chunks[0];
        if !(|Strip(c)| >= ShortText && model(c, 150, 30).None?) {
          var j :| 0 <= j < |tail| && |Strip(tail[j])| >= ShortText && model(tail[j], 150, 30).None?;
          assert chunks[j + 1] == tail[j];
        }
      } else {
        var ss := FirstPass(chunks, model).value;
        var rest := FirstPass(tail, model).value;
        assert forall i :: 1 <= i < |chunks| ==> ss[i] == rest[i - 1];
      }
    }
  }

  /** Once the text is long enough to be summarised, only long chunks ever reach the model. */
  lemma ShortChunksModelFree(text: string, m1: Model, m2: Model)
    requires forall k :: 0 <= k < |Chunks(Strip(text), MaxChunkTokens)| ==> |Strip(Chunks(Strip(text), MaxChunkTokens)[k])| < ShortText
    ensures FirstPass(Chunks(Strip(text), MaxChunkTokens), m1) == FirstPass(Chunks(Strip(text), MaxChunkTokens), m2)
    ensures FirstPass(Chunks(Strip(text), MaxChunkTokens), m1) == Some(Chunks(Strip(text), MaxChunkTokens))
  {
    AllShortVerbatim(Chunks(Strip(text), MaxChunkTokens), m1);
    AllShortVerbatim(Chunks(Strip(text), MaxChunkTokens), m2);
  }

  lemma {:induction false} AllShortVerbatim(chunks: seq<string>, model: Model)
    requires forall k :: 0 <= k < |chunks| ==> |Strip(chunks[k])| < ShortText
    ensures FirstPass(chunks, model) == Some(chunks)
  {
    if chunks != [] {
      AllShortVerbatim(chunks[1..], model);
      assert chunks == [chunks[0]] + chunks[1..];
    }
  }

  /** The second pass happens only when the joined first-pass summaries exceed 1000 characters. */
  lemma NoSecondPassWhenShort(text: string, model: Model, summaries: seq<string>)
    requires |Strip(text)| >= ShortText
    requires FirstPass(Chunks(Strip(text), MaxChunkTokens), model) == Some(summaries)
    requires |Join(summaries, " ")| <= LongSummary
    ensures Summarize(text, model) == Join(summaries, " ")
  {
  }

  /** Joined first-pass summaries longer than 1000 characters are replaced by the model's second summary. */
  lemma SecondPassWhenLong(text: string, model: Model, summaries: seq<string>, s: string)
    requires |Strip(text)| >= ShortText
    requires FirstPass(Chunks(Strip(text), MaxChunkTokens), model) == Some(summaries)
    requires |Join(summaries, " ")| > LongSummary
    requires model(Join(summaries, " "), 200, 50) == Some(s)
    ensures Summarize(text, model) == s
  {
  }

  /**
   * A model failure in either pass gives the fallback on the stripped text,
   * never more than 503 characters.
   */
  lemma FailureFallback(text: string, model: Model)
    requires |Strip(text)| >= ShortText
    requires FirstPass(Chunks(Strip(text), MaxChunkTokens), model).None? ||
      (|Join(FirstPass(Chunks(Strip(text), MaxChunkTokens), model).value, " ")| > LongSummary &&
       model(Join(FirstPass(Chunks(Strip(text), MaxChunkTokens), model).value, " "), 200, 50).None?)
    ensures Summarize(text, model) == Fallback(Strip(text))
    ensures |Summarize(text, model)| <= 503
  {
  }
}
