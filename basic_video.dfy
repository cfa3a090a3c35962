/**
 * The basic video service: every slide is a blue background with the
 * sentence laid over it as a centred caption; when the caption cannot be made
 * with the 48-point Arial font a default 36-point caption is tried, and when
 * that fails too the slide is the background alone.
 */
module BasicVideo {
  import opened Wrappers
  import opened Segmenter
  import opened Timing
  import opened Media

  const Background: Colour := Rgb(41, 128, 185)
  const FontSize: nat := 48
  const FallbackFontSize: nat := 36
  const Floor: real := BasicFloor

  /** Whether each of the two caption attempts of a slide raises. */
  datatype SlideFaults = SlideFaults(captionFails: bool, plainCaptionFails: bool)

  datatype Env = Env(faults: nat -> SlideFaults, encodeOk: bool)

  /**
   * The clip a slide becomes: the caption composited over the background in
   * the first font size that works, or the background alone.
   */
  function Slide(sentence: string, d: real, f: SlideFaults): (c: Clip)
    ensures c.duration == d
    ensures c.CompositeClip? <==> !(f.captionFails && f.plainCaptionFails)
    ensures c.CompositeClip? ==> c.background == Background && c.text == sentence
    ensures c.CompositeClip? ==> c.fontSize == (if f.captionFails then FallbackFontSize else FontSize)
    ensures !c.CompositeClip? ==> c == ColorClip(Background, d)
  {
    if !f.captionFails then CompositeClip(Background, sentence, FontSize, d)
    else if !f.plainCaptionFails then CompositeClip(Background, sentence, FallbackFontSize, d)
    else ColorClip(Background, d)
  }

  /** One slide, built step by step.  No branch raises, so every duration gets its clip. */
  method MakeSlide(sentence: string, d: real, f: SlideFaults) returns (c: Clip)
    ensures c == Slide(sentence, d, f)
    ensures c.duration == d
    ensures !f.captionFails ==> c == CompositeClip(Background, sentence, FontSize, d)
    ensures f.captionFails && !f.plainCaptionFails ==> c == CompositeClip(Background, sentence, FallbackFontSize, d)
    ensures f.captionFails && f.plainCaptionFails ==> c == ColorClip(Background, d)
  {
    var background := ColorClip(Background, d);
    var size: nat;
    if !f.captionFails {
      size := FontSize;
    } else if !f.plainCaptionFails {
      size := FallbackFontSize;
    } else {
      return background;
    }
    c := CompositeClip(Background, sentence, size, d);
  }

  /** The slide loop: exactly one clip per allocated duration; `current_time` advances on both paths. */
  method BuildClips(units: seq<string>, ds: seq<real>, env: Env) returns (clips: seq<Clip>)
    requires |ds| <= |units|
    ensures |clips| == |ds|
    ensures Durations(clips) == ds
    ensures forall i :: 0 <= i < |clips| ==>
      (clips[i].CompositeClip? <==> !(env.faults(i).captionFails && env.faults(i).plainCaptionFails))
    ensures forall i :: 0 <= i < |clips| ==> clips[i].CompositeClip? ==> clips[i].text == units[i]
    ensures forall i :: 0 <= i < |clips| ==> clips[i] == Slide(units[i], ds[i], env.faults(i))
  {
    clips := [];
    for i := 0 to |ds|
      invariant |clips| == i
      invariant forall j :: 0 <= j < i ==> clips[j] == Slide(units[j], ds[j], env.faults(j))
    {
      var c := MakeSlide(units[i], ds[i], env.faults(i));
      clips := clips + [c];
    }
  }

  /**
   * `_create_video_sync`: no readable audio raises; otherwise one slide per
   * duration allocated with the 3.0 second floor, then assembly.  A slide never
   * aborts the run, so the only errors are unreadable audio, no clips and a
   * failed write.
   */
  method CreateVideo(summary: string, audio: Option<real>, videoId: string, env: Env) returns (o: Outcome)
    ensures audio.None? ==> o == Outcome(Failure(AudioUnreadable), [], false)
    ensures audio.Some? ==>
      var units := Sentences(summary);
      var ds := Schedule(audio.value, |units|, Floor);
      Durations(o.clips) == ds &&
      (forall i :: 0 <= i < |o.clips| ==> o.clips[i] == Slide(units[i], ds[i], env.faults(i))) &&
      (forall i :: 0 <= i < |o.clips| ==>
        (o.clips[i].CompositeClip? <==> !(env.faults(i).captionFails && env.faults(i).plainCaptionFails))) &&
      (forall i :: 0 <= i < |o.clips| ==> o.clips[i].CompositeClip? ==> o.clips[i].text == units[i]) &&
      o == Finish(o.clips, videoId, env.encodeOk)
  {
    if audio.None? {
      return Outcome(Failure(AudioUnreadable), [], false);
    }
    var units := Sentences(summary);
    var ds := Allocate(audio.value, |units|, Floor);
    var clips := BuildClips(units, ds, env);
    return Finish(clips, videoId, env.encodeOk);
  }

  /** With a single sentence and some audio, the only slide lasts the whole audio. */
  lemma SingleSentenceWholeAudio(summary: string, total: real)
    requires |Sentences(summary)| == 1 && total > 0.0
    ensures Schedule(total, |Sentences(summary)|, Floor) == [total]
  {
    SingleSentence(total, Floor);
  }

  /** With some audio, the slides of a run last exactly as long as the audio. */
  lemma VideoLength(summary: string, total: real, clips: seq<Clip>)
    requires total > 0.0
    requires Durations(clips) == Schedule(total, |Sentences(summary)|, Floor)
    ensures Sum(Durations(clips)) == total
  {
    ScheduleSum(total, |Sentences(summary)|, Floor);
  }
}
