/**
 * The simple video service: every sentence is drawn as wrapped white text
 * with a shadow on a blue frame, starting at the left edge; a frame that
 * cannot be drawn is replaced by the plain blue frame, and an image the video
 * library cannot load by a blue clip.
 */
module SimpleVideo {
  import opened Wrappers
  import opened Strings
  import opened Segmenter
  import opened Timing
  import opened Layout
  import opened Media

  const Background: Colour := Rgb(52, 152, 219)
  const FontSize: int := 60
  const LineHeight: int := FontSize + 10
  const WrapLimit: int := FrameWidth - 100
  const Floor: real := SimpleFloor

  /** Line i of k drawn lines: at the left edge, shadow 3 pixels down and right. */
  function PlaceLine(line: string, i: nat, k: nat): TextLine {
    var y := StartY(k, LineHeight) + i * LineHeight;
    TextLine(line, 0, y, White, Some(Shadow(3, 3, Colour(0, 0, 0, 128))), None)
  }

  function PlacedLines(lines: seq<string>): (ps: seq<TextLine>)
    ensures |ps| == |lines|
  {
    seq(|lines|, i requires 0 <= i < |lines| => PlaceLine(lines[i], i, |lines|))
  }

  /**
   * The drawn text: the wrapped lines in order, white, at x = 0 with the
   * shadow at (3, y + 3), the block centred vertically with lines 70 pixels apart.
   */
  lemma PlacedLinesLayout(lines: seq<string>)
    ensures var ps := PlacedLines(lines);
      forall i :: 0 <= i < |ps| ==>
        ps[i].text == lines[i] && ps[i].fill == White && ps[i].x == 0 &&
        ps[i].y == StartY(|lines|, LineHeight) + i * LineHeight &&
        ps[i].shadow == Some(Shadow(3, 3, Colour(0, 0, 0, 128))) && ps[i].underline == None
    ensures var ps := PlacedLines(lines);
      forall i :: 0 <= i < |ps| - 1 ==> ps[i + 1].y - ps[i].y == LineHeight
    ensures 0 <= (FrameHeight - (StartY(|lines|, LineHeight) + |lines| * LineHeight)) - StartY(|lines|, LineHeight) <= 1
  {
    StartYCentres(|lines|, LineHeight);
  }

  /** What can go wrong while one slide is made: drawing or saving the frame, saving the plain frame, loading the clip. */
  datatype SlideFaults = SlideFaults(drawFails: bool, plainSaveFails: bool, clipFails: bool)

  predicate Raises(f: SlideFaults) {
    f.drawFails && f.plainSaveFails
  }

  /**
   * `_create_text_image`: the blue frame with the wrapped text; when drawing
   * raises, the plain blue frame without text is saved instead, and only a
   * failure to save that propagates.
   */
  method CreateTextImage(text: string, font: Measure, f: SlideFaults) returns (r: Option<Image>)
    ensures r.None? <==> Raises(f)
    ensures r.Some? && !f.drawFails ==> r.value == Image(Background, PlacedLines(Lines(text, font, WrapLimit)))
    ensures r.Some? && f.drawFails ==> r.value == Image(Background, [])
  {
    if !f.drawFails {
      var lines := WrapLines(text, font, WrapLimit);
      var startY := (FrameHeight - |lines| * LineHeight) / 2;
      var drawn: seq<TextLine> := [];
      for i := 0 to |lines|
        invariant |drawn| == i
        invariant forall j :: 0 <= j < i ==> drawn[j] == PlaceLine(lines[j], j, |lines|)
      {
        var y := startY + i * LineHeight;
        drawn := drawn + [TextLine(lines[i], 0, y, White, Some(Shadow(3, 3, Colour(0, 0, 0, 128))), None)];
      }
      return Some(Image(Background, drawn));
    }
    if f.plainSaveFails {
      return None;
    }
    return Some(Image(Background, []));
  }

  /** The clip a slide becomes. */
  ghost predicate SlideClip(c: Clip, text: string, d: real, font: Measure, f: SlideFaults) {
    if f.clipFails then c == ColorClip(Background, d)
    else c == ImageClip(Image(Background, if f.drawFails then [] else PlacedLines(Lines(text, font, WrapLimit))), d)
  }

  datatype Env = Env(font: Measure, faults: nat -> SlideFaults, encodeOk: bool)

  /** The slide loop: one clip per duration, in order, until a frame cannot be saved. */
  method BuildClips(units: seq<string>, ds: seq<real>, env: Env) returns (clips: seq<Clip>, failed: Option<nat>)
    requires |ds| <= |units|
    ensures failed.None? ==> |clips| == |ds|
    ensures failed.Some? ==> failed.value == |clips| < |ds| && Raises(env.faults(|clips|))
    ensures forall j :: 0 <= j < |clips| ==>
      !Raises(env.faults(j)) && clips[j].duration == ds[j] && SlideClip(clips[j], units[j], ds[j], env.font, env.faults(j))
  {
    clips := [];
    for i := 0 to |ds|
      invariant |clips| == i
      invariant forall j :: 0 <= j < i ==>
        !Raises(env.faults(j)) && clips[j].duration == ds[j] && SlideClip(clips[j], units[j], ds[j], env.font, env.faults(j))
    {
      var f := env.faults(i);
      var img := CreateTextImage(units[i], env.font, f);
      if img.None? {
        return clips, Some(i);
      }
      var clip;
      if f.clipFails {
        clip := ColorClip(Background, ds[i]);
      } else {
        clip := ImageClip(img.value, ds[i]);
      }
      clips := clips + [clip];
    }
    failed := None;
  }

  /**
   * `_create_video_sync`: no readable audio raises; otherwise one clip per
   * allocated duration with the 4.0 second floor, then assembly.
   */
  method CreateVideo(summary: string, audio: Option<real>, videoId: string, env: Env) returns (o: Outcome)
    ensures audio.None? ==> o == Outcome(Failure(AudioUnreadable), [], false)
    ensures audio.Some? ==>
      var units := Sentences(summary);
      var ds := Schedule(audio.value, |units|, Floor);
      |o.clips| <= |ds| &&
      (forall i :: 0 <= i < |o.clips| ==>
        !Raises(env.faults(i)) && o.clips[i].duration == ds[i] &&
        SlideClip(o.clips[i], units[i], ds[i], env.font, env.faults(i))) &&
      (|o.clips| < |ds| ==> Raises(env.faults(|o.clips|)) && o == Outcome(Failure(SceneFailed(|o.clips|)), o.clips, false)) &&
      (|o.clips| == |ds| ==> o == Finish(o.clips, videoId, env.encodeOk))
  {
    if audio.None? {
      return Outcome(Failure(AudioUnreadable), [], false);
    }
    var units := Sentences(summary);
    var ds := Allocate(audio.value, |units|, Floor);
    var clips, failed := BuildClips(units, ds, env);
    if failed.Some? {
      return Outcome(Failure(SceneFailed(failed.value)), clips, false);
    }
    return Finish(clips, videoId, env.encodeOk);
  }
}
