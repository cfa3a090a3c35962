/**
 * The enhanced video service: each sentence becomes a scene whose colour
 * follows its position in the summary, drawn with wrapped, centred white text;
 * a scene that cannot be drawn falls back to a plain grey frame, and a scene
 * image the video library cannot load falls back to a clip in the scene colour.
 */
module EnhancedVideo {
  import opened Wrappers
  import opened Strings
  import opened Segmenter
  import opened Timing
  import opened Layout
  import opened Media

  datatype SceneType = Intro | Content | Highlight | Conclusion | Neutral

  /** The role the sentence at position i of n plays. */
  function RoleAt(i: nat, n: nat): SceneType {
    if i == 0 then Intro
    else if i == n - 1 then Conclusion
    else if i % 3 == 0 then Highlight
    else Content
  }

  /** `_assign_scene_types`: one role per sentence, chosen by position. */
  method AssignSceneTypes(n: nat) returns (types: seq<SceneType>)
    ensures |types| == n
    ensures n >= 1 ==> types[0] == Intro
    ensures n >= 2 ==> types[n - 1] == Conclusion
    ensures forall i :: 0 < i < n - 1 ==> (types[i] == Highlight <==> i % 3 == 0)
    ensures forall i :: 0 < i < n - 1 ==> (types[i] == Content <==> i % 3 != 0)
    ensures forall i :: 0 <= i < n ==> types[i] != Neutral
    ensures forall i :: 0 <= i < n ==> types[i] == RoleAt(i, n)
  {
    types := [];
    var i := 0;
    while i < n
      invariant 0 <= i <= n
      invariant |types| == i
      invariant forall j :: 0 <= j < i ==> types[j] == RoleAt(j, n)
    {
      var t;
      if i == 0 {
        t := Intro;
      } else if i == n - 1 {
        t := Conclusion;
      } else if i % 3 == 0 {
        t := Highlight;
      } else {
        t := Content;
      }
      types := types + [t];
      i := i + 1;
    }
  }

  /**
   * The base colour of each kind of scene, all opaque; the grey of the
   * fallback frame is used by no drawn scene.
   */
  function SceneColour(t: SceneType): (c: Colour)
    ensures c.a == 255
    ensures c == Rgb(149, 165, 166) <==> t == Neutral
  {
    match t
    case Intro => Rgb(41, 128, 185)
    case Content => Rgb(52, 152, 219)
    case Highlight => Rgb(46, 204, 113)
    case Conclusion => Rgb(155, 89, 182)
    case Neutral => Rgb(149, 165, 166)
  }

  /** `_get_text_color`: both of its branches give white. */
  function TextColour(t: SceneType): (c: Colour)
    ensures c == White
  {
    if t == Highlight then Rgb(255, 255, 255) else Rgb(255, 255, 255)
  }

  const FontSize: int := 48
  const LineHeight: int := FontSize + 15
  const WrapLimit: int := FrameWidth - 200
  const FallbackFontSize: int := 40

  /** The fonts the service draws with: the scene font (size 48) and the fallback font (size 40). */
  datatype Fonts = Fonts(scene: Measure, fallback: Measure)

  /** Line i of k drawn lines of a scene of type t. */
  function PlaceLine(line: string, i: nat, k: nat, t: SceneType, width: Measure): TextLine {
    var y := StartY(k, LineHeight) + i * LineHeight;
    var w := width(line);
    var x := CentredX(w);
    TextLine(line, x, y, TextColour(t),
      Some(Shadow(4, 4, Colour(0, 0, 0, 100))),
      if t == Highlight then Some(Stroke(x, y + FontSize + 5, x + w, y + FontSize + 5, Colour(255, 255, 255, 80), 3)) else None)
  }

  function PlacedLines(lines: seq<string>, t: SceneType, width: Measure): (ps: seq<TextLine>)
    ensures |ps| == |lines|
  {
    seq(|lines|, i requires 0 <= i < |lines| => PlaceLine(lines[i], i, |lines|, t, width))
  }

  /** The text stage of a scene (`_draw_enhanced_text`): wrap, then draw each line centred. */
  method DrawEnhancedText(text: string, t: SceneType, width: Measure) returns (drawn: seq<TextLine>)
    ensures drawn == PlacedLines(Lines(text, width, WrapLimit), t, width)
  {
    var lines := WrapLines(text, width, WrapLimit);
    var startY := (FrameHeight - |lines| * LineHeight) / 2;
    drawn := [];
    for i := 0 to |lines|
      invariant |drawn| == i
      invariant forall j :: 0 <= j < i ==> drawn[j] == PlaceLine(lines[j], j, |lines|, t, width)
    {
      var y := startY + i * LineHeight;
      var w := width(lines[i]);
      var x := (FrameWidth - w) / 2;
      var underline := None;
      if t == Highlight {
        underline := Some(Stroke(x, y + FontSize + 5, x + w, y + FontSize + 5, Colour(255, 255, 255, 80), 3));
      }
      drawn := drawn + [TextLine(lines[i], x, y, TextColour(t), Some(Shadow(4, 4, Colour(0, 0, 0, 100))), underline)];
    }
  }

  /**
   * The drawn text of a scene: the wrapped lines in order, each white, centred
   * across the frame with its shadow 4 pixels down and right, the block centred
   * vertically with lines 63 pixels apart, and an underline under exactly the
   * width of each line in highlight scenes only.
   */
  lemma PlacedLinesLayout(lines: seq<string>, t: SceneType, width: Measure)
    ensures var ps := PlacedLines(lines, t, width);
      forall i :: 0 <= i < |ps| ==>
        ps[i].text == lines[i] && ps[i].fill == White &&
        0 <= (FrameWidth - (ps[i].x + width(lines[i]))) - ps[i].x <= 1 &&
        ps[i].y == StartY(|lines|, LineHeight) + i * LineHeight &&
        ps[i].shadow == Some(Shadow(4, 4, Colour(0, 0, 0, 100))) &&
        (ps[i].underline.Some? <==> t == Highlight) &&
        (ps[i].underline.Some? ==>
           (ps[i].underline.value.x1 == ps[i].x &&
            ps[i].underline.value.x2 - ps[i].underline.value.x1 == width(lines[i]) &&
            ps[i].underline.value.y1 == ps[i].y + 53))
    ensures var ps := PlacedLines(lines, t, width);
      forall i :: 0 <= i < |ps| - 1 ==> ps[i + 1].y - ps[i].y == LineHeight
  {
    var ps := PlacedLines(lines, t, width);
    forall i | 0 <= i < |ps|
      ensures 0 <= (FrameWidth - (ps[i].x + width(lines[i]))) - ps[i].x <= 1
    {
      CentredXCentres(width(lines[i]));
    }
  }

  /** `_create_fallback_scene`: a grey frame with the whole, unwrapped sentence on one unshadowed line, centred, at y = 340. */
  function FallbackImage(text: string, width: Measure): (img: Image)
    ensures img.background == SceneColour(Neutral) && |img.lines| == 1
    ensures img.lines[0].text == text && img.lines[0].fill == White
    ensures img.lines[0].shadow == None && img.lines[0].underline == None
    ensures img.lines[0].y == 340
    ensures 0 <= (FrameWidth - (img.lines[0].x + width(text))) - img.lines[0].x <= 1
  {
    CentredXCentres(width(text));
    Image(SceneColour(Neutral), [TextLine(text, CentredX(width(text)), (FrameHeight - FallbackFontSize) / 2, White, None, None)])
  }

  /**
   * What can go wrong while one slide is made: drawing the scene (its
   * background, characters, elements, effects or saving it), drawing its text
   * (caught inside the text stage), saving the fallback frame, and loading the
   * image as a clip.
   */
  datatype SlideFaults = SlideFaults(sceneFails: bool, textFails: bool, fallbackFails: bool, clipFails: bool)

  /** A slide's scene cannot be made: both the scene and its fallback raise. */
  predicate Raises(f: SlideFaults) {
    f.sceneFails && f.fallbackFails
  }

  /** The frame made for a sentence, when its making does not raise. */
  ghost predicate SceneImage(img: Image, text: string, t: SceneType, fonts: Fonts, f: SlideFaults) {
    if f.sceneFails then img == FallbackImage(text, fonts.fallback)
    else (img.background == SceneColour(t) &&
          img.lines == (if f.textFails then [] else PlacedLines(Lines(text, fonts.scene, WrapLimit), t, fonts.scene)))
  }

  /**
   * `_create_character_scene`: draw the scene; when that raises, make the
   * fallback frame instead; only a failure of the fallback itself propagates.
   */
  method CreateCharacterScene(text: string, t: SceneType, fonts: Fonts, f: SlideFaults) returns (r: Option<Image>)
    ensures r.None? <==> Raises(f)
    ensures r.Some? ==> SceneImage(r.value, text, t, fonts, f)
  {
    if !f.sceneFails {
      var drawn: seq<TextLine> := [];
      if !f.textFails {
        drawn := DrawEnhancedText(text, t, fonts.scene);
      }
      return Some(Image(SceneColour(t), drawn));
    }
    if f.fallbackFails {
      return None;
    }
    return Some(FallbackImage(text, fonts.fallback));
  }

  /** The clip a slide becomes: the scene image, or a clip in the scene colour when it cannot be loaded. */
  ghost predicate SlideClip(c: Clip, text: string, t: SceneType, d: real, fonts: Fonts, f: SlideFaults) {
    c.duration == d &&
    (if f.clipFails then c == ColorClip(SceneColour(t), d)
     else c.ImageClip? && SceneImage(c.image, text, t, fonts, f))
  }

  /** Everything outside the service that decides how a run goes. */
  datatype Env = Env(fonts: Fonts, faults: nat -> SlideFaults, encodeOk: bool)

  const Floor: real := EnhancedFloor

  /**
   * `_create_video_sync`: no readable audio raises; otherwise one clip per
   * allocated duration, in order, each built from its sentence and role, until
   * a scene raises (which aborts the whole call) or the durations run out;
   * then the clips are assembled.
   */
  method CreateVideo(summary: string, audio: Option<real>, videoId: string, env: Env) returns (o: Outcome)
    ensures audio.None? ==> o == Outcome(Failure(AudioUnreadable), [], false)
    ensures audio.Some? ==>
      var units := Sentences(summary);
      var ds := Schedule(audio.value, |units|, Floor);
      |o.clips| <= |ds| &&
      (forall i :: 0 <= i < |o.clips| ==>
        !Raises(env.faults(i)) &&
        SlideClip(o.clips[i], units[i], RoleAt(i, |units|), ds[i], env.fonts, env.faults(i))) &&
      (|o.clips| < |ds| ==> Raises(env.faults(|o.clips|)) && o == Outcome(Failure(SceneFailed(|o.clips|)), o.clips, false)) &&
      (|o.clips| == |ds| ==> o == Finish(o.clips, videoId, env.encodeOk))
  {
    if audio.None? {
      return Outcome(Failure(AudioUnreadable), [], false);
    }
    var total := audio.value;
    var units := Sentences(summary);
    SentenceCount(summary);
    var types := AssignSceneTypes(|units|);
    var ds := Allocate(total, |units|, Floor);
    ScheduleShape(total, |units|, Floor);
    var clips, failed := BuildClips(units, types, ds, env);
    if failed.Some? {
      return Outcome(Failure(SceneFailed(failed.value)), clips, false);
    }
    return Finish(clips, videoId, env.encodeOk);
  }

  /** The slide loop: one clip per duration, in order, until a scene raises. */
  method BuildClips(units: seq<string>, types: seq<SceneType>, ds: seq<real>, env: Env) returns (clips: seq<Clip>, failed: Option<nat>)
    requires |ds| <= |units| == |types|
    requires forall i :: 0 <= i < |types| ==> types[i] == RoleAt(i, |units|)
    ensures failed.None? ==> |clips| == |ds|
    ensures failed.Some? ==> failed.value == |clips| < |ds| && Raises(env.faults(|clips|))
    ensures forall j :: 0 <= j < |clips| ==>
      !Raises(env.faults(j)) &&
      SlideClip(clips[j], units[j], RoleAt(j, |units|), ds[j], env.fonts, env.faults(j))
  {
    clips := [];
    for i := 0 to |ds|
      invariant |clips| == i
      invariant forall j :: 0 <= j < i ==>
        !Raises(env.faults(j)) &&
        SlideClip(clips[j], units[j], RoleAt(j, |units|), ds[j], env.fonts, env.faults(j))
    {
      var f := env.faults(i);
      var img := CreateCharacterScene(units[i], types[i], env.fonts, f);
      if img.None? {
        return clips, Some(i);
      }
      var clip;
      if f.clipFails {
        clip := ColorClip(SceneColour(types[i]), ds[i]);
      } else {
        clip := ImageClip(img.value, ds[i]);
      }
      clips := clips + [clip];
    }
    failed := None;
  }

  /**
   * When every scene can be made and there is audio, the video has one slide per
   * allocated duration and its slides last exactly as long as the audio.
   */
  lemma FullRunLength(summary: string, total: real, videoId: string, env: Env, o: Outcome)
    requires total > 0.0
    requires var ds := Schedule(total, |Sentences(summary)|, Floor);
      |o.clips| == |ds| && (forall i :: 0 <= i < |o.clips| ==> o.clips[i].duration == ds[i])
    ensures Sum(Durations(o.clips)) == total
  {
    var ds := Schedule(total, |Sentences(summary)|, Floor);
    assert Durations(o.clips) == ds;
    ScheduleSum(total, |Sentences(summary)|, Floor);
  }
}
