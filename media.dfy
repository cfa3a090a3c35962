/**
 * What the three video services hand to and get back from the imaging and
 * video libraries, as values: colours, the text lines drawn on a frame, the
 * frame itself, the clips a slide becomes, and the end of `_create_video_sync`
 * that turns the clip list into a video file or an error.
 */
module Media {
  import opened Wrappers

  /** An RGBA colour; opaque colours have alpha 255. */
  datatype Colour = Colour(r: int, g: int, b: int, a: int)

  function Rgb(r: int, g: int, b: int): Colour {
    Colour(r, g, b, 255)
  }

  const White: Colour := Rgb(255, 255, 255)

  /** A copy of a text line drawn first, offset by (dx, dy), in a shadow colour. */
  datatype Shadow = Shadow(dx: int, dy: int, colour: Colour)

  /** A straight line segment from (x1, y1) to (x2, y2). */
  datatype Stroke = Stroke(x1: int, y1: int, x2: int, y2: int, colour: Colour, thickness: int)

  /** One line of text drawn at (x, y), with an optional shadow and an optional underline. */
  datatype TextLine = TextLine(text: string, x: int, y: int, fill: Colour, shadow: Option<Shadow>, underline: Option<Stroke>)

  /** A 1280x720 frame: its base colour and the text drawn on it (decoration is not modelled). */
  datatype Image = Image(background: Colour, lines: seq<TextLine>)

  /** A slide of the video and how long it is shown. */
  datatype Clip =
    | ImageClip(image: Image, duration: real)
    | ColorClip(colour: Colour, duration: real)
    | CompositeClip(background: Colour, text: string, fontSize: nat, duration: real)

  /** Why a video could not be made; the library's own exceptions are not told apart. */
  datatype VideoError =
    | AudioUnreadable
    | SceneFailed(slide: nat)
    | NoClips
    | EncodeFailed

  /**
   * The end state of one `_create_video_sync` call: the path of the written
   * video or the error raised, the clips built, and whether the clips and the
   * audio were closed.
   */
  datatype Outcome = Outcome(result: Result<string, VideoError>, clips: seq<Clip>, released: bool)

  function Durations(clips: seq<Clip>): (ds: seq<real>)
    ensures |ds| == |clips|
    ensures forall i :: 0 <= i < |clips| ==> ds[i] == clips[i].duration
  {
    seq(|clips|, i requires 0 <= i < |clips| => clips[i].duration)
  }

  /** `os.path.join("outputs", video_id + ".mp4")`, with the POSIX separator. */
  function OutputPath(videoId: string): (p: string)
    ensures |p| == |videoId| + 12
  {
    "outputs/" + videoId + ".mp4"
  }

  /** Different requests write different files. */
  lemma OutputPathInjective(a: string, b: string)
    requires OutputPath(a) == OutputPath(b)
    ensures a == b
  {
    assert a == OutputPath(a)[8..|OutputPath(a)| - 4];
    assert b == OutputPath(b)[8..|OutputPath(b)| - 4];
  }

  /**
   * After the slide loop: an empty clip list raises "No video clips were
   * created"; otherwise the clips are concatenated, the audio attached and the
   * file written, and only when writing succeeds are the clips and audio closed
   * and the path returned.
   */
  function Finish(clips: seq<Clip>, videoId: string, encodeOk: bool): (o: Outcome)
    ensures o.clips == clips
    ensures o.result.Success? <==> clips != [] && encodeOk
    ensures o.result.Success? ==> o.result.value == OutputPath(videoId)
    ensures clips == [] ==> o.result == Failure(NoClips)
    ensures o.released <==> o.result.Success?
  {
    if clips == [] then Outcome(Failure(NoClips), clips, false)
    else if !encodeOk then Outcome(Failure(EncodeFailed), clips, false)
    else Outcome(Success(OutputPath(videoId)), clips, true)
  }
}
