# Text-to-video slide planning, in Dafny

This project models the deterministic core of a text-to-video application.
A Python back end summarises a text, reads the summary aloud and turns it
into a narrated slide video. A browser front end collects the text, either
typed or extracted from uploaded files.

The model covers:

- the slide-planning pipeline of the three video services: sentence
  segmentation, scene roles, slide timing with a per-service floor, clip
  building with per-stage fallbacks, and assembly with its "No video clips
  were created" error;
- the greedy word wrap and the line layout of the two services that draw text
  themselves;
- the summariser's sentence chunker and its summarisation driver;
- the front end's file classification, upload list, input validation and
  error messages.

Modules, one concept each:

| module | file | what it holds |
|---|---|---|
| `Wrappers` | wrappers.dfy | `Option`, `Result` |
| `Strings` | strings.dfy | Python's `strip`, `split(sep)`, `split()` and `join`; JavaScript's `includes`, `endsWith` and `toLowerCase` |
| `Segmenter` | segmenter.dfy | the sentence split all three services share |
| `Timing` | timing.dfy | the slide-duration loop, written once with the floor as a parameter |
| `Layout` | word_wrap.dfy | the greedy wrap over an abstract glyph-width function, plus vertical and horizontal centring |
| `Media` | media.dfy | colours, drawn text lines, images, clips, and the assembly step shared by the services |
| `EnhancedVideo` | enhanced_video.dfy | `enhanced_video_service.py` |
| `SimpleVideo` | simple_video.dfy | `simple_video_service.py` |
| `BasicVideo` | basic_video.dfy | `video_service.py` |
| `Summarization` | summarization.dfy | `summarization_service.py` |
| `Frontend` | frontend.dfy | the helpers of `script.js` and its upload panel as a class |

Everything the services hand to a library becomes a parameter of the model:

- Reading the audio is an `Option<real>`, where `None` means the audio file could not be opened.
- Each slide has a `SlideFaults` record saying which drawing or clip step raises.
- `encodeOk` says whether writing the video file succeeds.
- The glyph width of the font is a `Measure`, a function from string to int.
- The summarisation model is a `Model`, a function that returns `None` when the model raises.

Each loop of the back end is a method with loop invariants. The model proves
these methods in one of two ways:

- The allocation, wrap, text-drawing, chunking and summarisation loops are
  proved equal to a reference function. Their properties are then lemmas
  about that function.
- The scene, slide and clip steps of the video services, and the two
  `CreateVideo` drivers that can abort, are specified clip by clip. Their
  `ensures` say which clip each slide becomes, through a predicate or a
  function of the slide's sentence, duration and faults.

In the front end, the methods of the upload panel give the panel's new state.
The `filter` and `map` of `script.js` become recursive functions and sequence
comprehensions (`WithoutId`, `Texts`), with lemmas about them.

Two behaviours of the code are kept as written:

- A non-blank summary with no '.' becomes the single unit `strip(summary) + "."`
  (backend/services/enhanced_video_service.py:340).
- Clips and audio are closed only after the video is written
  (backend/services/enhanced_video_service.py:410-413). The error paths
  re-raise without closing them.

## Model

| member | source | states |
|---|---|---|
| Segmenter.Sentences | backend/services/enhanced_video_service.py:340-342 | there is always at least one display unit |
| Segmenter.SentencesAreUnits | backend/services/enhanced_video_service.py:340-342 | every unit is a stripped, non-blank piece followed by '.', unless the units are exactly the raw summary |
| Segmenter.SentenceCount | backend/services/enhanced_video_service.py:340 | there are never more units than pieces produced by splitting on '.' |
| Segmenter.AllBlankKeepsRawSummary | backend/services/enhanced_video_service.py:341-342 | when every piece is blank, the only unit is the raw, untrimmed summary |
| Segmenter.NoPeriodOneUnit | backend/services/enhanced_video_service.py:340 | a non-blank summary without '.' becomes the single unit `strip(summary) + "."` |
| Segmenter.SentencesOfJoined | backend/services/simple_video_service.py:131-134 | clean sentences joined with ". " and ended with '.' split back into exactly those sentences, each with its '.' |
| Segmenter.SurvivorsAreUnits | backend/services/video_service.py:47 | each piece that survives the blank filter is stripped text plus '.' |
| Timing.Base | backend/services/enhanced_video_service.py:348 | the base duration is at least the floor, and n base slots cover the audio |
| Timing.Schedule | backend/services/enhanced_video_service.py:354-362 | at most one duration is allocated per sentence |
| Timing.Allocate | backend/services/enhanced_video_service.py:348-362 | the allocation loop, with its min/remainder rule and its early stop, returns exactly the reference schedule |
| Timing.ScheduleShape | backend/services/enhanced_video_service.py:354-362 | at most n durations, every one of them positive |
| Timing.ScheduleSum | backend/services/enhanced_video_service.py:348-382 | with some audio, the durations sum exactly to the audio length |
| Timing.NoAudioNoSlides | backend/services/enhanced_video_service.py:361-362 | audio of length zero or less allocates no slide |
| Timing.ScheduleAllButLast | backend/services/enhanced_video_service.py:356-359 | every duration but the last equals the base duration |
| Timing.SingleSentence | backend/services/video_service.py:59-65 | a single sentence receives the whole audio |
| Timing.ShortAudioOneSlide | backend/services/simple_video_service.py:137-147 | audio no longer than the floor gives one slide holding the whole audio |
| Timing.EvenSplit | backend/services/enhanced_video_service.py:348-359 | when total/n reaches the floor, every slide lasts total/n |
| Timing.TenSecondsBasicFloor | backend/services/video_service.py:53-68 | with the 3.0 floor, 10 seconds over 4 sentences gives 3, 3, 3 and 1 seconds |
| Timing.TwelveSecondsThreeSlides | backend/services/enhanced_video_service.py:348-362 | 12 seconds over 3 sentences gives three 4-second slides |
| Timing.OneSecondFiveSentences | backend/services/simple_video_service.py:137-150 | 1 second over 5 sentences gives a single 1-second slide, and the rest are dropped |
| Layout.WrapLines | backend/services/enhanced_video_service.py:228-243 | the wrap loop returns exactly the reference greedy lines |
| Layout.LinesJoin | backend/services/enhanced_video_service.py:228-243 | joining the lines with single spaces gives the words of the text joined with single spaces |
| Layout.GroupsFlatten | backend/services/simple_video_service.py:68-83 | the lines hold exactly the words of the text, in order |
| Layout.LinesFit | backend/services/simple_video_service.py:68-83 | no line is empty, and each line is narrower than the limit or is a single over-long word |
| Layout.LinesGreedy | backend/services/simple_video_service.py:72-80 | adding the first word of the next line to a line would reach the limit |
| Layout.BlankTextNoLines | backend/services/enhanced_video_service.py:228-243 | a blank text has no lines |
| Layout.StartYCentres | backend/services/simple_video_service.py:86-90 | the block of lines is vertically centred to within one pixel |
| Layout.CentredXCentres | backend/services/enhanced_video_service.py:255-257 | each line is horizontally centred to within one pixel |
| Media.Finish | backend/services/enhanced_video_service.py:391-418 | a path is returned iff there are clips and the write succeeds, and the path is `outputs/<id>.mp4`; no clips gives the "No video clips were created" error; clips are released only on success |
| Media.OutputPathInjective | backend/services/enhanced_video_service.py:396 | different video ids give different output paths |
| EnhancedVideo.AssignSceneTypes | backend/services/enhanced_video_service.py:424-438 | n roles: intro at 0 even when n is 1, conclusion at n-1 when n is at least 2, highlight exactly at interior multiples of 3, content at the other interior positions, never neutral |
| EnhancedVideo.SceneColour | backend/services/enhanced_video_service.py:22-28 | every scene colour is opaque, and the grey of the fallback frame belongs to the neutral type alone |
| EnhancedVideo.TextColour | backend/services/enhanced_video_service.py:277-282 | the text colour is white for every scene type |
| EnhancedVideo.DrawEnhancedText | backend/services/enhanced_video_service.py:214-272 | the drawn lines are exactly the wrapped lines placed by the layout rule |
| EnhancedVideo.PlacedLinesLayout | backend/services/enhanced_video_service.py:245-272 | each line keeps its text, is white and horizontally centred, sits at start_y + i*63 with its shadow at (+4, +4); highlight scenes alone get an underline 53 pixels below, spanning the line's width; consecutive lines are 63 pixels apart |
| EnhancedVideo.FallbackImage | backend/services/enhanced_video_service.py:309-330 | the fallback frame has the neutral colour and one white, unshadowed, not underlined line holding the whole sentence, centred to within one pixel, at y = 340 |
| EnhancedVideo.CreateCharacterScene | backend/services/enhanced_video_service.py:51-81 | the scene fails iff both the drawing and its fallback raise; a failed drawing gives the fallback frame; otherwise the scene has its colour and the wrapped text, or no text when the text stage fails |
| EnhancedVideo.BuildClips | backend/services/enhanced_video_service.py:354-387 | one clip per duration, in order, each built from its sentence and role, with a clip in the scene colour when the image cannot be loaded, until a scene raises |
| EnhancedVideo.CreateVideo | backend/services/enhanced_video_service.py:332-422 | unreadable audio raises; each clip i has duration i of the schedule and is built from sentence i and its role; a raising scene aborts with no output; otherwise the result is the assembly |
| EnhancedVideo.FullRunLength | backend/services/enhanced_video_service.py:348-382 | a run that builds every slide lasts exactly as long as the audio |
| SimpleVideo.PlacedLinesLayout | backend/services/simple_video_service.py:86-102 | each line keeps its text, is white, starts at x = 0 rather than centred, sits at start_y + i*70 with its shadow at (3, y + 3); lines are 70 pixels apart; the block is vertically centred |
| SimpleVideo.CreateTextImage | backend/services/simple_video_service.py:38-121 | the blue frame with the wrapped, placed lines; when drawing raises, the plain blue frame with no text; it fails only when that plain frame cannot be saved either |
| SimpleVideo.BuildClips | backend/services/simple_video_service.py:143-178 | one clip per duration, in order, with a blue clip of the same duration when an image cannot be loaded, until an image cannot be made |
| SimpleVideo.CreateVideo | backend/services/simple_video_service.py:123-214 | unreadable audio raises; the clips follow the 4.0-floor schedule; a failed image aborts; otherwise the result is the assembly |
| BasicVideo.Slide | backend/services/video_service.py:70-112 | a composite iff not both caption attempts fail; a composite holds the sentence over the blue background at 48 points, or at 36 points when the first caption fails; otherwise the blue background alone; always with the slide's duration |
| BasicVideo.MakeSlide | backend/services/video_service.py:70-112 | the caption over the background at 48 points, else at 36 points, else the background alone, always with the slide's duration |
| BasicVideo.BuildClips | backend/services/video_service.py:59-113 | exactly one clip per allocated duration, clip i being the slide of sentence i, duration i and its faults; a composite iff not both caption attempts fail, holding its own sentence |
| BasicVideo.CreateVideo | backend/services/video_service.py:39-149 | unreadable audio raises; the clip durations are the 3.0-floor schedule; clip i is the slide of sentence i, so it is a composite of that sentence iff not both captions fail; the result is the assembly |
| BasicVideo.SingleSentenceWholeAudio | backend/services/video_service.py:59-65 | one sentence gives one slide lasting the whole audio |
| BasicVideo.VideoLength | backend/services/video_service.py:53-113 | the slides last exactly as long as the audio |
| Summarization.ChunkText | backend/services/summarization_service.py:30-50 | the chunking loop returns exactly the reference packing of the ". " pieces |
| Summarization.AtLeastOneChunk | backend/services/summarization_service.py:33-50 | there is at least one chunk, even for the empty text |
| Summarization.ChunksStripped | backend/services/summarization_service.py:42-48 | every chunk is whitespace-stripped |
| Summarization.ChunkCount | backend/services/summarization_service.py:33-48 | there are never more chunks than pieces |
| Summarization.ShortTextOneChunk | backend/services/summarization_service.py:37-48 | a text whose estimate is within the limit gives the single chunk `strip(text + ". ")` |
| Summarization.BreakRule | backend/services/summarization_service.py:39-45 | a new chunk starts exactly when the estimate of current+sentence exceeds the limit and the current chunk is non-empty; otherwise the sentence and ". " are appended |
| Summarization.OpenerGlued | backend/services/summarization_service.py:41-45 | the sentence that opens a new chunk is not followed by ". ", so the next sentence is glued to it |
| Summarization.Fallback | backend/services/summarization_service.py:105-108 | the error result is the text when it has at most 500 characters, else its first 500 characters plus "..."; never longer than 503 |
| Summarization.SummarizeSync | backend/services/summarization_service.py:62-108 | the summarisation driver returns exactly the reference result |
| Summarization.ShortInputUnchanged | backend/services/summarization_service.py:66-68 | a stripped input under 50 characters comes back unchanged |
| Summarization.FirstPassShape | backend/services/summarization_service.py:74-88 | one summary per chunk: short chunks verbatim, long ones the model's output; the pass fails iff the model fails on some long chunk |
| Summarization.AllShortVerbatim | backend/services/summarization_service.py:75-77 | when every chunk is short, the first pass returns the chunks themselves |
| Summarization.ShortChunksModelFree | backend/services/summarization_service.py:74-77 | when every chunk is short, the first pass does not depend on the model |
| Summarization.NoSecondPassWhenShort | backend/services/summarization_service.py:91-103 | a joined summary of at most 1000 characters is returned without a second pass |
| Summarization.SecondPassWhenLong | backend/services/summarization_service.py:94-103 | joined summaries longer than 1000 characters are replaced by the model's second summary |
| Summarization.FailureFallback | backend/services/summarization_service.py:94-108 | a model failure in the first pass, or in the second pass over more than 1000 characters, gives the truncation fallback of the stripped text, at most 503 characters |
| Frontend.FileTypeByExtension | frontend/script.js:188-197 | the type depends only on the lower-cased text after the last '.' |
| Frontend.FileTypeWithoutDot | frontend/script.js:189 | a name without '.' is classified by the whole name |
| Frontend.UpperCaseExtension | frontend/script.js:189-191 | "REPORT.PDF" is a PDF |
| Frontend.LastExtensionCounts | frontend/script.js:189-194 | "notes.backup.docx" is a Word document |
| Frontend.InnerExtensionIgnored | frontend/script.js:189-195 | "archive.pdf.gz" is unknown |
| Frontend.BareNameAsExtension | frontend/script.js:189-191 | a file named just "pdf" is a PDF |
| Frontend.PdfSuffixClassified | frontend/script.js:94-106 | a name accepted for its ".pdf" suffix is classified as a PDF |
| Frontend.TxtSuffixClassified | frontend/script.js:94-106 | a name accepted for its ".txt" suffix is classified as text |
| Frontend.DocSuffixClassified | frontend/script.js:94-106 | a name accepted for a ".doc" or ".docx" suffix is classified as a Word document |
| Frontend.SuffixCaseSensitive | frontend/script.js:101-105 | the suffix test is case-sensitive: "REPORT.PDF" with an unlisted MIME type is rejected, although it is classified as a PDF |
| Frontend.GetFileType | frontend/script.js:188-197 | pdf, txt, doc or docx as the lower-cased extension give PDF, text, Word and Word, and any other extension gives unknown |
| Frontend.IsValidFileType | frontend/script.js:94-106 | a listed MIME type is always accepted; a file accepted without a listed MIME type has a known type |
| Frontend.AcceptedSuffixKnown | frontend/script.js:101-105 | a name ending in one of the four accepted suffixes is never classified as unknown |
| Frontend.MimeTypeSuffices | frontend/script.js:95-101 | a file with a listed MIME type is accepted even when its name is classified as unknown: "scan" sent as application/pdf |
| Frontend.GetFileIcon | frontend/script.js:247-254 | the generic "fas fa-file" icon is given exactly to unknown types |
| Frontend.WithoutId | frontend/script.js:265 | the filtered list is no longer than the list and holds no entry with the id |
| Frontend.WithoutIdMembers | frontend/script.js:265 | after removal, the list holds exactly the entries with other ids |
| Frontend.WithoutIdAppend | frontend/script.js:265 | removal keeps the order of the remaining entries |
| Frontend.RemoveFirstMatchesFilter | frontend/script.js:265-271 | with distinct ids, taking the item off the page leaves the ids of the filtered list |
| Frontend.RemoveFirstDistinct | frontend/script.js:268-271 | taking an item off the page keeps the page's ids distinct |
| Frontend.RequestText | frontend/script.js:397-413 | the request text is the trimmed box, or the joined file texts when the box is blank; nothing to send iff both are empty; fewer than 100 characters is refused; a sent text has at least 100 characters |
| Frontend.TypedTextWins | frontend/script.js:397-403 | a long enough typed text is sent whatever files are uploaded |
| Frontend.HandleError | frontend/script.js:471-483 | "Failed to fetch" gives the connection message; otherwise "Server error" gives the server message; anything else gives the generic message |
| Frontend.ServerStatusShowsServerMessage | frontend/script.js:424 | the "Server error: <status>" thrown on a non-OK response shows the server message |
| Frontend.FetchFailureShowsConnectionMessage | frontend/script.js:476-477 | any message containing "Failed to fetch" shows the connection message |
| Frontend.UploadPanel.UpdateTextarea | frontend/script.js:282-298 | the box receives the joined file texts only when that join is non-empty and the box is empty; the indicators say whether there are files and whether there is non-blank text |
| Frontend.UploadPanel.AddFile | frontend/script.js:123-128 | the file is appended, its item shown, the section shown, and the box refreshed; the files indicator is on because a file is listed, and the text indicator says whether the box holds non-blank text; the panel stays consistent |
| Frontend.UploadPanel.RemoveFile | frontend/script.js:263-280 | every entry with the id is dropped and the others keep their order; the section is hidden when the list becomes empty; the box is refreshed; the files indicator says whether a file is left, and the text indicator says whether the box holds non-blank text; the panel stays consistent |
| Frontend.UploadPanel.GenerateVideo | frontend/script.js:396-413 | the check on the panel's current state is exactly the request rule above |

## Left out

- Whitespace: `Strings.IsSpace` recognises the six ASCII whitespace
  characters. Python's `str.strip`/`str.split()` and JavaScript's `trim`
  also treat other Unicode spaces as whitespace.
- Lower-casing: `Strings.ToLower` maps only A–Z. JavaScript's
  `toLowerCase` covers all of Unicode.
- String lengths: lengths are counted in characters. JavaScript counts
  UTF-16 code units, so a length check can differ on text outside the Basic
  Multilingual Plane.
- Durations are exact reals. Floating-point rounding in `current_time` and
  `total_duration / len(sentences)` is not modelled, so "sums exactly to the
  audio length" holds only up to rounding in the source.
- Timing.Allocate runs before the clip loop, where the source computes each
  duration inside the loop that builds the clips. Allocation depends only on
  the audio length and the number of sentences, so the durations are the same.
- Drawing that does not affect the layout is left out: the gradient
  background, the patterns, stars, waves, circles and characters of the
  enhanced scenes (some of them random), the visual effects, and the white
  border of the simple slides. An image is modelled as its background colour
  and its placed text lines.
- Fonts: font loading and its fallback chain (Arial, then other files, then
  the default font) are a `Measure` parameter for each font in use. The
  basic service's caption layout is done by the video library, so its model
  records only the text and the font size.
- Library failures: each possibly failing library step is a boolean in
  `SlideFaults` and `Env`. `ColorClip`, `CompositeVideoClip` and
  concatenation are taken never to raise. A failure while drawing the
  enhanced text stage is modelled as a scene with no text, not as partly
  drawn text. Which exception is raised, and the logging, are not modelled.
- EnhancedVideo.CreateCharacterScene: when saving the finished scene raises,
  the source has already drawn it. The model folds this into one
  `sceneFails` flag, and the result is still the fallback frame.
- The file system: image file names, `os.remove` of each slide image,
  `os.makedirs`, the temporary audio file, and the codec and frame-rate
  settings are left out. The output path assumes '/' as the separator.
- Asynchronous offloading (`run_in_executor`) and the model and speech
  loading are left out. The summariser's model is a parameter, and its
  length bounds are passed as arguments.
- The chunker's "sentences appear in input order" is stated through
  `Summarization.BreakRule`, `Summarization.OpenerGlued`,
  `Summarization.ShortTextOneChunk` and `Summarization.ChunkText`, which
  together fix the packing step by step. There is no single lemma that
  concatenates the chunks back into the text.
- Front end:
  - text extraction (FileReader, PDF.js), `handleFiles`, `formatFileSize`
    and the `Date.now() + Math.random()` ids are left out;
  - `Frontend.UploadPanel.AddFile` takes an id that is not yet in the list,
    which the random ids make overwhelmingly likely;
  - the DOM is reduced to the list of item ids, the section's visibility,
    the text box and the two indicator flags;
  - `viewFileContent`, event listeners, the fetch, the progress display and
    the `alert` calls are left out;
  - the language selection is not modelled, because it does not take part
    in validation;
  - the two alert messages of `generateVideo` are the two `InputAlert`
    values. The alert text itself is not modelled.
- The message of the "No video clips were created" exception is the
  `NoClips` error value. The text itself is not modelled.
