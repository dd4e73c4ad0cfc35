/** The classifier component's state and its handlers
    (src/components/WasteClassifier.tsx): choosing or dropping an image, the
    simulated progress timer, the analysis run and the annotation drawing.
    The component's React state is the `PageState` value `State()`; each
    handler is specified by a function from the old state to the new one. */
module Analysis {
  import opened Wrappers
  import opened Strings
  import opened Seqs
  import opened Classification
  import opened Canvas2D
  import opened Annotation

  /** A file handed to the page: its MIME type and, once read, its image. */
  datatype UploadedFile = UploadedFile(mimeType: string, image: Picture)

  /** How one run of the object detector goes. `ticks` is how many times
      the 200 ms progress timer fires while the model loads. */
  datatype DetectorRun =
    | ModelLoadFailed(ticks: nat)
    | InferenceFailed(ticks: nat)
    | Detected(ticks: nat, detections: seq<Detection>)

  /** What the user is told when a run ends. */
  datatype Outcome =
    | NoImageSelected
    | AnalysisFailed
    | AnalysisComplete(biodegradable: nat, nonBiodegradable: nat)

  /** The component's state. `activeTimers` counts the progress intervals
      that are still scheduled. */
  datatype PageState = PageState(
    selectedImage: Option<Picture>,
    processing: bool,
    progress: int,
    results: seq<ClassificationResult>,
    processedImage: Option<Snapshot>,
    activeTimers: nat)

  const ProgressCap := 90
  const ProgressIncrement := 10
  /** The progress shown once the model has loaded, and at the end. */
  const ModelLoadedProgress := 50
  const DoneProgress := 100

  function Initial(): PageState {
    PageState(None, false, 0, [], None, 0)
  }

  // ---------------------------------------------------------------- images

  /** The MIME check on dropped files. */
  predicate IsImageType(mimeType: string) {
    StartsWith(mimeType, "image/")
  }

  lemma PngIsImageType(m: string)
    requires m == "image/png"
    ensures IsImageType(m)
  {
  }

  lemma TextIsNotImageType(m: string)
    requires m == "text/plain"
    ensures !IsImageType(m)
  {
    assert m[0] != "image/"[0];
  }

  /** `reader.onload`: the new image replaces the old one and the previous
      results and annotated image are discarded. */
  function ImageLoaded(s: PageState, image: Picture): (t: PageState)
    ensures t.selectedImage == Some(image) && t.results == [] && t.processedImage == None
    ensures t.processing == s.processing && t.progress == s.progress
    ensures t.activeTimers == s.activeTimers
  {
    s.(selectedImage := Some(image), results := [], processedImage := None)
  }

  /** A drop is taken iff it holds a file whose MIME type starts with
      "image/". */
  function Dropped(s: PageState, file: Option<UploadedFile>): (t: PageState)
    ensures file.Some? && IsImageType(file.value.mimeType) ==> t == ImageLoaded(s, file.value.image)
    ensures !(file.Some? && IsImageType(file.value.mimeType)) ==> t == s
  {
    if file.Some? && IsImageType(file.value.mimeType) then ImageLoaded(s, file.value.image) else s
  }

  // -------------------------------------------------------------- progress

  /** One timer tick: `prev => Math.min(prev + 10, 90)`. */
  function ProgressStep(p: int): (r: int)
    ensures r <= ProgressCap
    ensures p <= ProgressCap - ProgressIncrement ==> r == p + ProgressIncrement
    ensures p >= ProgressCap - ProgressIncrement ==> r == ProgressCap
  {
    if p + ProgressIncrement < ProgressCap then p + ProgressIncrement else ProgressCap
  }

  /** The progress after `n` ticks starting from `p`. */
  function Ticks(p: int, n: nat): int
    decreases n
  {
    if n == 0 then p else Ticks(ProgressStep(p), n - 1)
  }

  /** From a multiple of ten up to the cap, `n` ticks add ten each until
      the cap is reached. */
  lemma {:induction false} TicksFrom(p: int, n: nat)
    decreases n
    requires 0 <= p <= ProgressCap && p % ProgressIncrement == 0
    ensures Ticks(p, n) == if p + ProgressIncrement * n < ProgressCap then p + ProgressIncrement * n else ProgressCap
  {
    if n > 0 {
      TicksFrom(ProgressStep(p), n - 1);
    }
  }

  /** From zero, the bar shows 10, 20, ..., 90 and then stays at 90. */
  lemma TicksFromZero(n: nat)
    ensures Ticks(0, n) == if n < 9 then 10 * n else ProgressCap
  {
    TicksFrom(0, n);
  }

  /** Ticks never move the bar backwards nor past the cap. */
  lemma {:induction false} TicksBounded(p: int, n: nat)
    decreases n
    requires p <= ProgressCap
    ensures p <= Ticks(p, n) <= ProgressCap
  {
    if n > 0 {
      TicksBounded(ProgressStep(p), n - 1);
    }
  }

  /** A timer firing while one is scheduled. */
  function Ticked(s: PageState): (t: PageState)
    ensures t.progress == ProgressStep(s.progress)
    ensures t.(progress := s.progress) == s
  {
    s.(progress := ProgressStep(s.progress))
  }

  // -------------------------------------------------------------- analysis

  /** The annotated image `drawResults` produces for `rs` over `image`,
      given the canvas's text metrics. */
  function Annotated(image: Picture, rs: seq<ClassificationResult>,
                     metrics: (string, string) -> Width): (shot: Snapshot)
    ensures shot.width == image.width && shot.height == image.height
    ensures |shot.commands| == 1 + 4 * |rs| && shot.commands[0] == DrawImage(image, 0.0, 0.0)
  {
    Snapshot(image.width, image.height, [DrawImage(image, 0.0, 0.0)] + Layout(rs, metrics))
  }

  /** The state after `classifyWaste`, as written. `surface` holds the text
      metrics of the canvas when the canvas is mounted and has a 2D
      context. */
  function Analyzed(s: PageState, run: DetectorRun,
                    surface: Option<(string, string) -> Width>): PageState
  {
    if s.selectedImage.None? then s
    else
      var loading := Ticks(0, run.ticks);
      match run
      case ModelLoadFailed(_) =>
        // The rejection skips `clearInterval`: the timer stays scheduled.
        s.(processing := false, progress := loading, activeTimers := s.activeTimers + 1)
      case InferenceFailed(_) =>
        s.(processing := false, progress := ModelLoadedProgress)
      case Detected(_, ds) =>
        var rs := ClassifyAll(ds);
        var shot := if surface.Some? then Some(Annotated(s.selectedImage.value, rs, surface.value))
                    else s.processedImage;
        s.(processing := false, progress := DoneProgress, results := rs, processedImage := shot)
  }

  /** The state after `classifyWaste` once the interval is also cleared
      when loading the model fails. */
  function AnalyzedClearingTimer(s: PageState, run: DetectorRun,
                                 surface: Option<(string, string) -> Width>): (t: PageState)
    ensures t.activeTimers == s.activeTimers
    ensures t == Analyzed(s, run, surface).(activeTimers := s.activeTimers)
  {
    Analyzed(s, run, surface).(activeTimers := s.activeTimers)
  }

  function AnalysisOutcome(s: PageState, run: DetectorRun): Outcome {
    if s.selectedImage.None? then NoImageSelected
    else match run
      case Detected(_, ds) =>
        var rs := ClassifyAll(ds);
        AnalysisComplete(BiodegradableCount(rs), NonBiodegradableCount(rs))
      case _ => AnalysisFailed
  }

  /** Without an image, an analysis changes nothing and says so. */
  lemma AnalysisNeedsImage(s: PageState, run: DetectorRun, surface: Option<(string, string) -> Width>)
    requires s.selectedImage.None?
    ensures Analyzed(s, run, surface) == s && AnalysisOutcome(s, run) == NoImageSelected
  {
  }

  /** With an image, every run ends with the component idle, the image still
      selected, and the progress at 100 on success, 50 when inference fails
      and at most 90 when the model does not load. */
  lemma AnalysisEnds(s: PageState, run: DetectorRun, surface: Option<(string, string) -> Width>)
    requires s.selectedImage.Some?
    ensures var t := Analyzed(s, run, surface);
      !t.processing && t.selectedImage == s.selectedImage &&
      (run.Detected? <==> t.progress == DoneProgress) &&
      (run.InferenceFailed? ==> t.progress == ModelLoadedProgress) &&
      (run.ModelLoadFailed? ==> 0 <= t.progress <= ProgressCap)
  {
    TicksBounded(0, run.ticks);
  }

  /** Results are replaced only by a successful run, and then they are the
      classified detections, in detector order; the reported counts split
      them by verdict. */
  lemma AnalysisResults(s: PageState, run: DetectorRun, surface: Option<(string, string) -> Width>)
    requires s.selectedImage.Some?
    ensures var t := Analyzed(s, run, surface);
      (run.Detected? ==> t.results == ClassifyAll(run.detections)) &&
      (!run.Detected? ==> t.results == s.results && t.processedImage == s.processedImage)
    ensures var o := AnalysisOutcome(s, run);
      (run.Detected? <==> o.AnalysisComplete?) &&
      (o.AnalysisComplete? ==>
        o.biodegradable + o.nonBiodegradable == |run.detections| &&
        o.biodegradable == |Filter(ClassifyAll(run.detections), IsBiodegradableResult)|)
  {
  }

  /** Only a successful run with a drawable canvas produces a new annotated
      image: the photo followed by the layout of the new results. */
  lemma AnalysisAnnotates(s: PageState, run: DetectorRun, metrics: (string, string) -> Width)
    requires s.selectedImage.Some? && run.Detected?
    ensures Analyzed(s, run, Some(metrics)).processedImage ==
      Some(Annotated(s.selectedImage.value, ClassifyAll(run.detections), metrics))
    ensures Analyzed(s, run, None).processedImage == s.processedImage
  {
  }

  /** As written, a model that fails to load leaves one more timer
      scheduled; the other outcomes leave the count as it was. */
  lemma AnalysisLeaksTimer(s: PageState, run: DetectorRun, surface: Option<(string, string) -> Width>)
    requires s.selectedImage.Some?
    ensures Analyzed(s, run, surface).activeTimers ==
      if run.ModelLoadFailed? then s.activeTimers + 1 else s.activeTimers
  {
  }

  /** After a model load that fails before the bar reaches its cap, the
      leaked timer is still scheduled and its next tick changes the progress
      value, which the page no longer shows since nothing is processing. */
  lemma LeakedTimerMovesProgress(s: PageState, surface: Option<(string, string) -> Width>, n: nat)
    requires s.selectedImage.Some? && n < 9
    ensures var t := Analyzed(s, ModelLoadFailed(n), surface);
      t.activeTimers == s.activeTimers + 1 && !t.processing &&
      t.progress == ProgressIncrement * n &&
      Ticked(t).progress == ProgressIncrement * (n + 1)
  {
    TicksFromZero(n);
  }

  /** With the interval cleared on every path, a session that starts with no
      timers has none left after an analysis, so no stale tick can change
      the progress value. */
  lemma ClearingTimerKeepsIdle(s: PageState, run: DetectorRun, surface: Option<(string, string) -> Width>)
    requires s.activeTimers == 0
    ensures AnalyzedClearingTimer(s, run, surface).activeTimers == 0
  {
  }

  // ------------------------------------------------------------- component

  class WasteClassifier {
    var selectedImage: Option<Picture>
    var processing: bool
    var progress: int
    var results: seq<ClassificationResult>
    var processedImage: Option<Snapshot>
    var activeTimers: nat
    /** `canvasRef.current`: the canvas element, when mounted. */
    const canvas: Canvas?

    function State(): PageState
      reads this
    {
      PageState(selectedImage, processing, progress, results, processedImage, activeTimers)
    }

    /** The text metrics of the canvas when it can be drawn on. */
    function Surface(): Option<(string, string) -> Width> {
      if canvas != null && canvas.has2d then Some(canvas.metrics) else None
    }

    constructor (canvas: Canvas?)
      ensures this.canvas == canvas && State() == Initial()
    {
      this.canvas := canvas;
      selectedImage, processing, progress := None, false, 0;
      results, processedImage, activeTimers := [], None, 0;
    }

    /** `processImage`, once the file has been read. */
    method ProcessImage(file: UploadedFile)
      modifies this
      ensures State() == ImageLoaded(old(State()), file.image)
    {
      selectedImage := Some(file.image);
      results := [];
      processedImage := None;
    }

    /** `handleFileSelect`: any chosen file is taken, whatever its type. */
    method HandleFileSelect(file: Option<UploadedFile>)
      modifies this
      ensures file.Some? ==> State() == ImageLoaded(old(State()), file.value.image)
      ensures file.None? ==> State() == old(State())
    {
      if file.Some? {
        ProcessImage(file.value);
      }
    }

    /** `handleDrop`: only image files are taken; `accepted` is false when
        the page shows "Please drop an image file". */
    method HandleDrop(file: Option<UploadedFile>) returns (accepted: bool)
      modifies this
      ensures accepted <==> file.Some? && IsImageType(file.value.mimeType)
      ensures State() == Dropped(old(State()), file)
    {
      if file.Some? && StartsWith(file.value.mimeType, "image/") {
        ProcessImage(file.value);
        accepted := true;
      } else {
        accepted := false;
      }
    }

    /** The interval callback, which runs only while a timer is scheduled. */
    method Tick()
      requires activeTimers > 0
      modifies this`progress
      ensures State() == Ticked(old(State()))
    {
      progress := if progress + ProgressIncrement < ProgressCap then progress + ProgressIncrement else ProgressCap;
    }

    /** `drawResults`: nothing happens without a canvas, an image or a 2D
        context; otherwise the canvas is resized to the image, the image is
        drawn, then each result's annotation, and the bitmap becomes the
        processed image. */
    method DrawResults(rs: seq<ClassificationResult>)
      modifies this`processedImage, canvas
      ensures canvas == null || selectedImage.None? || !canvas.has2d ==>
        processedImage == old(processedImage) && (canvas != null ==> unchanged(canvas))
      ensures canvas != null && selectedImage.Some? && canvas.has2d ==>
        var shot := Annotated(selectedImage.value, rs, canvas.metrics);
        canvas.width == shot.width && canvas.height == shot.height &&
        canvas.commands == shot.commands && processedImage == Some(shot) &&
        (rs == [] ==> canvas.HasDefaultState()) &&
        (rs != [] ==> StyledFor(canvas, rs[|rs| - 1]))
    {
      if canvas == null || selectedImage.None? || !canvas.has2d {
        return;
      }
      var image := selectedImage.value;
      canvas.Resize(image.width, image.height);
      canvas.DrawImageAt(image, 0.0, 0.0);
      DrawLayout(canvas, rs);
      processedImage := Some(canvas.ToDataURL());
    }

    /** The part of `classifyWaste` after the detector has answered: the
        detections are classified, kept, drawn and counted. */
    method ShowDetections(ds: seq<Detection>) returns (outcome: Outcome)
      modifies this, canvas
      ensures var rs := ClassifyAll(ds);
        State() == old(State()).(progress := DoneProgress, results := rs,
          processedImage := if selectedImage.Some? && Surface().Some?
            then Some(Annotated(selectedImage.value, rs, Surface().value))
            else old(processedImage)) &&
        outcome == AnalysisComplete(BiodegradableCount(rs), NonBiodegradableCount(rs))
      ensures canvas != null && !(selectedImage.Some? && canvas.has2d) ==> unchanged(canvas)
      ensures selectedImage.Some? && Surface().Some? ==> processedImage == Some(canvas.ToDataURL())
    {
      var rs := ClassifyAll(ds);
      results := rs;
      DrawResults(rs);
      progress := DoneProgress;
      var biodegradable := BiodegradableCount(rs);
      var nonBiodegradable := NonBiodegradableCount(rs);
      outcome := AnalysisComplete(biodegradable, nonBiodegradable);
    }

    /** `classifyWaste`, as written, with the detector's behaviour given as
        `run`. */
    method ClassifyWaste(run: DetectorRun) returns (outcome: Outcome)
      modifies this, canvas
      ensures outcome == AnalysisOutcome(old(State()), run)
      ensures State() == Analyzed(old(State()), run, Surface())
      ensures canvas != null && !(old(selectedImage).Some? && run.Detected? && canvas.has2d) ==>
        unchanged(canvas)
      ensures old(selectedImage).Some? && run.Detected? && Surface().Some? ==>
        processedImage == Some(canvas.ToDataURL())
    {
      if selectedImage.None? {
        return NoImageSelected;
      }
      processing := true;
      progress := 0;
      // setInterval: the timer fires `run.ticks` times while the model loads.
      activeTimers := activeTimers + 1;
      progress := Ticks(progress, run.ticks);
      if run.ModelLoadFailed? {
        processing := false;
        return AnalysisFailed;
      }
      progress := ModelLoadedProgress;
      // clearInterval
      activeTimers := activeTimers - 1;
      if run.InferenceFailed? {
        processing := false;
        return AnalysisFailed;
      }
      outcome := ShowDetections(run.detections);
      processing := false;
    }

    /** `classifyWaste` with `clearInterval` also in the `finally` block,
        where it clears the timer a failed model load left scheduled. */
    method ClassifyWasteClearingTimer(run: DetectorRun) returns (outcome: Outcome)
      modifies this, canvas
      ensures outcome == AnalysisOutcome(old(State()), run)
      ensures State() == AnalyzedClearingTimer(old(State()), run, Surface())
      ensures canvas != null && !(old(selectedImage).Some? && run.Detected? && canvas.has2d) ==>
        unchanged(canvas)
      ensures old(selectedImage).Some? && run.Detected? && Surface().Some? ==>
        processedImage == Some(canvas.ToDataURL())
    {
      var timerStarted := selectedImage.Some?;
      outcome := ClassifyWaste(run);
      if timerStarted && run.ModelLoadFailed? {
        activeTimers := activeTimers - 1;
      }
    }
  }
}
