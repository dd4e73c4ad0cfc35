# EcoVerse waste classifier, modelled in Dafny

EcoVerse is a web page. It sends a photo to an object detector and decides,
for every object found, whether it is biodegradable. It then draws the verdicts
over the photo and sums them up on a results page. This project models the logic
behind that, and proves what the code promises about it.

- **Verdict (`Classification`).** The detector's label is lower-cased. It is
  biodegradable when it contains one of 18 vocabulary terms, or when a term
  contains it. The detector's corner-form box becomes position and size.
- **Annotation (`Canvas2D`, `Annotation`).** `drawResults` issues four drawing
  commands for each result, in input order:
  1. the box outline, green or red;
  2. a filled tag above the box, sized to the measured label;
  3. the label text `name (NN%)`;
  4. a recycling or no-entry glyph.

  The canvas is a class that records the commands it receives. A command keeps
  the stroke or fill style and the font in effect when it was issued.
  `measureText` is the canvas's `metrics` function, about which nothing is
  assumed beyond a non-negative result.
- **Component state (`Analysis`).** `WasteClassifier` is a class with the
  component's React state as fields, plus a count of the progress timers still
  scheduled. Its methods are the handlers (`processImage`, `handleFileSelect`,
  `handleDrop`, the interval callback, `drawResults`, `classifyWaste`). Each
  handler is specified by a pure function from the old `PageState` to the new
  one, and lemmas state what those functions promise. The detector is a
  parameter, a `DetectorRun`: the model fails to load, or inference fails, or it
  returns a list of detections. The run also says how many times the progress
  timer fired while the model loaded.
- **Results page (`ResultsPage`).** Covers:
  - the split of the detections by waste type;
  - the biodegradable percentage, which is NaN when there are no detections,
    as `0 / 0` is in JavaScript;
  - the pie and confidence chart data;
  - the A/B/C eco grade;
  - which disposal advice is shown.
- **JavaScript helpers (`Strings`, `Seqs`, `Numbers`).** `toLowerCase`,
  `includes`, integer-to-text, `filter`, and `Math.round` on exact reals.
  `Scenarios` works through concrete labels.

Some consequences of the code as written, which the model keeps:

- **Empty label.** Every string includes `""`, so the test at
  src/components/WasteClassifier.tsx:106-107 classifies an empty label as
  biodegradable (`Classification.EmptyLabelIsBiodegradable`).
- **No detections.** The percentage at src/pages/Results.tsx:64 is `0 / 0`,
  which is NaN. Both comparisons at src/pages/Results.tsx:188 are then false,
  so the grade is C (`ResultsPage.NoDetectionsIsC`).
- **An apple and a bottle.** These are the first two mock detections at
  src/pages/Results.tsx:52-53. Alone they give 50% biodegradable, and
  `50 > 40` makes the grade B (`ResultsPage.AppleAndBottle`).
- **Empty result list.** `drawResults` still resizes the canvas, draws the
  photo and stores a new processed image
  (src/components/WasteClassifier.tsx:148-153 and 183).

## Model

| member | source | states |
|---|---|---|
| Classification.Vocabulary | src/components/WasteClassifier.tsx:33-37 | the 18 indicator terms, in source order |
| Classification.MatchesTerm | src/components/WasteClassifier.tsx:107 | one term matches iff the label includes the term or the term includes the label |
| Classification.SomeTermMatches | src/components/WasteClassifier.tsx:106-108 | `some` over the terms, left to right; its meaning is stated by `SomeTermMatchesMember` and `SomeTermMatchesExists` |
| Classification.SomeTermMatchesExists | src/components/WasteClassifier.tsx:106-108 | the scan succeeds iff some term is a substring of the label or the label a substring of the term |
| Classification.IsBiodegradable | src/components/WasteClassifier.tsx:105-108 | lower-case the label, then scan the vocabulary; proved equal to the substring definition by `IsBiodegradableMeetsSpec` |
| Classification.IsBiodegradableMeetsSpec | src/components/WasteClassifier.tsx:33-108 | the verdict is true iff some vocabulary term is a substring of the lower-cased label or the lower-cased label is a substring of the term |
| Classification.SomeTermMatchesMember | src/components/WasteClassifier.tsx:106-108 | `some` over the vocabulary succeeds iff the list holds a matching term |
| Classification.NotBiodegradableWhenUnrelated | src/components/WasteClassifier.tsx:105-108 | a label related to no term in either direction is not biodegradable (closed world) |
| Classification.VerdictIgnoresCase | src/components/WasteClassifier.tsx:105 | a label and its lower-cased form get the same verdict |
| Classification.EmptyLabelIsBiodegradable | src/components/WasteClassifier.tsx:106-107 | as written, the empty label is biodegradable |
| Classification.Classify | src/components/WasteClassifier.tsx:104-119 | x = xmin, y = ymin, x + width = xmax, y + height = ymax, negative sizes exactly when the corners are reversed, confidence = score, the label kept un-lower-cased, verdict iff the label is biodegradable |
| Classification.CornersRoundTrip | src/components/WasteClassifier.tsx:111-114 | converting the box to size form and back gives the detector's corners exactly |
| Classification.ClassifyAll | src/components/WasteClassifier.tsx:104 | one result per detection, result k classifies detection k |
| Classification.ClassifyAllConcat | src/components/WasteClassifier.tsx:104 | classification commutes with concatenating detector output, so order is kept |
| Classification.BiodegradableCount | src/components/WasteClassifier.tsx:125 | at most the number of results, and zero iff no result is biodegradable |
| Classification.NonBiodegradableCount | src/components/WasteClassifier.tsx:126 | never negative, equal to the number of non-biodegradable results, and the two counts add up to the number of results |
| Strings.Lower | src/components/WasteClassifier.tsx:105 | `toLowerCase` keeps the length; each character is mapped on its own (`LowerAt`) |
| Strings.Includes | src/components/WasteClassifier.tsx:107 | `includes` tries each start position; it decides substring occurrence (`IncludesIsSubstring`) |
| Strings.IntToString | src/components/WasteClassifier.tsx:165 | the template-literal text of an integer: non-empty, with a leading minus sign iff negative |
| Strings.IncludesIsSubstring | src/components/WasteClassifier.tsx:107 | `includes` holds iff the argument occurs somewhere in the string |
| Strings.LowerIdempotent | src/components/WasteClassifier.tsx:105 | lower-casing twice is lower-casing once |
| Strings.LowerAt | src/components/WasteClassifier.tsx:105 | lower-casing maps each character on its own and keeps the length |
| Strings.IntToStringRoundTrip | src/components/WasteClassifier.tsx:165 | the decimal text of an integer reads back as that integer |
| Seqs.Filter | src/pages/Results.tsx:61-62 | `filter` never lengthens the input and keeps only elements that satisfy the predicate |
| Seqs.FilterMembership | src/pages/Results.tsx:61-62 | a filter keeps an element iff it occurs in the input and satisfies the predicate |
| Seqs.FilterPartition | src/components/WasteClassifier.tsx:125-126 | a filter and its complement together hold every input element as often as the input does |
| Numbers.Round | src/components/WasteClassifier.tsx:165 | `Math.round` gives the integer within half a unit, halves rounded up |
| Numbers.RoundPercentBounds | src/pages/Results.tsx:84 | a score in [0, 1] scaled to percent and rounded lies in 0..100 |
| Scenarios.AppleIsBiodegradable | src/components/WasteClassifier.tsx:33-108 | "apple" is biodegradable |
| Scenarios.BananaPeelIsBiodegradable | src/components/WasteClassifier.tsx:105-108 | "Banana Peel" is biodegradable, since case is ignored |
| Scenarios.BottleIsNotBiodegradable | src/components/WasteClassifier.tsx:33-108 | "bottle" is related to no vocabulary term and is not biodegradable |
| Scenarios.BottleWitnessesSeparate | src/components/WasteClassifier.tsx:33-37 | each vocabulary term has a letter "bottle" lacks, and is shorter than "bottle" or lacks one of its letters |
| Scenarios.BottleApartFromTerms | src/components/WasteClassifier.tsx:33-108 | no vocabulary term is a substring of "bottle", and "bottle" is a substring of none |
| Scenarios.AppleAndBottleDetections | src/components/WasteClassifier.tsx:104-126 | an apple and a bottle become the stated boxes with verdicts true and false, counted one and one |
| Canvas2D.Canvas.Resize | src/components/WasteClassifier.tsx:150-151 | setting the canvas size clears the drawing and resets the context state |
| Canvas2D.Canvas.StrokeRectAt | src/components/WasteClassifier.tsx:162 | appends an outline carrying the current stroke style and line width |
| Canvas2D.Canvas.FillRectAt | src/components/WasteClassifier.tsx:170 | appends a filled rectangle carrying the current fill style |
| Canvas2D.Canvas.FillTextAt | src/components/WasteClassifier.tsx:173-179 | appends text carrying the current fill style and font |
| Canvas2D.Canvas.DrawImageAt | src/components/WasteClassifier.tsx:153 | appends the photo drawn at the given origin |
| Canvas2D.Canvas.ToDataURL | src/components/WasteClassifier.tsx:183 | the bitmap's size and everything drawn on it since it was last cleared |
| Canvas2D.Canvas.MeasureText | src/components/WasteClassifier.tsx:167 | the width of the text in the current font, by the canvas's metrics |
| Annotation.BoxColor | src/components/WasteClassifier.tsx:157 | green iff the result is biodegradable, red iff it is not |
| Annotation.Indicator | src/components/WasteClassifier.tsx:177 | the recycling glyph iff biodegradable, the no-entry glyph iff not |
| Annotation.ConfidencePercent | src/components/WasteClassifier.tsx:165 | `Math.round(confidence * 100)` |
| Annotation.LabelText | src/components/WasteClassifier.tsx:165 | the tag text; `LabelTextReadsBack` states its parts |
| Annotation.ResultCommands | src/components/WasteClassifier.tsx:156-179 | the four commands of one loop step; `ResultGeometry` states each |
| Annotation.LabelTextReadsBack | src/components/WasteClassifier.tsx:165 | the tag text is the label, " (", the rounded percentage that reads back as an integer, and "%)" |
| Annotation.ResultGeometry | src/components/WasteClassifier.tsx:156-179 | the outline is exactly the result's box in its verdict colour; the tag sits on the box's top edge at its left edge, 25 high and 10 wider than the measured label, in the same colour; the label starts 5 inside the tag with its baseline at y - 8, inside the tag; both texts are white; the glyph is at (x + width - 30, y + 25) |
| Annotation.Layout | src/components/WasteClassifier.tsx:156-180 | four commands per result |
| Annotation.LayoutAt | src/components/WasteClassifier.tsx:156-180 | commands 4i to 4i+3 draw result i, so results are drawn in input order |
| Annotation.LayoutConcat | src/components/WasteClassifier.tsx:156 | drawing two batches of results draws each in turn |
| Annotation.DrawOutline | src/components/WasteClassifier.tsx:159-162 | appends the outline in the verdict colour and leaves that stroke style and width 3 set; fill style and font are kept |
| Annotation.DrawTag | src/components/WasteClassifier.tsx:164-174 | measures the label in the 16px font and appends the tag and the label, leaving white fill and the label font |
| Annotation.DrawIndicator | src/components/WasteClassifier.tsx:176-179 | appends the glyph in the 20px font at the box's top-right |
| Annotation.DrawAnnotation | src/components/WasteClassifier.tsx:156-180 | one loop step appends exactly the result's four commands and keeps the canvas size |
| Annotation.DrawLayout | src/components/WasteClassifier.tsx:156-180 | the loop appends the layout of all results, in order, and leaves the last result's styles set |
| Analysis.IsImageType | src/components/WasteClassifier.tsx:49 | the MIME type starts with "image/" |
| Analysis.ImageLoaded | src/components/WasteClassifier.tsx:62-67 | the new image is selected, results and processed image are cleared, the rest is kept |
| Analysis.Dropped | src/components/WasteClassifier.tsx:46-54 | a drop is taken iff it holds a file whose MIME type starts with "image/", otherwise nothing changes |
| Analysis.PngIsImageType | src/components/WasteClassifier.tsx:49 | "image/png" passes the drop check |
| Analysis.TextIsNotImageType | src/components/WasteClassifier.tsx:49 | "text/plain" fails the drop check |
| Analysis.ProgressStep | src/components/WasteClassifier.tsx:83 | a tick never goes past 90, adds 10 up to 80, and from 80 on gives 90 |
| Analysis.Ticks | src/components/WasteClassifier.tsx:82-84 | the progress after n ticks of the interval |
| Analysis.TicksFrom | src/components/WasteClassifier.tsx:82-84 | from a multiple of ten up to 90, n ticks give p + 10n, capped at 90 |
| Analysis.TicksFromZero | src/components/WasteClassifier.tsx:78-84 | from 0, the bar shows 10, 20, ... and stays at 90 after nine ticks |
| Analysis.TicksBounded | src/components/WasteClassifier.tsx:83 | ticks from at most 90 never decrease the progress and never pass 90 |
| Analysis.Ticked | src/components/WasteClassifier.tsx:82-84 | a timer tick changes only the progress, by one step |
| Analysis.Annotated | src/components/WasteClassifier.tsx:148-183 | the processed image has the photo's size and starts with the photo, followed by four commands per result |
| Analysis.Analyzed | src/components/WasteClassifier.tsx:71-138 | the state `classifyWaste` leaves, as written; its properties are the `Analysis*` lemmas below |
| Analysis.AnalysisOutcome | src/components/WasteClassifier.tsx:71-138 | which message the run ends with: no image, failure, or success with the two counts |
| Analysis.AnalysisNeedsImage | src/components/WasteClassifier.tsx:72-75 | with no image selected, an analysis changes nothing and reports that no image is selected |
| Analysis.AnalysisEnds | src/components/WasteClassifier.tsx:77-136 | with an image, every run ends not processing with the image still selected; progress is 100 iff the run succeeded, 50 after failed inference, at most 90 after a failed model load |
| Analysis.AnalysisResults | src/components/WasteClassifier.tsx:104-134 | only a successful run replaces the results, by the classified detections in order; it reports counts that split them by verdict; failed runs leave results and processed image as they were |
| Analysis.AnalysisAnnotates | src/components/WasteClassifier.tsx:141-183 | a successful run with a drawable canvas stores the photo plus the new results' layout; without one the processed image is kept |
| Analysis.AnalysisLeaksTimer | src/components/WasteClassifier.tsx:82-137 | as written, a failed model load leaves one more timer scheduled; other runs leave the count unchanged |
| Analysis.LeakedTimerMovesProgress | src/components/WasteClassifier.tsx:82-137 | after a model load that fails after n < 9 ticks, one more timer is scheduled, nothing is processing, and its next tick changes the hidden progress value from 10n to 10(n + 1) |
| Analysis.AnalyzedClearingTimer | src/components/WasteClassifier.tsx:82-137 | with the interval also cleared in `finally`, an analysis never changes the number of scheduled timers |
| Analysis.ClearingTimerKeepsIdle | src/components/WasteClassifier.tsx:82-137 | with that correction, a session without timers keeps none after an analysis |
| Analysis.WasteClassifier.constructor | src/components/WasteClassifier.tsx:24-30 | no image, not processing, progress 0, no results, no processed image, no timers |
| Analysis.WasteClassifier.ProcessImage | src/components/WasteClassifier.tsx:60-69 | the state becomes `ImageLoaded` of the old state |
| Analysis.WasteClassifier.HandleFileSelect | src/components/WasteClassifier.tsx:39-44 | any chosen file is loaded whatever its type; no file changes nothing |
| Analysis.WasteClassifier.HandleDrop | src/components/WasteClassifier.tsx:46-54 | accepted iff the file is an image type, and the state becomes `Dropped` of the old state |
| Analysis.WasteClassifier.Tick | src/components/WasteClassifier.tsx:82-84 | the state becomes `Ticked` of the old state |
| Analysis.WasteClassifier.DrawResults | src/components/WasteClassifier.tsx:140-186 | with no canvas, no image or no 2D context nothing changes; otherwise the canvas is the photo's size, holds the photo and then the layout of the results, and the processed image is that bitmap |
| Analysis.WasteClassifier.ShowDetections | src/components/WasteClassifier.tsx:104-130 | results become the classified detections, the processed image is redrawn when possible, progress becomes 100, and the counts are reported |
| Analysis.WasteClassifier.ClassifyWaste | src/components/WasteClassifier.tsx:71-138 | the state becomes `Analyzed` of the old state and the outcome is `AnalysisOutcome`; the canvas changes only on a successful run with a drawable canvas |
| Analysis.WasteClassifier.ClassifyWasteClearingTimer | src/components/WasteClassifier.tsx:71-138 | the same as `ClassifyWaste`, except that the number of scheduled timers is kept |
| ResultsPage.BiodegradableItems | src/pages/Results.tsx:61 | the detections of biodegradable type, by `filter` |
| ResultsPage.NonBiodegradableItems | src/pages/Results.tsx:62 | the detections of non-biodegradable type, by `filter` |
| ResultsPage.Percentage | src/pages/Results.tsx:63-64 | `(biodegradable / total) * 100`, NaN for no detections |
| ResultsPage.PieChartData | src/pages/Results.tsx:67-80 | the two pie slices |
| ResultsPage.ItemsMembership | src/pages/Results.tsx:61-62 | each list holds exactly the detections of its type |
| ResultsPage.ItemsPartition | src/pages/Results.tsx:61-63 | the two lists together hold every detection exactly as often as the input, so their lengths add up to the total |
| ResultsPage.ItemsKeepOrder | src/pages/Results.tsx:61-62 | both lists keep the detections' order |
| ResultsPage.Difference | src/pages/Results.tsx:78 | `a - x` is NaN iff x is NaN and otherwise adds back to a |
| ResultsPage.PercentageMeaning | src/pages/Results.tsx:63-64 | NaN iff there are no detections; otherwise percentage × total = biodegradable count × 100, within [0, 100] |
| ResultsPage.ComplementPercentage | src/pages/Results.tsx:78 | 100 minus the percentage is the non-biodegradable share |
| ResultsPage.PieChartAddsUp | src/pages/Results.tsx:67-80 | first the "Biodegradable" slice with the biodegradable count and percentage, then the "Non-Biodegradable" slice with the other count and 100 minus the percentage; the values count every detection once and the percentages add up to 100, or are both NaN with no detections |
| ResultsPage.ConfidenceData | src/pages/Results.tsx:82-86 | one bar per detection, in order, with the same name and type |
| ResultsPage.ConfidenceBars | src/pages/Results.tsx:84 | each bar is the confidence in percent rounded to the nearest integer, in 0..100 for a score in [0, 1] |
| ResultsPage.EcoGrade | src/pages/Results.tsx:188 | `pct > 60 ? A : pct > 40 ? B : C`, false comparisons for NaN |
| ResultsPage.Grade | src/pages/Results.tsx:188 | the grade of the page's percentage |
| ResultsPage.GradeByCounts | src/pages/Results.tsx:188 | A iff bio × 100 > 60 × total; B iff 40 × total < bio × 100 ≤ 60 × total; C iff bio × 100 ≤ 40 × total, including with no detections |
| ResultsPage.ThreeFifthsIsB | src/pages/Results.tsx:188 | exactly 60% is B |
| ResultsPage.TwoFifthsIsC | src/pages/Results.tsx:188 | exactly 40% is C |
| ResultsPage.NoDetectionsIsC | src/pages/Results.tsx:188 | no detections: the percentage is NaN and the grade is C |
| ResultsPage.MoreBiodegradableNeverLowers | src/pages/Results.tsx:188 | adding a biodegradable detection never lowers the grade |
| ResultsPage.ShownDisposal | src/pages/Results.tsx:368-385 | which disposal sections the page shows |
| ResultsPage.ShownDisposalMeaning | src/pages/Results.tsx:368-385 | a disposal section is shown for a type iff some detection has that type |
| ResultsPage.AppleAndBottle | src/pages/Results.tsx:61-64 | one biodegradable and one non-biodegradable detection give 50%, grade B, and both disposal sections |

## Left out

- The detector: the `pipeline('object-detection', …)` call, the model download
  and WebGPU. They are foreign and asynchronous. A `DetectorRun` value stands
  for what they do.
- Browser I/O:
  - `FileReader` and its `onload`;
  - `Image.onload` and an image that fails to decode;
  - `toDataURL`'s encoding (a `Snapshot` of the size and the commands stands
    for it);
  - pixels;
  - the text metrics (a parameter of the canvas).
- Toast notifications and `console.error`: cosmetic. The `Outcome` value says
  which of the messages would be shown, and the counts the success toast names.
- Timing of `setInterval`. How many ticks happen while the model loads is part
  of the `DetectorRun`. Ticks from a leaked timer during a later await are not
  interleaved into that run.
- Analysis.WasteClassifier.ClassifyWaste: runs as one step. The states in
  between its awaits (`processing` true, progress 0 and then ticking) are not
  visible to other handlers. So re-entrant clicks and image changes during an
  analysis are not modelled.
- Analysis.WasteClassifier.DrawResults: draws at once. The real drawing waits
  for the image to load, and uses whatever `selectedImage` holds when it is
  called.
- `handleDragOver` and the hidden file input's click: they only call
  `preventDefault` or open a dialog.
- Strings.Lower: lower-cases only ASCII letters. JavaScript's Unicode case
  mapping is not modelled.
- Every JavaScript number is modelled as an exact real: the box conversion,
  the tag and glyph positions, `confidence * 100` and its rounding, the
  percentage division and `100 - percentage`. Binary floating-point error is
  not modelled, so e.g. the pie percentages add up to exactly 100 here but
  not always in doubles.
- `toFixed(1)` formatting of percentages, all JSX, charts styling (`chartConfig`),
  the fixed disposal and tip texts, routing, and the mock data used when the
  page receives no state.
- The hand-off of results from the classifier to the results page: it is not in
  the code.
- src/pages/Index.tsx: presentation only, with no logic.

## Findings

| source | as written | input that shows it | evidently intended | confidence | as-written member | corrected member |
|---|---|---|---|---|---|---|
| src/components/WasteClassifier.tsx:82-96 | `clearInterval(progressInterval)` runs only after `await pipeline(…)` succeeds; the `catch`/`finally` blocks do not clear it | an image is selected and the model fails to load before the first tick (`ModelLoadFailed(0)`): afterwards a timer is still scheduled and `processing` is false, so the progress bar is hidden, and the next tick changes the hidden progress value from 0 to 10; in the next analysis the leaked interval would tick alongside the new one, an interleaving the model does not represent | the interval is cleared on every path, e.g. in `finally` | high; not executed | Analysis.LeakedTimerMovesProgress | Analysis.ClearingTimerKeepsIdle |
