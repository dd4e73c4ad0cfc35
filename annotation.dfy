/** What the annotation step draws for each classification result
    (`drawResults` in src/components/WasteClassifier.tsx): a coloured
    outline of the box, a coloured tag above it holding the label and the
    rounded confidence, and a recycling or no-entry glyph inside the box's
    top-right corner. */
module Annotation {
  import opened Wrappers
  import opened Strings
  import opened Seqs
  import opened Numbers
  import opened Classification
  import opened Canvas2D

  const BiodegradableColor := "#22c55e"
  const NonBiodegradableColor := "#ef4444"
  const LabelTextColor := "white"
  const LabelFont := "16px Arial"
  const IndicatorFont := "20px Arial"
  const OutlineWidth := 3.0
  /** Height of the label tag, and its padding around the text. */
  const TagHeight := 25.0
  const TagPadding := 10.0
  /** U+267B U+FE0F, the recycling symbol in emoji presentation. */
  const RecycleGlyph := "♻️"
  /** U+1F6AB, the no-entry sign. */
  const NoEntryGlyph := "\U{1F6AB}"

  /** Green for biodegradable results, red for the others. */
  function BoxColor(r: ClassificationResult): (c: string)
    ensures c == BiodegradableColor <==> r.isBiodegradable
    ensures c == NonBiodegradableColor <==> !r.isBiodegradable
  {
    if r.isBiodegradable then BiodegradableColor else NonBiodegradableColor
  }

  function Indicator(r: ClassificationResult): (g: string)
    ensures g == RecycleGlyph <==> r.isBiodegradable
    ensures g == NoEntryGlyph <==> !r.isBiodegradable
  {
    if r.isBiodegradable then RecycleGlyph else NoEntryGlyph
  }

  /** The confidence as a whole percentage, `Math.round(confidence * 100)`. */
  function ConfidencePercent(r: ClassificationResult): int {
    Round(r.confidence * 100.0)
  }

  /** The tag text: `label (NN%)`. */
  function LabelText(r: ClassificationResult): string {
    r.name + " (" + IntToString(ConfidencePercent(r)) + "%)"
  }

  /** The tag text starts with the label as the detector wrote it, ends with
      "%)", and the number between reads back as the rounded percentage. */
  lemma LabelTextReadsBack(r: ClassificationResult)
    ensures var t := LabelText(r);
      |t| >= |r.name| + 4 &&
      t[..|r.name|] == r.name && t[|r.name|..|r.name| + 2] == " (" &&
      t[|t| - 2..] == "%)" &&
      ParseInt(t[|r.name| + 2..|t| - 2]) == Some(ConfidencePercent(r))
  {
    var n := IntToString(ConfidencePercent(r));
    var t := LabelText(r);
    assert t == r.name + " (" + n + "%)";
    assert t[|r.name| + 2..|t| - 2] == n;
    IntToStringRoundTrip(ConfidencePercent(r));
  }

  /** The four drawing commands for one result, given the text metrics. */
  function ResultCommands(r: ClassificationResult, metrics: (string, string) -> Width): (cs: seq<Command>)
    ensures |cs| == 4
  {
    var color := BoxColor(r);
    var text := LabelText(r);
    [ StrokeRect(r.x, r.y, r.width, r.height, color, OutlineWidth),
      FillRect(r.x, r.y - TagHeight, metrics(LabelFont, text) + TagPadding, TagHeight, color),
      FillText(text, r.x + 5.0, r.y - 8.0, LabelTextColor, LabelFont),
      FillText(Indicator(r), r.x + r.width - 30.0, r.y + 25.0, LabelTextColor, IndicatorFont) ]
  }

  /** The geometry of one result's annotation: the outline is exactly the
      result's box, in the verdict's colour; the tag sits on the box's top
      edge, starts at its left edge and is wider than the label text by the
      padding; the label text starts inside the tag with half the padding on
      its left and its baseline 8 above the box's top edge, inside the tag;
      both texts are white; the glyph is drawn inside the box's top-right
      corner region. */
  lemma ResultGeometry(r: ClassificationResult, metrics: (string, string) -> Width)
    ensures var cs := ResultCommands(r, metrics);
      var text := LabelText(r);
      |cs| == 4 &&
      cs[0].StrokeRect? && Corners(r) == Box(cs[0].x, cs[0].y, cs[0].x + cs[0].w, cs[0].y + cs[0].h) &&
      cs[0].lineWidth == OutlineWidth &&
      cs[1].FillRect? && cs[1].x == r.x && cs[1].y + cs[1].h == r.y && cs[1].h == TagHeight &&
      cs[1].w == metrics(LabelFont, text) + TagPadding &&
      (cs[0].style == BiodegradableColor <==> r.isBiodegradable) && cs[1].style == cs[0].style &&
      cs[2].FillText? && cs[2].text == text && cs[2].font == LabelFont &&
      cs[2].x - cs[1].x == TagPadding / 2.0 &&
      cs[2].y == r.y - 8.0 && cs[1].y < cs[2].y < cs[1].y + cs[1].h &&
      cs[2].style == LabelTextColor && cs[3].style == LabelTextColor &&
      cs[3].FillText? && cs[3].font == IndicatorFont &&
      (cs[3].text == RecycleGlyph <==> r.isBiodegradable) &&
      cs[3].x == r.x + r.width - 30.0 && cs[3].y == r.y + 25.0
  {
  }

  /** The drawing of one result, as a function of the result alone. */
  function Painter(metrics: (string, string) -> Width): ClassificationResult -> seq<Command> {
    r => ResultCommands(r, metrics)
  }

  /** Everything drawn over the photo, one result after the other. */
  function Layout(rs: seq<ClassificationResult>, metrics: (string, string) -> Width): (cs: seq<Command>)
    ensures |cs| == 4 * |rs|
  {
    FlatMapLength(rs, Painter(metrics), 4);
    FlatMap(rs, Painter(metrics))
  }

  /** Drawing results in two batches draws each batch in turn. */
  lemma LayoutConcat(a: seq<ClassificationResult>, b: seq<ClassificationResult>,
                     metrics: (string, string) -> Width)
    ensures Layout(a + b, metrics) == Layout(a, metrics) + Layout(b, metrics)
  {
    FlatMapConcat(a, b, Painter(metrics));
  }

  /** Drawing one more result appends its four commands. */
  lemma LayoutStep(rs: seq<ClassificationResult>, metrics: (string, string) -> Width, i: nat)
    requires i < |rs|
    ensures Layout(rs[..i + 1], metrics) == Layout(rs[..i], metrics) + ResultCommands(rs[i], metrics)
  {
    assert rs[..i + 1] == rs[..i] + [rs[i]];
    LayoutConcat(rs[..i], [rs[i]], metrics);
    assert [rs[i]][1..] == [];
  }

  /** Result `i` is drawn by commands `4 i` to `4 i + 3`, in input order. */
  lemma LayoutAt(rs: seq<ClassificationResult>, metrics: (string, string) -> Width, i: nat, k: nat)
    requires i < |rs| && k < 4
    ensures Layout(rs, metrics)[4 * i + k] == ResultCommands(rs[i], metrics)[k]
  {
    FlatMapAt(rs, Painter(metrics), 4, i, k);
  }

  /** The context state one result's drawing leaves behind. */
  ghost predicate StyledFor(canvas: Canvas, r: ClassificationResult)
    reads canvas
  {
    canvas.strokeStyle == BoxColor(r) && canvas.lineWidth == OutlineWidth &&
    canvas.fillStyle == LabelTextColor && canvas.font == IndicatorFont
  }

  /** Draws the outline of a result's box in its verdict colour. */
  method DrawOutline(canvas: Canvas, r: ClassificationResult)
    modifies canvas
    ensures canvas.commands == old(canvas.commands) +
      [StrokeRect(r.x, r.y, r.width, r.height, BoxColor(r), OutlineWidth)]
    ensures canvas.strokeStyle == BoxColor(r) && canvas.lineWidth == OutlineWidth
    ensures canvas.fillStyle == old(canvas.fillStyle) && canvas.font == old(canvas.font)
    ensures canvas.width == old(canvas.width) && canvas.height == old(canvas.height)
  {
    canvas.strokeStyle := BoxColor(r);
    canvas.lineWidth := OutlineWidth;
    canvas.StrokeRectAt(r.x, r.y, r.width, r.height);
  }

  /** Draws the tag above a result's box, sized to the label measured in
      the label font, then the label on it. */
  method DrawTag(canvas: Canvas, r: ClassificationResult)
    modifies canvas
    ensures canvas.commands == old(canvas.commands) +
      [FillRect(r.x, r.y - TagHeight, canvas.metrics(LabelFont, LabelText(r)) + TagPadding, TagHeight, BoxColor(r)),
       FillText(LabelText(r), r.x + 5.0, r.y - 8.0, LabelTextColor, LabelFont)]
    ensures canvas.fillStyle == LabelTextColor && canvas.font == LabelFont
    ensures canvas.strokeStyle == old(canvas.strokeStyle) && canvas.lineWidth == old(canvas.lineWidth)
    ensures canvas.width == old(canvas.width) && canvas.height == old(canvas.height)
  {
    ghost var before := canvas.commands;
    var text := LabelText(r);
    canvas.font := LabelFont;
    var textWidth := canvas.MeasureText(text);
    canvas.fillStyle := BoxColor(r);
    canvas.FillRectAt(r.x, r.y - TagHeight, textWidth + TagPadding, TagHeight);
    ghost var tag := FillRect(r.x, r.y - TagHeight, textWidth + TagPadding, TagHeight, BoxColor(r));
    assert canvas.commands == before + [tag];
    canvas.fillStyle := LabelTextColor;
    canvas.FillTextAt(text, r.x + 5.0, r.y - 8.0);
    assert canvas.commands == before + [tag, FillText(text, r.x + 5.0, r.y - 8.0, LabelTextColor, LabelFont)];
  }

  /** Draws the verdict glyph inside the top-right corner of the box, in
      the current fill style. */
  method DrawIndicator(canvas: Canvas, r: ClassificationResult)
    modifies canvas
    ensures canvas.commands == old(canvas.commands) +
      [FillText(Indicator(r), r.x + r.width - 30.0, r.y + 25.0, old(canvas.fillStyle), IndicatorFont)]
    ensures canvas.font == IndicatorFont
    ensures canvas.fillStyle == old(canvas.fillStyle)
    ensures canvas.strokeStyle == old(canvas.strokeStyle) && canvas.lineWidth == old(canvas.lineWidth)
    ensures canvas.width == old(canvas.width) && canvas.height == old(canvas.height)
  {
    canvas.font := IndicatorFont;
    canvas.FillTextAt(Indicator(r), r.x + r.width - 30.0, r.y + 25.0);
  }

  /** The body of the `results.forEach` loop in `drawResults`: draws one
      result's annotation. */
  method DrawAnnotation(canvas: Canvas, r: ClassificationResult)
    modifies canvas
    ensures canvas.commands == old(canvas.commands) + ResultCommands(r, canvas.metrics)
    ensures canvas.width == old(canvas.width) && canvas.height == old(canvas.height)
    ensures StyledFor(canvas, r)
  {
    ghost var before := canvas.commands;
    ghost var cs := ResultCommands(r, canvas.metrics);
    DrawOutline(canvas, r);
    assert canvas.commands == before + cs[..1];
    DrawTag(canvas, r);
    assert canvas.commands == before + cs[..3];
    DrawIndicator(canvas, r);
    assert canvas.commands == before + cs[..4];
  }

  /** `results.forEach(...)` in `drawResults`: the results' annotations, in
      order, after what the canvas already holds. */
  method DrawLayout(canvas: Canvas, rs: seq<ClassificationResult>)
    modifies canvas
    ensures canvas.commands == old(canvas.commands) + Layout(rs, canvas.metrics)
    ensures canvas.width == old(canvas.width) && canvas.height == old(canvas.height)
    ensures rs == [] ==> (canvas.strokeStyle == old(canvas.strokeStyle) &&
      canvas.fillStyle == old(canvas.fillStyle) && canvas.lineWidth == old(canvas.lineWidth) &&
      canvas.font == old(canvas.font))
    ensures rs != [] ==> StyledFor(canvas, rs[|rs| - 1])
  {
    ghost var start := canvas.commands;
    var i := 0;
    while i < |rs|
      invariant 0 <= i <= |rs|
      invariant canvas.width == old(canvas.width) && canvas.height == old(canvas.height)
      invariant canvas.commands == start + Layout(rs[..i], canvas.metrics)
      invariant i == 0 ==> (canvas.strokeStyle == old(canvas.strokeStyle) &&
        canvas.fillStyle == old(canvas.fillStyle) && canvas.lineWidth == old(canvas.lineWidth) &&
        canvas.font == old(canvas.font))
      invariant i > 0 ==> StyledFor(canvas, rs[i - 1])
    {
      ghost var drawn := canvas.commands;
      DrawAnnotation(canvas, rs[i]);
      LayoutStep(rs, canvas.metrics, i);
      assert canvas.commands == drawn + ResultCommands(rs[i], canvas.metrics);
      i := i + 1;
    }
    assert rs[..|rs|] == rs;
  }
}
