/** The results page (src/pages/Results.tsx): the split of the detections by
    waste type, the biodegradable percentage, the chart data, the eco grade
    and which disposal advice is shown. */
module ResultsPage {
  import opened Seqs
  import opened Numbers

  datatype WasteType = Biodegradable | NonBiodegradable

  /** One detection as the page receives it; `box` is kept as given. */
  datatype DetectionResult = DetectionResult(
    name: string, category: WasteType, confidence: real, box: seq<real>)

  /** A JavaScript number as far as this page needs one: `0 / 0` is NaN. */
  datatype Number = NaN | Finite(value: real)

  /** `x > bound`, which is false for NaN. */
  predicate Exceeds(x: Number, bound: real) {
    x.Finite? && x.value > bound
  }

  /** `a - x`; NaN stays NaN. */
  function Difference(a: real, x: Number): (r: Number)
    ensures r.NaN? <==> x.NaN?
    ensures r.Finite? ==> r.value + x.value == a
  {
    if x.NaN? then NaN else Finite(a - x.value)
  }

  predicate IsBiodegradableItem(d: DetectionResult) {
    d.category == Biodegradable
  }

  predicate IsNonBiodegradableItem(d: DetectionResult) {
    d.category == NonBiodegradable
  }

  /** `detections.filter(item => item.type === 'biodegradable')`. */
  function BiodegradableItems(ds: seq<DetectionResult>): seq<DetectionResult> {
    Filter(ds, IsBiodegradableItem)
  }

  /** `detections.filter(item => item.type === 'non-biodegradable')`. */
  function NonBiodegradableItems(ds: seq<DetectionResult>): seq<DetectionResult> {
    Filter(ds, IsNonBiodegradableItem)
  }

  /** Each list holds exactly the detections of its type. */
  lemma ItemsMembership(ds: seq<DetectionResult>, d: DetectionResult)
    ensures d in BiodegradableItems(ds) <==> d in ds && d.category == Biodegradable
    ensures d in NonBiodegradableItems(ds) <==> d in ds && d.category == NonBiodegradable
  {
    FilterMembership(ds, IsBiodegradableItem, d);
    FilterMembership(ds, IsNonBiodegradableItem, d);
  }

  /** The two lists split the detections: every detection is in exactly one
      of them, as often as it occurs, so their lengths add up to the total. */
  lemma ItemsPartition(ds: seq<DetectionResult>)
    ensures |BiodegradableItems(ds)| + |NonBiodegradableItems(ds)| == |ds|
    ensures multiset(BiodegradableItems(ds)) + multiset(NonBiodegradableItems(ds)) == multiset(ds)
  {
    FilterPartition(ds, IsBiodegradableItem);
    FilterSameKept(ds, Not(IsBiodegradableItem), IsNonBiodegradableItem);
  }

  /** Both lists keep the detections' order: splitting a batch of
      detections in two and listing each part lists the whole. */
  lemma ItemsKeepOrder(a: seq<DetectionResult>, b: seq<DetectionResult>)
    ensures BiodegradableItems(a + b) == BiodegradableItems(a) + BiodegradableItems(b)
    ensures NonBiodegradableItems(a + b) == NonBiodegradableItems(a) + NonBiodegradableItems(b)
  {
    FilterConcat(a, b, IsBiodegradableItem);
    FilterConcat(a, b, IsNonBiodegradableItem);
  }

  /** `(biodegradableItems.length / totalItems) * 100`. */
  function Percentage(ds: seq<DetectionResult>): Number {
    var total := |ds|;
    if total == 0 then NaN
    else Finite(|BiodegradableItems(ds)| as real / total as real * 100.0)
  }

  /** `b / t * 100` for `0 < t` and `b <= t` is the share between 0 and 100. */
  lemma Share(b: real, t: real, p: real)
    requires 0.0 < t && 0.0 <= b <= t && p == b / t * 100.0
    ensures p * t == b * 100.0 && 0.0 <= p <= 100.0
  {
    var q := b / t;
    assert q * t == b;
    assert 0.0 <= q <= 1.0;
  }

  /** `100 - b / t * 100` is `(t - b) / t * 100`. */
  lemma ShareComplement(b: real, t: real)
    requires 0.0 < t
    ensures 100.0 - b / t * 100.0 == (t - b) / t * 100.0
  {
    assert (t - b) / t == t / t - b / t;
  }

  /** The percentage is NaN exactly when there are no detections; otherwise
      it is the share of biodegradable items, between 0 and 100. */
  lemma PercentageMeaning(ds: seq<DetectionResult>)
    ensures Percentage(ds).NaN? <==> |ds| == 0
    ensures Percentage(ds).Finite? ==>
      Percentage(ds).value * |ds| as real == |BiodegradableItems(ds)| as real * 100.0 &&
      0.0 <= Percentage(ds).value <= 100.0
  {
    if |ds| > 0 {
      var b, t := |BiodegradableItems(ds)|, |ds|;
      assert Percentage(ds) == Finite(b as real / t as real * 100.0);
      Share(b as real, t as real, Percentage(ds).value);
    }
  }

  /** The percentage shown on the non-biodegradable card and slice is the
      share of non-biodegradable items. */
  lemma ComplementPercentage(ds: seq<DetectionResult>)
    requires |ds| > 0
    ensures Difference(100.0, Percentage(ds)) ==
      Finite(|NonBiodegradableItems(ds)| as real / |ds| as real * 100.0)
  {
    ItemsPartition(ds);
    var t := |ds| as real;
    var b := |BiodegradableItems(ds)| as real;
    var n := |NonBiodegradableItems(ds)| as real;
    assert b + n == t;
    ShareComplement(b, t);
  }

  /** One pie slice. */
  datatype Slice = Slice(name: string, value: nat, fill: string, percentage: Number)

  function PieChartData(ds: seq<DetectionResult>): seq<Slice> {
    var pct := Percentage(ds);
    [ Slice("Biodegradable", |BiodegradableItems(ds)|, "hsl(var(--eco-green))", pct),
      Slice("Non-Biodegradable", |NonBiodegradableItems(ds)|, "hsl(var(--eco-red))", Difference(100.0, pct)) ]
  }

  /** The chart has two slices: first the biodegradable items with the
      biodegradable percentage, then the others with its complement. Their
      values count every detection once, and their percentages add up to 100
      (both NaN without detections). */
  lemma PieChartAddsUp(ds: seq<DetectionResult>)
    ensures var slices := PieChartData(ds);
      |slices| == 2 &&
      slices[0].name == "Biodegradable" && slices[1].name == "Non-Biodegradable" &&
      slices[0].value == |BiodegradableItems(ds)| && slices[0].percentage == Percentage(ds) &&
      slices[1].value == |NonBiodegradableItems(ds)| &&
      slices[1].percentage == Difference(100.0, Percentage(ds)) &&
      slices[0].value + slices[1].value == |ds| &&
      (|ds| == 0 ==> slices[0].percentage.NaN? && slices[1].percentage.NaN?) &&
      (|ds| > 0 ==> (slices[0].percentage.Finite? && slices[1].percentage.Finite? &&
        slices[0].percentage.value + slices[1].percentage.value == 100.0))
  {
    ItemsPartition(ds);
    PercentageMeaning(ds);
  }

  /** One bar of the confidence chart. */
  datatype ConfidenceBar = ConfidenceBar(name: string, confidence: int, category: WasteType)

  /** `detections.map(item => ({name, confidence: Math.round(confidence * 100), type}))`. */
  function ConfidenceData(ds: seq<DetectionResult>): (bars: seq<ConfidenceBar>)
    ensures |bars| == |ds|
    ensures forall k :: 0 <= k < |ds| ==> bars[k].name == ds[k].name && bars[k].category == ds[k].category
  {
    if ds == [] then []
    else [ConfidenceBar(ds[0].name, Round(ds[0].confidence * 100.0), ds[0].category)] + ConfidenceData(ds[1..])
  }

  /** Each bar is the detection's confidence as a percentage, to the
      nearest whole number, and lies in 0..100 for a score in [0, 1]. */
  lemma {:induction false} ConfidenceBars(ds: seq<DetectionResult>, k: nat)
    requires k < |ds|
    ensures var bar := ConfidenceData(ds)[k];
      bar.confidence as real - 0.5 <= ds[k].confidence * 100.0 < bar.confidence as real + 0.5 &&
      (0.0 <= ds[k].confidence <= 1.0 ==> 0 <= bar.confidence <= 100)
  {
    if k == 0 {
      if 0.0 <= ds[0].confidence <= 1.0 {
        RoundPercentBounds(ds[0].confidence);
      }
    } else {
      ConfidenceBars(ds[1..], k - 1);
    }
  }

  datatype EcoRating = A | B | C

  /** `pct > 60 ? 'A' : pct > 40 ? 'B' : 'C'`. */
  function EcoGrade(pct: Number): EcoRating {
    if Exceeds(pct, 60.0) then A else if Exceeds(pct, 40.0) then B else C
  }

  function Grade(ds: seq<DetectionResult>): EcoRating {
    EcoGrade(Percentage(ds))
  }

  /** The grade by counts alone: A above three fifths biodegradable, B above
      two fifths, C otherwise, including when nothing was detected. */
  lemma GradeByCounts(ds: seq<DetectionResult>)
    ensures var b, t := |BiodegradableItems(ds)|, |ds|;
      (Grade(ds) == A <==> b * 100 > 60 * t) &&
      (Grade(ds) == B <==> 40 * t < b * 100 <= 60 * t) &&
      (Grade(ds) == C <==> b * 100 <= 40 * t)
  {
    PercentageMeaning(ds);
    var b, t := |BiodegradableItems(ds)|, |ds|;
    if t > 0 {
      var p := Percentage(ds).value;
      ScaledComparison(p, 60.0, t as real, b as real * 100.0);
      ScaledComparison(p, 40.0, t as real, b as real * 100.0);
    }
  }

  /** Multiplying both sides by a positive number keeps a strict comparison. */
  lemma ScaledComparison(p: real, bound: real, t: real, pt: real)
    requires t > 0.0 && p * t == pt
    ensures p > bound <==> pt > bound * t
  {
    if p > bound {
      assert (p - bound) * t > 0.0;
    } else {
      assert (bound - p) * t >= 0.0;
    }
  }

  /** Exactly 60% biodegradable is a B, not an A: the bound is strict. */
  lemma ThreeFifthsIsB(ds: seq<DetectionResult>)
    requires |ds| == 5 && |BiodegradableItems(ds)| == 3
    ensures Grade(ds) == B
  {
    GradeByCounts(ds);
  }

  /** Exactly 40% biodegradable is a C. */
  lemma TwoFifthsIsC(ds: seq<DetectionResult>)
    requires |ds| == 5 && |BiodegradableItems(ds)| == 2
    ensures Grade(ds) == C
  {
    GradeByCounts(ds);
  }

  /** Nothing detected: the percentage is NaN and the grade is C. */
  lemma NoDetectionsIsC()
    ensures Percentage([]).NaN? && Grade([]) == C
  {
  }

  /** Adding a biodegradable detection never lowers the grade. */
  lemma MoreBiodegradableNeverLowers(ds: seq<DetectionResult>, d: DetectionResult)
    requires d.category == Biodegradable
    ensures Grade(ds) == A ==> Grade(ds + [d]) == A
    ensures Grade(ds) == B ==> Grade(ds + [d]) != C
  {
    ItemsKeepOrder(ds, [d]);
    assert BiodegradableItems([d]) == [d];
    GradeByCounts(ds);
    GradeByCounts(ds + [d]);
  }

  /** The disposal advice shown on the page: each list of methods appears
      when at least one detection is of that type. */
  function ShownDisposal(ds: seq<DetectionResult>): seq<WasteType> {
    (if |BiodegradableItems(ds)| > 0 then [Biodegradable] else []) +
    (if |NonBiodegradableItems(ds)| > 0 then [NonBiodegradable] else [])
  }

  lemma ShownDisposalMeaning(ds: seq<DetectionResult>, t: WasteType)
    ensures t in ShownDisposal(ds) <==> exists k :: 0 <= k < |ds| && ds[k].category == t
  {
    FilterEmpty(ds, IsBiodegradableItem);
    FilterEmpty(ds, IsNonBiodegradableItem);
  }

  /** One apple and one bottle: half the items are biodegradable, which is
      above 40, so the grade is B; both kinds of disposal advice are shown. */
  lemma AppleAndBottle(apple: DetectionResult, bottle: DetectionResult)
    requires apple.category == Biodegradable && bottle.category == NonBiodegradable
    ensures var ds := [apple, bottle];
      Percentage(ds) == Finite(50.0) && Grade(ds) == B &&
      ShownDisposal(ds) == [Biodegradable, NonBiodegradable]
  {
    var ds := [apple, bottle];
    assert ds[1..] == [bottle];
    assert [bottle][1..] == [];
    assert Filter([bottle], IsBiodegradableItem) == [];
    assert Filter([bottle], IsNonBiodegradableItem) == [bottle];
    assert BiodegradableItems(ds) == [apple];
    assert NonBiodegradableItems(ds) == [bottle];
  }
}
