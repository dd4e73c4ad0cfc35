/** Turning the detector's raw output into classification results
    (src/components/WasteClassifier.tsx): the biodegradable vocabulary, the
    bidirectional substring verdict, the corner-to-size box conversion and
    the two counts reported when an analysis completes. */
module Classification {
  import opened Strings
  import opened Seqs

  /** The fixed vocabulary of biodegradable indicator terms, in source order. */
  const Vocabulary: seq<string> := [
    "apple", "banana", "orange", "carrot", "broccoli", "lettuce", "tomato",
    "food", "fruit", "vegetable", "bread", "paper", "cardboard", "wood",
    "leaves", "flowers", "plant", "organic"
  ]

  /** A bounding box in corner form, in image pixels, as the detector gives it. */
  datatype Box = Box(xmin: real, ymin: real, xmax: real, ymax: real)

  /** One raw detection: the detector's label (called `name` here, since
      `label` is a Dafny keyword), its score and its box. */
  datatype Detection = Detection(name: string, score: real, box: Box)

  /** A detection after classification: the box in position-and-size form,
      the score as confidence, the label as the detector wrote it, and the
      verdict. */
  datatype ClassificationResult = ClassificationResult(
    x: real, y: real, width: real, height: real,
    confidence: real, name: string, isBiodegradable: bool)

  /** The test one vocabulary term applies to a lower-cased label:
      `label.includes(item) || item.includes(label)`. */
  predicate MatchesTerm(lbl: string, item: string) {
    Includes(lbl, item) || Includes(item, lbl)
  }

  /** `terms.some(item => MatchesTerm(lbl, item))`, scanning left to right. */
  predicate SomeTermMatches(terms: seq<string>, lbl: string) {
    if terms == [] then false
    else MatchesTerm(lbl, terms[0]) || SomeTermMatches(terms[1..], lbl)
  }

  /** The verdict for a detector label: lower-case it, then look for a
      vocabulary term related to it by substring containment. */
  predicate IsBiodegradable(lbl: string) {
    SomeTermMatches(Vocabulary, Lower(lbl))
  }

  /** Reference definition of the verdict: some vocabulary term is a
      substring of the lower-cased label, or the lower-cased label is a
      substring of the term. */
  ghost predicate BiodegradableSpec(lbl: string) {
    exists t :: t in Vocabulary &&
      (IsSubstring(t, Lower(lbl)) || IsSubstring(Lower(lbl), t))
  }

  lemma {:induction false} SomeTermMatchesExists(terms: seq<string>, lbl: string)
    ensures SomeTermMatches(terms, lbl) <==>
      exists t :: t in terms && (IsSubstring(t, lbl) || IsSubstring(lbl, t))
  {
    if terms != [] {
      IncludesIsSubstring(lbl, terms[0]);
      IncludesIsSubstring(terms[0], lbl);
      SomeTermMatchesExists(terms[1..], lbl);
      assert terms == [terms[0]] + terms[1..];
    }
  }

  /** `some` finds a match iff the list holds a matching term. */
  lemma {:induction false} SomeTermMatchesMember(terms: seq<string>, lbl: string)
    ensures SomeTermMatches(terms, lbl) <==>
      exists t :: t in terms && MatchesTerm(lbl, t)
  {
    if terms != [] {
      SomeTermMatchesMember(terms[1..], lbl);
      assert terms == [terms[0]] + terms[1..];
    }
  }

  /** The verdict computed by scanning the vocabulary is the reference one. */
  lemma IsBiodegradableMeetsSpec(lbl: string)
    ensures IsBiodegradable(lbl) <==> BiodegradableSpec(lbl)
  {
    SomeTermMatchesExists(Vocabulary, Lower(lbl));
  }

  /** A term and a label are unrelated when the term has a letter the label
      lacks, and the label is longer than the term or has a letter the term
      lacks. */
  lemma Unrelated(lbl: string, term: string, c: char, d: char)
    requires c in term && c !in lbl
    requires |term| < |lbl| || (d in lbl && d !in term)
    ensures !IsSubstring(term, lbl) && !IsSubstring(lbl, term)
  {
    MissingChar(lbl, term, c);
    if |term| < |lbl| {
      TooLong(term, lbl);
    } else {
      MissingChar(term, lbl, d);
    }
  }

  /** A label related to no vocabulary term, in either direction, is not
      biodegradable. */
  lemma NotBiodegradableWhenUnrelated(lbl: string)
    requires forall t :: t in Vocabulary ==>
      !IsSubstring(t, Lower(lbl)) && !IsSubstring(Lower(lbl), t)
    ensures !IsBiodegradable(lbl)
  {
    IsBiodegradableMeetsSpec(lbl);
  }

  /** The verdict depends only on the lower-cased label: a label and its
      lower-cased form always get the same verdict. */
  lemma VerdictIgnoresCase(lbl: string)
    ensures IsBiodegradable(Lower(lbl)) == IsBiodegradable(lbl)
  {
    LowerIdempotent(lbl);
  }

  /** As written, the empty label is biodegradable: every term includes "". */
  lemma EmptyLabelIsBiodegradable()
    ensures IsBiodegradable("")
  {
    IncludesEmpty("apple");
  }

  /** One raw detection becomes one result. */
  function Classify(d: Detection): (r: ClassificationResult)
    ensures r.x == d.box.xmin && r.y == d.box.ymin
    ensures r.x + r.width == d.box.xmax && r.y + r.height == d.box.ymax
    ensures r.width < 0.0 <==> d.box.xmax < d.box.xmin
    ensures r.height < 0.0 <==> d.box.ymax < d.box.ymin
    ensures r.confidence == d.score && r.name == d.name
    ensures r.isBiodegradable <==> IsBiodegradable(d.name)
  {
    ClassificationResult(
      d.box.xmin, d.box.ymin,
      d.box.xmax - d.box.xmin, d.box.ymax - d.box.ymin,
      d.score, d.name, IsBiodegradable(d.name))
  }

  /** The corners of a result's box: the inverse of the size form. */
  function Corners(r: ClassificationResult): Box {
    Box(r.x, r.y, r.x + r.width, r.y + r.height)
  }

  /** Box conversion loses nothing: the corners come back exactly. */
  lemma CornersRoundTrip(d: Detection)
    ensures Corners(Classify(d)) == d.box
  {
  }

  /** `detections.map(Classify)`: one result per detection, in order. */
  function ClassifyAll(ds: seq<Detection>): (rs: seq<ClassificationResult>)
    ensures |rs| == |ds|
    ensures forall k :: 0 <= k < |ds| ==> rs[k] == Classify(ds[k])
  {
    if ds == [] then [] else [Classify(ds[0])] + ClassifyAll(ds[1..])
  }

  /** Classification commutes with concatenating detector outputs. */
  lemma ClassifyAllConcat(a: seq<Detection>, b: seq<Detection>)
    ensures ClassifyAll(a + b) == ClassifyAll(a) + ClassifyAll(b)
  {
    assert forall k :: 0 <= k < |a| ==> (a + b)[k] == a[k];
    assert forall k :: 0 <= k < |b| ==> (a + b)[|a| + k] == b[k];
  }

  predicate IsBiodegradableResult(r: ClassificationResult) {
    r.isBiodegradable
  }

  /** `classifiedResults.filter(r => r.isBiodegradable).length`. */
  function BiodegradableCount(rs: seq<ClassificationResult>): (n: nat)
    ensures n <= |rs|
    ensures n == 0 <==> forall k :: 0 <= k < |rs| ==> !rs[k].isBiodegradable
  {
    FilterEmpty(rs, IsBiodegradableResult);
    |Filter(rs, IsBiodegradableResult)|
  }

  /** `classifiedResults.length - biodegradableCount`: never negative, and it
      is the number of non-biodegradable results. */
  function NonBiodegradableCount(rs: seq<ClassificationResult>): (n: int)
    ensures n >= 0
    ensures n == |Filter(rs, Not(IsBiodegradableResult))|
    ensures BiodegradableCount(rs) + n == |rs|
  {
    FilterPartition(rs, IsBiodegradableResult);
    |rs| - BiodegradableCount(rs)
  }
}
