/** Worked examples of the verdict on concrete labels. */
module Scenarios {
  import opened Strings
  import opened Seqs
  import opened Classification

  lemma AppleIsBiodegradable(l: string)
    requires l == "apple"
    ensures IsBiodegradable(l)
  {
    LowerKeepsLowercase(l);
    assert MatchesTerm(l, "apple");
    SomeTermMatchesMember(Vocabulary, l);
  }

  /** Case does not matter: "Banana Peel" lower-cases to a string that
      starts with the term "banana". */
  lemma BananaPeelIsBiodegradable(l: string)
    requires l == "Banana Peel"
    ensures IsBiodegradable(l)
  {
    assert StartsWith(Lower(l), "banana") by {
      LowerAt(l);
      assert Lower(l)[..6] == "banana";
    }
    assert MatchesTerm(Lower(l), "banana");
    SomeTermMatchesMember(Vocabulary, Lower(l));
  }

  /** Neither of two strings is a substring of the other. */
  ghost predicate Apart(l: string, t: string) {
    !IsSubstring(t, l) && !IsSubstring(l, t)
  }

  /** For each vocabulary term, in order: a letter of the term that
      "bottle" lacks, and a letter of "bottle" that the term lacks (used
      only when the term is not shorter than "bottle"). */
  const BottleWitnesses: seq<(char, char)> := [
    ('a', 'b'), ('a', 'o'), ('r', 'b'), ('c', 'b'), ('r', 't'), ('u', 'b'),
    ('m', 'b'), ('f', 'b'), ('f', 'b'), ('v', 'o'), ('r', 'o'), ('p', 'b'),
    ('c', 't'), ('w', 'b'), ('a', 'b'), ('f', 'b'), ('p', 'b'), ('r', 'b')
  ]

  /** The letters `w` show that `l` and `t` are unrelated. */
  predicate SeparatedBy(l: string, t: string, w: (char, char)) {
    w.0 in t && w.0 !in l && (|t| < |l| || (w.1 in l && w.1 !in t))
  }

  lemma BottleWitnessesSeparate(l: string)
    requires l == "bottle"
    ensures forall i :: 0 <= i < |Vocabulary| ==> SeparatedBy(l, Vocabulary[i], BottleWitnesses[i])
  {
  }

  /** Every vocabulary term is unrelated to "bottle". */
  lemma BottleApartFromTerms(l: string)
    requires l == "bottle"
    ensures forall t :: t in Vocabulary ==> Apart(l, t)
  {
    BottleWitnessesSeparate(l);
    forall t | t in Vocabulary
      ensures Apart(l, t)
    {
      var i :| 0 <= i < |Vocabulary| && Vocabulary[i] == t;
      var (c, d) := BottleWitnesses[i];
      Unrelated(l, t, c, d);
    }
  }

  /** "bottle" is related to no vocabulary term, so it is not
      biodegradable. */
  lemma BottleIsNotBiodegradable(l: string)
    requires l == "bottle"
    ensures !IsBiodegradable(l)
  {
    assert Lower(l) == l by { LowerKeepsLowercase(l); }
    BottleApartFromTerms(l);
    NotBiodegradableWhenUnrelated(l);
  }

  /** The detector reports an apple and a bottle: the apple is biodegradable
      and the bottle is not, the boxes become position and size, and the
      counts are one and one. */
  lemma AppleAndBottleDetections(a: string, b: string)
    requires a == "apple" && b == "bottle"
    ensures var rs := ClassifyAll([Detection(a, 0.92, Box(10.0, 15.0, 40.0, 50.0)),
                                   Detection(b, 0.88, Box(45.0, 20.0, 70.0, 60.0))]);
      |rs| == 2 &&
      rs[0] == ClassificationResult(10.0, 15.0, 30.0, 35.0, 0.92, a, true) &&
      rs[1] == ClassificationResult(45.0, 20.0, 25.0, 40.0, 0.88, b, false) &&
      BiodegradableCount(rs) == 1 && NonBiodegradableCount(rs) == 1
  {
    var ds := [Detection(a, 0.92, Box(10.0, 15.0, 40.0, 50.0)),
               Detection(b, 0.88, Box(45.0, 20.0, 70.0, 60.0))];
    var rs := ClassifyAll(ds);
    AppleIsBiodegradable(a);
    BottleIsNotBiodegradable(b);
    assert rs[0] == Classify(ds[0]) && rs[1] == Classify(ds[1]);
    assert rs == [rs[0]] + [rs[1]];
    FilterConcat([rs[0]], [rs[1]], IsBiodegradableResult);
    assert [rs[0]][1..] == [] && [rs[1]][1..] == [];
  }
}
