/** The aspect-ratio classifier of the application component: it snaps an image's
    width/height ratio to the nearest of five ratios the image service supports. */
module AspectRatio {

  import opened Wrappers

  /** A supported ratio: the key sent to the service and its numeric value. */
  datatype Ratio = Ratio(key: string, value: real)

  /** The supported ratios in the order the classifier visits them. The values are
      the source's literals, so "4:3" is 1.33 and "16:9" is 1.7778, not 4/3 and 16/9. */
  const SupportedRatios: seq<Ratio> := [
    Ratio("1:1", 1.0),
    Ratio("3:4", 0.75),
    Ratio("4:3", 1.33),
    Ratio("9:16", 0.5625),
    Ratio("16:9", 1.7778)
  ]

  predicate IsSupportedKey(k: string) {
    k == "1:1" || k == "3:4" || k == "4:3" || k == "9:16" || k == "16:9"
  }

  function Abs(x: real): real {
    if x < 0.0 then -x else x
  }

  /** Distance between an image ratio and the i-th supported ratio. */
  function Diff(ratio: real, i: nat): real
    requires i < |SupportedRatios|
  {
    Abs(ratio - SupportedRatios[i].value)
  }

  /** i is the earliest of the first n supported ratios whose distance to `ratio` is least. */
  ghost predicate IsFirstClosest(ratio: real, n: nat, i: nat)
    requires n <= |SupportedRatios|
  {
    i < n
    && (forall j :: 0 <= j < n ==> Diff(ratio, i) <= Diff(ratio, j))
    && (forall j :: 0 <= j < i ==> Diff(ratio, i) < Diff(ratio, j))
  }

  /** The index the classifier's loop holds after visiting the first n ratios: a later
      entry replaces the current best only when it is strictly closer. */
  function ClosestIndex(ratio: real, n: nat): (i: nat)
    requires 1 <= n <= |SupportedRatios|
    ensures i < n
  {
    if n == 1 then 0
    else
      var best := ClosestIndex(ratio, n - 1);
      if Diff(ratio, n - 1) < Diff(ratio, best) then n - 1 else best
  }

  /** The key the classifier returns for an image of the given pixel size. */
  function Classify(width: int, height: int): string
    requires width > 0 && height > 0
  {
    SupportedRatios[ClosestIndex(width as real / height as real, |SupportedRatios|)].key
  }

  /** The strict comparison makes the scan an argmin that keeps the earliest of tied entries. */
  lemma {:induction false} ClosestIndexIsFirstClosest(ratio: real, n: nat)
    requires 1 <= n <= |SupportedRatios|
    ensures IsFirstClosest(ratio, n, ClosestIndex(ratio, n))
  {
    if n > 1 {
      ClosestIndexIsFirstClosest(ratio, n - 1);
    }
  }

  /** At most one index is the earliest closest one. */
  lemma FirstClosestUnique(ratio: real, n: nat, i: nat, k: nat)
    requires n <= |SupportedRatios|
    requires IsFirstClosest(ratio, n, i) && IsFirstClosest(ratio, n, k)
    ensures i == k
  {
    assert Diff(ratio, i) == Diff(ratio, k);
  }

  /** Whatever index is the earliest nearest one, its key is what the classifier returns. */
  lemma ClassifyByNearest(width: int, height: int, i: nat)
    requires width > 0 && height > 0
    requires IsFirstClosest(width as real / height as real, |SupportedRatios|, i)
    ensures Classify(width, height) == SupportedRatios[i].key
  {
    var ratio := width as real / height as real;
    ClosestIndexIsFirstClosest(ratio, |SupportedRatios|);
    FirstClosestUnique(ratio, |SupportedRatios|, i, ClosestIndex(ratio, |SupportedRatios|));
  }

  /** The classifier returns one of the five keys, namely that of the earliest ratio
      nearest to width/height. */
  lemma ClassifyIsNearest(width: int, height: int)
    requires width > 0 && height > 0
    ensures IsSupportedKey(Classify(width, height))
    ensures exists i: nat :: IsFirstClosest(width as real / height as real, |SupportedRatios|, i)
                        && Classify(width, height) == SupportedRatios[i].key
  {
    var ratio := width as real / height as real;
    var i := ClosestIndex(ratio, |SupportedRatios|);
    ClosestIndexIsFirstClosest(ratio, |SupportedRatios|);
    assert IsFirstClosest(ratio, |SupportedRatios|, i);
  }

  /** The classifier as the source writes it: one pass over the ratios keeping the best so
      far. `minDiff == None` plays Number.MAX_VALUE, which every distance is below. */
  method DetermineClosestAspectRatio(width: int, height: int) returns (closest: string)
    requires width > 0 && height > 0
    ensures closest == Classify(width, height)
    ensures exists i: nat :: IsFirstClosest(width as real / height as real, |SupportedRatios|, i)
                        && closest == SupportedRatios[i].key
  {
    var ratio := width as real / height as real;
    closest := "1:1";
    var minDiff: Option<real> := None;
    ghost var best: nat := 0;
    for k := 0 to |SupportedRatios|
      invariant k == 0 ==> minDiff == None
      invariant k > 0 ==> best == ClosestIndex(ratio, k)
                          && minDiff == Some(Diff(ratio, best))
                          && closest == SupportedRatios[best].key
    {
      var diff := Abs(ratio - SupportedRatios[k].value);
      if minDiff == None || diff < minDiff.value {
        minDiff := Some(diff);
        closest := SupportedRatios[k].key;
        best := k;
      }
    }
    ClassifyIsNearest(width, height);
  }

  /** The worked examples: square, portrait and landscape photos, and two exact ties,
      where 7:8 sits midway between 1 and 0.75 and 21:32 midway between 0.75 and 0.5625. */
  lemma ClassifyExamples()
    ensures Classify(1000, 1000) == "1:1"
    ensures Classify(768, 1024) == "3:4"
    ensures Classify(1024, 768) == "4:3"
    ensures Classify(1080, 1920) == "9:16"
    ensures Classify(1920, 1080) == "16:9"
    ensures Classify(7, 8) == "1:1"
    ensures Classify(21, 32) == "3:4"
  {
    ClassifyByNearest(1000, 1000, 0);
    ClassifyByNearest(768, 1024, 1);
    ClassifyByNearest(1024, 768, 2);
    ClassifyByNearest(1080, 1920, 3);
    ClassifyByNearest(1920, 1080, 4);
    ClassifyByNearest(7, 8, 0);
    ClassifyByNearest(21, 32, 1);
  }
}
