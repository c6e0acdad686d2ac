/**
 * `GPSQualityIndicator`: the signal colour band of the current accuracy and
 * the status text beside it.
 */
module GpsQuality {
  import opened Wrappers
  import opened Geo
  import opened LocationTracking

  /** The bands of `getQualityColor`, best first. */
  datatype Band = NoSignal | Excellent | VeryGood | Good | Moderate | Poor

  /**
   * The status text: `Searching...`, or `±<yards> yards` for half the
   * accuracy in yards (the rounded number is not modelled).
   */
  datatype StatusText = Searching | PlusMinusYards(accuracy: real)

  /** The band of an accuracy: inclusive upper bounds 3, 5, 10 and 20 metres. */
  function BandOf(accuracy: Option<real>): (b: Band)
    ensures b == NoSignal <==> accuracy.None?
    ensures b == Excellent <==> accuracy.Some? && accuracy.value <= 3.0
    ensures b == VeryGood <==> accuracy.Some? && 3.0 < accuracy.value <= 5.0
    ensures b == Good <==> accuracy.Some? && 5.0 < accuracy.value <= 10.0
    ensures b == Moderate <==> accuracy.Some? && 10.0 < accuracy.value <= 20.0
    ensures b == Poor <==> accuracy.Some? && 20.0 < accuracy.value
  {
    match accuracy
    case None => NoSignal
    case Some(a) =>
      if a <= 3.0 then Excellent
      else if a <= 5.0 then VeryGood
      else if a <= 10.0 then Good
      else if a <= 20.0 then Moderate
      else Poor
  }

  /** The colour of each band. */
  function ColorOf(b: Band): string
  {
    match b
    case NoSignal => "#666666"
    case Excellent => "#4CAF50"
    case VeryGood => "#8BC34A"
    case Good => "#FFC107"
    case Moderate => "#FF9800"
    case Poor => "#F44336"
  }

  /** `getQualityColor`: the colour shown for an accuracy, one per band. */
  function QualityColor(accuracy: Option<real>): (c: string)
    ensures c == "#666666" <==> accuracy.None?
    ensures c == "#4CAF50" <==> accuracy.Some? && accuracy.value <= 3.0
    ensures c == "#8BC34A" <==> accuracy.Some? && 3.0 < accuracy.value <= 5.0
    ensures c == "#FFC107" <==> accuracy.Some? && 5.0 < accuracy.value <= 10.0
    ensures c == "#FF9800" <==> accuracy.Some? && 10.0 < accuracy.value <= 20.0
    ensures c == "#F44336" <==> accuracy.Some? && 20.0 < accuracy.value
  {
    ColorOf(BandOf(accuracy))
  }

  /** The position of a measured band, 0 for the best. */
  function Rank(b: Band): nat
  {
    match b
    case NoSignal => 5
    case Excellent => 0
    case VeryGood => 1
    case Good => 2
    case Moderate => 3
    case Poor => 4
  }

  /** The status text shown beside the dot. */
  function Status(accuracy: Option<real>): (t: StatusText)
    ensures t == Searching <==> accuracy.None?
    ensures accuracy.Some? ==> t == PlusMinusYards(accuracy.value)
  {
    match accuracy
    case None => Searching
    case Some(a) => PlusMinusYards(a)
  }

  /** Every band has its own colour, so the colour tells the band. */
  lemma ColorsDistinct(a: Band, b: Band)
    ensures ColorOf(a) == ColorOf(b) ==> a == b
  {
  }

  /** A larger accuracy never gets a better band. */
  lemma BandMonotone(a: real, b: real)
    requires a <= b
    ensures Rank(BandOf(Some(a))) <= Rank(BandOf(Some(b)))
  {
  }

  /** The accuracy the screen passes to the indicator: that of the best reading, if any. */
  function IndicatorAccuracy(best: Option<UserLocation>): (a: Option<real>)
    ensures a.None? <==> best.None?
    ensures best.Some? ==> a == Some(best.value.accuracy)
  {
    match best
    case None => None
    case Some(l) => Some(l.accuracy)
  }

  /**
   * Fed by the location arbiter, the indicator never shows a worse band
   * later, and leaves `Searching...` for good after the first reading.
   */
  lemma IndicatorNeverWorsens(samples: seq<Sample>, i: nat, j: nat)
    requires 0 < i <= j <= |samples|
    ensures Status(IndicatorAccuracy(Run(None, samples[..i]))) != Searching
    ensures Rank(BandOf(IndicatorAccuracy(Run(None, samples[..j]))))
            <= Rank(BandOf(IndicatorAccuracy(Run(None, samples[..i]))))
  {
    RunMonotone(None, samples[..i]);
    RunPrefixMonotone(None, samples, i, j);
    BandMonotone(Run(None, samples[..j]).value.accuracy, Run(None, samples[..i]).value.accuracy);
  }
}
