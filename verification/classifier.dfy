/** The severity classifier: a reading and a pollutant key give a label. */
module Classifier {
  import opened Wrappers
  import opened Thresholds

  /** The six outcomes of the classifier; the last four are severity bands. */
  datatype Label = NoData | Unknown | Good | Moderate | Unhealthy | VeryUnhealthy {

    /** True for the four labels that place a reading in a band. */
    predicate IsBand() {
      Good? || Moderate? || Unhealthy? || VeryUnhealthy?
    }
  }

  /** The text the dashboard shows for a label. */
  function Text(l: Label): string {
    match l
    case NoData => "No Data"
    case Unknown => "Unknown"
    case Good => "Good"
    case Moderate => "Moderate"
    case Unhealthy => "Unhealthy"
    case VeryUnhealthy => "Very Unhealthy"
  }

  /** Reads a label back from its displayed text. */
  function Parse(s: string): (r: Option<Label>)
    ensures r.Some? ==> Text(r.value) == s
  {
    if s == "No Data" then Some(NoData)
    else if s == "Unknown" then Some(Unknown)
    else if s == "Good" then Some(Good)
    else if s == "Moderate" then Some(Moderate)
    else if s == "Unhealthy" then Some(Unhealthy)
    else if s == "Very Unhealthy" then Some(VeryUnhealthy)
    else None
  }

  /** Parsing the displayed text recovers the label. */
  lemma ParseText(l: Label)
    ensures Parse(Text(l)) == Some(l)
  {
  }

  /** Distinct labels are displayed as distinct strings, so the datatype
      loses nothing against the source's string results. */
  lemma TextInjective(a: Label, b: Label)
    ensures Text(a) == Text(b) ==> a == b
  {
    ParseText(a);
    ParseText(b);
  }

  /** Rank of a band label, from 0 (Good) to 3 (Very Unhealthy). */
  function Severity(l: Label): (n: nat)
    requires l.IsBand()
    ensures n <= 3
  {
    match l
    case Good => 0
    case Moderate => 1
    case Unhealthy => 2
    case VeryUnhealthy => 3
  }

  /** Reference definition of the band: how many thresholds the reading
      strictly exceeds. */
  function ThresholdsExceeded(v: real, t: Triple): (n: nat)
    ensures n <= 3
  {
    (if t.low < v then 1 else 0) + (if t.med < v then 1 else 0) + (if t.high < v then 1 else 0)
  }

  /** The band of a present reading under a triple, first band whose
      inclusive upper bound admits the reading. */
  function Band(v: real, t: Triple): (r: Label)
    ensures r.IsBand()
  {
    if v <= t.low then Good
    else if v <= t.med then Moderate
    else if v <= t.high then Unhealthy
    else VeryUnhealthy
  }

  /** Under an ordered triple the bands are the four half-open intervals
      (-inf, low], (low, med], (med, high] and (high, +inf). */
  lemma BandIntervals(v: real, t: Triple)
    requires Ordered(t)
    ensures Band(v, t) == Good <==> v <= t.low
    ensures Band(v, t) == Moderate <==> t.low < v <= t.med
    ensures Band(v, t) == Unhealthy <==> t.med < v <= t.high
    ensures Band(v, t) == VeryUnhealthy <==> t.high < v
  {
  }

  /** Under an ordered triple the band's rank is the number of thresholds
      the reading exceeds. */
  lemma BandCountsThresholds(v: real, t: Triple)
    requires Ordered(t)
    ensures Severity(Band(v, t)) == ThresholdsExceeded(v, t)
  {
  }

  /** The classifier of the dashboard. */
  function AirQualityStatus(value: Option<real>, pollutant: string): (r: Label)
    ensures value.None? <==> r == NoData
    ensures r == Unknown <==> value.Some? && pollutant !in Table
    ensures value.Some? && pollutant in Table ==>
      var t := Table[pollutant];
      && r.IsBand()
      && (r == Good <==> value.value <= t.low)
      && (r == Moderate <==> t.low < value.value <= t.med)
      && (r == Unhealthy <==> t.med < value.value <= t.high)
      && (r == VeryUnhealthy <==> t.high < value.value)
  {
    match value
    case None => NoData
    case Some(v) =>
      if pollutant !in Table then Unknown
      else
        TableOrdered();
        BandIntervals(v, Table[pollutant]);
        Band(v, Table[pollutant])
  }

  /** For a known pollutant, the rank of the label is the number of its
      thresholds the reading exceeds. */
  lemma StatusCountsThresholds(v: real, pollutant: string)
    requires pollutant in Table
    ensures AirQualityStatus(Some(v), pollutant).IsBand()
    ensures Severity(AirQualityStatus(Some(v), pollutant)) == ThresholdsExceeded(v, Table[pollutant])
  {
    TableOrdered();
    BandCountsThresholds(v, Table[pollutant]);
  }

  /** For a known pollutant a larger reading never gets a less severe label. */
  lemma StatusMonotone(pollutant: string, v: real, w: real)
    requires pollutant in Table
    requires v <= w
    ensures AirQualityStatus(Some(v), pollutant).IsBand()
    ensures AirQualityStatus(Some(w), pollutant).IsBand()
    ensures Severity(AirQualityStatus(Some(v), pollutant)) <= Severity(AirQualityStatus(Some(w), pollutant))
  {
    StatusCountsThresholds(v, pollutant);
    StatusCountsThresholds(w, pollutant);
  }

  /** The worked examples for carbon monoxide. */
  lemma CarbonMonoxideExamples()
    ensures AirQualityStatus(Some(3.0), "CO(GT)") == Good
    ensures AirQualityStatus(Some(4.5), "CO(GT)") == Good
    ensures AirQualityStatus(Some(7.0), "CO(GT)") == Moderate
    ensures AirQualityStatus(Some(12.5), "CO(GT)") == Unhealthy
    ensures AirQualityStatus(Some(20.0), "CO(GT)") == VeryUnhealthy
    ensures AirQualityStatus(None, "CO(GT)") == NoData
  {
  }
}
