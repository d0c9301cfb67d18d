/**
 * The match level a result card shows for a confidence percentage: 70 and
 * above is a high match, 50 and above a moderate one, anything else low.
 */
module Bands {

  datatype Band = Low | Medium | High {

    /** The CSS class of the badge and bar. */
    function Class(): string {
      match this
      case Low => "low"
      case Medium => "medium"
      case High => "high"
    }

    /** The text under the percentage. */
    function Label(): string {
      match this
      case Low => "Low Match"
      case Medium => "Moderate Match"
      case High => "High Match"
    }

    /** Position in the order low < medium < high. */
    function Rank(): nat {
      match this
      case Low => 0
      case Medium => 1
      case High => 2
    }
  }

  const HighThreshold: real := 70.0
  const MediumThreshold: real := 50.0

  /** The band chosen for a confidence: start at low, then test 70, then 50. */
  function BandOf(confidence: real): (b: Band)
    ensures b == High <==> confidence >= HighThreshold
    ensures b == Medium <==> MediumThreshold <= confidence < HighThreshold
    ensures b == Low <==> confidence < MediumThreshold
  {
    if confidence >= HighThreshold then High
    else if confidence >= MediumThreshold then Medium
    else Low
  }

  /** Raising the confidence never lowers the band. */
  lemma BandMonotone(c: real, d: real)
    requires c <= d
    ensures BandOf(c).Rank() <= BandOf(d).Rank()
  {
  }

  /** Class and label always name the same band. */
  lemma ClassAndLabelAgree(b: Band, e: Band)
    requires b.Class() == e.Class() || b.Label() == e.Label()
    ensures b == e
  {
  }
}
