/**
 * The irrigation decision of the prediction demo (`gen_recommendation`):
 * a first-match chain of thresholds on the predicted next-day moisture.
 * The result is returned instead of printed.
 */
module Irrigation {

  datatype Status = Critical | Warning | High | Optimal

  /** The status as printed, with its coloured marker. */
  function StatusLabel(s: Status): string
  {
    match s
    case Critical => "\U{1F534} CRITICAL"
    case Warning => "\U{1F7E1} WARNING"
    case High => "\U{1F535} HIGH"
    case Optimal => "\U{1F7E2} OPTIMAL"
  }

  datatype Recommendation = Recommendation(status: Status, action: string, details: string, reason: string)

  /** Cut points of the chain, in percent moisture. */
  const CriticalBelow: real := 30.0
  const WarningBelow: real := 40.0
  const HighAbove: real := 70.0

  const IrrigateNow: string := "IMMEDIATE IRRIGATION REQUIRED"
  const MonitorClosely: string := "MONITOR CLOSELY - IRRIGATION MAY BE NEEDED"
  const NoIrrigation: string := "NO IRRIGATION NEEDED"

  /** The details line of each branch. */
  const IrrigationSchedule: string := "irrigate 12-15 L/acre tomorrow morning (6-8 AM)"
  const PrepareSchedule: string := "Prepare for irrigation in 24-48 hours"
  const MoistureAdequate: string := "Soil moisture is adequate. Save water and costs."
  const MoistureInRange: string := "Soil moisture is in optimal range"

  /** The reason line of each branch; note that HIGH reads "optimal" and OPTIMAL reads "healthy". */
  const BelowCritical: string := "Moisture predicted to drop below critical threshold"
  const ApproachingLow: string := "Moisture approaching low levels"
  const LevelsOptimal: string := "Moisture levels are optimal"
  const LevelsHealthy: string := "Moisture levels are healthy"

  /** The moisture band of each status, stated as disjoint intervals. */
  predicate InBand(s: Status, p: real)
  {
    match s
    case Critical => p < CriticalBelow
    case Warning => CriticalBelow <= p < WarningBelow
    case Optimal => WarningBelow <= p <= HighAbove
    case High => HighAbove < p
  }

  /** Position of a status on the moisture scale, driest first. */
  function Rank(s: Status): nat
  {
    match s
    case Critical => 0
    case Warning => 1
    case Optimal => 2
    case High => 3
  }

  /**
   * The recommendation for a predicted next-day moisture. The current
   * moisture and temperature are only printed by `gen_recommendation`.
   * Each printed line (status, action, details, reason) singles out the band
   * of the prediction; the action alone does not separate HIGH from OPTIMAL.
   */
  function GenRecommendation(currentMoisture: real, predictedMoisture: real, temp: real): (r: Recommendation)
    ensures InBand(r.status, predictedMoisture)
    ensures r.status == Critical <==> predictedMoisture < CriticalBelow
    ensures r.status == Warning <==> CriticalBelow <= predictedMoisture < WarningBelow
    ensures r.status == Optimal <==> WarningBelow <= predictedMoisture <= HighAbove
    ensures r.status == High <==> HighAbove < predictedMoisture
    ensures StatusLabel(r.status) == "\U{1F534} CRITICAL" <==> predictedMoisture < CriticalBelow
    ensures StatusLabel(r.status) == "\U{1F7E1} WARNING" <==> CriticalBelow <= predictedMoisture < WarningBelow
    ensures StatusLabel(r.status) == "\U{1F7E2} OPTIMAL" <==> WarningBelow <= predictedMoisture <= HighAbove
    ensures StatusLabel(r.status) == "\U{1F535} HIGH" <==> HighAbove < predictedMoisture
    ensures r.action == IrrigateNow <==> r.status == Critical
    ensures r.action == MonitorClosely <==> r.status == Warning
    ensures r.action == NoIrrigation <==> r.status == High || r.status == Optimal
    ensures r.details == IrrigationSchedule <==> predictedMoisture < CriticalBelow
    ensures r.details == PrepareSchedule <==> CriticalBelow <= predictedMoisture < WarningBelow
    ensures r.details == MoistureInRange <==> WarningBelow <= predictedMoisture <= HighAbove
    ensures r.details == MoistureAdequate <==> HighAbove < predictedMoisture
    ensures r.reason == BelowCritical <==> predictedMoisture < CriticalBelow
    ensures r.reason == ApproachingLow <==> CriticalBelow <= predictedMoisture < WarningBelow
    ensures r.reason == LevelsHealthy <==> WarningBelow <= predictedMoisture <= HighAbove
    ensures r.reason == LevelsOptimal <==> HighAbove < predictedMoisture
  {
    if predictedMoisture < CriticalBelow then
      Recommendation(Critical, IrrigateNow, IrrigationSchedule, BelowCritical)
    else if predictedMoisture < WarningBelow then
      Recommendation(Warning, MonitorClosely, PrepareSchedule, ApproachingLow)
    else if predictedMoisture > HighAbove then
      Recommendation(High, NoIrrigation, MoistureAdequate, LevelsOptimal)
    else
      Recommendation(Optimal, NoIrrigation, MoistureInRange, LevelsHealthy)
  }

  /** The bands partition the reals: every prediction lies in exactly one. */
  lemma BandsPartition(p: real)
    ensures exists s: Status :: InBand(s, p)
    ensures forall s1: Status, s2: Status :: InBand(s1, p) && InBand(s2, p) ==> s1 == s2
  {
    var r := GenRecommendation(0.0, p, 0.0);
    assert InBand(r.status, p);
  }

  /** Only the prediction matters: the other two arguments change nothing. */
  lemma OnlyPredictionMatters(c1: real, c2: real, p: real, t1: real, t2: real)
    ensures GenRecommendation(c1, p, t1) == GenRecommendation(c2, p, t2)
  {
  }

  /** A wetter prediction never gets a drier status. */
  lemma StatusMonotone(c: real, p: real, q: real, t: real)
    requires p <= q
    ensures Rank(GenRecommendation(c, p, t).status) <= Rank(GenRecommendation(c, q, t).status)
  {
  }

  /** The boundary values: 30 and 39.9 warn, 40 and 70 are optimal, 70.1 is high. */
  lemma BoundaryValues(c: real, t: real)
    ensures GenRecommendation(c, 29.9, t).status == Critical
    ensures GenRecommendation(c, 30.0, t).status == Warning
    ensures GenRecommendation(c, 39.9, t).status == Warning
    ensures GenRecommendation(c, 40.0, t).status == Optimal
    ensures GenRecommendation(c, 70.0, t).status == Optimal
    ensures GenRecommendation(c, 70.1, t).status == High
  {
  }
}
