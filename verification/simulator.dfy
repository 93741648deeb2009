/**
 * The synthetic sensor-series generator (`gen_synthetic_sensor_data`).
 *
 * The seeded global random generator is modelled as the stream of
 * standard-normal values it yields: `draws(k)` is the k-th value drawn after
 * seeding, and `normal(loc, scale)` is `loc + scale * draws(k)`.
 * `gen_synthetic_sensor_data` draws in four passes over the n samples (moisture, then temperature, then
 * humidity, then pH), so pass p at sample i consumes draw `p * n + i`.
 * The diurnal factor `sin(2 * pi * (hour - 6) / 24)` of sample i is the
 * input `cycle(i)`; it depends on the wall-clock timestamps, which are not
 * modelled.
 */
module Simulator {
  import opened Numerics
  import opened Sensor

  /** The standard-normal values of the seeded generator, in draw order. */
  type Draws = nat -> real

  /** The diurnal factor of each sample. */
  type Cycle = nat -> real

  /** Number of samples for `days` days at frequency `freq`. */
  function Periods(days: nat, freq: string): (n: nat)
    ensures freq == "15min" ==> n == days * 96
    ensures freq != "15min" ==> n == days * 24
  {
    if freq == "h" then days * 24
    else if freq == "15min" then days * 24 * 4
    else days * 24
  }

  /** The four passes over the samples, in the order `gen_synthetic_sensor_data` draws noise. */
  const MoisturePass: nat := 0
  const TempPass: nat := 1
  const HumidityPass: nat := 2
  const PHPass: nat := 3

  /** Position in the draw stream of the noise of sample i in pass p. */
  function DrawIndex(p: nat, n: nat, i: nat): nat
  {
    p * n + i
  }

  /** Moisture before clamping: base + daily cycle + drying drift + noise. */
  function RawMoisture(i: nat, n: nat, cycle: Cycle, draws: Draws): real
  {
    45.0 + 10.0 * cycle(i) + (-0.02 * (i as real)) + 3.0 * draws(DrawIndex(MoisturePass, n, i))
  }

  /** Temperature before clamping: daily cycle + noise. */
  function RawTemp(i: nat, n: nat, cycle: Cycle, draws: Draws): real
  {
    25.0 + 8.0 * cycle(i) + 2.0 * draws(DrawIndex(TempPass, n, i))
  }

  /** Humidity before clamping, inversely coupled to the temperature t. */
  function RawHumidity(t: real, noise: real): real
  {
    60.0 + (-0.5 * (t - 25.0)) + noise
  }

  /** The humidity noise of sample i: normal(0, 5). */
  function HumidityNoise(i: nat, n: nat, draws: Draws): real
  {
    5.0 * draws(DrawIndex(HumidityPass, n, i))
  }

  /** pH before clipping: normal(6.5, 0.3). */
  function RawPH(i: nat, n: nat, draws: Draws): real
  {
    6.5 + 0.3 * draws(DrawIndex(PHPass, n, i))
  }

  /** The moisture list built by the first pass. */
  function MoistureColumn(n: nat, cycle: Cycle, draws: Draws): (c: seq<real>)
    ensures |c| == n
    ensures forall i :: 0 <= i < n ==> MoistureMin <= c[i] <= MoistureMax
    ensures forall i :: 0 <= i < n && MoistureMin <= RawMoisture(i, n, cycle, draws) <= MoistureMax ==>
      c[i] == RawMoisture(i, n, cycle, draws)
    ensures forall i :: 0 <= i < n && RawMoisture(i, n, cycle, draws) < MoistureMin ==> c[i] == MoistureMin
    ensures forall i :: 0 <= i < n && RawMoisture(i, n, cycle, draws) > MoistureMax ==> c[i] == MoistureMax
  {
    seq(n, i requires 0 <= i < n => Clamp(MoistureMin, MoistureMax, RawMoisture(i, n, cycle, draws)))
  }

  /** The temperature list built by the second pass. */
  function TempColumn(n: nat, cycle: Cycle, draws: Draws): (c: seq<real>)
    ensures |c| == n
    ensures forall i :: 0 <= i < n ==> TempMin <= c[i] <= TempMax
    ensures forall i :: 0 <= i < n && TempMin <= RawTemp(i, n, cycle, draws) <= TempMax ==>
      c[i] == RawTemp(i, n, cycle, draws)
    ensures forall i :: 0 <= i < n && RawTemp(i, n, cycle, draws) < TempMin ==> c[i] == TempMin
    ensures forall i :: 0 <= i < n && RawTemp(i, n, cycle, draws) > TempMax ==> c[i] == TempMax
  {
    seq(n, i requires 0 <= i < n => Clamp(TempMin, TempMax, RawTemp(i, n, cycle, draws)))
  }

  /**
   * The humidity list built by the third pass. It reads the temperature list
   * of the second pass, whose values are already clamped (not yet rounded).
   */
  function HumidityColumn(temp: seq<real>, draws: Draws): (c: seq<real>)
    ensures |c| == |temp|
    ensures forall i :: 0 <= i < |temp| ==> HumidityMin <= c[i] <= HumidityMax
    ensures forall i :: 0 <= i < |temp| && HumidityMin <= RawHumidity(temp[i], HumidityNoise(i, |temp|, draws)) <= HumidityMax ==>
      c[i] == RawHumidity(temp[i], HumidityNoise(i, |temp|, draws))
    ensures forall i :: 0 <= i < |temp| && RawHumidity(temp[i], HumidityNoise(i, |temp|, draws)) < HumidityMin ==>
      c[i] == HumidityMin
    ensures forall i :: 0 <= i < |temp| && RawHumidity(temp[i], HumidityNoise(i, |temp|, draws)) > HumidityMax ==>
      c[i] == HumidityMax
  {
    seq(|temp|, i requires 0 <= i < |temp| =>
      Clamp(HumidityMin, HumidityMax, RawHumidity(temp[i], HumidityNoise(i, |temp|, draws))))
  }

  /** The pH array of the fourth draw, clipped to [5.0, 8.0]. */
  function PHColumn(n: nat, draws: Draws): (c: seq<real>)
    ensures |c| == n
    ensures forall i :: 0 <= i < n ==> PHMin <= c[i] <= PHMax
    ensures forall i :: 0 <= i < n && PHMin <= RawPH(i, n, draws) <= PHMax ==> c[i] == RawPH(i, n, draws)
    ensures forall i :: 0 <= i < n && RawPH(i, n, draws) < PHMin ==> c[i] == PHMin
    ensures forall i :: 0 <= i < n && RawPH(i, n, draws) > PHMax ==> c[i] == PHMax
  {
    seq(n, i requires 0 <= i < n => Clamp(PHMin, PHMax, RawPH(i, n, draws)))
  }

  /** A reading whose fields are in bounds stays in bounds once rounded for the table. */
  lemma RoundedReadingInRange(m: real, t: real, h: real, p: real)
    requires MoistureMin <= m <= MoistureMax && TempMin <= t <= TempMax
    requires HumidityMin <= h <= HumidityMax && PHMin <= p <= PHMax
    ensures InRange(Reading(Round1(m), Round1(t), Round1(h), Round2(p)))
  {
    Round1KeepsBounds(m, MoistureMin, MoistureMax);
    Round1KeepsBounds(t, TempMin, TempMax);
    Round1KeepsBounds(h, HumidityMin, HumidityMax);
    Round2KeepsBounds(p, PHMin, PHMax);
  }

  /**
   * The generated table: the four lists, clamped, then rounded to one
   * decimal (two for pH) once the table is assembled.
   */
  function GenSyntheticSensorData(days: nat, freq: string, cycle: Cycle, draws: Draws): (s: seq<Reading>)
    ensures |s| == Periods(days, freq)
    ensures forall i :: 0 <= i < |s| ==> InRange(s[i])
    ensures forall i :: 0 <= i < |s| ==>
      OnTenths(s[i].moisture) && OnTenths(s[i].temp) && OnTenths(s[i].humidity) && OnHundredths(s[i].pH)
    ensures forall i :: 0 <= i < |s| ==>
      var m := MoistureColumn(|s|, cycle, draws)[i];
      -0.05 <= s[i].moisture - m <= 0.05
    ensures forall i :: 0 <= i < |s| ==>
      var t := TempColumn(|s|, cycle, draws)[i];
      -0.05 <= s[i].temp - t <= 0.05
    ensures forall i :: 0 <= i < |s| ==>
      var h := HumidityColumn(TempColumn(|s|, cycle, draws), draws)[i];
      -0.05 <= s[i].humidity - h <= 0.05
    ensures forall i :: 0 <= i < |s| ==>
      var p := PHColumn(|s|, draws)[i];
      -0.005 <= s[i].pH - p <= 0.005
  {
    var n := Periods(days, freq);
    var moisture := MoistureColumn(n, cycle, draws);
    var temp := TempColumn(n, cycle, draws);
    var humidity := HumidityColumn(temp, draws);
    var pH := PHColumn(n, draws);
    var s := seq(n, i requires 0 <= i < n =>
      Reading(Round1(moisture[i]), Round1(temp[i]), Round1(humidity[i]), Round2(pH[i])));
    assert forall i :: 0 <= i < n ==> InRange(s[i]) by {
      forall i | 0 <= i < n
        ensures InRange(s[i])
      {
        RoundedReadingInRange(moisture[i], temp[i], humidity[i], pH[i]);
      }
    }
    s
  }

  /**
   * Each noise value is consumed once: two (pass, sample) pairs of the four
   * passes over n samples never share a draw, and a later pass only uses
   * later draws.
   */
  lemma DrawsAreSequential(n: nat, p: nat, i: nat, q: nat, j: nat)
    requires p < q <= PHPass && i < n && j < n
    ensures DrawIndex(p, n, i) < DrawIndex(q, n, j)
  {
  }

  /**
   * Humidity reads the clamped temperature: a sample whose raw temperature
   * overshoots 40 gets the humidity of a 40-degree sample.
   */
  lemma HumidityUsesClampedTemp(n: nat, cycle: Cycle, draws: Draws, i: nat)
    requires i < n
    ensures var h := HumidityColumn(TempColumn(n, cycle, draws), draws)[i];
      var z := HumidityNoise(i, n, draws);
      && (RawTemp(i, n, cycle, draws) > TempMax ==> h == Clamp(HumidityMin, HumidityMax, RawHumidity(TempMax, z)))
      && (RawTemp(i, n, cycle, draws) < TempMin ==> h == Clamp(HumidityMin, HumidityMax, RawHumidity(TempMin, z)))
  {
  }
}
