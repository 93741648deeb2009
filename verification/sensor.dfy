/**
 * One row of the sensor table written by the simulator and read back by the
 * trainer (`soil_moisture`, `temp_c`, `humidity`, `soil_pH`). The `timestamp`
 * column is not modelled: a series is a sequence already in time order.
 */
module Sensor {

  datatype Reading = Reading(moisture: real, temp: real, humidity: real, pH: real)

  /** The four numeric columns of the sensor table. */
  datatype Field = SoilMoisture | TempC | Humidity | SoilPH

  const MoistureMin: real := 15.0
  const MoistureMax: real := 85.0
  const TempMin: real := 15.0
  const TempMax: real := 40.0
  const HumidityMin: real := 20.0
  const HumidityMax: real := 95.0
  const PHMin: real := 5.0
  const PHMax: real := 8.0

  function Get(r: Reading, f: Field): real
  {
    match f
    case SoilMoisture => r.moisture
    case TempC => r.temp
    case Humidity => r.humidity
    case SoilPH => r.pH
  }

  /** Lower and upper bound of a field in a simulated reading. */
  function Lower(f: Field): real
  {
    match f
    case SoilMoisture => MoistureMin
    case TempC => TempMin
    case Humidity => HumidityMin
    case SoilPH => PHMin
  }

  function Upper(f: Field): real
  {
    match f
    case SoilMoisture => MoistureMax
    case TempC => TempMax
    case Humidity => HumidityMax
    case SoilPH => PHMax
  }

  /** Every field of the reading lies within its realistic bounds. */
  predicate InRange(r: Reading)
  {
    forall f: Field :: Lower(f) <= Get(r, f) <= Upper(f)
  }

  /** One column of a series, in row order. */
  function Column(s: seq<Reading>, f: Field): seq<real>
  {
    seq(|s|, i requires 0 <= i < |s| => Get(s[i], f))
  }
}
