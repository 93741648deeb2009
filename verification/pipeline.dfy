/**
 * The simulator feeding the feature builder: what the table written by the
 * generator turns into once the trainer engineers its features.
 */
module Pipeline {
  import opened Sensor
  import opened Simulator
  import opened Features

  /**
   * Thirty days of hourly readings (the generator's default run) give 720
   * readings and 672 training rows, whatever the noise.
   */
  lemma MonthOfHourlyReadings(cycle: Cycle, draws: Draws)
    ensures |GenSyntheticSensorData(30, "h", cycle, draws)| == 720
    ensures |CreateLagFeatures(GenSyntheticSensorData(30, "h", cycle, draws))| == 672
  {
  }

  /** Any simulated series yields max(n - 48, 0) training rows for its n readings. */
  lemma SimulatedRowCount(days: nat, freq: string, cycle: Cycle, draws: Draws)
    ensures |CreateLagFeatures(GenSyntheticSensorData(days, freq, cycle, draws))| ==
      KeptCount(Periods(days, freq))
  {
  }

  /** Every training row built from simulated readings has in-range features and target. */
  lemma SimulatedFeaturesInRange(days: nat, freq: string, cycle: Cycle, draws: Draws)
    ensures forall k :: 0 <= k < |CreateLagFeatures(GenSyntheticSensorData(days, freq, cycle, draws))| ==>
      var row := CreateLagFeatures(GenSyntheticSensorData(days, freq, cycle, draws))[k];
      && MoistureMin <= row.moistureLag <= MoistureMax
      && TempMin <= row.tempLag <= TempMax
      && HumidityMin <= row.humidityLag <= HumidityMax
      && MoistureMin <= row.moistureRoll <= MoistureMax
      && TempMin <= row.tempRoll <= TempMax
      && PHMin <= row.reading.pH <= PHMax
      && MoistureMin <= row.target <= MoistureMax
  {
    FeatureRowsInRange(GenSyntheticSensorData(days, freq, cycle, draws));
  }
}
