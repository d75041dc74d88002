/**
 * The slices of decoded telemetry that the derived-metric engine reads.
 * Decoding of the UDP wire format is outside this model; each record holds
 * only the fields the engine uses.
 */
module Telemetry {
  import opened Numeric

  /** Per-car lap data. */
  datatype LapData = LapData(
    carPosition: Byte,
    currentLapNum: Byte,
    lapDistance: real,
    totalDistance: real,
    numPitStops: Byte,
    penalties: Byte,
    pitStatus: Byte,
    driverStatus: Byte,
    deltaToRaceLeaderInMS: nat)

  /** Per-car damage: the wear of the four tyres, in the protocol's order RL, RR, FL, FR. */
  datatype CarDamage = CarDamage(wearRL: real, wearRR: real, wearFL: real, wearFR: real)
  {
    /** `m_tyresWear.Max()`. */
    function MaxWear(): (r: real)
      ensures r >= wearRL && r >= wearRR && r >= wearFL && r >= wearFR
      ensures r == wearRL || r == wearRR || r == wearFL || r == wearFR
    {
      var a := if wearRL >= wearRR then wearRL else wearRR;
      var b := if wearFL >= wearFR then wearFL else wearFR;
      if a >= b then a else b
    }
  }

  /** Per-car status. */
  datatype CarStatus = CarStatus(fuelInTank: real, visualTyreCompound: Byte)

  /** Session-wide data. */
  datatype SessionData = SessionData(
    trackLength: int,
    totalLaps: Byte,
    sessionType: Byte,
    sessionTimeLeft: int,
    pitStopWindowIdealLap: Byte,
    pitStopWindowLatestLap: Byte)

  /** The sparse tyre-set packet of one car: its index and the index of the fitted set. */
  datatype TyreSetsPacket = TyreSetsPacket(carIdx: Byte, fittedIdx: Byte)

  /** The sparse lap-history packet of one car: lap times in ms (one slot per lap, 0 = not set) and the best lap's number. */
  datatype SessionHistoryPacket = SessionHistoryPacket(carIdx: Byte, bestLapTimeLapNum: Byte, lapTimesInMS: seq<nat>)

  /** The number of tyre-set slots in a tyre-set packet; the fitted index selects one of them. */
  const TYRE_SET_SLOTS: nat := 20

  /** The number of lap slots in a lap-history packet. */
  const LAP_HISTORY_SLOTS: nat := 100

  /** The zero values a C# struct field holds before its first packet arrives. */
  const NoLapData := LapData(0, 0, 0.0, 0.0, 0, 0, 0, 0, 0)
  const NoCarDamage := CarDamage(0.0, 0.0, 0.0, 0.0)
  const NoCarStatus := CarStatus(0.0, 0)
  const NoSessionData := SessionData(0, 0, 0, 0, 0, 0)

  /**
   * What a TyreSet or a Fuel reads live through its back-reference to the
   * participant: the participant's lap number, odometer, fuel and worst tyre wear.
   */
  datatype CarReadings = CarReadings(
    currentLapNumber: Byte,
    totalDistance: real,
    lapDistance: real,
    fuelInTank: real,
    maxTyreWear: real)
}
