/**
 * The fuel-stint model (F1_2023/Participant/Fuel.cs): the fuel level and
 * odometer captured when the car leaves the garage, the consumption of the
 * last lap captured at each lap edge, and the projections that need a known
 * track length.
 */
module Fuel {
  import opened Numeric
  import opened Telemetry

  /** The observable state of a Fuel object. */
  datatype FuelState = FuelState(
    odometerAtStart: real,
    fuelAtStart: real,
    fuelInTank: real,
    fuelConsumedLastLap: real,
    averageFuelConsumedPerLap: Float,
    fuelAtEndOfStint: Float,
    currentLapNumber: int,
    fuelAtStartOfLap: real)
  {
    /** Fuel used since the stint began. */
    function FuelConsumed(): real { fuelAtStart - fuelInTank }

    /** Distance driven since the stint began. */
    function StintOdometer(car: CarReadings): real { car.totalDistance - odometerAtStart }

    /** Fuel per unit of distance; not finite while the stint distance is zero. */
    function FuelPerDistance(car: CarReadings): Float
    {
      Quot(Finite(FuelConsumed()), Finite(StintOdometer(car)))
    }

    /** The fuel projected to be left at `distance`, extrapolating the stint's consumption rate. */
    function FuelRemainingAtDistance(distance: real, car: CarReadings): Float
    {
      Diff(Finite(fuelInTank), Prod(FuelPerDistance(car), Finite(distance - StintOdometer(car))))
    }
  }

  /** The zero-initialised fields of a fresh C# object. */
  const Blank := FuelState(0.0, 0.0, 0.0, 0.0, Finite(0.0), Finite(0.0), 0, 0.0)

  /** StartStint: the stint baseline is the odometer and fuel level read at this moment. */
  function Baseline(s: FuelState, car: CarReadings): FuelState
  {
    s.(odometerAtStart := car.totalDistance, fuelAtStart := car.fuelInTank)
  }

  /** Update: read the tank, difference the fuel at a lap edge, and refresh the projections when the track length is known. */
  function Step(s: FuelState, car: CarReadings, session: SessionData): FuelState
  {
    var t := s.(fuelInTank := car.fuelInTank);
    var u := if car.currentLapNumber != t.currentLapNumber
      then t.(currentLapNumber := car.currentLapNumber,
              fuelConsumedLastLap := t.fuelAtStartOfLap - t.fuelInTank,
              fuelAtStartOfLap := t.fuelInTank)
      else t;
    if session.trackLength == 0 then u
    else
      var average := Prod(u.FuelPerDistance(car), Finite(session.trackLength as real));
      var atDistance := u.FuelRemainingAtDistance((session.totalLaps * session.trackLength) as real, car);
      u.(averageFuelConsumedPerLap := average, fuelAtEndOfStint := Quot(atDistance, average))
  }

  /**
   * The end-of-stint division has a non-finite dividend whenever its divisor
   * is non-finite, since both come from the same consumption rate: a finite
   * amount over an infinite average, which IEEE would make 0, does not arise.
   */
  lemma EndOfStintOperands(s: FuelState, car: CarReadings, distance: real, trackLength: real)
    ensures Prod(s.FuelPerDistance(car), Finite(trackLength)).NonFinite? ==> s.FuelRemainingAtDistance(distance, car).NonFinite?
  {
  }

  /** The constructor: a baseline taken now, then one Update. */
  function Fresh(car: CarReadings, session: SessionData): FuelState
  {
    Step(Baseline(Blank, car), car, session)
  }

  //// properties of the fuel model ////

  /** Every Update leaves the tank reading current, so the stint consumption is the baseline minus the current reading. */
  lemma StepReadsTank(s: FuelState, car: CarReadings, session: SessionData)
    ensures var r := Step(s, car, session);
      r.fuelInTank == car.fuelInTank && r.FuelConsumed() == s.fuelAtStart - car.fuelInTank
      && r.fuelAtStart == s.fuelAtStart && r.odometerAtStart == s.odometerAtStart
  {
  }

  /** At a lap edge the last lap's consumption is the fuel at the start of the lap minus the fuel now, and the marker is re-baselined; otherwise all three are kept. */
  lemma StepLapEdge(s: FuelState, car: CarReadings, session: SessionData)
    ensures var r := Step(s, car, session);
      if car.currentLapNumber != s.currentLapNumber then
        r.currentLapNumber == car.currentLapNumber
        && r.fuelConsumedLastLap == s.fuelAtStartOfLap - car.fuelInTank
        && r.fuelAtStartOfLap == car.fuelInTank
      else
        r.currentLapNumber == s.currentLapNumber
        && r.fuelConsumedLastLap == s.fuelConsumedLastLap
        && r.fuelAtStartOfLap == s.fuelAtStartOfLap
  {
  }

  /** While the track length is unknown the projections keep their previous values. */
  lemma StepUnknownTrack(s: FuelState, car: CarReadings, session: SessionData)
    requires session.trackLength == 0
    ensures Step(s, car, session).averageFuelConsumedPerLap == s.averageFuelConsumedPerLap
    ensures Step(s, car, session).fuelAtEndOfStint == s.fuelAtEndOfStint
  {
  }

  /** With a known track length, the average per lap is the consumption rate times the track length; it is finite exactly when the car has moved since the stint began. */
  lemma StepKnownTrack(s: FuelState, car: CarReadings, session: SessionData)
    requires session.trackLength != 0
    ensures var r := Step(s, car, session);
      r.averageFuelConsumedPerLap == Prod(r.FuelPerDistance(car), Finite(session.trackLength as real))
      && (r.averageFuelConsumedPerLap.Finite? <==> car.totalDistance != s.odometerAtStart)
  {
  }

  /** Repeating an Update with the same readings changes nothing. */
  lemma StepIdempotent(s: FuelState, car: CarReadings, session: SessionData)
    ensures Step(Step(s, car, session), car, session) == Step(s, car, session)
  {
  }

  /** Across two consecutive lap edges, the second one reports the fuel burnt between them. */
  lemma {:induction false} ConsumptionBetweenLapEdges(s: FuelState, car1: CarReadings, car2: CarReadings, session: SessionData)
    requires car1.currentLapNumber != s.currentLapNumber
    requires car2.currentLapNumber != car1.currentLapNumber
    ensures Step(Step(s, car1, session), car2, session).fuelConsumedLastLap == car1.fuelInTank - car2.fuelInTank
  {
    StepLapEdge(s, car1, session);
    StepLapEdge(Step(s, car1, session), car2, session);
  }

  /** A Fuel built when the car leaves the garage takes its baseline from the readings at that moment, never from an earlier stint. */
  lemma FreshBaseline(car: CarReadings, session: SessionData)
    ensures var r := Fresh(car, session);
      r.fuelAtStart == car.fuelInTank && r.odometerAtStart == car.totalDistance
      && r.FuelConsumed() == 0.0 && r.StintOdometer(car) == 0.0
  {
  }

  /** At construction the stint distance is zero, so a known track length makes the average per lap not finite. */
  lemma FreshAverageNotFinite(car: CarReadings, session: SessionData)
    requires session.trackLength != 0
    ensures Fresh(car, session).averageFuelConsumedPerLap == NonFinite
  {
  }

  /** The projection at the current stint distance is the fuel in the tank. */
  lemma RemainingAtStintDistance(s: FuelState, car: CarReadings)
    requires s.FuelPerDistance(car).Finite?
    ensures s.FuelRemainingAtDistance(s.StintOdometer(car), car) == Finite(s.fuelInTank)
  {
  }

  /** While fuel is being burnt, the projected fuel falls as the target distance grows. */
  lemma RemainingFallsWithDistance(s: FuelState, car: CarReadings, d1: real, d2: real)
    requires s.FuelPerDistance(car).Finite? && s.FuelPerDistance(car).value >= 0.0
    requires d1 <= d2
    ensures s.FuelRemainingAtDistance(d2, car).value <= s.FuelRemainingAtDistance(d1, car).value
  {
    var p := s.FuelPerDistance(car).value;
    var o := s.StintOdometer(car);
    assert p * (d2 - o) - p * (d1 - o) == p * (d2 - d1);
    assert p * (d2 - d1) >= 0.0;
  }

  /** A Fuel object: the fields of Fuel.cs, updated in place. */
  class Fuel {
    var odometerAtStart: real
    var fuelAtStart: real
    var fuelInTank: real
    var fuelConsumedLastLap: real
    var averageFuelConsumedPerLap: Float
    var fuelAtEndOfStint: Float
    var currentLapNumber: int
    var fuelAtStartOfLap: real

    function State(): FuelState
      reads this
    {
      FuelState(odometerAtStart, fuelAtStart, fuelInTank, fuelConsumedLastLap,
                averageFuelConsumedPerLap, fuelAtEndOfStint, currentLapNumber, fuelAtStartOfLap)
    }

    constructor (car: CarReadings, session: SessionData)
      ensures State() == Fresh(car, session)
      ensures fuelAtStart == car.fuelInTank && odometerAtStart == car.totalDistance
    {
      odometerAtStart, fuelAtStart, fuelInTank, fuelConsumedLastLap := 0.0, 0.0, 0.0, 0.0;
      averageFuelConsumedPerLap, fuelAtEndOfStint := Finite(0.0), Finite(0.0);
      currentLapNumber, fuelAtStartOfLap := 0, 0.0;
      new;
      StartStint(car);
      Update(car, session);
    }

    method StartStint(car: CarReadings)
      modifies this
      ensures State() == Baseline(old(State()), car)
    {
      odometerAtStart := car.totalDistance;
      fuelAtStart := car.fuelInTank;
    }

    method Update(car: CarReadings, session: SessionData)
      modifies this
      ensures State() == Step(old(State()), car, session)
    {
      fuelInTank := car.fuelInTank;
      if car.currentLapNumber != currentLapNumber {
        currentLapNumber := car.currentLapNumber;
        fuelConsumedLastLap := fuelAtStartOfLap - fuelInTank;
        fuelAtStartOfLap := fuelInTank;
      }
      if session.trackLength == 0 {
        return;
      }
      var s := State();
      averageFuelConsumedPerLap := Prod(s.FuelPerDistance(car), Finite(session.trackLength as real));
      var fuelAtDistance := s.FuelRemainingAtDistance((session.totalLaps * session.trackLength) as real, car);
      fuelAtEndOfStint := Quot(fuelAtDistance, averageFuelConsumedPerLap);
    }
  }
}
