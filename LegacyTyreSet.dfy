/**
 * The tyre-stint model of the older revision (F1_2023/TyreSet.cs): the
 * current wear is stored, the last lap's wear is a difference of two stored
 * readings, and the pit window falls back to the race length as a pair.
 */
module LegacyTyreSet {
  import opened Numeric
  import opened Telemetry
  import Utility
  import Newer = TyreSet

  /** The observable state of an older-revision TyreSet. */
  datatype LegacyTyreState = LegacyTyreState(
    odometerAtFitting: real,
    tyreWearAtFitting: real,
    lapNumberAtFitting: int,
    wear: real,
    wearLastLap: real,
    averageWearPerLap: Float,
    pitStopWindowIdealLap: Byte,
    pitStopWindowLatestLap: Byte,
    wearAtIdealPitLap: Float,
    wearAtLatestPitLap: Float,
    artificialPredictedPitLap: Byte,
    currentLapNumber: int,
    wearAtStartOfLap: real)
  {
    function StintWear(): real { wear - tyreWearAtFitting }

    function StintOdometer(car: CarReadings): real { car.totalDistance - odometerAtFitting }

    function WearPerDistance(car: CarReadings): Float
    {
      Quot(Finite(StintWear()), Finite(StintOdometer(car)))
    }

    /** The wear projected at `distance` from the stored current wear. */
    function WearAtDistance(distance: real, car: CarReadings): Float
    {
      Sum(Finite(wear), Prod(Finite(distance - car.totalDistance), WearPerDistance(car)))
    }
  }

  const Blank := LegacyTyreState(0.0, 0.0, 0, 0.0, 0.0, Finite(0.0), 0, 0, Finite(0.0), Finite(0.0), 0, 0, 0.0)

  function Fit(s: LegacyTyreState, car: CarReadings): LegacyTyreState
  {
    s.(odometerAtFitting := car.totalDistance, tyreWearAtFitting := car.maxTyreWear,
       lapNumberAtFitting := car.currentLapNumber)
  }

  /** The pit window as stored: the reported pair, or the race length for both when either is missing. */
  function PitWindow(session: SessionData): (Byte, Byte)
  {
    if session.pitStopWindowIdealLap == 0 || session.pitStopWindowLatestLap == 0
    then (session.totalLaps, session.totalLaps)
    else (session.pitStopWindowIdealLap, session.pitStopWindowLatestLap)
  }

  /** The first half of Update: store the wear and, at a lap edge, difference it against the start of the lap. */
  function LapEdge(s: LegacyTyreState, car: CarReadings): LegacyTyreState
  {
    var w := s.(wear := car.maxTyreWear);
    if car.currentLapNumber != w.currentLapNumber
    then w.(currentLapNumber := car.currentLapNumber, wearLastLap := w.wear - w.wearAtStartOfLap,
            wearAtStartOfLap := w.wear)
    else w
  }

  /** The second half of Update, once the track length is known: the per-lap average, the pit window, the projections and the ratchet. */
  function Refresh(t: LegacyTyreState, car: CarReadings, session: SessionData): LegacyTyreState
  {
    var track := session.trackLength as real;
    var window := PitWindow(session);
    t.(averageWearPerLap := Prod(t.WearPerDistance(car), Finite(track)),
       pitStopWindowIdealLap := window.0,
       pitStopWindowLatestLap := window.1,
       wearAtIdealPitLap := t.WearAtDistance((window.0 as real) * track, car),
       wearAtLatestPitLap := t.WearAtDistance((window.1 as real) * track, car),
       artificialPredictedPitLap := ToByte(Utility.Max(t.currentLapNumber, t.artificialPredictedPitLap)))
  }

  /** Update: store the wear, difference it at a lap edge, then refresh the pit window and projections when the track length is known. */
  function Step(s: LegacyTyreState, car: CarReadings, session: SessionData): LegacyTyreState
  {
    var t := LapEdge(s, car);
    if session.trackLength == 0 then t else Refresh(t, car, session)
  }

  /** The older constructor's offset: the earliest lap is a whole window before the ideal lap. */
  function PredictedPitLap(ideal: Byte, latest: Byte, sample: Byte): Byte
  {
    var window := ToByte(latest - ideal);
    var earliest := ToByte(ideal - window);
    ToByte(sample + earliest)
  }

  /** The constructor: fit, update once, then draw from the window stored by that update. */
  function Fresh(car: CarReadings, session: SessionData, sample: Byte): LegacyTyreState
  {
    var u := Step(Fit(Blank, car), car, session);
    u.(artificialPredictedPitLap := PredictedPitLap(u.pitStopWindowIdealLap, u.pitStopWindowLatestLap, sample))
  }

  //// properties of the older tyre-set model ////

  /** Every update stores the current worst wear. */
  lemma StepStoresWear(s: LegacyTyreState, car: CarReadings, session: SessionData)
    ensures Step(s, car, session).wear == car.maxTyreWear
    ensures Step(s, car, session).StintWear() == car.maxTyreWear - s.tyreWearAtFitting
  {
  }

  /** After lap edges onto successive laps, WearLastLap is the wear gained between the two edges. */
  lemma {:induction false} WearLastLapBetweenEdges(s: LegacyTyreState, car1: CarReadings, car2: CarReadings, session: SessionData)
    requires car1.currentLapNumber != s.currentLapNumber
    requires car2.currentLapNumber != car1.currentLapNumber
    ensures Step(Step(s, car1, session), car2, session).wearLastLap == car2.maxTyreWear - car1.maxTyreWear
  {
    var m := Step(s, car1, session);
    assert m.wearAtStartOfLap == car1.maxTyreWear && m.currentLapNumber == car1.currentLapNumber;
  }

  /** Within a lap WearLastLap and WearAtStartOfLap keep their values. */
  lemma StepSameLap(s: LegacyTyreState, car: CarReadings, session: SessionData)
    requires car.currentLapNumber == s.currentLapNumber
    ensures Step(s, car, session).wearLastLap == s.wearLastLap
    ensures Step(s, car, session).wearAtStartOfLap == s.wearAtStartOfLap
  {
  }

  /** A second update with the same readings changes nothing. */
  lemma StepIdempotent(s: LegacyTyreState, car: CarReadings, session: SessionData)
    ensures Step(Step(s, car, session), car, session) == Step(s, car, session)
  {
  }

  /** While the track length is unknown the pit window, the projections and the per-lap average keep their values. */
  lemma StepUnknownTrack(s: LegacyTyreState, car: CarReadings, session: SessionData)
    requires session.trackLength == 0
    ensures var r := Step(s, car, session);
      r.pitStopWindowIdealLap == s.pitStopWindowIdealLap && r.pitStopWindowLatestLap == s.pitStopWindowLatestLap
      && r.averageWearPerLap == s.averageWearPerLap && r.wearAtIdealPitLap == s.wearAtIdealPitLap
      && r.wearAtLatestPitLap == s.wearAtLatestPitLap && r.artificialPredictedPitLap == s.artificialPredictedPitLap
  {
  }

  /** The ratchet: the predicted pit lap never decreases, and with a known track it is not behind the current lap. */
  lemma StepRatchet(s: LegacyTyreState, car: CarReadings, session: SessionData)
    ensures Step(s, car, session).artificialPredictedPitLap >= s.artificialPredictedPitLap
    ensures session.trackLength != 0 ==> Step(s, car, session).artificialPredictedPitLap >= car.currentLapNumber
  {
  }

  /** The per-lap average is the stint's wear rate scaled by the lap length, and is not finite before the car has moved in the stint. */
  lemma AverageWearPerLapScaled(s: LegacyTyreState, car: CarReadings, session: SessionData)
    requires session.trackLength != 0
    ensures var r := Step(s, car, session);
      (car.totalDistance == s.odometerAtFitting <==> r.averageWearPerLap == NonFinite)
      && (car.totalDistance != s.odometerAtFitting ==>
            r.averageWearPerLap.value * (car.totalDistance - s.odometerAtFitting)
              == (car.maxTyreWear - s.tyreWearAtFitting) * (session.trackLength as real))
  {
  }

  /** The fallback is joint: a single missing lap replaces both laps by the race length, and a reported latest lap is not clipped to it. */
  lemma PitWindowJointFallback(session: SessionData)
    ensures session.pitStopWindowIdealLap == 0 || session.pitStopWindowLatestLap == 0
        ==> PitWindow(session) == (session.totalLaps, session.totalLaps)
    ensures session.pitStopWindowIdealLap != 0 && session.pitStopWindowLatestLap != 0
        ==> PitWindow(session) == (session.pitStopWindowIdealLap, session.pitStopWindowLatestLap)
  {
  }

  /**
   * The two revisions agree on a fully reported window whose latest lap is
   * within the race; otherwise they differ: the newer clips the latest lap and
   * keeps a reported ideal lap when only the latest lap is missing.
   */
  lemma PitWindowAcrossRevisions(session: SessionData)
    ensures session.pitStopWindowIdealLap != 0 && session.pitStopWindowLatestLap != 0
        ==> PitWindow(session).0 == Newer.PitStopWindowIdealLap(session)
            && (PitWindow(session).1 == Newer.PitStopWindowLatestLap(session)
                <==> session.pitStopWindowLatestLap <= session.totalLaps)
    ensures session.pitStopWindowIdealLap != 0 && session.pitStopWindowLatestLap == 0
        ==> PitWindow(session).0 == session.totalLaps
            && Newer.PitStopWindowIdealLap(session) == session.pitStopWindowIdealLap
  {
  }

  /** Without wrap-around and with the sample inside the window, the older prediction lies in the window before the ideal lap and never after it. */
  lemma PredictedNotAfterIdeal(ideal: Byte, latest: Byte, sample: Byte)
    requires ideal <= latest <= 2 * ideal
    requires sample <= latest - ideal
    ensures ideal - (latest - ideal) <= PredictedPitLap(ideal, latest, sample) <= ideal
  {
  }

  /** When the constructor's update sees no track length, the stored window is still zero and the prediction is the sample itself. */
  lemma FreshUnknownTrackPredictsSample(car: CarReadings, session: SessionData, sample: Byte)
    requires session.trackLength == 0
    ensures Fresh(car, session, sample).artificialPredictedPitLap == sample
  {
  }

  /** An older-revision TyreSet object updated in place. */
  class TyreSet {
    const previous: TyreSet?
    /** The length of the chain behind this set: it orders the chain, so the chain has no cycle. */
    ghost const depth: nat
    var odometerAtFitting: real
    var tyreWearAtFitting: real
    var lapNumberAtFitting: int
    var wear: real
    var wearLastLap: real
    var averageWearPerLap: Float
    var pitStopWindowIdealLap: Byte
    var pitStopWindowLatestLap: Byte
    var wearAtIdealPitLap: Float
    var wearAtLatestPitLap: Float
    var artificialPredictedPitLap: Byte
    var currentLapNumber: int
    var wearAtStartOfLap: real

    function State(): LegacyTyreState
      reads this
    {
      LegacyTyreState(odometerAtFitting, tyreWearAtFitting, lapNumberAtFitting, wear, wearLastLap,
                      averageWearPerLap, pitStopWindowIdealLap, pitStopWindowLatestLap, wearAtIdealPitLap,
                      wearAtLatestPitLap, artificialPredictedPitLap, currentLapNumber, wearAtStartOfLap)
    }

    constructor (car: CarReadings, session: SessionData, previous: TyreSet?, sample: Byte)
      ensures this.previous == previous
      ensures depth == if previous == null then 0 else previous.depth + 1
      ensures State() == Fresh(car, session, sample)
    {
      this.previous := previous;
      depth := if previous == null then 0 else previous.depth + 1;
      odometerAtFitting, tyreWearAtFitting, lapNumberAtFitting := 0.0, 0.0, 0;
      wear, wearLastLap, averageWearPerLap := 0.0, 0.0, Finite(0.0);
      pitStopWindowIdealLap, pitStopWindowLatestLap := 0, 0;
      wearAtIdealPitLap, wearAtLatestPitLap := Finite(0.0), Finite(0.0);
      artificialPredictedPitLap, currentLapNumber, wearAtStartOfLap := 0, 0, 0.0;
      new;
      assert State() == Blank;
      FitTyreSet(car);
      Update(car, session);
      ghost var u := State();
      assert u == Step(Fit(Blank, car), car, session);
      var pitWindow: int := ToByte(pitStopWindowLatestLap - pitStopWindowIdealLap);
      var artificialEarliestPitLap: int := ToByte(pitStopWindowIdealLap - pitWindow);
      artificialPredictedPitLap := ToByte(sample + artificialEarliestPitLap);
      assert State() == u.(artificialPredictedPitLap := PredictedPitLap(u.pitStopWindowIdealLap, u.pitStopWindowLatestLap, sample));
    }

    method FitTyreSet(car: CarReadings)
      modifies this
      ensures State() == Fit(old(State()), car)
    {
      odometerAtFitting := car.totalDistance;
      tyreWearAtFitting := car.maxTyreWear;
      lapNumberAtFitting := car.currentLapNumber;
    }

    method Update(car: CarReadings, session: SessionData)
      modifies this
      ensures State() == Step(old(State()), car, session)
    {
      wear := car.maxTyreWear;
      if car.currentLapNumber != currentLapNumber {
        currentLapNumber := car.currentLapNumber;
        wearLastLap := wear - wearAtStartOfLap;
        wearAtStartOfLap := wear;
      }
      assert State() == LapEdge(old(State()), car);
      if session.trackLength == 0 {
        return;
      }
      RefreshProjections(car, session);
    }

    method RefreshProjections(car: CarReadings, session: SessionData)
      requires session.trackLength != 0
      modifies this
      ensures State() == Refresh(old(State()), car, session)
    {
      var track := session.trackLength as real;
      var s := State();
      var window := PitWindow(session);
      averageWearPerLap := Prod(s.WearPerDistance(car), Finite(track));
      pitStopWindowIdealLap, pitStopWindowLatestLap := window.0, window.1;
      wearAtIdealPitLap := s.WearAtDistance((window.0 as real) * track, car);
      wearAtLatestPitLap := s.WearAtDistance((window.1 as real) * track, car);
      artificialPredictedPitLap := ToByte(Utility.Max(currentLapNumber, artificialPredictedPitLap));
    }
  }
}
