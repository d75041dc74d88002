/**
 * The tyre-stint model of the newer revision (F1_2023/Participant/TyreSet.cs):
 * the fitting baseline, wear recorded once per lap, the pit-window
 * projections and the artificial predicted pit lap.
 */
module TyreSet {
  import opened Numeric
  import opened Telemetry
  import Utility

  /** The ideal pit lap reported by the simulation, or the race length when none is reported. */
  function PitStopWindowIdealLap(session: SessionData): (r: Byte)
    ensures session.pitStopWindowIdealLap > 0 ==> r == session.pitStopWindowIdealLap
    ensures session.pitStopWindowIdealLap == 0 ==> r == session.totalLaps
  {
    if session.pitStopWindowIdealLap > 0 then session.pitStopWindowIdealLap else session.totalLaps
  }

  /** The latest pit lap reported, clipped to the race length, or the race length when none is reported. */
  function PitStopWindowLatestLap(session: SessionData): (r: Byte)
    ensures r <= session.totalLaps
    ensures session.pitStopWindowLatestLap > 0 ==> r == Utility.Min(session.pitStopWindowLatestLap, session.totalLaps)
    ensures session.pitStopWindowLatestLap == 0 ==> r == session.totalLaps
  {
    if session.pitStopWindowLatestLap > 0
    then Utility.Min(session.pitStopWindowLatestLap, session.totalLaps)
    else session.totalLaps
  }

  /** The observable state of a TyreSet (its link to the previous set aside). */
  datatype TyreState = TyreState(
    odometerAtFitting: real,
    tyreWearAtFitting: real,
    lapNumberAtFitting: int,
    wearByLap: map<int, real>,
    wearAtIdealPitLap: Float,
    wearAtLatestPitLap: Float,
    artificialPredictedPitLap: Byte,
    currentLapNumber: int)
  {
    /** Wear over the last completed lap, or 0 unless both lap boundaries were recorded. */
    function WearLastLap(): real
    {
      if currentLapNumber in wearByLap && currentLapNumber - 1 in wearByLap
      then wearByLap[currentLapNumber] - wearByLap[currentLapNumber - 1]
      else 0.0
    }

    /** Wear recorded at the start of the current lap, or 0 when none was recorded. */
    function WearAtStartOfLap(): real
    {
      if currentLapNumber in wearByLap then wearByLap[currentLapNumber] else 0.0
    }

    function StintWear(car: CarReadings): real { car.maxTyreWear - tyreWearAtFitting }

    function StintOdometer(car: CarReadings): real { car.totalDistance - odometerAtFitting }

    function WearPerDistance(car: CarReadings): Float
    {
      Quot(Finite(StintWear(car)), Finite(StintOdometer(car)))
    }

    /** The wear projected at `distance`, extrapolating the stint's wear rate from the current odometer. */
    function WearAtDistance(distance: real, car: CarReadings): Float
    {
      Sum(Finite(car.maxTyreWear), Prod(Finite(distance - car.totalDistance), WearPerDistance(car)))
    }
  }

  /** The zero-initialised fields of a fresh C# object. */
  const Blank := TyreState(0.0, 0.0, 0, map[], Finite(0.0), Finite(0.0), 0, 0)

  /** FitTyreSet: the odometer, worst tyre wear and lap number at this moment are the fitting baseline. */
  function Fit(s: TyreState, car: CarReadings): TyreState
  {
    s.(odometerAtFitting := car.totalDistance, tyreWearAtFitting := car.maxTyreWear,
       lapNumberAtFitting := car.currentLapNumber)
  }

  /** The state after Update, and whether `WearByLap.Add` threw (its key was already present). */
  datatype StepResult = StepResult(state: TyreState, threw: bool)

  /** Update: record the wear once at a lap edge, then refresh the projections and the ratchet when the track length is known. */
  function Step(s: TyreState, car: CarReadings, session: SessionData): StepResult
  {
    var lap := car.currentLapNumber;
    if lap != s.currentLapNumber && lap in s.wearByLap then
      StepResult(s.(currentLapNumber := lap), true)
    else
      var t := if lap != s.currentLapNumber
        then s.(currentLapNumber := lap, wearByLap := s.wearByLap[lap := car.maxTyreWear])
        else s;
      if session.trackLength == 0 then StepResult(t, false)
      else
        var track := session.trackLength as real;
        StepResult(t.(wearAtIdealPitLap := t.WearAtDistance((PitStopWindowIdealLap(session) as real) * track, car),
                      wearAtLatestPitLap := t.WearAtDistance((PitStopWindowLatestLap(session) as real) * track, car),
                      artificialPredictedPitLap := ToByte(Utility.Max(t.currentLapNumber, t.artificialPredictedPitLap))),
                   false)
  }

  /**
   * The constructor's offset arithmetic, in bytes: the window size, the
   * earliest lap half a window before the ideal lap, and the sample added to it.
   * `sample` is the rounded Gaussian draw after its `(byte)` cast.
   */
  function PredictedPitLap(ideal: Byte, latest: Byte, sample: Byte): Byte
  {
    var size := ToByte(latest - ideal);
    var earliest := ToByte(ideal - size / 2);
    ToByte(sample + earliest)
  }

  /** The constructor: fit, update once, then draw the predicted pit lap. */
  function Fresh(car: CarReadings, session: SessionData, sample: Byte): TyreState
  {
    var u := Step(Fit(Blank, car), car, session).state;
    u.(artificialPredictedPitLap :=
         PredictedPitLap(PitStopWindowIdealLap(session), PitStopWindowLatestLap(session), sample))
  }

  //// properties of the tyre-set model ////

  /** Add throws exactly when a lap edge lands on a lap that was recorded before (a lap regression). */
  lemma StepThrowsOnRecordedLap(s: TyreState, car: CarReadings, session: SessionData)
    ensures Step(s, car, session).threw
        <==> car.currentLapNumber != s.currentLapNumber && car.currentLapNumber in s.wearByLap
  {
  }

  /** WearByLap is write-once: a successful Update keeps every entry and adds at most the new lap; the same lap again adds nothing. */
  lemma StepWearByLapWriteOnce(s: TyreState, car: CarReadings, session: SessionData)
    ensures var r := Step(s, car, session).state;
      && (forall k :: k in s.wearByLap ==> k in r.wearByLap && r.wearByLap[k] == s.wearByLap[k])
      && (forall k :: k in r.wearByLap ==> k in s.wearByLap || k == car.currentLapNumber)
      && (car.currentLapNumber == s.currentLapNumber ==> r.wearByLap == s.wearByLap)
      && r.currentLapNumber == car.currentLapNumber
  {
  }

  /** A successful lap edge records the current worst wear for the new lap. */
  lemma StepRecordsLapWear(s: TyreState, car: CarReadings, session: SessionData)
    requires car.currentLapNumber != s.currentLapNumber
    requires !Step(s, car, session).threw
    ensures var r := Step(s, car, session).state;
      car.currentLapNumber in r.wearByLap && r.WearAtStartOfLap() == car.maxTyreWear
  {
  }

  /** After successive lap edges L-1 then L, WearLastLap is the wear gained over lap L-1. */
  lemma {:induction false} WearLastLapAfterTwoEdges(s: TyreState, car1: CarReadings, car2: CarReadings, session: SessionData)
    requires car1.currentLapNumber != s.currentLapNumber && car1.currentLapNumber !in s.wearByLap
    requires car2.currentLapNumber == car1.currentLapNumber + 1 && car2.currentLapNumber !in s.wearByLap
    ensures var r := Step(Step(s, car1, session).state, car2, session);
      !r.threw && r.state.WearLastLap() == car2.maxTyreWear - car1.maxTyreWear
  {
    var m := Step(s, car1, session).state;
    assert m.wearByLap == s.wearByLap[car1.currentLapNumber := car1.maxTyreWear];
    assert car2.currentLapNumber !in m.wearByLap;
  }

  /** While the track length is unknown the projections and the predicted pit lap keep their values. */
  lemma StepUnknownTrack(s: TyreState, car: CarReadings, session: SessionData)
    requires session.trackLength == 0
    ensures var r := Step(s, car, session).state;
      r.wearAtIdealPitLap == s.wearAtIdealPitLap && r.wearAtLatestPitLap == s.wearAtLatestPitLap
      && r.artificialPredictedPitLap == s.artificialPredictedPitLap
  {
  }

  /** The ratchet: the predicted pit lap never decreases, and after a successful update with a known track it is not behind the current lap. */
  lemma StepRatchet(s: TyreState, car: CarReadings, session: SessionData)
    ensures var r := Step(s, car, session);
      r.state.artificialPredictedPitLap >= s.artificialPredictedPitLap
      && (!r.threw && session.trackLength != 0 ==> r.state.artificialPredictedPitLap >= car.currentLapNumber)
  {
  }

  /** The pit window after defaulting lies within the race: latest never exceeds the race length, and both are set whenever the race length is. */
  lemma PitWindowWithinRace(session: SessionData)
    requires session.totalLaps > 0
    ensures 0 < PitStopWindowLatestLap(session) <= session.totalLaps
    ensures 0 < PitStopWindowIdealLap(session)
  {
  }

  /**
   * Without wrap-around and with the sample drawn inside the window size, the
   * predicted lap lies between half a window before the ideal lap and the
   * latest lap; the mean sample (half the window) predicts the ideal lap.
   */
  lemma PredictedWithinWindow(ideal: Byte, latest: Byte, sample: Byte)
    requires ideal <= latest && 2 * ideal >= latest - ideal
    requires sample <= latest - ideal
    ensures ideal - (latest - ideal) / 2 <= PredictedPitLap(ideal, latest, sample) <= latest
    ensures sample == (latest - ideal) / 2 ==> PredictedPitLap(ideal, latest, sample) == ideal
  {
  }

  /** A window wider than twice the ideal lap wraps the byte arithmetic: ideal 5, latest 50 and sample 0 predict lap 239. */
  lemma PredictedWrapsForWideWindow()
    ensures PredictedPitLap(5, 50, 0) == 239
  {
  }

  /** A new set takes its baseline from the readings at fitting and records the fitting lap's wear. */
  lemma FreshBaseline(car: CarReadings, session: SessionData, sample: Byte)
    ensures var r := Fresh(car, session, sample);
      r.odometerAtFitting == car.totalDistance && r.tyreWearAtFitting == car.maxTyreWear
      && r.lapNumberAtFitting == car.currentLapNumber && r.currentLapNumber == car.currentLapNumber
      && r.StintOdometer(car) == 0.0 && r.StintWear(car) == 0.0
      && (car.currentLapNumber != 0 <==> r.wearByLap == map[car.currentLapNumber := car.maxTyreWear])
      && (car.currentLapNumber == 0 <==> r.wearByLap == map[])
  {
  }

  //// visual compound names ////

  /** The display name of a visual tyre compound code. */
  function VisualTyreName(code: Byte): string
  {
    match code
    case 16 => "soft"
    case 17 => "medium"
    case 18 => "hard"
    case 7 => "inter"
    case 8 => "wet"
    case 15 => "wet"
    case 19 => "super soft"
    case 20 => "soft"
    case 21 => "medium"
    case 22 => "hard"
    case _ => "unknown"
  }

  /** F1 and F2 codes of the same compound share a name, and every code outside the table is "unknown". */
  lemma VisualTyreNameTable(code: Byte)
    ensures VisualTyreName(code) == "soft" <==> code == 16 || code == 20
    ensures VisualTyreName(code) == "medium" <==> code == 17 || code == 21
    ensures VisualTyreName(code) == "hard" <==> code == 18 || code == 22
    ensures VisualTyreName(code) == "wet" <==> code == 8 || code == 15
    ensures VisualTyreName(code) == "inter" <==> code == 7
    ensures VisualTyreName(code) == "super soft" <==> code == 19
    ensures VisualTyreName(code) == "unknown" <==> !(code == 7 || code == 8 || 15 <= code <= 22)
  {
  }

  /** A TyreSet object: the fields of TyreSet.cs, updated in place; the previous set is fixed at construction. */
  class TyreSet {
    const previous: TyreSet?
    /** The length of the chain behind this set: it orders the chain, so the chain has no cycle. */
    ghost const depth: nat
    var odometerAtFitting: real
    var tyreWearAtFitting: real
    var lapNumberAtFitting: int
    var wearByLap: map<int, real>
    var wearAtIdealPitLap: Float
    var wearAtLatestPitLap: Float
    var artificialPredictedPitLap: Byte
    var currentLapNumber: int

    function State(): TyreState
      reads this
    {
      TyreState(odometerAtFitting, tyreWearAtFitting, lapNumberAtFitting, wearByLap,
                wearAtIdealPitLap, wearAtLatestPitLap, artificialPredictedPitLap, currentLapNumber)
    }

    constructor (car: CarReadings, session: SessionData, previous: TyreSet?, sample: Byte)
      ensures this.previous == previous
      ensures depth == if previous == null then 0 else previous.depth + 1
      ensures State() == Fresh(car, session, sample)
    {
      this.previous := previous;
      depth := if previous == null then 0 else previous.depth + 1;
      odometerAtFitting, tyreWearAtFitting, lapNumberAtFitting := 0.0, 0.0, 0;
      wearByLap := map[];
      wearAtIdealPitLap, wearAtLatestPitLap := Finite(0.0), Finite(0.0);
      artificialPredictedPitLap, currentLapNumber := 0, 0;
      new;
      FitTyreSet(car);
      var threw := Update(car, session);
      var ideal: int, latest: int := PitStopWindowIdealLap(session), PitStopWindowLatestLap(session);
      var pitWindowSize: int := ToByte(latest - ideal);
      var artificialEarliestPitLap: int := ToByte(ideal - pitWindowSize / 2);
      artificialPredictedPitLap := ToByte(sample + artificialEarliestPitLap);
    }

    method FitTyreSet(car: CarReadings)
      modifies this
      ensures State() == Fit(old(State()), car)
    {
      odometerAtFitting := car.totalDistance;
      tyreWearAtFitting := car.maxTyreWear;
      lapNumberAtFitting := car.currentLapNumber;
    }

    method Update(car: CarReadings, session: SessionData) returns (threw: bool)
      modifies this
      ensures StepResult(State(), threw) == Step(old(State()), car, session)
    {
      threw := false;
      if car.currentLapNumber != currentLapNumber {
        currentLapNumber := car.currentLapNumber;
        if currentLapNumber in wearByLap {
          threw := true;
          return;
        }
        wearByLap := wearByLap[currentLapNumber := car.maxTyreWear];
      }
      if session.trackLength == 0 {
        return;
      }
      var s := State();
      var track := session.trackLength as real;
      wearAtIdealPitLap := s.WearAtDistance((PitStopWindowIdealLap(session) as real) * track, car);
      wearAtLatestPitLap := s.WearAtDistance((PitStopWindowLatestLap(session) as real) * track, car);
      artificialPredictedPitLap := ToByte(Utility.Max(currentLapNumber, artificialPredictedPitLap));
    }
  }
}
