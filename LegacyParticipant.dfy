/**
 * One car of the older revision (F1_2023/Participant.cs). The packet
 * handling, the tyre-set lifecycle, the fuel stint and the lap-pace average
 * follow the same rules as the newer revision, and their value-level
 * definitions are shared with it; the differences are the abbreviation rule,
 * the absence of mini-sectors, and the older tyre-set model.
 */
module LegacyParticipant {
  import opened Numeric
  import opened Telemetry
  import opened Utility
  import Newer = Participant
  import Tyres = LegacyTyreSet
  import Fuel

  /** AbbreviatedName of the older revision: the first three letters or fewer, upper-cased, with no special case for spaces. */
  function AbbreviatedName(name: string): (r: string)
  {
    ToUpper(name[..Min(|name|, 3)])
  }

  /** The older rule never throws and keeps at most three letters. */
  lemma AbbreviatedNameTotal(name: string)
    ensures |AbbreviatedName(name)| == Min(3, |name|)
    ensures forall i :: 0 <= i < |AbbreviatedName(name)| ==> AbbreviatedName(name)[i] == UpperChar(name[i])
  {
  }

  /**
   * The two revisions agree on names without spaces; on "First Last" the
   * newer one abbreviates the last token, which the older one would do only
   * when given "Last" alone.
   */
  lemma AbbreviatedNameAcrossRevisions(first: string, last: string)
    requires ' ' !in first
    ensures Newer.AbbreviatedName(first) == Some(AbbreviatedName(first))
    ensures ' ' !in last && |last| >= 3 ==>
      Newer.AbbreviatedName(first + " " + last) == Some(AbbreviatedName(last))
  {
    if ' ' !in last && |last| >= 3 {
      Newer.LastTokenAfterSpace(first, last);
      var s := first + " " + last;
      assert s[|first|] == ' ';
    }
  }

  /** "Lewis Hamilton" abbreviates to "LEW" in the older revision. */
  lemma AbbreviatedNameOfFullName()
    ensures AbbreviatedName("Lewis Hamilton") == "LEW"
  {
    assert "Lewis Hamilton"[..3] == "Lew";
    var u := ToUpper("Lew");
    assert u[0] == 'L' && u[1] == 'E' && u[2] == 'W';
    assert u == "LEW";
  }

  /** Every field an older-revision participant holds itself, as one value: what each update method states it leaves or changes. */
  datatype OwnFields = OwnFields(
    slices: Newer.StoredSlices, tyreSetsPacket: Option<TyreSetsPacket>, history: SessionHistoryPacket,
    currentLapNumber: Byte, currentTyreSet: Tyres.TyreSet?, previousTyreSet: Tyres.TyreSet?,
    tyreSets: set<Tyres.TyreSet>, fuel: Fuel.Fuel?, pace: Newer.Pace)

  /** An older-revision participant object: no mini-sectors, and a tyre set whose update cannot throw. */
  class Participant {
    ghost var Repr: set<object>
    /** Every tyre set reachable from this participant. */
    ghost var tyreSets: set<Tyres.TyreSet>

    var index: int
    var rawName: string
    var lapData: LapData
    var carDamage: CarDamage
    var carStatus: CarStatus
    var tyreSetsPacket: Option<TyreSetsPacket>
    var history: SessionHistoryPacket
    var currentLapNumber: Byte
    var currentTyreSet: Tyres.TyreSet?
    var previousTyreSet: Tyres.TyreSet?
    var fuel: Fuel.Fuel?
    var lastThreeLapAverageLapTime: nat
    var averageLapLastCalculatedOnLap: int

    ghost predicate Valid()
      reads this
    {
      && this in Repr
      && (fuel != null ==> fuel in Repr)
      && (forall t :: t in tyreSets ==> t in Repr)
      && (forall t :: t in tyreSets && t.previous != null ==> t.previous in tyreSets && t.previous.depth < t.depth)
      && (currentTyreSet != null ==> currentTyreSet in tyreSets && currentTyreSet.previous == previousTyreSet)
      && (currentTyreSet == null ==> previousTyreSet == null)
      && (previousTyreSet != null ==> previousTyreSet in tyreSets)
    }

    /** Name: the packet's name characters with the NUL padding trimmed. */
    function Name(): string
      reads this
    {
      TrimNul(rawName)
    }

    /** What the tyre set and the fuel object read through their back-reference. */
    function Readings(): CarReadings
      reads this
    {
      CarReadings(currentLapNumber, lapData.totalDistance, lapData.lapDistance, carStatus.fuelInTank, carDamage.MaxWear())
    }

    function CurrentPace(): Newer.Pace
      reads this
    {
      Newer.Pace(lastThreeLapAverageLapTime, averageLapLastCalculatedOnLap)
    }

    ghost function Own(): OwnFields
      reads this
    {
      OwnFields(Newer.StoredSlices(rawName, index, carDamage, lapData, carStatus), tyreSetsPacket, history,
                currentLapNumber, currentTyreSet, previousTyreSet, tyreSets, fuel, CurrentPace())
    }

    /** The constructor starts with no tyre set and no fuel stint (property registration aside). */
    constructor ()
      ensures Valid() && fresh(Repr)
      ensures currentTyreSet == null && previousTyreSet == null && fuel == null
      ensures tyreSetsPacket == None && CurrentPace() == Newer.Pace(0, 0)
      ensures lapData == NoLapData && currentLapNumber == 0
    {
      index, rawName := 0, [];
      lapData, carDamage, carStatus := NoLapData, NoCarDamage, NoCarStatus;
      tyreSetsPacket, history := None, SessionHistoryPacket(0, 0, []);
      currentLapNumber := 0;
      currentTyreSet, previousTyreSet, fuel := null, null, null;
      lastThreeLapAverageLapTime, averageLapLastCalculatedOnLap := 0, 0;
      Repr := {this};
      tyreSets := {};
    }

    //// packet updates ////

    method ParticipantUpdate(name: string, index: int)
      requires Valid()
      modifies this
      ensures Valid() && Repr == old(Repr)
      ensures Own() == old(Own()).(slices := old(Own().slices).(rawName := name, index := index))
      ensures unchanged(old(tyreSets))
      ensures old(fuel) != null ==> unchanged(old(fuel))
    {
      rawName := name;
      this.index := index;
    }

    method CarDamageUpdate(damage: CarDamage)
      requires Valid()
      modifies this
      ensures Valid() && Repr == old(Repr)
      ensures Own() == old(Own()).(slices := old(Own().slices).(carDamage := damage))
      ensures unchanged(old(tyreSets))
      ensures old(fuel) != null ==> unchanged(old(fuel))
    {
      carDamage := damage;
    }

    /** LapDataUpdate: store the slice and take its lap number; nothing else changes. */
    method LapDataUpdate(lap: LapData)
      requires Valid()
      modifies this
      ensures Valid() && Repr == old(Repr)
      ensures Own() == old(Own()).(slices := old(Own().slices).(lapData := lap), currentLapNumber := lap.currentLapNum)
      ensures unchanged(old(tyreSets))
      ensures old(fuel) != null ==> unchanged(old(fuel))
    {
      lapData := lap;
      currentLapNumber := lap.currentLapNum;
    }

    method CarStatusUpdate(status: CarStatus, session: SessionData)
      requires Valid()
      modifies Repr
      ensures Valid() && fresh(Repr - old(Repr))
      ensures Own() == old(Own()).(slices := old(Own().slices).(carStatus := status), fuel := fuel)
      ensures unchanged(old(tyreSets))
      ensures Newer.InGarage(lapData) ==> fuel == null
      ensures !Newer.InGarage(lapData) && old(fuel) == null ==>
        fuel != null && fresh(fuel) && fuel.State() == Fuel.Step(Fuel.Fresh(Readings(), session), Readings(), session)
      ensures !Newer.InGarage(lapData) && old(fuel) != null ==>
        fuel == old(fuel) && fuel.State() == Fuel.Step(old(fuel.State()), Readings(), session)
    {
      carStatus := status;
      UpdateFuel(session);
    }

    /** UpdateFuel: no stint in the garage; outside it, a stint is started when none exists, and the stint is then updated. */
    method UpdateFuel(session: SessionData)
      requires Valid()
      modifies Repr
      ensures Valid() && fresh(Repr - old(Repr))
      ensures Newer.InGarage(lapData) ==> fuel == null
      ensures !Newer.InGarage(lapData) && old(fuel) == null ==>
        fuel != null && fresh(fuel) && fuel.State() == Fuel.Step(Fuel.Fresh(Readings(), session), Readings(), session)
      ensures !Newer.InGarage(lapData) && old(fuel) != null ==>
        fuel == old(fuel) && fuel.State() == Fuel.Step(old(fuel.State()), Readings(), session)
      ensures Own() == old(Own()).(fuel := fuel)
      ensures unchanged(old(tyreSets))
    {
      if Newer.InGarage(lapData) {
        fuel := null;
      } else if fuel == null {
        var f := new Fuel.Fuel(Readings(), session);
        fuel := f;
        Repr := Repr + {f};
      }
      if fuel != null {
        fuel.Update(Readings(), session);
      }
    }

    /** The tyre-set lifecycle of UpdateTyreSet, in both states. */
    twostate predicate TyreSetRules(changed: bool, session: SessionData, sample: Byte)
      reads this, currentTyreSet
    {
      var r := Readings();
      && (old(currentTyreSet) == null ==>
            && currentTyreSet != null && fresh(currentTyreSet) && currentTyreSet.previous == null
            && previousTyreSet == old(previousTyreSet)
            && currentTyreSet.State() == Tyres.Step(Tyres.Fresh(r, session, sample), r, session))
      && (old(currentTyreSet) != null && !changed ==>
            && currentTyreSet == old(currentTyreSet) && previousTyreSet == old(previousTyreSet)
            && currentTyreSet.State() == Tyres.Step(old(currentTyreSet.State()), r, session))
      && (old(currentTyreSet) != null && changed && r.totalDistance < old(currentTyreSet.odometerAtFitting) ==>
            && currentTyreSet == old(previousTyreSet)
            && previousTyreSet == (if old(previousTyreSet) == null then null else old(previousTyreSet).previous)
            && currentTyreSet != old(currentTyreSet) && previousTyreSet != old(currentTyreSet)
            && (currentTyreSet != null ==>
                  currentTyreSet.State() == Tyres.Step(old(previousTyreSet.State()), r, session)))
      && (old(currentTyreSet) != null && changed && r.totalDistance >= old(currentTyreSet.odometerAtFitting) ==>
            && currentTyreSet != null && fresh(currentTyreSet)
            && previousTyreSet == old(currentTyreSet) && currentTyreSet.previous == old(currentTyreSet)
            && currentTyreSet.State() == Tyres.Step(Tyres.Fresh(r, session, sample), r, session))
    }

    /**
     * UpdateTyreSet: create the first set; on a change, either undo one level
     * (the odometer is behind the current set's fitting odometer) or push the
     * current set and fit a new one; then update the current set.
     */
    method UpdateTyreSet(changed: bool, session: SessionData, sample: Byte)
      requires Valid()
      modifies Repr
      ensures Valid() && fresh(Repr - old(Repr))
      ensures TyreSetRules(changed, session, sample)
      ensures Own() == old(Own()).(currentTyreSet := currentTyreSet, previousTyreSet := previousTyreSet, tyreSets := tyreSets)
      ensures unchanged(old(tyreSets) - {currentTyreSet})
      ensures old(fuel) != null ==> unchanged(old(fuel))
    {
      ChooseTyreSet(changed, session, sample);
      if currentTyreSet != null {
        currentTyreSet.Update(Readings(), session);
      }
    }

    /** The first half of UpdateTyreSet: fit the first set, undo one level, or push a new set. */
    method ChooseTyreSet(changed: bool, session: SessionData, sample: Byte)
      requires Valid()
      modifies this
      ensures Valid() && fresh(Repr - old(Repr))
      ensures Own() == old(Own()).(currentTyreSet := currentTyreSet, previousTyreSet := previousTyreSet, tyreSets := tyreSets)
      ensures unchanged(old(tyreSets))
      ensures old(fuel) != null ==> unchanged(old(fuel))
      ensures old(currentTyreSet) == null ==>
        && currentTyreSet != null && fresh(currentTyreSet) && currentTyreSet.previous == null
        && previousTyreSet == old(previousTyreSet)
        && currentTyreSet.State() == Tyres.Fresh(Readings(), session, sample)
      ensures old(currentTyreSet) != null && !changed ==>
        currentTyreSet == old(currentTyreSet) && previousTyreSet == old(previousTyreSet)
      ensures old(currentTyreSet) != null && changed && lapData.totalDistance < old(currentTyreSet).odometerAtFitting ==>
        && currentTyreSet == old(previousTyreSet)
        && previousTyreSet == (if old(previousTyreSet) == null then null else old(previousTyreSet).previous)
        && currentTyreSet != old(currentTyreSet) && previousTyreSet != old(currentTyreSet)
      ensures old(currentTyreSet) != null && changed && lapData.totalDistance >= old(currentTyreSet).odometerAtFitting ==>
        && currentTyreSet != null && fresh(currentTyreSet)
        && previousTyreSet == old(currentTyreSet) && currentTyreSet.previous == old(currentTyreSet)
        && currentTyreSet.State() == Tyres.Fresh(Readings(), session, sample)
    {
      if currentTyreSet == null {
        PushTyreSet(session, sample);
      } else if changed {
        if lapData.totalDistance < currentTyreSet.odometerAtFitting {
          var p := previousTyreSet;
          currentTyreSet := p;
          previousTyreSet := if p == null then null else p.previous;
        } else {
          PushTyreSet(session, sample);
        }
      }
    }

    /** Fit a new set on top of the current one, which becomes the previous set (null for the first set). */
    method PushTyreSet(session: SessionData, sample: Byte)
      requires Valid()
      modifies this
      ensures Valid() && fresh(Repr - old(Repr))
      ensures currentTyreSet != null && fresh(currentTyreSet)
      ensures Own() == old(Own()).(currentTyreSet := currentTyreSet, previousTyreSet := old(currentTyreSet),
                                   tyreSets := old(tyreSets) + {currentTyreSet})
      ensures unchanged(old(tyreSets))
      ensures old(fuel) != null ==> unchanged(old(fuel))
      ensures previousTyreSet == old(currentTyreSet) && currentTyreSet.previous == old(currentTyreSet)
      ensures currentTyreSet.State() == Tyres.Fresh(Readings(), session, sample)
    {
      var t := new Tyres.TyreSet(Readings(), session, currentTyreSet, sample);
      previousTyreSet, currentTyreSet, tyreSets, Repr := currentTyreSet, t, tyreSets + {t}, Repr + {t};
    }

    /** TyreSetUpdate: detect the change against the stored packet, store the new one, index the fitted slot (out of range throws), then run the lifecycle. */
    method TyreSetUpdate(packet: TyreSetsPacket, session: SessionData, sample: Byte) returns (ok: bool)
      requires Valid()
      modifies Repr
      ensures Valid() && fresh(Repr - old(Repr))
      ensures tyreSetsPacket == Some(packet)
      ensures packet.fittedIdx >= TYRE_SET_SLOTS ==>
        !ok && currentTyreSet == old(currentTyreSet) && previousTyreSet == old(previousTyreSet)
      ensures packet.fittedIdx < TYRE_SET_SLOTS ==> TyreSetRules(Newer.TyreSetChanged(old(tyreSetsPacket), packet), session, sample)
      ensures Own() == old(Own()).(tyreSetsPacket := Some(packet), currentTyreSet := currentTyreSet,
                                   previousTyreSet := previousTyreSet, tyreSets := tyreSets)
      ensures unchanged(old(tyreSets) - {currentTyreSet})
      ensures old(fuel) != null ==> unchanged(old(fuel))
    {
      var changed := Newer.TyreSetChanged(tyreSetsPacket, packet);
      tyreSetsPacket := Some(packet);
      if packet.fittedIdx >= TYRE_SET_SLOTS {
        return false;
      }
      UpdateTyreSet(changed, session, sample);
      ok := true;
    }

    /** SessionHistoryUpdate: store the packet and recompute the average behind the guard; `ok` is false when a slot read throws. */
    method SessionHistoryUpdate(h: SessionHistoryPacket) returns (ok: bool)
      requires Valid()
      modifies this
      ensures Valid() && Repr == old(Repr)
      ensures history == h
      ensures ok <==> Newer.HistoryStep(h, currentLapNumber, old(CurrentPace())).Some?
      ensures ok ==> CurrentPace() == Newer.HistoryStep(h, currentLapNumber, old(CurrentPace())).value
      ensures !ok ==> CurrentPace() == old(CurrentPace())
      ensures Own() == old(Own()).(history := h, pace := CurrentPace())
      ensures unchanged(old(tyreSets))
      ensures old(fuel) != null ==> unchanged(old(fuel))
    {
      history := h;
      if currentLapNumber <= 1 {
        return true;
      }
      if currentLapNumber - 1 >= |h.lapTimesInMS| {
        return false;
      }
      var previousLapCompleted := h.lapTimesInMS[currentLapNumber - 2] != 0;
      var currentLapNotCompleted := h.lapTimesInMS[currentLapNumber - 1] == 0;
      var outOfDateAverageLap := currentLapNumber > averageLapLastCalculatedOnLap;
      ok := true;
      if previousLapCompleted && currentLapNotCompleted && outOfDateAverageLap {
        ok := UpdateAverageLapTime(Newer.AVERAGE_LAP_NUM_LAPS);
        if ok {
          averageLapLastCalculatedOnLap := currentLapNumber;
        }
      }
    }

    /** UpdateAverageLapTime: collect the qualifying laps of the window and replace the average by their mean, if any. */
    method UpdateAverageLapTime(numPreviousLaps: int) returns (ok: bool)
      requires Valid()
      modifies this
      ensures Valid() && Repr == old(Repr)
      ensures ok <==> Newer.AverageLapTime(history, currentLapNumber, numPreviousLaps, old(lastThreeLapAverageLapTime)).Some?
      ensures ok ==>
        lastThreeLapAverageLapTime == Newer.AverageLapTime(history, currentLapNumber, numPreviousLaps, old(lastThreeLapAverageLapTime)).value
      ensures !ok ==> lastThreeLapAverageLapTime == old(lastThreeLapAverageLapTime)
      ensures Own() == old(Own()).(pace := old(CurrentPace()).(average := lastThreeLapAverageLapTime))
      ensures unchanged(old(tyreSets))
      ensures old(fuel) != null ==> unchanged(old(fuel))
    {
      var endIndex := currentLapNumber - 1;
      var startLap := Max(0, endIndex - numPreviousLaps);
      var collected, lapTimes := Newer.CollectQualifyingLaps(history, startLap, endIndex);
      Newer.CollectedAverage(history, currentLapNumber, numPreviousLaps, lastThreeLapAverageLapTime, collected, lapTimes);
      var average := lastThreeLapAverageLapTime;
      if collected && |lapTimes| > 0 {
        average := Newer.Mean(lapTimes);
      }
      lastThreeLapAverageLapTime := average;
      ok := collected;
    }

  }

  //// the publication prefix ////

  /**
   * The prefix the older `UpdateProperties` builds, as written: it asks for
   * the player prefix whatever `isPlayer` says, so it is the player prefix
   * for every car and in both passes of the player.
   */
  function PassPrefixAsWritten(isPlayer: bool, position: nat): (r: string)
    ensures r == "PdM_Player_"
  {
    ParticipantPrefix(true, position)
  }

  /** As written, every car publishes under the player's name and under no name of its own position. */
  lemma EveryCarPublishesAsPlayer(position: nat, other: nat)
    ensures PassPrefixAsWritten(false, position) == PassPrefixAsWritten(false, other) == PassPrefixAsWritten(true, position)
    ensures PassPrefixAsWritten(false, position) != ParticipantPrefix(false, position)
  {
    ParticipantPrefixRoundTrip(position);
    assert ParticipantIndexOf("PdM_Player_") == -1;
  }

  /** The prefix as intended: the player's name in the player pass, the position's name otherwise, as in the newer revision. */
  function PassPrefix(isPlayer: bool, position: nat): (r: string)
    ensures isPlayer ==> r == "PdM_Player_"
  {
    ParticipantPrefix(isPlayer, position)
  }

  /** Corrected, a plain pass publishes under a name that reads back as the car's position. */
  lemma PassPrefixNamesPosition(position: nat)
    ensures ParticipantIndexOf(PassPrefix(false, position)) == position
  {
    ParticipantPrefixRoundTrip(position);
  }

  /** Corrected, cars at different positions publish under different names. */
  lemma {:induction false} PassPrefixesDistinct(position: nat, other: nat)
    requires position != other
    ensures PassPrefix(false, position) != PassPrefix(false, other)
  {
    if PassPrefix(false, position) == PassPrefix(false, other) {
      ParticipantPrefixInjective(position, other);
    }
  }
}
