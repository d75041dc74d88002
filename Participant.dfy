/**
 * One car of the newer revision (F1_2023/Participant/Participant.cs): the
 * packet slices it stores, the name and status rules, write-once mini-sector
 * timestamps, the guarded rolling lap-pace average, the tyre-set chain with
 * its one-level undo, the fuel stint, and the throttled publication pass.
 */
module Participant {
  import opened Numeric
  import opened Telemetry
  import opened Utility
  import TyreSet
  import Fuel
  import Property

  //// names ////

  /** The index of the last space in `s`, or -1 when there is none. */
  function LastSpace(s: string): (r: int)
    ensures -1 <= r < |s|
    ensures r >= 0 ==> s[r] == ' '
    ensures forall k :: r < k < |s| ==> s[k] != ' '
  {
    if |s| == 0 then -1
    else if s[|s| - 1] == ' ' then |s| - 1
    else LastSpace(s[..|s| - 1])
  }

  /** The text after the last space: the last element of `Split(' ')`. */
  function LastToken(s: string): (r: string)
    ensures ' ' !in r
    ensures |r| <= |s| && r == s[|s| - |r|..]
    ensures ' ' !in s ==> r == s
    ensures ' ' in s ==> |r| < |s| && s[|s| - |r| - 1] == ' '
  {
    s[LastSpace(s) + 1..]
  }

  /** Whatever precedes the final space, the last token is what follows it. */
  lemma LastTokenAfterSpace(first: string, last: string)
    requires ' ' !in last
    ensures LastToken(first + " " + last) == last
  {
    var s := first + " " + last;
    assert s[|first|] == ' ';
    forall k | |first| < k < |s| ensures s[k] != ' ' {
      assert s[k] == last[k - |first| - 1];
    }
    assert LastSpace(s) == |first|;
    assert s[|first| + 1..] == last;
  }

  /**
   * AbbreviatedName: with a space, the first three letters of the last token
   * (Substring throws when it is shorter, modelled as None); otherwise the
   * first three letters or fewer; upper-cased in both cases.
   */
  function AbbreviatedName(name: string): (r: Option<string>)
  {
    if ' ' in name then
      var last := LastToken(name);
      if |last| >= 3 then Some(ToUpper(last[..3])) else None
    else Some(ToUpper(name[..Min(3, |name|)]))
  }

  /** The abbreviation rule in both directions, including when it throws. */
  lemma AbbreviatedNameRule(name: string)
    ensures AbbreviatedName(name).None? <==> ' ' in name && |LastToken(name)| < 3
    ensures ' ' !in name ==> AbbreviatedName(name) == Some(ToUpper(name[..Min(3, |name|)]))
    ensures ' ' in name && |LastToken(name)| >= 3 ==> AbbreviatedName(name) == Some(ToUpper(LastToken(name)[..3]))
    ensures AbbreviatedName(name).Some? ==> |AbbreviatedName(name).value| == Min(3, |name|)
  {
  }

  /** "Lewis Hamilton" abbreviates to "HAM": the last token's first three letters. */
  lemma AbbreviatedNameOfFullName()
    ensures AbbreviatedName("Lewis Hamilton") == Some("HAM")
  {
    LastTokenOfFullName();
    UpperOfHam();
  }

  /** The last token of "Lewis Hamilton". */
  lemma LastTokenOfFullName()
    ensures ' ' in "Lewis Hamilton" && LastToken("Lewis Hamilton") == "Hamilton"
  {
    assert "Lewis Hamilton" == "Lewis" + " " + "Hamilton";
    LastTokenAfterSpace("Lewis", "Hamilton");
    assert "Lewis Hamilton"[5] == ' ';
  }

  /** The first three letters of "Hamilton", upper-cased. */
  lemma UpperOfHam()
    ensures ToUpper("Hamilton"[..3]) == "HAM"
  {
    assert "Hamilton"[..3] == "Ham";
    var u := ToUpper("Ham");
    assert u[0] == 'H' && u[1] == 'A' && u[2] == 'M';
    assert u == "HAM";
  }

  /** A name ending in a space has an empty last token, so Substring(0, 3) throws. */
  lemma AbbreviatedNameTrailingSpace()
    ensures AbbreviatedName("Lewis ") == None
  {
    LastTokenAfterSpace("Lewis", "");
    assert "Lewis " == "Lewis" + " " + "";
  }

  //// status ////

  /** Position: the reported position, raised to 1 when it is 0. */
  function Position(lap: LapData): (r: Byte)
    ensures 1 <= r
    ensures lap.carPosition >= 1 ==> r == lap.carPosition
  {
    Max(1, lap.carPosition)
  }

  predicate IsPitting(lap: LapData) { lap.pitStatus >= 1 }
  predicate InGarage(lap: LapData) { lap.driverStatus == 0 }
  predicate FlyingLap(lap: LapData) { lap.driverStatus == 1 }
  predicate InLap(lap: LapData) { lap.driverStatus == 2 }
  predicate OutLap(lap: LapData) { lap.driverStatus == 3 }
  predicate OnTrack(lap: LapData) { lap.driverStatus == 4 }

  function Count(b: bool): nat { if b then 1 else 0 }

  /** The driver-status predicates are mutually exclusive, and one holds exactly for the codes 0 to 4. */
  lemma DriverStatusExclusive(lap: LapData)
    ensures Count(InGarage(lap)) + Count(FlyingLap(lap)) + Count(InLap(lap))
          + Count(OutLap(lap)) + Count(OnTrack(lap)) <= 1
    ensures (InGarage(lap) || FlyingLap(lap) || InLap(lap) || OutLap(lap) || OnTrack(lap)) <==> lap.driverStatus <= 4
  {
  }

  //// mini-sectors ////

  const MINI_SECTOR_DISTANCE: real := 50.0

  /** The index of the 50 m segment the lap distance falls in. */
  function MiniSectorIndex(lapDistance: real): (r: int)
    ensures (r as real) * MINI_SECTOR_DISTANCE <= lapDistance < ((r + 1) as real) * MINI_SECTOR_DISTANCE
  {
    (lapDistance / MINI_SECTOR_DISTANCE).Floor
  }

  /** The entry time is added for a key only when the key is absent. */
  function RecordEntry(m: map<(int, int), real>, key: (int, int), time: real): map<(int, int), real>
  {
    if key in m then m else m[key := time]
  }

  /** Write-once: the key is present afterwards, no earlier entry changes, and only the key can be new. */
  lemma RecordEntryWriteOnce(m: map<(int, int), real>, key: (int, int), time: real)
    ensures var r := RecordEntry(m, key, time);
      && key in r && r[key] == (if key in m then m[key] else time)
      && (forall k :: k in m ==> k in r && r[k] == m[k])
      && r.Keys == m.Keys + {key}
  {
  }

  /** A mini-sector timestamp, once taken, survives every later entry. */
  lemma {:induction false} RecordEntryKeepsFirst(m: map<(int, int), real>, keys: seq<(int, int)>, times: seq<real>, key: (int, int))
    requires |keys| == |times|
    requires key in m
    ensures key in Entries(m, keys, times) && Entries(m, keys, times)[key] == m[key]
    decreases |keys|
  {
    if |keys| > 0 {
      RecordEntryKeepsFirst(RecordEntry(m, keys[0], times[0]), keys[1..], times[1..], key);
    }
  }

  /** The map after a run of mini-sector entries. */
  function Entries(m: map<(int, int), real>, keys: seq<(int, int)>, times: seq<real>): map<(int, int), real>
    requires |keys| == |times|
    decreases |keys|
  {
    if |keys| == 0 then m else Entries(RecordEntry(m, keys[0], times[0]), keys[1..], times[1..])
  }

  //// rolling lap-pace average ////

  const AVERAGE_LAP_NUM_LAPS: int := 3

  /** BestLapTime: the time of the best lap's slot, or None when `m_bestLapTimeLapNum - 1` is out of range (it throws). */
  function BestLapTime(h: SessionHistoryPacket): (r: Option<nat>)
    ensures r.Some? <==> 1 <= h.bestLapTimeLapNum <= |h.lapTimesInMS|
    ensures r.Some? ==> r.value == h.lapTimesInMS[h.bestLapTimeLapNum - 1]
  {
    if 1 <= h.bestLapTimeLapNum <= |h.lapTimesInMS| then Some(h.lapTimesInMS[h.bestLapTimeLapNum - 1]) else None
  }

  /** `(uint)(best * 1.1f)`, approximated in integers. */
  function BestLapPlus10Percent(best: nat): nat { best * 11 / 10 }

  /** The lap times with index in [lo, hi) that are strictly below `bound`, in index order. */
  function QualifyingLaps(times: seq<nat>, lo: int, hi: int, bound: nat): seq<nat>
    requires 0 <= lo && hi <= |times|
    decreases hi - lo
  {
    if hi <= lo then []
    else QualifyingLaps(times, lo, hi - 1, bound) + (if times[hi - 1] < bound then [times[hi - 1]] else [])
  }

  function SumOf(xs: seq<nat>): nat
  {
    if |xs| == 0 then 0 else SumOf(xs[..|xs| - 1]) + xs[|xs| - 1]
  }

  /** `(uint)Average()`: the floor of the mean. */
  function Mean(xs: seq<nat>): nat
    requires |xs| > 0
  {
    SumOf(xs) / |xs|
  }

  /** The first lap index averaged when the current lap is `lap`. */
  function WindowStart(lap: int, n: int): int { Max(0, lap - 1 - n) }

  /**
   * UpdateAverageLapTime as a value: None when an index is out of range
   * (the loop reads the slot and then the best lap on every iteration);
   * otherwise the mean of the qualifying laps, or `previous` when none qualifies.
   */
  function AverageLapTime(h: SessionHistoryPacket, lap: int, n: int, previous: nat): Option<nat>
  {
    var hi := lap - 1;
    var lo := WindowStart(lap, n);
    if hi <= lo then Some(previous)
    else if hi > |h.lapTimesInMS| || BestLapTime(h).None? then None
    else
      var q := QualifyingLaps(h.lapTimesInMS, lo, hi, BestLapPlus10Percent(BestLapTime(h).value));
      if |q| > 0 then Some(Mean(q)) else Some(previous)
  }

  lemma {:induction false} QualifyingLapsBelowBound(times: seq<nat>, lo: int, hi: int, bound: nat)
    requires 0 <= lo && hi <= |times|
    ensures forall x :: x in QualifyingLaps(times, lo, hi, bound) ==> x < bound
    ensures forall x :: x in QualifyingLaps(times, lo, hi, bound) ==> exists i :: lo <= i < hi && times[i] == x
    decreases hi - lo
  {
    if lo < hi {
      QualifyingLapsBelowBound(times, lo, hi - 1, bound);
    }
  }

  /** The window never holds more than `n` laps. */
  lemma {:induction false} QualifyingLapsAtMost(times: seq<nat>, lo: int, hi: int, bound: nat)
    requires 0 <= lo && hi <= |times|
    ensures |QualifyingLaps(times, lo, hi, bound)| <= Max(0, hi - lo)
    decreases hi - lo
  {
    if lo < hi {
      QualifyingLapsAtMost(times, lo, hi - 1, bound);
    }
  }

  lemma {:induction false} SumBounds(xs: seq<nat>, lo: nat, hi: nat)
    requires forall i :: 0 <= i < |xs| ==> lo <= xs[i] <= hi
    ensures |xs| * lo <= SumOf(xs) <= |xs| * hi
    decreases |xs|
  {
    if |xs| > 0 {
      var init := xs[..|xs| - 1];
      assert forall i :: 0 <= i < |init| ==> init[i] == xs[i];
      SumBounds(init, lo, hi);
      assert SumOf(xs) == SumOf(init) + xs[|xs| - 1];
      assert |xs| * lo == |init| * lo + lo;
      assert |xs| * hi == |init| * hi + hi;
    }
  }

  lemma {:induction false} MulMonotone(a: nat, x: int, y: int)
    requires x <= y
    ensures a * x <= a * y
    decreases a
  {
    if a > 0 {
      MulMonotone(a - 1, x, y);
      assert a * x == (a - 1) * x + x && a * y == (a - 1) * y + y;
    }
  }

  /** Dividing bounds of the form a*lo <= s <= a*hi by a. */
  lemma DivBetween(s: nat, a: nat, lo: nat, hi: nat)
    requires a > 0 && a * lo <= s <= a * hi
    ensures lo <= s / a <= hi
  {
    var q, r := s / a, s % a;
    assert s == a * q + r && 0 <= r < a;
    assert a * (q + 1) == a * q + a;
    assert a * (hi + 1) == a * hi + a;
    if q < lo {
      MulMonotone(a, q + 1, lo);
    }
    if q > hi {
      MulMonotone(a, hi + 1, q);
    }
  }

  /** The floor of the mean lies between the smallest and the largest element. */
  lemma MeanBetween(xs: seq<nat>, lo: nat, hi: nat)
    requires |xs| > 0
    requires forall i :: 0 <= i < |xs| ==> lo <= xs[i] <= hi
    ensures lo <= Mean(xs) <= hi
  {
    SumBounds(xs, lo, hi);
    DivBetween(SumOf(xs), |xs|, lo, hi);
  }

  /**
   * The average, when it changes, is the mean of up to `n` laps before the
   * current one, each strictly faster than best + 10%, so it is itself below
   * that bound; when no lap qualifies the previous value is kept.
   */
  lemma AverageLapTimeBelowBound(h: SessionHistoryPacket, lap: int, n: int, previous: nat)
    requires AverageLapTime(h, lap, n, previous).Some?
    requires AverageLapTime(h, lap, n, previous).value != previous
    ensures BestLapTime(h).Some?
    ensures AverageLapTime(h, lap, n, previous).value < BestLapPlus10Percent(BestLapTime(h).value)
    ensures WindowStart(lap, n) < lap - 1 <= |h.lapTimesInMS|
    ensures exists i :: WindowStart(lap, n) <= i < lap - 1 && h.lapTimesInMS[i] <= AverageLapTime(h, lap, n, previous).value
  {
    var lo, hi := WindowStart(lap, n), lap - 1;
    var bound := BestLapPlus10Percent(BestLapTime(h).value);
    var q := QualifyingLaps(h.lapTimesInMS, lo, hi, bound);
    QualifyingLapsBelowBound(h.lapTimesInMS, lo, hi, bound);
    var m := q[0];
    assert m in q;
    var k := 0;
    while k < |q|
      invariant 0 <= k <= |q| && m in q
      invariant forall j :: 0 <= j < k ==> m <= q[j]
    {
      if q[k] < m { m := q[k]; }
      k := k + 1;
    }
    assert forall i :: 0 <= i < |q| ==> m <= q[i] < bound by {
      forall i | 0 <= i < |q| ensures q[i] < bound { assert q[i] in q; }
    }
    MeanBetween(q, m, bound - 1);
  }

  /** No qualifying lap (for example a zero-width window) keeps the previous average. */
  lemma AverageLapTimeKeepsPrevious(h: SessionHistoryPacket, lap: int, n: int, previous: nat)
    requires lap - 1 <= WindowStart(lap, n)
    ensures AverageLapTime(h, lap, n, previous) == Some(previous)
  {
  }

  /**
   * Upon completing lap 4 of [90000, 91000, 200000, 89500] with best lap 4
   * (bound 98450), the window is laps 2 to 4: 200000 is excluded and the
   * mean of 91000 and 89500 is 90250.
   */
  lemma AverageLapTimeExample()
    ensures AverageLapTime(SessionHistoryPacket(0, 4, [90000, 91000, 200000, 89500, 0]), 5, AVERAGE_LAP_NUM_LAPS, 0)
         == Some(90250)
  {
    var t: seq<nat> := [90000, 91000, 200000, 89500, 0];
    assert BestLapPlus10Percent(89500) == 98450;
    ExampleQualifyingLaps(t);
    assert SumOf([91000, 89500]) == 180500 by {
      assert [91000, 89500][..1] == [91000];
      assert [91000][..0] == [];
    }
  }

  lemma ExampleQualifyingLaps(t: seq<nat>)
    requires t == [90000, 91000, 200000, 89500, 0]
    ensures QualifyingLaps(t, 1, 4, 98450) == [91000, 89500]
  {
    assert QualifyingLaps(t, 1, 1, 98450) == [];
    assert QualifyingLaps(t, 1, 2, 98450) == [91000];
    assert QualifyingLaps(t, 1, 3, 98450) == [91000];
  }

  /** The session-history guard: lap > 1, the previous slot is set, the current slot is empty, and the average is stale. */
  function HistoryGuard(h: SessionHistoryPacket, lap: int, calculatedOn: int): Option<bool>
  {
    if lap <= 1 then Some(false)
    else if lap - 1 >= |h.lapTimesInMS| then None
    else Some(h.lapTimesInMS[lap - 2] != 0 && h.lapTimesInMS[lap - 1] == 0 && lap > calculatedOn)
  }

  //// tyre-set edge ////

  /** tyreSetChanged: a packet was stored before and its fitted index differs from the new one. */
  function TyreSetChanged(stored: Option<TyreSetsPacket>, incoming: TyreSetsPacket): (r: bool)
  {
    stored.Some? && stored.value.fittedIdx != incoming.fittedIdx
  }

  lemma TyreSetChangedRule(stored: Option<TyreSetsPacket>, incoming: TyreSetsPacket)
    ensures TyreSetChanged(stored, incoming) <==> stored.Some? && stored.value.fittedIdx != incoming.fittedIdx
    ensures stored == None ==> !TyreSetChanged(stored, incoming)
    ensures stored == Some(incoming) ==> !TyreSetChanged(stored, incoming)
  {
  }

  //// properties ////

  /** A property to register: its name, declared type (the `pluginType:` argument) and update rate in ms. */
  datatype PropertySpec = PropertySpec(name: string, pluginType: Property.ValueType, updateRate: int)

  /** Whether a due property publishes `v`, rather than throwing. */
  predicate Accepts(pluginType: Property.ValueType, v: Property.Value)
  {
    v != Property.Null && Property.TypeOf(v) == pluginType
  }

  /** The publications one pass emits for an accepted value: under both names in the player pass. */
  function Emitted(isPlayer: bool, position: int, name: string, v: Property.Value): seq<Property.Publication>
  {
    if isPlayer
    then [Property.Publication(ParticipantPrefix(true, position), name, v),
          Property.Publication(ParticipantPrefix(false, position), name, v)]
    else [Property.Publication(ParticipantPrefix(false, position), name, v)]
  }

  //// the session-history edge ////

  /** The rolling average and the lap on which it was last computed. */
  datatype Pace = Pace(average: nat, calculatedOn: int)

  /** SessionHistoryUpdate as a value: None when a slot read is out of range. */
  function HistoryStep(h: SessionHistoryPacket, lap: int, p: Pace): Option<Pace>
  {
    match HistoryGuard(h, lap, p.calculatedOn)
    case None => None
    case Some(false) => Some(p)
    case Some(true) =>
      match AverageLapTime(h, lap, AVERAGE_LAP_NUM_LAPS, p.average)
      case None => None
      case Some(a) => Some(Pace(a, lap))
  }

  /** The average is recomputed only past the first lap, on a finished previous lap, an unfinished current lap and a stale stamp; the stamp is then the current lap. */
  lemma HistoryStepGuarded(h: SessionHistoryPacket, lap: int, p: Pace)
    requires HistoryStep(h, lap, p).Some? && HistoryStep(h, lap, p).value != p
    ensures 1 < lap < |h.lapTimesInMS| + 1
    ensures h.lapTimesInMS[lap - 2] != 0 && h.lapTimesInMS[lap - 1] == 0 && lap > p.calculatedOn
    ensures HistoryStep(h, lap, p).value.calculatedOn == lap
  {
  }

  /** A second history packet on the same lap changes nothing. */
  lemma HistoryStepIdempotent(h: SessionHistoryPacket, lap: int, p: Pace)
    requires HistoryStep(h, lap, p).Some?
    ensures HistoryStep(h, lap, HistoryStep(h, lap, p).value) == HistoryStep(h, lap, p)
  {
  }

  /** The publication pass of one property: a due property of the right type is stamped and published; any other is left as it was. */
  twostate predicate Passed(p: Property.Property, isPlayer: bool, position: int, now: int, v: Property.Value)
    reads p
  {
    if old(p.UpdateRequired(now))
    then Accepts(p.pluginType, v) && p.lastUpdated == now
         && p.published == old(p.published) + Emitted(isPlayer, position, p.name, v)
    else p.lastUpdated == old(p.lastUpdated) && p.published == old(p.published)
  }

  /** One property's step of the pass: `threw` when it is due with a null or mistyped value, in which case nothing changed. */
  method PublishOne(p: Property.Property, isPlayer: bool, position: int, now: int, v: Property.Value) returns (threw: bool)
    modifies p
    ensures threw <==> old(p.UpdateRequired(now)) && !Accepts(p.pluginType, v)
    ensures !threw ==> Passed(p, isPlayer, position, now, v)
    ensures threw ==> p.lastUpdated == old(p.lastUpdated) && p.published == old(p.published)
  {
    var outcome;
    if isPlayer {
      outcome := p.UpdateForPlayer(ParticipantPrefix(true, position), ParticipantPrefix(false, position), now, v);
    } else {
      outcome := p.Update(ParticipantPrefix(false, position), now, v);
    }
    threw := outcome == Property.ThrewNullValue || outcome == Property.ThrewTypeMismatch;
  }

  /** The packet slices a participant stores verbatim. */
  datatype StoredSlices = StoredSlices(rawName: string, index: int, carDamage: CarDamage, lapData: LapData, carStatus: CarStatus)

  /** What CollectQualifyingLaps returns for the window of `lap` determines AverageLapTime. */
  lemma CollectedAverage(h: SessionHistoryPacket, lap: int, n: int, previous: nat, ok: bool, lapTimes: seq<nat>)
    requires var lo, hi := WindowStart(lap, n), lap - 1;
      && (ok <==> hi <= lo || (hi <= |h.lapTimesInMS| && BestLapTime(h).Some?))
      && (ok && hi <= lo ==> lapTimes == [])
      && (ok && lo < hi ==> lapTimes == QualifyingLaps(h.lapTimesInMS, lo, hi, BestLapPlus10Percent(BestLapTime(h).value)))
    ensures ok <==> AverageLapTime(h, lap, n, previous).Some?
    ensures ok ==> AverageLapTime(h, lap, n, previous).value == if |lapTimes| > 0 then Mean(lapTimes) else previous
  {
  }

  /**
   * The loop of UpdateAverageLapTime: the laps of the window [startLap,
   * endIndex) below the best lap plus ten percent, in order. Every turn reads
   * the lap slot and then the best lap, so `ok` is false exactly when the
   * window is not empty and either read is out of range.
   */
  method CollectQualifyingLaps(h: SessionHistoryPacket, startLap: int, endIndex: int) returns (ok: bool, lapTimes: seq<nat>)
    requires 0 <= startLap
    ensures ok <==> endIndex <= startLap || (endIndex <= |h.lapTimesInMS| && BestLapTime(h).Some?)
    ensures ok && endIndex <= startLap ==> lapTimes == []
    ensures ok && startLap < endIndex ==>
      lapTimes == QualifyingLaps(h.lapTimesInMS, startLap, endIndex, BestLapPlus10Percent(BestLapTime(h).value))
  {
    var times := h.lapTimesInMS;
    lapTimes := [];
    ghost var bound := if BestLapTime(h).Some? then BestLapPlus10Percent(BestLapTime(h).value) else 0;
    var i := startLap;
    while i < endIndex
      invariant startLap <= i && (i == startLap || i <= endIndex)
      invariant i == startLap ==> lapTimes == []
      invariant i > startLap ==> i <= |times| && BestLapTime(h).Some?
      invariant i > startLap ==> lapTimes == QualifyingLaps(times, startLap, i, bound)
    {
      if i >= |times| {
        return false, lapTimes;
      }
      var lapTime := times[i];
      var best := BestLapTime(h);
      if best.None? {
        return false, lapTimes;
      }
      if lapTime < BestLapPlus10Percent(best.value) {
        lapTimes := lapTimes + [lapTime];
      }
      i := i + 1;
    }
    ok := true;
  }

  /** Every field a participant holds itself, as one value: what each update method states it leaves or changes. */
  datatype OwnFields = OwnFields(
    slices: StoredSlices, tyreSetsPacket: Option<TyreSetsPacket>, history: SessionHistoryPacket,
    currentLapNumber: Byte, currentTyreSet: TyreSet.TyreSet?, previousTyreSet: TyreSet.TyreSet?,
    tyreSets: set<TyreSet.TyreSet>, fuel: Fuel.Fuel?, pace: Pace, timeAtMiniSector: map<(int, int), real>)

  /** A car's tyre sets as the lifecycle sees them: the current and previous sets, their states (when there is a set), and the sets they link back to. */
  datatype TyreSnapshot = TyreSnapshot(current: TyreSet.TyreSet?, previous: TyreSet.TyreSet?,
                                       currentState: Option<TyreSet.TyreState>, previousState: Option<TyreSet.TyreState>,
                                       currentLink: TyreSet.TyreSet?, previousLink: TyreSet.TyreSet?)

  /** A change behind the fitting odometer of the set that is current in `b`: UpdateTyreSet then undoes one level. */
  predicate Behind(b: TyreSnapshot, r: CarReadings)
  {
    b.currentState.Some? && r.totalDistance < b.currentState.value.odometerAtFitting
  }

  /** Whether UpdateTyreSet fits a new set: there was none, or the change moves forward. */
  predicate FitsNewSet(b: TyreSnapshot, r: CarReadings, changed: bool)
  {
    b.current == null || (changed && !Behind(b, r))
  }

  /**
   * The tyre-set lifecycle of UpdateTyreSet, from the sets `b` before it to
   * the sets `a` after it, with `r` the car's readings: the first set is
   * fitted; without a change the current set is updated; a change behind the
   * fitting odometer undoes one level; any other change pushes a new set.
   */
  predicate TyreSetStep(b: TyreSnapshot, a: TyreSnapshot, r: CarReadings, changed: bool, session: SessionData, sample: Byte, ok: bool)
  {
    match a
    case TyreSnapshot(current, previous, state, _, link, _) =>
      && (b.current == null ==>
            && current != null && link == null && previous == b.previous && state.Some?
            && TyreSet.StepResult(state.value, !ok) == TyreSet.Step(TyreSet.Fresh(r, session, sample), r, session))
      && (b.current != null && !changed ==>
            && current == b.current && previous == b.previous && b.currentState.Some? && state.Some?
            && TyreSet.StepResult(state.value, !ok) == TyreSet.Step(b.currentState.value, r, session))
      && (b.current != null && changed && Behind(b, r) ==>
            && current == b.previous && previous == b.previousLink
            && current != b.current && previous != b.current
            && (current == null ==> ok)
            && (current != null ==>
                  && b.previousState.Some? && state.Some?
                  && TyreSet.StepResult(state.value, !ok) == TyreSet.Step(b.previousState.value, r, session)))
      && (b.current != null && changed && !Behind(b, r) ==>
            && current != null && previous == b.current && link == b.current && state.Some?
            && TyreSet.StepResult(state.value, !ok) == TyreSet.Step(TyreSet.Fresh(r, session, sample), r, session))
  }

  /** A participant object: the stored packet slices and the derived state, updated in place. */
  class Participant {
    ghost var Repr: set<object>
    /** Every tyre set reachable from this participant. */
    ghost var tyreSets: set<TyreSet.TyreSet>

    var index: int
    var rawName: string
    var lapData: LapData
    var carDamage: CarDamage
    var carStatus: CarStatus
    var tyreSetsPacket: Option<TyreSetsPacket>
    var history: SessionHistoryPacket
    var currentLapNumber: Byte
    var currentTyreSet: TyreSet.TyreSet?
    var previousTyreSet: TyreSet.TyreSet?
    var fuel: Fuel.Fuel?
    var lastThreeLapAverageLapTime: nat
    var averageLapLastCalculatedOnLap: int
    var timeAtMiniSector: map<(int, int), real>
    const properties: seq<Property.Property>

    ghost predicate Valid()
      reads this
    {
      && this in Repr
      && (fuel != null ==> fuel in Repr)
      && (forall t :: t in tyreSets ==> t in Repr)
      && (forall t :: t in tyreSets && t.previous != null ==> t.previous in tyreSets && t.previous.depth < t.depth)
      && (currentTyreSet != null ==> currentTyreSet in tyreSets && currentTyreSet.previous == previousTyreSet)
      && (currentTyreSet == null ==> previousTyreSet == null)
      && (previousTyreSet != null ==> previousTyreSet in tyreSets)
      && (forall i :: 0 <= i < |properties| ==> properties[i] in Repr)
      && (forall i, j :: 0 <= i < j < |properties| ==> properties[i] != properties[j])
    }

    /** Name: the packet's name characters with the NUL padding trimmed. */
    function Name(): string
      reads this
    {
      TrimNul(rawName)
    }

    /** What the tyre set and the fuel object read through their back-reference. */
    function Readings(): CarReadings
      reads this
    {
      CarReadings(currentLapNumber, lapData.totalDistance, lapData.lapDistance, carStatus.fuelInTank, carDamage.MaxWear())
    }

    /** The packet slices stored as they arrived. */
    function Slices(): StoredSlices
      reads this
    {
      StoredSlices(rawName, index, carDamage, lapData, carStatus)
    }

    function CurrentPace(): Pace
      reads this
    {
      Pace(lastThreeLapAverageLapTime, averageLapLastCalculatedOnLap)
    }

    ghost function Own(): OwnFields
      reads this
    {
      OwnFields(Slices(), tyreSetsPacket, history, currentLapNumber, currentTyreSet, previousTyreSet,
                tyreSets, fuel, CurrentPace(), timeAtMiniSector)
    }

    /** The fields that only a tyre-sets packet changes. */
    ghost function TyreFields(): (Option<TyreSetsPacket>, TyreSet.TyreSet?, TyreSet.TyreSet?, set<TyreSet.TyreSet>)
      reads this
    {
      (tyreSetsPacket, currentTyreSet, previousTyreSet, tyreSets)
    }

    /** The fields that only a session-history packet changes. */
    ghost function HistoryFields(): (SessionHistoryPacket, Pace)
      reads this
    {
      (history, CurrentPace())
    }

    /** The fields that the lap and status slices drive: the lap number, the mini-sector entries and the fuel object. */
    ghost function LapFields(): (Byte, map<(int, int), real>, Fuel.Fuel?)
      reads this
    {
      (currentLapNumber, timeAtMiniSector, fuel)
    }

    /** The constructor registers the properties (stamped at `now`) and starts with no tyre set, no fuel stint and no mini-sector entries. */
    constructor (specs: seq<PropertySpec>, now: int)
      ensures Valid() && fresh(Repr)
      ensures |properties| == |specs|
      ensures forall i :: 0 <= i < |specs| ==>
        && properties[i].name == specs[i].name && properties[i].updateRate == specs[i].updateRate
        && properties[i].pluginType == specs[i].pluginType
        && properties[i].lastUpdated == now && properties[i].published == []
      ensures currentTyreSet == null && previousTyreSet == null && fuel == null
      ensures tyreSetsPacket == None && timeAtMiniSector == map[] && CurrentPace() == Pace(0, 0)
      ensures lapData == NoLapData && currentLapNumber == 0
    {
      var ps: seq<Property.Property> := [];
      ghost var objs: set<object> := {};
      var i := 0;
      while i < |specs|
        invariant 0 <= i <= |specs| && |ps| == i
        invariant forall j :: 0 <= j < i ==> fresh(ps[j]) && ps[j] in objs
        invariant forall j :: 0 <= j < i ==>
          && ps[j].name == specs[j].name && ps[j].updateRate == specs[j].updateRate
          && ps[j].pluginType == specs[j].pluginType
          && ps[j].lastUpdated == now && ps[j].published == []
        invariant forall j, k :: 0 <= j < k < i ==> ps[j] != ps[k]
        invariant fresh(objs)
      {
        var p := new Property.Property(specs[i].name, specs[i].pluginType, specs[i].updateRate, now);
        ps := ps + [p];
        objs := objs + {p};
        i := i + 1;
      }
      properties := ps;
      index, rawName := 0, [];
      lapData, carDamage, carStatus := NoLapData, NoCarDamage, NoCarStatus;
      tyreSetsPacket, history := None, SessionHistoryPacket(0, 0, []);
      currentLapNumber := 0;
      currentTyreSet, previousTyreSet, fuel := null, null, null;
      lastThreeLapAverageLapTime, averageLapLastCalculatedOnLap := 0, 0;
      timeAtMiniSector := map[];
      Repr := {this} + objs;
      tyreSets := {};
    }

    //// packet updates ////

    method ParticipantUpdate(name: string, index: int)
      requires Valid()
      modifies this
      ensures Valid() && Repr == old(Repr)
      ensures Own() == old(Own()).(slices := old(Slices()).(rawName := name, index := index))
      ensures (forall k :: 0 <= k < |properties| ==> unchanged(properties[k])) && unchanged(old(tyreSets))
      ensures old(fuel) != null ==> unchanged(old(fuel))
    {
      rawName := name;
      this.index := index;
    }

    method CarDamageUpdate(damage: CarDamage)
      requires Valid()
      modifies this
      ensures Valid() && Repr == old(Repr)
      ensures Own() == old(Own()).(slices := old(Slices()).(carDamage := damage))
      ensures (forall k :: 0 <= k < |properties| ==> unchanged(properties[k])) && unchanged(old(tyreSets))
      ensures old(fuel) != null ==> unchanged(old(fuel))
    {
      carDamage := damage;
    }

    /** LapDataUpdate: store the slice, take its lap number, and record the mini-sector entry. */
    method LapDataUpdate(lap: LapData, sessionTime: real)
      requires Valid()
      modifies this
      ensures Valid() && Repr == old(Repr)
      ensures Own() == old(Own()).(
        slices := old(Slices()).(lapData := lap), currentLapNumber := lap.currentLapNum,
        timeAtMiniSector := RecordEntry(old(timeAtMiniSector), (lap.currentLapNum, MiniSectorIndex(lap.lapDistance)), sessionTime))
      ensures (forall k :: 0 <= k < |properties| ==> unchanged(properties[k])) && unchanged(old(tyreSets))
      ensures old(fuel) != null ==> unchanged(old(fuel))
    {
      lapData := lap;
      currentLapNumber := lap.currentLapNum;
      TryUpdateMiniSectorTime(sessionTime);
    }

    /** TryUpdateMiniSectorTime: the entry time of the current (lap, mini-sector) is written once. */
    method TryUpdateMiniSectorTime(sessionTime: real)
      requires Valid()
      modifies this
      ensures Valid() && Repr == old(Repr)
      ensures Own() == old(Own()).(
        timeAtMiniSector := RecordEntry(old(timeAtMiniSector), (lapData.currentLapNum, MiniSectorIndex(lapData.lapDistance)), sessionTime))
      ensures (forall k :: 0 <= k < |properties| ==> unchanged(properties[k])) && unchanged(old(tyreSets))
      ensures old(fuel) != null ==> unchanged(old(fuel))
    {
      var key := (lapData.currentLapNum as int, MiniSectorIndex(lapData.lapDistance));
      if key !in timeAtMiniSector {
        timeAtMiniSector := timeAtMiniSector[key := sessionTime];
      }
    }

    method CarStatusUpdate(status: CarStatus, session: SessionData)
      requires Valid()
      modifies this, fuel
      ensures Valid() && fresh(Repr - old(Repr))
      ensures Own() == old(Own()).(slices := old(Slices()).(carStatus := status), fuel := fuel)
      ensures (forall k :: 0 <= k < |properties| ==> unchanged(properties[k])) && unchanged(old(tyreSets))
      ensures InGarage(lapData) ==> fuel == null
      ensures !InGarage(lapData) && old(fuel) == null ==>
        fuel != null && fresh(fuel) && fuel.State() == Fuel.Step(Fuel.Fresh(Readings(), session), Readings(), session)
      ensures !InGarage(lapData) && old(fuel) != null ==>
        fuel == old(fuel) && fuel.State() == Fuel.Step(old(fuel.State()), Readings(), session)
    {
      carStatus := status;
      UpdateFuel(session);
    }

    /** UpdateFuel: no stint in the garage; outside it, a stint is started when none exists, and the stint is then updated. */
    method UpdateFuel(session: SessionData)
      requires Valid()
      modifies this, fuel
      ensures Valid() && fresh(Repr - old(Repr))
      ensures InGarage(lapData) ==> fuel == null
      ensures !InGarage(lapData) && old(fuel) == null ==>
        fuel != null && fresh(fuel) && fuel.State() == Fuel.Step(Fuel.Fresh(Readings(), session), Readings(), session)
      ensures !InGarage(lapData) && old(fuel) != null ==>
        fuel == old(fuel) && fuel.State() == Fuel.Step(old(fuel.State()), Readings(), session)
      ensures Own() == old(Own()).(fuel := fuel)
      ensures (forall k :: 0 <= k < |properties| ==> unchanged(properties[k])) && unchanged(old(tyreSets))
    {
      if InGarage(lapData) {
        fuel := null;
      } else if fuel == null {
        var f := new Fuel.Fuel(Readings(), session);
        fuel := f;
        Repr := Repr + {f};
      }
      if fuel != null {
        fuel.Update(Readings(), session);
      }
    }

    /**
     * What storing a lap slice and then a status slice does to the derived
     * state, in both states: the lap number is the slice's, the mini-sector
     * entry is recorded, and the fuel object follows its lifecycle.
     */
    twostate predicate LapAndFuelRules(lap: LapData, session: SessionData, sessionTime: real)
      reads this, fuel
    {
      && currentLapNumber == lap.currentLapNum
      && timeAtMiniSector == RecordEntry(old(timeAtMiniSector), (lap.currentLapNum, MiniSectorIndex(lap.lapDistance)), sessionTime)
      && (InGarage(lap) ==> fuel == null)
      && (!InGarage(lap) && old(fuel) == null ==>
            fuel != null && fresh(fuel) && fuel.State() == Fuel.Step(Fuel.Fresh(Readings(), session), Readings(), session))
      && (!InGarage(lap) && old(fuel) != null ==>
            fuel == old(fuel) && fuel.State() == Fuel.Step(old(fuel.State()), Readings(), session))
    }

    /** The car's tyre sets, as the lifecycle sees them. */
    ghost function Tyres(): TyreSnapshot
      reads this, currentTyreSet, previousTyreSet
    {
      TyreSnapshot(currentTyreSet, previousTyreSet,
                   if currentTyreSet == null then None else Some(currentTyreSet.State()),
                   if previousTyreSet == null then None else Some(previousTyreSet.State()),
                   if currentTyreSet == null then null else currentTyreSet.previous,
                   if previousTyreSet == null then null else previousTyreSet.previous)
    }

    /** The tyre-set lifecycle of UpdateTyreSet, in both states: the step between the sets before and after it, with a newly allocated set whenever one is fitted. */
    twostate predicate TyreSetRules(changed: bool, session: SessionData, sample: Byte, ok: bool)
      reads this, currentTyreSet, previousTyreSet
    {
      && TyreSetStep(old(Tyres()), Tyres(), Readings(), changed, session, sample, ok)
      && (FitsNewSet(old(Tyres()), Readings(), changed) ==> fresh(currentTyreSet))
    }

    /**
     * UpdateTyreSet: create the first set; on a change, either undo one level
     * (the odometer is behind the current set's fitting odometer) or push the
     * current set and fit a new one; then update the current set. `ok` is
     * false when the set's WearByLap.Add throws.
     */
    method UpdateTyreSet(changed: bool, session: SessionData, sample: Byte) returns (ok: bool)
      requires Valid()
      modifies Repr
      ensures Valid() && fresh(Repr - old(Repr))
      ensures TyreSetRules(changed, session, sample, ok)
      ensures Own() == old(Own()).(currentTyreSet := currentTyreSet, previousTyreSet := previousTyreSet, tyreSets := tyreSets)
      ensures (forall k :: 0 <= k < |properties| ==> unchanged(properties[k])) && unchanged(old(tyreSets) - {currentTyreSet})
      ensures old(fuel) != null ==> unchanged(old(fuel))
    {
      ChooseTyreSet(changed, session, sample);
      ok := true;
      if currentTyreSet != null {
        var threw := currentTyreSet.Update(Readings(), session);
        ok := !threw;
      }
    }

    /**
     * The first half of UpdateTyreSet: which set is current afterwards. A new
     * set is fitted when there is none or the change moves forward; a change
     * behind the current set's fitting odometer undoes one level.
     */
    method ChooseTyreSet(changed: bool, session: SessionData, sample: Byte)
      requires Valid()
      modifies this
      ensures Valid() && fresh(Repr - old(Repr))
      ensures Own() == old(Own()).(currentTyreSet := currentTyreSet, previousTyreSet := previousTyreSet, tyreSets := tyreSets)
      ensures (forall k :: 0 <= k < |properties| ==> unchanged(properties[k])) && unchanged(old(tyreSets))
      ensures old(fuel) != null ==> unchanged(old(fuel))
      ensures old(currentTyreSet) == null ==>
        && currentTyreSet != null && fresh(currentTyreSet) && currentTyreSet.previous == null
        && previousTyreSet == old(previousTyreSet)
        && currentTyreSet.State() == TyreSet.Fresh(Readings(), session, sample)
      ensures old(currentTyreSet) != null && !changed ==>
        currentTyreSet == old(currentTyreSet) && previousTyreSet == old(previousTyreSet)
      ensures old(currentTyreSet) != null && changed && lapData.totalDistance < old(currentTyreSet).odometerAtFitting ==>
        && currentTyreSet == old(previousTyreSet)
        && previousTyreSet == (if old(previousTyreSet) == null then null else old(previousTyreSet).previous)
        && currentTyreSet != old(currentTyreSet) && previousTyreSet != old(currentTyreSet)
      ensures old(currentTyreSet) != null && changed && lapData.totalDistance >= old(currentTyreSet).odometerAtFitting ==>
        && currentTyreSet != null && fresh(currentTyreSet)
        && previousTyreSet == old(currentTyreSet) && currentTyreSet.previous == old(currentTyreSet)
        && currentTyreSet.State() == TyreSet.Fresh(Readings(), session, sample)
    {
      if currentTyreSet == null {
        PushTyreSet(session, sample);
      } else if changed {
        if lapData.totalDistance < currentTyreSet.odometerAtFitting {
          var p := previousTyreSet;
          currentTyreSet := p;
          previousTyreSet := if p == null then null else p.previous;
        } else {
          PushTyreSet(session, sample);
        }
      }
    }

    /** Fit a new set on top of the current one, which becomes the previous set (null for the first set). */
    method PushTyreSet(session: SessionData, sample: Byte)
      requires Valid()
      modifies this
      ensures Valid() && fresh(Repr - old(Repr))
      ensures currentTyreSet != null && fresh(currentTyreSet)
      ensures Own() == old(Own()).(currentTyreSet := currentTyreSet, previousTyreSet := old(currentTyreSet),
                                   tyreSets := old(tyreSets) + {currentTyreSet})
      ensures (forall k :: 0 <= k < |properties| ==> unchanged(properties[k])) && unchanged(old(tyreSets))
      ensures old(fuel) != null ==> unchanged(old(fuel))
      ensures previousTyreSet == old(currentTyreSet) && currentTyreSet.previous == old(currentTyreSet)
      ensures currentTyreSet.State() == TyreSet.Fresh(Readings(), session, sample)
    {
      var t := new TyreSet.TyreSet(Readings(), session, currentTyreSet, sample);
      ghost var before := Own();
      previousTyreSet, currentTyreSet, tyreSets, Repr := currentTyreSet, t, tyreSets + {t}, Repr + {t};
      assert Own() == before.(currentTyreSet := t, previousTyreSet := before.currentTyreSet, tyreSets := before.tyreSets + {t});
    }

    /** TyreSetUpdate: detect the change against the stored packet, store the new one, index the fitted slot (out of range throws), then run the lifecycle. */
    method TyreSetUpdate(packet: TyreSetsPacket, session: SessionData, sample: Byte) returns (ok: bool)
      requires Valid()
      modifies Repr
      ensures Valid() && fresh(Repr - old(Repr))
      ensures tyreSetsPacket == Some(packet)
      ensures packet.fittedIdx >= TYRE_SET_SLOTS ==>
        !ok && currentTyreSet == old(currentTyreSet) && previousTyreSet == old(previousTyreSet)
      ensures packet.fittedIdx < TYRE_SET_SLOTS ==> TyreSetRules(TyreSetChanged(old(tyreSetsPacket), packet), session, sample, ok)
      ensures Own() == old(Own()).(tyreSetsPacket := Some(packet), currentTyreSet := currentTyreSet,
                                   previousTyreSet := previousTyreSet, tyreSets := tyreSets)
      ensures (forall k :: 0 <= k < |properties| ==> unchanged(properties[k])) && unchanged(old(tyreSets) - {currentTyreSet})
      ensures old(fuel) != null ==> unchanged(old(fuel))
    {
      var changed := TyreSetChanged(tyreSetsPacket, packet);
      tyreSetsPacket := Some(packet);
      if packet.fittedIdx >= TYRE_SET_SLOTS {
        return false;
      }
      ok := UpdateTyreSet(changed, session, sample);
    }

    /** SessionHistoryUpdate: store the packet and recompute the average behind the guard; `ok` is false when a slot read throws. */
    method SessionHistoryUpdate(h: SessionHistoryPacket) returns (ok: bool)
      requires Valid()
      modifies this
      ensures Valid() && Repr == old(Repr)
      ensures history == h
      ensures ok <==> HistoryStep(h, currentLapNumber, old(CurrentPace())).Some?
      ensures ok ==> CurrentPace() == HistoryStep(h, currentLapNumber, old(CurrentPace())).value
      ensures !ok ==> CurrentPace() == old(CurrentPace())
      ensures Own() == old(Own()).(history := h, pace := CurrentPace())
      ensures (forall k :: 0 <= k < |properties| ==> unchanged(properties[k])) && unchanged(old(tyreSets))
      ensures old(fuel) != null ==> unchanged(old(fuel))
    {
      history := h;
      if currentLapNumber <= 1 {
        return true;
      }
      if currentLapNumber - 1 >= |h.lapTimesInMS| {
        return false;
      }
      var previousLapCompleted := h.lapTimesInMS[currentLapNumber - 2] != 0;
      var currentLapNotCompleted := h.lapTimesInMS[currentLapNumber - 1] == 0;
      var outOfDateAverageLap := currentLapNumber > averageLapLastCalculatedOnLap;
      ok := true;
      if previousLapCompleted && currentLapNotCompleted && outOfDateAverageLap {
        ok := UpdateAverageLapTime(AVERAGE_LAP_NUM_LAPS);
        if ok {
          averageLapLastCalculatedOnLap := currentLapNumber;
        }
      }
    }

    /** UpdateAverageLapTime: collect the qualifying laps of the window and replace the average by their mean, if any. */
    method UpdateAverageLapTime(numPreviousLaps: int) returns (ok: bool)
      requires Valid()
      modifies this
      ensures Valid() && Repr == old(Repr)
      ensures ok <==> AverageLapTime(history, currentLapNumber, numPreviousLaps, old(lastThreeLapAverageLapTime)).Some?
      ensures ok ==>
        lastThreeLapAverageLapTime == AverageLapTime(history, currentLapNumber, numPreviousLaps, old(lastThreeLapAverageLapTime)).value
      ensures !ok ==> lastThreeLapAverageLapTime == old(lastThreeLapAverageLapTime)
      ensures Own() == old(Own()).(pace := old(CurrentPace()).(average := lastThreeLapAverageLapTime))
      ensures (forall k :: 0 <= k < |properties| ==> unchanged(properties[k])) && unchanged(old(tyreSets))
      ensures old(fuel) != null ==> unchanged(old(fuel))
    {
      var endIndex := currentLapNumber - 1;
      var startLap := Max(0, endIndex - numPreviousLaps);
      var collected, lapTimes := CollectQualifyingLaps(history, startLap, endIndex);
      CollectedAverage(history, currentLapNumber, numPreviousLaps, lastThreeLapAverageLapTime, collected, lapTimes);
      if !collected {
        return false;
      }
      if |lapTimes| > 0 {
        lastThreeLapAverageLapTime := Mean(lapTimes);
      }
      ok := true;
    }

    //// publication ////

    /**
     * UpdateProperties, with the player pass corrected: each property is
     * checked once and, when due, published under the name of its prefix (and,
     * for the player, under the plain participant prefix as well). A throw
     * stops the pass at property `done`.
     */
    method UpdateProperties(isPlayer: bool, now: int, values: seq<Property.Value>) returns (ok: bool, done: nat)
      requires Valid() && |values| == |properties|
      modifies Repr
      ensures Valid() && Repr == old(Repr) && unchanged(this)
      ensures unchanged(old(tyreSets))
      ensures old(fuel) != null ==> unchanged(old(fuel))
      ensures done <= |properties| && (ok <==> done == |properties|)
      ensures forall i :: 0 <= i < done ==> Passed(properties[i], isPlayer, Position(lapData), now, values[i])
      ensures !ok ==> old(properties[done].UpdateRequired(now)) && !Accepts(properties[done].pluginType, values[done])
      ensures forall i :: done <= i < |properties| ==>
        properties[i].lastUpdated == old(properties[i].lastUpdated) && properties[i].published == old(properties[i].published)
    {
      var position: int := Position(lapData);
      done := 0;
      while done < |properties|
        invariant done <= |properties| && unchanged(this) && unchanged(old(tyreSets))
        invariant old(fuel) != null ==> unchanged(old(fuel))
        invariant forall i :: 0 <= i < done ==> Passed(properties[i], isPlayer, position, now, values[i])
        invariant forall i :: done <= i < |properties| ==>
          properties[i].lastUpdated == old(properties[i].lastUpdated) && properties[i].published == old(properties[i].published)
      {
        var threw := PublishOne(properties[done], isPlayer, position, now, values[done]);
        if threw {
          return false, done;
        }
        done := done + 1;
      }
      ok := true;
    }
  }
}
