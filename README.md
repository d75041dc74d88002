# PluginDeMo per-car derived metrics, in Dafny

PluginDeMo is a SimHub plugin for the F1 2023 game. On every telemetry tick
it stores the game's decoded packets per car. From them it derives metrics:
- the abbreviated driver name and the race position;
- tyre-set wear, the pit window and a predicted pit lap;
- fuel consumption and the fuel projected at the end of the race;
- the rolling average lap time over the last three laps;
- the time each car entered each 50 m mini-sector.

It then publishes these as named, rate-limited host properties. The player's
view adds two more things: the cars ordered by lap distance relative to the
player, and a rival-position lookup.

This project models that engine, one Dafny module per source file:

| module | source |
|---|---|
| `Numeric` | C# `byte` casts and `float` arithmetic (shared vocabulary) |
| `Utility` | `Utility.cs` |
| `Telemetry` | the packet slices the engine reads (records only) |
| `Property` | `Property.cs` |
| `Fuel` | `F1_2023/Participant/Fuel.cs` |
| `TyreSet` | `F1_2023/Participant/TyreSet.cs` |
| `Participant` | `F1_2023/Participant/Participant.cs` |
| `LegacyTyreSet` | `F1_2023/TyreSet.cs` (the older revision) |
| `LegacyParticipant` | `F1_2023/Participant.cs` (the older revision) |
| `Session` | `F1_2023/Session.cs` |
| `Player` | `F1_2023/Player.cs` |

The objects the source mutates are classes with the source's fields:
`Property`, `Fuel`, `TyreSet`, `Participant` and `Session`. Their methods
have `modifies` clauses, and `Participant` and `Session` keep a `Repr`
footprint checked by a `Valid()` invariant. Each class also has a pure view:
- `State()` on `Fuel` and `TyreSet`;
- `Slices()` and `CurrentPace()` on `Participant`.

Each method's `ensures` ties the new view to a pure step function of the old
one, for example `Fuel.Step`, `TyreSet.Step` or `Participant.HistoryStep`.
The properties the source promises are lemmas about those functions.

How values are modelled:
- A C# exception is an `ok`/`threw` result or an `Option` that is `None`.
  Examples: an index out of range, a `Dictionary.Add` on a key already
  present, a null or mistyped property value.
- `float` is an exact `real`. A division by zero yields the single value
  `NonFinite`, which stands for every NaN or infinity.
- `byte` casts wrap explicitly with `ToByte`.
- The clock (`DateTime.Now`) is a parameter, `now`, and so is the rounded
  Gaussian draw, `sample`.
- The values a property's value function returns are parameters, `values`.

The two revisions of the participant, `F1_2023/Participant.cs` (older) and
`F1_2023/Participant/Participant.cs` (newer), differ in these ways:
- the name abbreviation, which lemmas compare
  (`LegacyParticipant.AbbreviatedNameAcrossRevisions`);
- mini-sector timing, which only the newer revision has
  (`F1_2023/Participant/Participant.cs:133, 229-246`). Its lap-data update
  records the session time for each new (lap, mini-sector) key. The older
  lap-data update only stores the packet and the lap number;
- the prefix of the property pass. The older revision asks for
  `isPlayer: true` whatever its own argument (`F1_2023/Participant.cs:192`,
  see Findings);
- the newer revision also has the car-setup update, the last lap time, the
  damage averages and a different delta to the leader. These are display
  quantities (see Left out).

The two revisions of the tyre set, `F1_2023/TyreSet.cs` and
`F1_2023/Participant/TyreSet.cs`, differ in these ways, and lemmas compare
them:
- the pit-window fallback (`LegacyTyreSet.PitWindowAcrossRevisions`);
- the tyre-wear bookkeeping (the older revision has no `WearByLap` and never throws);
- the predicted pit lap offset (a whole window in the older revision, half a
  window in the newer).

## Model

| member | source | states |
|---|---|---|
| Numeric.ToByte | F1_2023/Participant/TyreSet.cs:68-79 | the `(byte)` cast keeps values in 0..255 unchanged and otherwise is congruent to its argument modulo 256 |
| Numeric.Quot | F1_2023/Participant/TyreSet.cs:29 | float division is finite exactly when both operands are finite and the divisor is non-zero, and then it inverts multiplication; with a non-finite operand it is the single non-finite value (see Left out) |
| Numeric.Sum | F1_2023/Participant/TyreSet.cs:91 | a float sum is finite exactly when both operands are |
| Numeric.Diff | F1_2023/Participant/Fuel.cs:47 | a float difference is finite exactly when both operands are |
| Numeric.Prod | F1_2023/Participant/TyreSet.cs:30 | a float product is finite exactly when both operands are |
| Telemetry.CarDamage.MaxWear | F1_2023/Participant/TyreSet.cs:22 | `m_tyresWear.Max()` is one of the four wear values and at least each of them |
| Utility.TrimStartNul | Utility.cs:12-15 | trimming NUL at the front removes only NUL characters and leaves a string that is empty or does not start with NUL |
| Utility.TrimEndNul | Utility.cs:12-15 | trimming NUL at the back removes only NUL characters and leaves a string that is empty or does not end with NUL |
| Utility.TrimNulCore | Utility.cs:12-15 | `Trim('\0')` returns the slice of the input between its leading and trailing NUL runs, and neither end of the result is NUL |
| Utility.TrimNulPadded | Utility.cs:12-15 | any amount of NUL padding around a core with non-NUL ends trims to exactly that core |
| Utility.TrimNulIdempotent | Utility.cs:14 | trimming a trimmed string changes nothing |
| Utility.UpperChar | F1_2023/Participant/Participant.cs:34-35 | on ASCII, `ToUpper` on one character maps a–z to A–Z; every other character is kept (see Left out for non-ASCII letters) |
| Utility.ToUpper | F1_2023/Participant/Participant.cs:34-35 | upper-casing keeps the length and applies `UpperChar` to each character in place |
| Utility.PadLeft | Utility.cs:56 | `PadLeft(width, c)` has length max(len, width), ends with the input, and is `c` before it |
| Utility.NatToString | Utility.cs:56 | `index.ToString()` of a non-negative index is a non-empty string of decimal digits |
| Utility.ParseNatToString | Utility.cs:56 | the digits of `ToString()` read back to the number (round trip) |
| Utility.ParticipantPrefix | Utility.cs:51-57 | every participant prefix starts with `PdM_` and ends with `_` |
| Utility.SessionPrefix | Utility.cs:59-62 | the session prefix starts with `PdM_` |
| Utility.PlayerPrefixIgnoresIndex | Utility.cs:53-54 | the player prefix is `PdM_Player_` whatever the index |
| Utility.ParticipantPrefixSingleDigit | Utility.cs:56 | an index below 10 is written with a leading zero, as in `PdM_Participant07_` |
| Utility.ParticipantPrefixRoundTrip | Utility.cs:51-57 | the index is read back from the plain participant prefix (round trip) |
| Utility.ParticipantPrefixInjective | Utility.cs:51-57 | different indices give different plain participant prefixes |
| Utility.ClampSample | Utility.cs:37-42 | the Gaussian draw is clamped into [min, max]: kept when inside, min below, max above |
| Property.Property.constructor | F1_2023/Participant/Participant.cs:276-283 | registration under the declared `pluginType`, with the given name and rate; stamped at construction, nothing published |
| Property.Property.Register | Property.cs:22-35 | a null first value throws (null result, from `GetType` on null); otherwise the property is registered with the first value's type and the given rate, stamped at construction, nothing published |
| Property.Property.Update | Property.cs:37-49 | not due (at most `UpdateRate` ms since the stamp): nothing happens; due with a null or mistyped value: throws and nothing changes; otherwise the stamp becomes `now` and the value is published once |
| Property.Property.UpdateForPlayer | F1_2023/Participant/Participant.cs:249-264 | corrected player pass: one due check; when due, the value is published under the player name and then the plain name, and the property is stamped once; the throw cases are those of `Update` |
| Property.PublicationsSpaced | Property.cs:20 | over any run of polls, each publication is more than `UpdateRate` ms after the previous one (the first after the initial stamp) |
| Property.PublicationsArePolls | Property.cs:37-47 | every publication happens at one of the poll times |
| Property.PublicationsLowerBound | Property.cs:20 | the k-th publication is at least (k+1)·(rate+1) ms after the initial stamp |
| Property.PublicationsBounded | Property.cs:20 | polls within a window of w ms publish at most w/(rate+1) times |
| Property.ThrottleSecondInTwoAndAHalf | Property.cs:20 | a 1000 ms property polled for 2.5 s publishes at most twice |
| Property.PlayerTickAsWrittenPublishesEveryTick | F1_2023/Participant/Participant.cs:249-264 | as written, with both passes reading the same clock, the undo lets the player name publish on two ticks 16 ms apart while the plain name publishes on neither |
| Property.PlayerTickAsWrittenPlainEveryTick | F1_2023/Participant/Participant.cs:249-264 | as written, with the plain pass reading the clock 1 ms after the player pass, the plain name publishes on three ticks 16 ms apart and the player name only on the first |
| Property.CorrectedRunThrottles | F1_2023/Participant/Participant.cs:249-264 | corrected: on every tick both names publish together, exactly when the property is due, and the stamp moves to that tick |
| Property.CorrectedRunMatchesThrottle | F1_2023/Participant/Participant.cs:249-264 | corrected: the player pass publishes at exactly the times of a plain throttled run |
| Fuel.StepReadsTank | F1_2023/Participant/Fuel.cs:50-53 | every update stores the tank reading, so the stint consumption is the baseline minus the current fuel |
| Fuel.StepLapEdge | F1_2023/Participant/Fuel.cs:55-61 | at a lap edge the last lap's consumption is the fuel at the lap's start minus the fuel now, and the lap marker is re-based; within a lap both are kept |
| Fuel.StepUnknownTrack | F1_2023/Participant/Fuel.cs:64-65 | with track length 0 the average per lap and the end-of-stint projection keep their values |
| Fuel.StepKnownTrack | F1_2023/Participant/Fuel.cs:67-71 | with a known track the average per lap is the consumption rate times the track length, finite exactly when the car has moved in the stint |
| Fuel.EndOfStintOperands | F1_2023/Participant/Fuel.cs:67-71 | the end-of-stint division has a non-finite dividend whenever its divisor is non-finite, so it never divides a finite value by an infinite one |
| Fuel.StepIdempotent | F1_2023/Participant/Fuel.cs:50-72 | repeating an update with the same readings changes nothing |
| Fuel.ConsumptionBetweenLapEdges | F1_2023/Participant/Fuel.cs:55-61 | across two consecutive lap edges the second one reports the fuel burnt between them |
| Fuel.FreshBaseline | F1_2023/Participant/Fuel.cs:32-43 | a new stint takes its odometer and fuel baseline from the readings at construction |
| Fuel.FreshAverageNotFinite | F1_2023/Participant/Fuel.cs:32-37 | at construction the stint distance is zero, so with a known track the average per lap is not finite |
| Fuel.RemainingAtStintDistance | F1_2023/Participant/Fuel.cs:45-48 | the projection at the current stint distance is the fuel in the tank |
| Fuel.RemainingFallsWithDistance | F1_2023/Participant/Fuel.cs:45-48 | while fuel is being burnt the projected fuel falls as the target distance grows |
| Fuel.Fuel.constructor | F1_2023/Participant/Fuel.cs:32-37 | the object's state is the baseline taken now followed by one update |
| Fuel.Fuel.StartStint | F1_2023/Participant/Fuel.cs:39-43 | the new state is the baseline of the current odometer and tank |
| Fuel.Fuel.Update | F1_2023/Participant/Fuel.cs:50-72 | the new state is `Fuel.Step` of the old one |
| TyreSet.PitStopWindowIdealLap | F1_2023/Participant/TyreSet.cs:40-43 | the ideal pit lap is the reported one, or the race length when none is reported |
| TyreSet.PitStopWindowLatestLap | F1_2023/Participant/TyreSet.cs:44-50 | the latest pit lap is the reported one clipped to the race length, or the race length when none is reported; it never exceeds the race length |
| TyreSet.StepThrowsOnRecordedLap | F1_2023/Participant/TyreSet.cs:97-101 | `WearByLap.Add` throws exactly when a lap edge lands on a lap recorded before |
| TyreSet.StepWearByLapWriteOnce | F1_2023/Participant/TyreSet.cs:97-101 | a successful update keeps every recorded lap's wear and adds at most the new lap |
| TyreSet.StepRecordsLapWear | F1_2023/Participant/TyreSet.cs:97-101 | a successful lap edge records the current worst wear under the new lap |
| TyreSet.WearLastLapAfterTwoEdges | F1_2023/Participant/TyreSet.cs:25-28 | after edges onto laps L-1 and L, `WearLastLap` is the wear gained over lap L-1 |
| TyreSet.StepUnknownTrack | F1_2023/Participant/TyreSet.cs:104-105 | with track length 0 the projections and the predicted pit lap keep their values |
| TyreSet.StepRatchet | F1_2023/Participant/TyreSet.cs:110 | the predicted pit lap never decreases, and after a successful update with a known track it is not before the current lap |
| TyreSet.PitWindowWithinRace | F1_2023/Participant/TyreSet.cs:40-50 | for a race with laps, both pit laps are set and the latest one lies within the race |
| TyreSet.PredictedWithinWindow | F1_2023/Participant/TyreSet.cs:68-79 | without wrap-around, a sample inside the window predicts a lap from half a window before the ideal lap up to the latest lap, and the mean sample predicts the ideal lap |
| TyreSet.PredictedWrapsForWideWindow | F1_2023/Participant/TyreSet.cs:68-79 | a window wider than twice the ideal lap wraps the byte arithmetic: ideal 5, latest 50, sample 0 predict lap 239 |
| TyreSet.FreshBaseline | F1_2023/Participant/TyreSet.cs:60-87 | a new set takes its fitting baseline from the readings at construction, and records the fitting lap's wear exactly when the lap number is not 0 |
| TyreSet.VisualTyreNameTable | F1_2023/Participant/TyreSet.cs:134-163 | each compound name is given for exactly its F1 and F2 codes, and every other code is "unknown" |
| TyreSet.TyreSet.constructor | F1_2023/Participant/TyreSet.cs:60-80 | the new set links to the given previous set, and its state is fit, one update, then the predicted pit lap |
| TyreSet.TyreSet.FitTyreSet | F1_2023/Participant/TyreSet.cs:82-87 | the fitting baseline is the current odometer, worst wear and lap |
| TyreSet.TyreSet.Update | F1_2023/Participant/TyreSet.cs:94-111 | the new state and the throw flag are `TyreSet.Step` of the old state |
| LegacyTyreSet.StepStoresWear | F1_2023/TyreSet.cs:82 | every update stores the current worst wear, so the stint wear is that minus the wear at fitting |
| LegacyTyreSet.WearLastLapBetweenEdges | F1_2023/TyreSet.cs:85-90 | after two lap edges, `WearLastLap` is the wear gained between them |
| LegacyTyreSet.StepSameLap | F1_2023/TyreSet.cs:85-90 | within a lap the last-lap wear and the wear at the lap's start keep their values |
| LegacyTyreSet.StepIdempotent | F1_2023/TyreSet.cs:79-109 | repeating an update with the same readings changes nothing |
| LegacyTyreSet.StepUnknownTrack | F1_2023/TyreSet.cs:93-94 | with track length 0 the pit window, the projections and the per-lap average keep their values |
| LegacyTyreSet.StepRatchet | F1_2023/TyreSet.cs:108 | the predicted pit lap never decreases, and with a known track it is not before the current lap |
| LegacyTyreSet.AverageWearPerLapScaled | F1_2023/TyreSet.cs:96 | the per-lap average is the stint's wear rate times the lap length, not finite before the car has moved in the stint |
| LegacyTyreSet.PitWindowJointFallback | F1_2023/TyreSet.cs:99-105 | a single missing pit lap replaces both by the race length, and a reported latest lap is not clipped |
| LegacyTyreSet.PitWindowAcrossRevisions | F1_2023/TyreSet.cs:99-105 | the two revisions agree when both pit laps are reported and the latest is within the race, and differ when only the latest is missing |
| LegacyTyreSet.PredictedNotAfterIdeal | F1_2023/TyreSet.cs:53-64 | without wrap-around and with the sample inside the window, the older prediction lies in the window before the ideal lap |
| LegacyTyreSet.FreshUnknownTrackPredictsSample | F1_2023/TyreSet.cs:45-65 | when the constructor's update sees no track length, the stored window is zero and the prediction is the sample itself |
| LegacyTyreSet.TyreSet.constructor | F1_2023/TyreSet.cs:45-65 | the new set links to the given previous set, and its state is fit, one update, then the prediction from the stored window |
| LegacyTyreSet.TyreSet.FitTyreSet | F1_2023/TyreSet.cs:67-72 | the fitting baseline is the current odometer, worst wear and lap |
| LegacyTyreSet.TyreSet.Update | F1_2023/TyreSet.cs:79-109 | the new state is `LegacyTyreSet.Step` of the old one |
| LegacyTyreSet.TyreSet.RefreshProjections | F1_2023/TyreSet.cs:96-108 | the new state is the projection refresh of the old one |
| Participant.LastSpace | F1_2023/Participant/Participant.cs:34 | the index of the last space, or -1 when there is none; no space follows it |
| Participant.LastToken | F1_2023/Participant/Participant.cs:34 | `Split(' ').Last()` is a space-free suffix of the name, the whole name when it has no space, and otherwise preceded by a space |
| Participant.LastTokenAfterSpace | F1_2023/Participant/Participant.cs:34 | whatever precedes the final space, the last token is what follows it |
| Participant.AbbreviatedNameRule | F1_2023/Participant/Participant.cs:31-35 | the abbreviation throws exactly when the name has a space and its last token is shorter than 3; otherwise it is the upper-cased first 3 letters of the last token (with a space) or of the name (without), and its length is min(3, length) |
| Participant.AbbreviatedNameOfFullName | F1_2023/Participant/Participant.cs:31-35 | "Lewis Hamilton" abbreviates to "HAM" |
| Participant.AbbreviatedNameTrailingSpace | F1_2023/Participant/Participant.cs:34 | a name ending in a space throws in `Substring(0, 3)` |
| Participant.Position | F1_2023/Participant/Participant.cs:40 | the position is at least 1 and is the reported one whenever that is at least 1 |
| Participant.DriverStatusExclusive | F1_2023/Participant/Participant.cs:44-48 | the five driver-status predicates are mutually exclusive, and one holds exactly for the codes 0 to 4 |
| Participant.MiniSectorIndex | F1_2023/Participant/Participant.cs:65-68 | the mini-sector index is the floor of lap distance / 50 m: the distance lies in its 50 m segment |
| Participant.RecordEntryWriteOnce | F1_2023/Participant/Participant.cs:229-246 | after recording, the key is present, no earlier entry changed, and only that key can be new |
| Participant.RecordEntryKeepsFirst | F1_2023/Participant/Participant.cs:239-241 | a mini-sector timestamp, once taken, survives every later entry |
| Participant.BestLapTime | F1_2023/Participant/Participant.cs:52-55 | the best lap time is the slot of `m_bestLapTimeLapNum - 1` when that slot exists, and throws otherwise |
| Participant.QualifyingLapsBelowBound | F1_2023/Participant/Participant.cs:179-186 | every collected lap is below best + 10 % and is the time of a lap in the window |
| Participant.QualifyingLapsAtMost | F1_2023/Participant/Participant.cs:177-186 | the window never yields more laps than its width |
| Participant.MeanBetween | F1_2023/Participant/Participant.cs:187-188 | `(uint)Average()` lies between the smallest and the largest collected lap |
| Participant.AverageLapTimeBelowBound | F1_2023/Participant/Participant.cs:173-189 | a changed average is below best + 10 %, the window is non-empty and readable, and some lap of the window is no slower than the average |
| Participant.AverageLapTimeKeepsPrevious | F1_2023/Participant/Participant.cs:187-188 | an empty window keeps the previous average |
| Participant.AverageLapTimeExample | F1_2023/Participant/Participant.cs:173-189 | on lap 5 with laps 90000, 91000, 200000, 89500 ms (best on lap 4), laps 2–4 are averaged, the slow lap is dropped and the result is 90250 |
| Participant.TyreSetChangedRule | F1_2023/Participant/Participant.cs:120-122 | a change is reported exactly when a packet was stored before and its fitted index differs; the same packet again is no change |
| Participant.HistoryStepGuarded | F1_2023/Participant/Participant.cs:147-169 | the average is recomputed only past lap 1, with the previous lap finished, the current one unfinished and a stale stamp, and the stamp becomes the current lap |
| Participant.HistoryStepIdempotent | F1_2023/Participant/Participant.cs:147-169 | a second history packet on the same lap changes nothing |
| Participant.PublishOne | F1_2023/Participant/Participant.cs:252-256 | one property's step throws exactly when it is due with a null or mistyped value, and then changes nothing; otherwise it publishes when due under the car's names |
| Participant.CollectedAverage | F1_2023/Participant/Participant.cs:173-189 | the laps the loop collects determine the average: it succeeds exactly when `AverageLapTime` does, with the mean of the collected laps, or the previous value when none qualify |
| Participant.CollectQualifyingLaps | F1_2023/Participant/Participant.cs:175-186 | the loop fails exactly when the window is non-empty and a slot or the best-lap read is out of range; otherwise it returns the window's laps below best + 10 %, in order |
| Participant.Participant.constructor | F1_2023/Participant/Participant.cs:88-95 | the participant registers one property per spec under its declared type, stamped at `now`, and starts with no tyre set, no fuel, no mini-sector entries and zeroed slices |
| Participant.Participant.ParticipantUpdate | F1_2023/Participant/Participant.cs:99-106 | the name and index slices are the arguments; every other field, the properties, the tyre sets and the fuel object are unchanged |
| Participant.Participant.CarDamageUpdate | F1_2023/Participant/Participant.cs:113-116 | the damage slice is the argument; every other field, the properties, the tyre sets and the fuel object are unchanged |
| Participant.Participant.LapDataUpdate | F1_2023/Participant/Participant.cs:129-134 | the lap slice is the argument, the lap number is taken from it, and the mini-sector entry is recorded; every other field, the properties, the tyre sets and the fuel object are unchanged |
| Participant.Participant.TryUpdateMiniSectorTime | F1_2023/Participant/Participant.cs:229-246 | the (lap, mini-sector) entry is added with the session time only when absent; every other field, the properties, the tyre sets and the fuel object are unchanged |
| Participant.Participant.CarStatusUpdate | F1_2023/Participant/Participant.cs:136-140 | the status slice is the argument, then the fuel lifecycle runs (no object in the garage, a new one when none exists, otherwise the object's `Fuel.Step`); every other field, the properties and the tyre sets are unchanged |
| Participant.Participant.UpdateFuel | F1_2023/Participant/Participant.cs:215-224 | in the garage there is no fuel object; outside it, a new one is made when none exists, and the object is then updated; every other field, the properties and the tyre sets are unchanged |
| Participant.Participant.UpdateTyreSet | F1_2023/Participant/Participant.cs:191-213 | first set / no change / undo one level / push a new set, then the current set is updated; the throw flag is that of `WearByLap.Add`; no other tyre set, no property, no fuel object and no other field changes |
| Participant.Participant.ChooseTyreSet | F1_2023/Participant/Participant.cs:193-211 | which set is current afterwards in each of the four cases, with the undo dropping the rolled-back set; every other field, the properties, the tyre sets and the fuel object are unchanged |
| Participant.Participant.PushTyreSet | F1_2023/Participant/Participant.cs:208-209 | the current set becomes the previous one and a freshly built set on top of it becomes current and joins the sets; every other field, the properties, the tyre sets and the fuel object are unchanged |
| Participant.Participant.TyreSetUpdate | F1_2023/Participant/Participant.cs:118-127 | the packet is stored; a fitted index beyond the 20 slots throws before the lifecycle; otherwise the change flag drives `UpdateTyreSet`; no other tyre set, no property, no fuel object and no other field changes |
| Participant.Participant.SessionHistoryUpdate | F1_2023/Participant/Participant.cs:147-169 | the packet is stored and the pace becomes `HistoryStep` of the old pace; a slot read out of range throws; every other field, the properties, the tyre sets and the fuel object are unchanged |
| Participant.Participant.UpdateAverageLapTime | F1_2023/Participant/Participant.cs:173-189 | the new average is `AverageLapTime` of the old one; it throws exactly when that is None; every other field, the properties, the tyre sets and the fuel object are unchanged |
| Participant.Participant.UpdateProperties | F1_2023/Participant/Participant.cs:249-265 | each property in order passes (stamped and published when due, under the position's name); a throw stops the pass at the first due property with an unacceptable value, the rest unchanged; the participant, its tyre sets and its fuel object are unchanged |
| LegacyParticipant.AbbreviatedNameTotal | F1_2023/Participant.cs:31 | the older abbreviation never throws: it is the first min(3, length) characters, upper-cased |
| LegacyParticipant.AbbreviatedNameAcrossRevisions | F1_2023/Participant.cs:31 | the revisions agree on names without spaces; on "First Last" the newer one abbreviates the last token |
| LegacyParticipant.AbbreviatedNameOfFullName | F1_2023/Participant.cs:31 | "Lewis Hamilton" abbreviates to "LEW" in the older revision |
| LegacyParticipant.Participant.constructor | F1_2023/Participant.cs:60-64 | starts with no tyre set, no fuel and zeroed slices |
| LegacyParticipant.Participant.ParticipantUpdate | F1_2023/Participant.cs:68-75 | the name and index slices are the arguments; every other field, the tyre sets and the fuel object are unchanged |
| LegacyParticipant.Participant.CarDamageUpdate | F1_2023/Participant.cs:82-85 | the damage slice is the argument; every other field, the tyre sets and the fuel object are unchanged |
| LegacyParticipant.Participant.LapDataUpdate | F1_2023/Participant.cs:98-102 | the lap slice is the argument and the lap number is taken from it; every other field, the tyre sets and the fuel object are unchanged |
| LegacyParticipant.Participant.CarStatusUpdate | F1_2023/Participant.cs:104-108 | the status slice is the argument, then the fuel lifecycle runs; every other field and the tyre sets are unchanged |
| LegacyParticipant.Participant.UpdateFuel | F1_2023/Participant.cs:178-187 | in the garage there is no fuel object; outside it, one is made when none exists, and it is then updated; every other field and the tyre sets are unchanged |
| LegacyParticipant.Participant.UpdateTyreSet | F1_2023/Participant.cs:154-176 | the tyre-set lifecycle of the older set, which never throws; no other tyre set, no fuel object and no other field changes |
| LegacyParticipant.Participant.ChooseTyreSet | F1_2023/Participant.cs:156-174 | which set is current afterwards in each of the four cases; every other field, the tyre sets and the fuel object are unchanged |
| LegacyParticipant.Participant.PushTyreSet | F1_2023/Participant.cs:171-172 | the current set becomes the previous one and a freshly built set becomes current and joins the sets; every other field, the tyre sets and the fuel object are unchanged |
| LegacyParticipant.Participant.TyreSetUpdate | F1_2023/Participant.cs:87-96 | the packet is stored; a fitted index beyond the 20 slots throws; otherwise the lifecycle runs; no other tyre set, no fuel object and no other field changes |
| LegacyParticipant.Participant.SessionHistoryUpdate | F1_2023/Participant.cs:110-132 | the packet is stored and the pace becomes `HistoryStep` of the old pace; every other field, the tyre sets and the fuel object are unchanged |
| LegacyParticipant.Participant.UpdateAverageLapTime | F1_2023/Participant.cs:136-152 | the new average is `AverageLapTime` of the old one; it throws exactly when that is None; every other field, the tyre sets and the fuel object are unchanged |
| LegacyParticipant.PassPrefixAsWritten | F1_2023/Participant.cs:192 | as written, the older pass's prefix is `PdM_Player_` whatever `isPlayer` and the position are |
| LegacyParticipant.EveryCarPublishesAsPlayer | F1_2023/Participant.cs:190-205 | as written, every car publishes under the player's prefix, in the plain pass too, and never under its own position's prefix |
| LegacyParticipant.PassPrefix | F1_2023/Participant.cs:192 | corrected: the player pass uses `PdM_Player_` |
| LegacyParticipant.PassPrefixNamesPosition | F1_2023/Participant.cs:192 | corrected: a plain pass's prefix reads back as the car's position |
| LegacyParticipant.PassPrefixesDistinct | F1_2023/Participant.cs:192 | corrected: cars at different positions publish under different prefixes |
| Session.SessionTypesExclusive | F1_2023/Session.cs:36-41 | practice, qualifying and race are disjoint, together cover exactly the codes 1–12, and unknown (0) and time trial (13) are none |
| Session.DecodeByte | Utility.cs:17-20 | an ASCII byte decodes to itself, any other byte to a non-ASCII character; only 0 decodes to NUL |
| Session.Decode | Utility.cs:17-20 | decoding maps byte by byte |
| Session.SessionEndedOnPaddedSend | F1_2023/Session.cs:44-46 | "SEND" with any NUL padding ends the session |
| Session.SessionEndedIsPaddedSend | F1_2023/Session.cs:44-46 | conversely, a session-ended event code is exactly the bytes of "SEND" padded with zero bytes |
| Session.NoEventNotEnded | F1_2023/Session.cs:45-46 | without an event the session has not ended |
| Session.RebuildSlot | F1_2023/Session.cs:108-129 | after the rebuild each slot holds the last car written to it, or its old content when none was |
| Session.RebuildPlacesEach | F1_2023/Session.cs:128 | with distinct positions every car ends in the slot of its position |
| Session.RebuildFillsEverySlot | F1_2023/Session.cs:128 | n distinct positions in 1..n fill every slot with the car of that position |
| Session.PositionsCover | F1_2023/Session.cs:128 | n distinct positions in 1..n cover every position |
| Session.PositionsMiss | F1_2023/Session.cs:128 | fewer than n distinct positions in 1..n leave one free |
| Session.Positions | F1_2023/Session.cs:128 | the position each lap slice reports |
| Session.MakeParticipants | F1_2023/Session.cs:55-59 | n new participants, each valid with its own footprint, disjoint from the others, each with one property per spec and no tyre set or fuel |
| Session.Session.constructor | F1_2023/Session.cs:48-65 | `participantCount` participants, each with one property per spec, no lap data, no tyre set and no fuel. The participants are a fixed sequence by car index, and the by-position array starts as that same sequence |
| Session.Session.StoreSlices | F1_2023/Session.cs:110-114 | car `i` holds the tick's name, index, damage, lap and status slices. Its lap number is the slice's, the (lap, mini-sector) entry is recorded, and the fuel object follows its lifecycle (`LapAndFuelRules`: none in the garage, otherwise a fresh stint or one step of the old one). It keeps its properties, pace, history, tyre-set packet and tyre sets. No other car and nothing it owns changes |
| Session.Session.StoreLapSlices | F1_2023/Session.cs:110-113 | car `i` takes the tick's name, index, damage and lap slices. Its lap number becomes the slice's and the (lap, mini-sector) entry is recorded with `RecordEntry`; nothing else it owns changes, including its footprint, fuel object and state, properties, pace, history, tyre-set packet and tyre sets |
| Session.Session.DispatchTyreSets | F1_2023/Session.cs:116-119 | no packet under key `i`: success and no car changes. Otherwise the packet goes to the car it names. A car index beyond the participants throws with no car changed. A fitted index beyond the 20 slots throws with the current and previous sets kept. Else the named car runs the tyre-set lifecycle (`TyreSetRules`: first set, same set, undo one level, or push a fresh set, and `ok` is the set update's outcome). Only the named car's tyre-set fields change. Every other car and all it owns is unchanged. No car's slices, pace, history, lap number, mini-sector entries, fuel or properties change |
| Session.Session.DispatchHistory | F1_2023/Session.cs:121-124 | the history packet under key `i` goes to the car it names, whose pace becomes `HistoryStep` of the old pace, or stays when that throws; only its history and pace change, and none of the objects it owns; every other car and all it owns is unchanged; a car index beyond the participants throws with no car changed; no key means success |
| Session.Session.Dispatch | F1_2023/Session.cs:116-124 | both dispatches in order. With neither key present it succeeds. Either car index out of range throws, and so does a fitted index beyond the slots. On success the tyre-set car holds the packet and ran the lifecycle without a throw (`TyreSetRules` with `ok` true). The history car holds its packet with the pace `HistoryStep` of its old pace. A failure has a named cause: a car index or fitted index out of range, the lifecycle's set update throwing (`TyreSetRules` with `ok` false), or `HistoryStep` throwing. Cars the tyre-set packet does not name keep their tyre fields and tyre sets. No car's lap number, mini-sector entries or fuel changes. Cars named by neither packet, and all they own, are unchanged |
| Session.Session.PublishCar | F1_2023/Session.cs:127 | car `i` publishes every property, as the player exactly when `i` is the player index; a failure means some due property of car `i` holds a value of the wrong type; no participant object or tyre set changes, nor anything another car owns |
| Session.Session.PlaceByPosition | F1_2023/Session.cs:128 | car `i` is written into the slot of its position; a position beyond the participants throws |
| Session.Session.PublishAndPlace | F1_2023/Session.cs:127-128 | car `i` publishes every property and is then written into the slot of its position; a failure means a due property of the wrong type or a position beyond the participants; no participant object or tyre set changes, nor anything another car owns |
| Session.Session.StorePackets | F1_2023/Session.cs:98-101 | the session packet is stored, and the event packet only when one arrived |
| Session.Session.StoreAndDispatch | F1_2023/Session.cs:110-124 | car `i` holds its slices, with its lap number, mini-sector entry and fuel lifecycle (`LapAndFuelRules`). Then both dispatches run, with the outcomes and failure causes of `Dispatch` stated relative to the state before the slices were stored. Cars the history packet does not name keep their history and pace. Cars the tyre-set packet does not name keep their tyre fields and tyre sets. Cars other than `i` keep their lap number, mini-sector entries and fuel. Cars that are not `i` and are named by neither packet are unchanged with all they own |
| Session.Session.UpdateCar | F1_2023/Session.cs:110-128 | one loop turn. On success: car `i` holds its slices; the tyre-set car holds the packet and ran the lifecycle (`TyreSetRules` with `ok` true); the history car holds its packet with the pace updated; every property of car `i` passed; the view slot of its position holds it. Either car index out of range throws, and so does a fitted index beyond the slots. A failure has a named cause: an index out of range, the tyre-set update or `HistoryStep` throwing, the position beyond the participants, or a due property of car `i` with a value of the wrong type. Car `i` also satisfies `LapAndFuelRules` (its lap number, mini-sector entry and fuel lifecycle). Other cars keep their slices, lap number, mini-sector entries and fuel. Cars the history packet does not name keep their history and pace, and cars the tyre-set packet does not name keep their tyre fields and tyre sets. Cars that are not `i` and are named by neither packet are unchanged with all they own |
| Session.Session.CarTurn | F1_2023/Session.cs:108-129 | one loop turn extends the stored slices and the rebuild of the view by car `i` |
| Session.Session.UpdateCars | F1_2023/Session.cs:108-129 | the loop over the cars in index order: on success every car holds its slices, every reported position is in range, and the view is the rebuild of the old view by those positions |
| Session.Session.DataUpdate | F1_2023/Session.cs:67-132 | session and event packets stored; on success every car holds its slices, the player index is in range, and the view is the rebuild of the old view by the reported positions |
| Player.PrecedesAsymmetric | F1_2023/Player.cs:46-52 | no two cars can each come before the other in the selection order |
| Player.SortedOrdersAgreeAt | F1_2023/Player.cs:46-52 | two sorted orders that agree before position k agree at k |
| Player.SortedOrderUnique | F1_2023/Player.cs:46-52 | the sort's result is determined by the distances: at most one order is sorted |
| Player.SomeUnchosen | F1_2023/Player.cs:46-52 | while fewer than n indices are chosen, one is left |
| Player.EveryIndexChosen | F1_2023/Player.cs:46-52 | n distinct indices below n are all of them |
| Player.Min | F1_2023/Player.cs:49 | `Min()` is an element of the array and at most every element |
| Player.IndexOf | F1_2023/Player.cs:49 | `Array.IndexOf` is the first index holding the value, or -1 exactly when it is absent |
| Player.RelativeLapDistances | F1_2023/Player.cs:37-43 | each car's lap distance minus the player's |
| Player.SelectionStep | F1_2023/Player.cs:46-52 | the first minimum is a car not yet chosen, and choosing it keeps the cars chosen so far sorted and before every unchosen car |
| Player.SelectedComplete | F1_2023/Player.cs:46-52 | after n turns the chosen indices are a sorted permutation |
| Player.ChooseNext | F1_2023/Player.cs:49-51 | one turn picks the first smallest distance, a car not chosen before, and overwrites it with `float.MaxValue` |
| Player.FillRelativeLapDistances | F1_2023/Player.cs:37-43 | the array holds the relative lap distances |
| Player.SortParticipantsByRelativeLapDistance | F1_2023/Player.cs:27-55 | the result is the participants permuted by the unique order that sorts them by relative lap distance, ties by index |
| Player.RivalPosition | F1_2023/Player.cs:239-254 | the value passes the byte property's type check exactly when some car has the rival's name; it is then the byte position of the first such car, and otherwise the int 0, on which every due update throws |
| Player.DeltaToPosition | F1_2023/Player.cs:225-229 | the delta property throws exactly when the index is outside the by-position view |
| Player.DeltaToPositionAfterRebuild | F1_2023/Player.cs:225-229 | after a rebuild from distinct positions, the value labelled with position p is the delta to the car in position p, and 0 for the player's own position |

## Left out

- The host plugin API: `PluginManager.AddProperty` registration, SimHub's
  property registry and the per-property `AddProperties` tables. Published
  values appear as `Property.published`. The value function of each property
  is replaced by the value it returns in the tick (`Tick.values`).
- The `Participants` array of `F1_2023/Session.cs:53-58` is a fixed
  sequence of participant objects (`Session.Session.participants`). The
  source fills each slot once, in the constructor, and never assigns one
  again, so nothing is lost by not modelling it as an array. The
  by-position array stays an `array`, because the update loop writes it.
- Which version of `Property` is used: `Property.cs` has no `Prefix`, while
  `F1_2023/Participant/Participant.cs` sets one and `F1_2023/Player.cs`
  constructs properties with a prefix, a suffix and a declared
  `pluginType`. That constructor is not part of this model. The model passes
  the prefix with each call, registers the participants' properties under
  their declared type (`Property.Property.constructor`), and models the
  registration of `Property.cs`, which takes the type from the first value,
  as `Property.Property.Register`.
- Property.Property.constructor: takes the declared type, so it cannot fail.
  The null first value that makes `Property.cs:31` throw is modelled by
  `Property.Property.Register`, which returns null then.
- UTF-8 decoding: ASCII bytes decode to themselves and every other byte to
  U+FFFD. That is enough to decide `SessionEnded`; multi-byte sequences are
  not modelled.
- Floating point: `float` is an exact `real` with one non-finite value.
  Rounding, single-precision overflow and the sign of infinities are not
  modelled.
- Numeric.Quot: a finite value divided by an infinity is 0 in IEEE
  arithmetic, but the model gives the non-finite value, since it does not
  tell NaN from an infinity. No call site divides a finite value by a
  non-finite one: the tyre-wear rates divide two finite values, and the
  end-of-stint fuel has a non-finite dividend whenever its divisor is
  (`Fuel.EndOfStintOperands`).
- Utility.UpperChar: maps only ASCII a–z. C# `ToUpper` uses the current
  culture and also maps non-ASCII letters (é to É, and the Turkish dotless
  i); `Utility.ToUpper` inherits this. The names are counted in characters,
  while C# `Substring` and `Length` count UTF-16 code units, so a name with
  characters outside the Basic Multilingual Plane is not modelled.
- `BestLapPlus10Percent`: `(uint)(best * 1.1f)` is modelled as
  `best * 11 / 10`. Single-precision rounding of 1.1 is not modelled.
- `Math.Round` and the Box–Muller draw in `Utility.GaussianRandom`: the
  rounded, byte-cast sample is a parameter. Only the clamp is modelled
  (`Utility.ClampSample`).
- Time formatting (`SecondsToTimeString`, the formatted lap-time and
  time-left strings): display only.
- The `CarTelemetryUpdate` and `CarSetupDataUpdate` slices: they are stored
  but nothing derived reads them.
- The display quantities that are only arithmetic on a slice: `TeamId`,
  `NumPitStops`, `PenaltiesInSeconds`, the aero and engine damage averages,
  `LapsSinceFitting` and `NumLaps`.
- `DeltaToLeaderInSeconds`: its definition (`TryGetDeltaToLeaderInSeconds`)
  is not part of this model, so `Player.DeltaToPosition` takes it as a
  function parameter.
- `Player.UpdateProperties` and `Player.AddProperties`
  (`F1_2023/Player.cs:57-62` and after): they publish value functions through
  `Property.Property.Update` and add no throttling logic of their own. Their
  values come from the members above (`RivalPosition`, `DeltaToPosition`).
  So the rival-position property throws on every due update while the rival
  is absent (`Player.RivalPosition`).
- `Session.PropertiesUpdate` and `Session.AddProperties`
  (`F1_2023/Session.cs:139-178`): no `Property` object is involved. They call
  the host's `SetPropertyValue` directly on every data packet, with no
  throttling, for the time left, the lap count and `IsPractice`,
  `IsQualifying` and `IsRace`. They are host I/O over values the model
  defines.
- `Player.SortParticipantsByRelativeLapDistance`, `Player.RivalPosition` and
  `Player.DeltaToPosition` read the session through the player's
  participant. The model takes the participants and the player as arguments,
  at module level.
- `LegacyParticipant`'s `UpdateProperties` (`F1_2023/Participant.cs:190-206`)
  is not modelled as a pass over properties; the older participant holds no
  properties in the model. It has the same undo of the stamp as the newer
  pass. Its prefix is modelled (see Findings): line 192 asks for
  `ParticipantPrefix(isPlayer: true, index: Position)`, so every car, and
  the player's plain pass, publishes under `PdM_Player_`.
- Participant.Participant.UpdateProperties: the player pass is modelled
  corrected (see Findings). It publishes the player and plain names
  property by property. The source publishes every player name first and
  then every plain name.
- Session.Session.DataUpdate: the tick is assumed to carry a slice for
  every participant (at least `participantCount` names, damage, lap, status,
  sample and value entries). The fixed 22-car arrays of the protocol are not
  modelled.
- Session.Session.DataUpdate: does not model the player publication at
  `F1_2023/Session.cs:132-133` beyond the check that the player index is in
  range.
- The participant's `Index` before its first `ParticpantUpdate`: the source
  constructor never sets it, and the model starts it at 0.
- Participant.AverageLapTimeExample: the window is `[lap-1-n, lap-1)` as
  in the code (`F1_2023/Participant/Participant.cs:175-178`). On lap 5 with lap
  times 90000, 91000, 200000 and 89500 ms and the best lap on lap 4, that
  window is laps 2–4 and gives 90250.
- Concurrency and the host's call timing: one tick is one call.

## Findings

| source | as written | input that shows it | evidently intended | confidence | as-written member | corrected member |
|---|---|---|---|---|---|---|
| F1_2023/Participant/Participant.cs:249-264 | the player pass pushes every property's stamp back one interval whether or not it published, then runs the plain pass | a 1000 ms property stamped at 0, polled at 2000 ms and 2016 ms, both passes reading the same `DateTime.Now`: the player name publishes on both ticks, 16 ms apart, and the plain name on neither. With the plain pass reading 1 ms later (2001, 2017, 2033 against 2000, 2016, 2032), the plain name publishes on every tick instead (`Property.PlayerTickAsWrittenPlainEveryTick`) | player and plain names published together, at most once per interval | not executed | Property.PlayerTickAsWrittenPublishesEveryTick | Property.CorrectedRunThrottles |
| F1_2023/Participant.cs:192 | the older pass builds its prefix with `isPlayer: true` whatever its own `isPlayer` argument is | any car that is not the player, at any position: its pass publishes under `PdM_Player_`, not `PdM_ParticipantNN_` | `ParticipantPrefix(isPlayer: isPlayer, index: Position)`, as in the newer revision | not executed | LegacyParticipant.EveryCarPublishesAsPlayer | LegacyParticipant.PassPrefixesDistinct |
