/**
 * The session (F1_2023/Session.cs): session-type classification, the
 * session-ended event, the participant arrays, and the per-tick update that
 * dispatches every packet slice to its participant and rebuilds the
 * by-position view.
 */
module Session {
  import opened Numeric
  import opened Telemetry
  import opened Utility
  import P = Participant
  import Property

  //// session type ////

  predicate IsPractice(sessionType: Byte) { 1 <= sessionType <= 4 }
  predicate IsQualifying(sessionType: Byte) { 5 <= sessionType <= 9 }
  predicate IsRace(sessionType: Byte) { 10 <= sessionType <= 12 }

  /** The classes are disjoint; unknown (0), time trial (13) and every later code fall in none. */
  lemma SessionTypesExclusive(t: Byte)
    ensures !(IsPractice(t) && IsQualifying(t)) && !(IsPractice(t) && IsRace(t)) && !(IsQualifying(t) && IsRace(t))
    ensures (IsPractice(t) || IsQualifying(t) || IsRace(t)) <==> 1 <= t <= 12
    ensures t == 0 || t == 13 ==> !IsPractice(t) && !IsQualifying(t) && !IsRace(t)
  {
  }

  //// the session-ended event ////

  const REPLACEMENT_CHAR: char := '\U{FFFD}'

  /** UTF-8 decoding as far as `SessionEnded` can tell: ASCII bytes decode to themselves, any other byte to a non-ASCII character. */
  function DecodeByte(b: Byte): (c: char)
    ensures c == NUL <==> b == 0
    ensures b < 128 ==> c as int == b
    ensures b >= 128 ==> c as int >= 128
  {
    if b < 128 then b as char else REPLACEMENT_CHAR
  }

  function Decode(bytes: seq<Byte>): (s: string)
    ensures |s| == |bytes| && forall i :: 0 <= i < |bytes| ==> s[i] == DecodeByte(bytes[i])
  {
    seq(|bytes|, i requires 0 <= i < |bytes| => DecodeByte(bytes[i]))
  }

  /** The code of the session-ended event, "SEND". */
  const SEND: seq<Byte> := [83, 69, 78, 68]

  /** SessionEnded: an event has arrived and its code, decoded and NUL-trimmed, is "SEND". */
  predicate SessionEnded(lastEventCode: Option<seq<Byte>>)
  {
    lastEventCode.Some? && TrimNul(Decode(lastEventCode.value)) == "SEND"
  }

  function Zeros(n: nat): (r: seq<Byte>)
    ensures |r| == n && forall i :: 0 <= i < n ==> r[i] == 0
  {
    if n == 0 then [] else [0] + Zeros(n - 1)
  }

  lemma DecodePaddedSend(a: nat, b: nat)
    ensures Decode(Zeros(a) + SEND + Zeros(b)) == Repeat(NUL, a) + "SEND" + Repeat(NUL, b)
  {
    var bytes := Zeros(a) + SEND + Zeros(b);
    var s := Repeat(NUL, a) + "SEND" + Repeat(NUL, b);
    forall i | 0 <= i < |bytes| ensures Decode(bytes)[i] == s[i] {
      if a <= i < a + 4 {
        assert bytes[i] == SEND[i - a] && s[i] == "SEND"[i - a];
      }
    }
  }

  /** The event is "SEND" with any NUL padding. */
  lemma SessionEndedOnPaddedSend(a: nat, b: nat)
    ensures SessionEnded(Some(Zeros(a) + SEND + Zeros(b)))
  {
    DecodePaddedSend(a, b);
    TrimNulPadded(a, "SEND", b);
  }

  /** The ASCII bytes of "SEND" are the only ones that decode to it. */
  lemma DecodesToSend(bytes: seq<Byte>)
    requires Decode(bytes) == "SEND"
    ensures bytes == SEND
  {
    forall i | 0 <= i < 4 ensures bytes[i] == SEND[i] {
      assert DecodeByte(bytes[i]) == "SEND"[i];
    }
  }

  /** Bytes that decode to NUL padding around "SEND" are zero bytes around the bytes of "SEND". */
  lemma PaddedSendBytes(bytes: seq<Byte>, a: nat)
    requires a + 4 <= |bytes|
    requires Decode(bytes)[a..a + 4] == "SEND"
    requires forall i :: 0 <= i < |bytes| && (i < a || a + 4 <= i) ==> Decode(bytes)[i] == NUL
    ensures bytes == Zeros(a) + SEND + Zeros(|bytes| - a - 4)
  {
    assert Decode(bytes[a..a + 4]) == "SEND";
    DecodesToSend(bytes[a..a + 4]);
    var padded := Zeros(a) + SEND + Zeros(|bytes| - a - 4);
    forall i | 0 <= i < |bytes| ensures bytes[i] == padded[i] {
      if a <= i < a + 4 {
        assert bytes[i] == bytes[a..a + 4][i - a];
      }
    }
  }

  /** Conversely, a session-ended code is exactly the bytes of "SEND" padded with zero bytes. */
  lemma SessionEndedIsPaddedSend(bytes: seq<Byte>)
    requires SessionEnded(Some(bytes))
    ensures exists a: nat, b: nat :: a + 4 + b == |bytes| && bytes == Zeros(a) + SEND + Zeros(b)
  {
    var s := Decode(bytes);
    TrimNulCore(s);
    var a: nat := |s| - |TrimStartNul(s)|;
    PaddedSendBytes(bytes, a);
    var b: nat := |bytes| - a - 4;
    assert a + 4 + b == |bytes| && bytes == Zeros(a) + SEND + Zeros(b);
  }

  /** Without an event the session has not ended. */
  lemma NoEventNotEnded()
    ensures !SessionEnded(None)
  {
  }

  //// the by-position rebuild ////

  /** The by-position view after writing `items[i]` into slot `positions[i] - 1`, in order, over `view`. */
  function Rebuild<T>(view: seq<T>, items: seq<T>, positions: seq<int>): (r: seq<T>)
    requires |items| == |positions|
    requires forall i :: 0 <= i < |positions| ==> 1 <= positions[i] <= |view|
    ensures |r| == |view|
    decreases |items|
  {
    if |items| == 0 then view
    else
      var n := |items| - 1;
      Rebuild(view, items[..n], positions[..n])[positions[n] - 1 := items[n]]
  }

  /** The rebuild over one more item is the rebuild so far with that item written into its slot. */
  lemma RebuildSnoc<T>(view: seq<T>, items: seq<T>, positions: seq<int>, i: nat)
    requires |items| == |positions| && i < |items|
    requires forall j :: 0 <= j <= i ==> 1 <= positions[j] <= |view|
    ensures Rebuild(view, items[..i + 1], positions[..i + 1])
         == Rebuild(view, items[..i], positions[..i])[positions[i] - 1 := items[i]]
  {
    assert items[..i + 1][..i] == items[..i] && positions[..i + 1][..i] == positions[..i];
  }

  /** A slot holds the last item written to it, or its old content if none was. */
  lemma {:induction false} RebuildSlot<T>(view: seq<T>, items: seq<T>, positions: seq<int>, k: int)
    requires |items| == |positions|
    requires forall i :: 0 <= i < |positions| ==> 1 <= positions[i] <= |view|
    requires 0 <= k < |view|
    ensures var r := Rebuild(view, items, positions);
      (forall i :: 0 <= i < |positions| ==> positions[i] != k + 1) ==> r[k] == view[k]
    ensures var r := Rebuild(view, items, positions);
      forall i :: 0 <= i < |positions| && positions[i] == k + 1 && (forall j :: i < j < |positions| ==> positions[j] != k + 1) ==>
        r[k] == items[i]
    decreases |items|
  {
    if |items| > 0 {
      var n := |items| - 1;
      RebuildSlot(view, items[..n], positions[..n], k);
    }
  }

  /** With distinct positions every item ends in the slot of its position. */
  lemma RebuildPlacesEach<T>(view: seq<T>, items: seq<T>, positions: seq<int>)
    requires |items| == |positions|
    requires forall i :: 0 <= i < |positions| ==> 1 <= positions[i] <= |view|
    requires forall i, j :: 0 <= i < j < |positions| ==> positions[i] != positions[j]
    ensures forall i :: 0 <= i < |items| ==> Rebuild(view, items, positions)[positions[i] - 1] == items[i]
  {
    forall i | 0 <= i < |items|
      ensures Rebuild(view, items, positions)[positions[i] - 1] == items[i]
    {
      RebuildSlot(view, items, positions, positions[i] - 1);
    }
  }

  function Range(n: nat): (r: set<int>)
    ensures forall x :: x in r <==> 1 <= x <= n
    ensures |r| == n
  {
    if n == 0 then {} else Range(n - 1) + {n}
  }

  function Elements(s: seq<int>): set<int>
  {
    set x | x in s
  }

  lemma {:induction false} DistinctElements(s: seq<int>)
    requires forall i, j :: 0 <= i < j < |s| ==> s[i] != s[j]
    ensures |Elements(s)| == |s|
    decreases |s|
  {
    if |s| > 0 {
      var init := s[..|s| - 1];
      assert Elements(s) == Elements(init) + {s[|s| - 1]};
      assert s[|s| - 1] !in Elements(init);
      DistinctElements(init);
    }
  }

  lemma SubsetCard(x: set<int>, y: set<int>)
    requires x <= y
    ensures |x| <= |y|
  {
    assert y == x + (y - x);
    assert x * (y - x) == {};
  }

  /** Pigeonhole: n distinct positions in 1..n cover every position. */
  lemma PositionsCover(positions: seq<int>, k: int)
    requires forall i :: 0 <= i < |positions| ==> 1 <= positions[i] <= |positions|
    requires forall i, j :: 0 <= i < j < |positions| ==> positions[i] != positions[j]
    requires 1 <= k <= |positions|
    ensures exists i :: 0 <= i < |positions| && positions[i] == k
  {
    var e := Elements(positions);
    var r := Range(|positions|);
    DistinctElements(positions);
    assert e <= r;
    if k !in e {
      SubsetCard(e, r - {k});
    }
    assert positions[..] == positions && k in positions;
  }

  /** Fewer than n distinct positions in 1..n leave a position free. */
  lemma PositionsMiss(positions: seq<int>, n: nat)
    requires forall i :: 0 <= i < |positions| ==> 1 <= positions[i] <= n
    requires forall i, j :: 0 <= i < j < |positions| ==> positions[i] != positions[j]
    requires |positions| < n
    ensures exists k :: 1 <= k <= n && k !in positions
  {
    var e := Elements(positions);
    var r := Range(n);
    DistinctElements(positions);
    if forall k :: 1 <= k <= n ==> k in positions {
      assert r <= e;
      SubsetCard(r, e);
    }
  }

  /**
   * When the positions are a permutation of 1..n the rebuilt view is the
   * inverse permutation: together with `RebuildPlacesEach`, every slot holds
   * the item whose position it is.
   */
  lemma RebuildFillsEverySlot<T>(view: seq<T>, items: seq<T>, positions: seq<int>)
    requires |items| == |positions| == |view|
    requires forall i :: 0 <= i < |positions| ==> 1 <= positions[i] <= |view|
    requires forall i, j :: 0 <= i < j < |positions| ==> positions[i] != positions[j]
    ensures forall k :: 0 <= k < |view| ==> SlotFilled(view, items, positions, k)
  {
    forall k | 0 <= k < |view|
      ensures SlotFilled(view, items, positions, k)
    {
      PositionsCover(positions, k + 1);
      var i :| 0 <= i < |positions| && positions[i] == k + 1;
      assert forall j :: i < j < |positions| ==> positions[j] != positions[i];
      RebuildSlot(view, items, positions, k);
      assert Rebuild(view, items, positions)[k] == items[i];
    }
  }

  /** Slot `k` of the rebuilt view holds an item whose position is `k + 1`. */
  ghost predicate SlotFilled<T>(view: seq<T>, items: seq<T>, positions: seq<int>, k: int)
    requires |items| == |positions| && 0 <= k < |view|
    requires forall i :: 0 <= i < |positions| ==> 1 <= positions[i] <= |view|
  {
    exists i :: 0 <= i < |items| && positions[i] == k + 1 && Rebuild(view, items, positions)[k] == items[i]
  }

  //// the session object ////

  /** One tick of telemetry: the packets of F1_2023_DataUpdate, with the slices indexed by car. */
  datatype Tick = Tick(
    names: seq<string>,
    damage: seq<CarDamage>,
    laps: seq<LapData>,
    status: seq<CarStatus>,
    tyreSets: map<int, TyreSetsPacket>,
    histories: map<int, SessionHistoryPacket>,
    session: SessionData,
    event: Option<seq<Byte>>,
    playerIndex: Byte,
    sessionTime: real,
    /** the plugin clock the properties are throttled by */
    now: int,
    /** the Gaussian samples the tyre-set constructors would draw, one per loop turn */
    samples: seq<Byte>,
    /** the value every property's value function gives, per car */
    values: seq<seq<Property.Value>>)

  /** The position each lap-data slice reports, as the rebuild writes it. */
  function Positions(laps: seq<LapData>): (r: seq<int>)
    ensures |r| == |laps| && forall i :: 0 <= i < |laps| ==> r[i] == P.Position(laps[i]) as int
  {
    seq(|laps|, i requires 0 <= i < |laps| => P.Position(laps[i]) as int)
  }

  /** The constructor's loop: `n` new participants, each with its own footprint. */
  method MakeParticipants(n: nat, specs: seq<P.PropertySpec>, now: int) returns (made: seq<P.Participant>, ghost objs: set<object>)
    ensures |made| == n && fresh(objs)
    ensures forall j :: 0 <= j < n ==> made[j].Valid() && fresh(made[j].Repr) && made[j].Repr <= objs
    ensures forall j :: 0 <= j < n ==>
      && |made[j].properties| == |specs| && made[j].lapData == NoLapData
      && made[j].currentTyreSet == null && made[j].fuel == null
    ensures forall j, k :: 0 <= j < n && 0 <= k < n && j != k ==> made[j].Repr !! made[k].Repr
  {
    made, objs := [], {};
    while |made| < n
      invariant |made| <= n
      invariant forall j :: 0 <= j < |made| ==> made[j].Valid() && fresh(made[j].Repr) && made[j].Repr <= objs
      invariant forall j :: 0 <= j < |made| ==>
        && |made[j].properties| == |specs| && made[j].lapData == NoLapData
        && made[j].currentTyreSet == null && made[j].fuel == null
      invariant forall j, k :: 0 <= j < |made| && 0 <= k < |made| && j != k ==> made[j].Repr !! made[k].Repr
      invariant fresh(objs)
    {
      var p := new P.Participant(specs, now);
      made := made + [p];
      objs := objs + p.Repr;
    }
  }

  class Session {
    ghost var Repr: set<object>
    const participantCount: nat
    /** The participants by car index; the session fills its array once, at construction, and never reassigns a slot. */
    const participants: seq<P.Participant>
    const participantsByPosition: array<P.Participant>
    var sessionData: SessionData
    var lastEventCode: Option<seq<Byte>>

    ghost predicate Valid()
      reads this, participantsByPosition, participants
    {
      && this in Repr && participantsByPosition in Repr
      && |participants| == participantCount && participantsByPosition.Length == participantCount
      && (forall i :: 0 <= i < participantCount ==>
            && participants[i] in Repr && participants[i].Repr <= Repr && participants[i].Valid()
            && this !in participants[i].Repr
            && participantsByPosition !in participants[i].Repr)
      && (forall i, j :: 0 <= i < participantCount && 0 <= j < participantCount && i != j ==>
            participants[i].Repr !! participants[j].Repr)
      && (forall k :: 0 <= k < participantCount ==> participantsByPosition[k] in participants)
    }

    /** The constructor creates the participants and lists them, in index order, in the by-position view as well. */
    constructor (numParticipants: nat, specs: seq<P.PropertySpec>, now: int)
      ensures Valid() && fresh(Repr)
      ensures participantCount == numParticipants
      ensures participantsByPosition[..] == participants
      ensures forall i :: 0 <= i < numParticipants ==>
        && |participants[i].properties| == |specs| && participants[i].lapData == NoLapData
        && participants[i].currentTyreSet == null && participants[i].fuel == null
      ensures lastEventCode == None
    {
      var made, objs := MakeParticipants(numParticipants, specs, now);
      var byPos := new P.Participant[numParticipants](j requires 0 <= j < numParticipants => made[j]);
      assert byPos[..] == made;
      participantCount := numParticipants;
      participants := made;
      participantsByPosition := byPos;
      sessionData := NoSessionData;
      lastEventCode := None;
      Repr := {this, byPos} + objs;
    }
  
    /** Cars whose objects and footprints are left alone keep their tyre and history fields and their tyre sets. */
    twostate lemma OthersKept(i: nat)
      requires old(Valid())
      requires forall j :: 0 <= j < participantCount && j != i ==>
        unchanged(participants[j]) && unchanged(participants[j].Repr)
      ensures forall j :: 0 <= j < participantCount && j != i ==>
        && participants[j].TyreFields() == old(participants[j].TyreFields()) && participants[j].HistoryFields() == old(participants[j].HistoryFields())
        && participants[j].Tyres() == old(participants[j].Tyres()) && unchanged(old(participants[j].tyreSets))
    {
    }

    /** The per-car slices move into participant `i`: its name and index, damage, lap data (with the mini-sector entry) and status (with the fuel stint). */
    method StoreSlices(i: nat, tick: Tick)
      requires Valid() && i < participantCount
      requires i < |tick.names| && i < |tick.damage| && i < |tick.laps| && i < |tick.status|
      modifies this, participants[i], participants[i].fuel
      ensures Valid() && fresh(Repr - old(Repr))
      ensures unchanged(participantsByPosition)
      ensures sessionData == old(sessionData) && lastEventCode == old(lastEventCode)
      ensures participants[i].Slices() == P.StoredSlices(tick.names[i], i, tick.damage[i], tick.laps[i], tick.status[i])
      ensures (forall k :: 0 <= k < |participants[i].properties| ==> unchanged(participants[i].properties[k])) && participants[i].CurrentPace() == old(participants[i].CurrentPace())
      ensures var car := participants[i];
        && car.tyreSetsPacket == old(car.tyreSetsPacket) && car.history == old(car.history)
        && car.currentTyreSet == old(car.currentTyreSet) && car.previousTyreSet == old(car.previousTyreSet)
        && car.tyreSets == old(car.tyreSets) && unchanged(old(car.tyreSets))
      ensures participants[i].LapAndFuelRules(tick.laps[i], tick.session, tick.sessionTime)
      ensures forall j :: 0 <= j < participantCount ==>
        && participants[j].TyreFields() == old(participants[j].TyreFields()) && participants[j].HistoryFields() == old(participants[j].HistoryFields())
        && participants[j].Tyres() == old(participants[j].Tyres()) && unchanged(old(participants[j].tyreSets))
      ensures forall j :: 0 <= j < participantCount && j != i ==>
        unchanged(participants[j]) && (forall k :: 0 <= k < |participants[j].properties| ==> unchanged(participants[j].properties[k])) && unchanged(participants[j].Repr)
    {
      StoreLapSlices(i, tick);
      var p := participants[i];
      p.CarStatusUpdate(tick.status[i], tick.session);
      Repr := Repr + p.Repr;
      OthersKept(i);
    }

    /** The slices that participant `i` keeps in its own fields: name and index, damage, and lap data with the mini-sector entry. */
    method StoreLapSlices(i: nat, tick: Tick)
      requires Valid() && i < participantCount
      requires i < |tick.names| && i < |tick.damage| && i < |tick.laps|
      modifies participants[i]
      ensures Valid()
      ensures participants[i].Slices() == old(participants[i].Slices()).(rawName := tick.names[i], index := i, carDamage := tick.damage[i], lapData := tick.laps[i])
      ensures var lap := tick.laps[i];
        participants[i].Own() == old(participants[i].Own()).(
          slices := participants[i].Slices(), currentLapNumber := lap.currentLapNum,
          timeAtMiniSector := P.RecordEntry(old(participants[i].timeAtMiniSector), (lap.currentLapNum, P.MiniSectorIndex(lap.lapDistance)), tick.sessionTime))
      ensures participants[i].Repr == old(participants[i].Repr) && participants[i].fuel == old(participants[i].fuel)
      ensures participants[i].CurrentPace() == old(participants[i].CurrentPace())
      ensures var car := participants[i];
        && car.tyreSetsPacket == old(car.tyreSetsPacket) && car.history == old(car.history)
        && car.currentTyreSet == old(car.currentTyreSet) && car.previousTyreSet == old(car.previousTyreSet)
        && car.tyreSets == old(car.tyreSets)
      ensures (forall k :: 0 <= k < |participants[i].properties| ==> unchanged(participants[i].properties[k]))
      ensures participants[i].fuel != null ==> unchanged(participants[i].fuel)
      ensures var car := participants[i];
        car.TyreFields() == old(car.TyreFields()) && car.HistoryFields() == old(car.HistoryFields()) && car.Tyres() == old(car.Tyres())
    {
      var p := participants[i];
      p.ParticipantUpdate(tick.names[i], i);
      p.CarDamageUpdate(tick.damage[i]);
      p.LapDataUpdate(tick.laps[i], tick.sessionTime);
    }

    /**
     * The tyre-sets packet stored under key `i` goes to the car it names; a car
     * index beyond the participants throws, as does the participant's own
     * update.
     */
    method DispatchTyreSets(i: nat, tick: Tick) returns (ok: bool)
      requires Valid() && i < |tick.samples|
      modifies Repr
      ensures Valid() && fresh(Repr - old(Repr))
      ensures unchanged(participantsByPosition)
      ensures sessionData == old(sessionData) && lastEventCode == old(lastEventCode)
      ensures forall j :: 0 <= j < participantCount ==> participants[j].Slices() == old(participants[j].Slices())
      ensures i !in tick.tyreSets ==> ok
      ensures i in tick.tyreSets && tick.tyreSets[i].carIdx as int >= participantCount ==> !ok
      ensures i in tick.tyreSets && tick.tyreSets[i].carIdx as int < participantCount ==>
        var car := participants[tick.tyreSets[i].carIdx];
        && car.tyreSetsPacket == Some(tick.tyreSets[i])
        && (tick.tyreSets[i].fittedIdx >= TYRE_SET_SLOTS ==> !ok)
      ensures i in tick.tyreSets && tick.tyreSets[i].carIdx as int < participantCount ==>
        var car := participants[tick.tyreSets[i].carIdx];
        && (tick.tyreSets[i].fittedIdx >= TYRE_SET_SLOTS ==>
              car.currentTyreSet == old(car.currentTyreSet) && car.previousTyreSet == old(car.previousTyreSet))
        && (tick.tyreSets[i].fittedIdx < TYRE_SET_SLOTS ==>
              car.TyreSetRules(P.TyreSetChanged(old(car.tyreSetsPacket), tick.tyreSets[i]), tick.session, tick.samples[i], ok))
        && car.Own() == old(car.Own()).(tyreSetsPacket := Some(tick.tyreSets[i]), currentTyreSet := car.currentTyreSet,
                                        previousTyreSet := car.previousTyreSet, tyreSets := car.tyreSets)
        && unchanged(old(car.tyreSets) - {car.currentTyreSet})
        && (old(car.fuel) != null ==> unchanged(old(car.fuel)))
      ensures forall j :: 0 <= j < participantCount ==>
        participants[j].HistoryFields() == old(participants[j].HistoryFields()) && participants[j].LapFields() == old(participants[j].LapFields())
      ensures forall j :: 0 <= j < participantCount && old(participants[j].fuel) != null ==> unchanged(old(participants[j].fuel))
      ensures forall j :: 0 <= j < participantCount && (i !in tick.tyreSets || j != tick.tyreSets[i].carIdx as int) ==>
        unchanged(participants[j]) && unchanged(participants[j].Repr)
      ensures i in tick.tyreSets && tick.tyreSets[i].carIdx as int >= participantCount ==>
        forall j :: 0 <= j < participantCount ==> unchanged(participants[j]) && unchanged(participants[j].Repr)
      ensures forall j, k :: 0 <= j < participantCount && 0 <= k < |participants[j].properties| ==> unchanged(participants[j].properties[k])
      ensures forall j :: 0 <= j < participantCount ==> participants[j].CurrentPace() == old(participants[j].CurrentPace())
    {
      if i !in tick.tyreSets {
        return true;
      }
      var packet := tick.tyreSets[i];
      if packet.carIdx as int >= participantCount {
        return false;
      }
      var p := participants[packet.carIdx];
      ok := p.TyreSetUpdate(packet, tick.session, tick.samples[i]);
      Repr := Repr + p.Repr;
    }

    /** The session-history packet stored under key `i` goes to the car it names; a car index beyond the participants throws. */
    method DispatchHistory(i: nat, tick: Tick) returns (ok: bool)
      requires Valid()
      modifies Repr
      ensures Valid() && fresh(Repr - old(Repr))
      ensures unchanged(participantsByPosition)
      ensures sessionData == old(sessionData) && lastEventCode == old(lastEventCode)
      ensures forall j :: 0 <= j < participantCount ==> participants[j].Slices() == old(participants[j].Slices())
      ensures i !in tick.histories ==> ok
      ensures i in tick.histories && tick.histories[i].carIdx as int >= participantCount ==> !ok
      ensures i in tick.histories && tick.histories[i].carIdx as int < participantCount ==>
        var car := participants[tick.histories[i].carIdx];
        && car.history == tick.histories[i]
        && (ok <==> P.HistoryStep(tick.histories[i], car.currentLapNumber, old(car.CurrentPace())).Some?)
        && (ok ==> car.CurrentPace() == P.HistoryStep(tick.histories[i], car.currentLapNumber, old(car.CurrentPace())).value)
        && (!ok ==> car.CurrentPace() == old(car.CurrentPace()))
        && car.Own() == old(car.Own()).(history := tick.histories[i], pace := car.CurrentPace())
      ensures i !in tick.histories || tick.histories[i].carIdx as int >= participantCount ==>
        forall j :: 0 <= j < participantCount ==> unchanged(participants[j])
      ensures forall j :: 0 <= j < participantCount && (i !in tick.histories || j != tick.histories[i].carIdx as int) ==>
        unchanged(participants[j]) && unchanged(participants[j].Repr)
      ensures forall j :: 0 <= j < participantCount ==> unchanged(old(participants[j].Repr) - {participants[j]})
      ensures forall j, k :: 0 <= j < participantCount && 0 <= k < |participants[j].properties| ==> unchanged(participants[j].properties[k])
      ensures forall j :: 0 <= j < participantCount ==> participants[j].tyreSetsPacket == old(participants[j].tyreSetsPacket)
      ensures forall j :: 0 <= j < participantCount ==>
        && participants[j].TyreFields() == old(participants[j].TyreFields()) && unchanged(old(participants[j].tyreSets))
        && participants[j].LapFields() == old(participants[j].LapFields())
      ensures forall j :: 0 <= j < participantCount && old(participants[j].fuel) != null ==> unchanged(old(participants[j].fuel))
    {
      if i !in tick.histories {
        return true;
      }
      var h := tick.histories[i];
      if h.carIdx as int >= participantCount {
        return false;
      }
      var p := participants[h.carIdx];
      ok := p.SessionHistoryUpdate(h);
    }

    /** Participant `i` publishes its properties, as the player when it is the player's car. */
    method PublishCar(i: nat, tick: Tick) returns (ok: bool)
      requires Valid() && i < participantCount && i < |tick.values|
      requires |tick.values[i]| == |participants[i].properties|
      modifies Repr
      ensures Valid() && Repr == old(Repr)
      ensures unchanged(participantsByPosition)
      ensures sessionData == old(sessionData) && lastEventCode == old(lastEventCode)
      ensures forall j :: 0 <= j < participantCount ==> participants[j].Slices() == old(participants[j].Slices())
      ensures ok ==> forall k :: 0 <= k < |participants[i].properties| ==>
        P.Passed(participants[i].properties[k], i == tick.playerIndex as int, P.Position(participants[i].lapData), tick.now, tick.values[i][k])
      ensures !ok ==> exists k :: 0 <= k < |participants[i].properties| &&
                        old(participants[i].properties[k].UpdateRequired(tick.now)) && !P.Accepts(participants[i].properties[k].pluginType, tick.values[i][k])
      ensures forall j :: 0 <= j < participantCount ==> unchanged(participants[j])
      ensures forall j :: 0 <= j < participantCount && j != i ==> unchanged(participants[j].Repr)
      ensures unchanged(old(participants[i].tyreSets))
      ensures old(participants[i].fuel) != null ==> unchanged(old(participants[i].fuel))
    {
      var p := participants[i];
      var done;
      ok, done := p.UpdateProperties(i == tick.playerIndex as int, tick.now, tick.values[i]);
    }

    /** Participant `i` is written into the slot of its position; a position beyond the participants throws. */
    method PlaceByPosition(i: nat) returns (ok: bool)
      requires Valid() && i < participantCount
      modifies participantsByPosition
      ensures Valid()
      ensures var pos := P.Position(participants[i].lapData) as int;
        && (ok <==> pos <= participantCount)
        && (ok ==> participantsByPosition[..] == old(participantsByPosition[..])[pos - 1 := participants[i]])
        && (!ok ==> participantsByPosition[..] == old(participantsByPosition[..]))
    {
      var pos := P.Position(participants[i].lapData) as int;
      if pos > participantCount {
        return false;
      }
      participantsByPosition[pos - 1] := participants[i];
      ok := true;
    }

    /** The session packet is stored, and the event packet when one arrived. */
    method StorePackets(tick: Tick)
      requires Valid()
      modifies this
      ensures Valid() && Repr == old(Repr)
      ensures sessionData == tick.session
      ensures lastEventCode == if tick.event.Some? then tick.event else old(lastEventCode)
      ensures forall j :: 0 <= j < participantCount ==> participants[j].Slices() == old(participants[j].Slices())
    {
      sessionData := tick.session;
      if tick.event.Some? {
        lastEventCode := tick.event;
      }
    }

    /** The tyre-sets packet and then the session-history packet stored under key `i` go to the cars they name; `ok` is false at the first throw. */
    method Dispatch(i: nat, tick: Tick) returns (ok: bool)
      requires Valid() && i < |tick.samples|
      modifies Repr
      ensures Valid() && fresh(Repr - old(Repr))
      ensures unchanged(participantsByPosition)
      ensures sessionData == old(sessionData) && lastEventCode == old(lastEventCode)
      ensures forall j :: 0 <= j < participantCount ==> participants[j].Slices() == old(participants[j].Slices())
      ensures forall j, k :: 0 <= j < participantCount && 0 <= k < |participants[j].properties| ==> unchanged(participants[j].properties[k])
      ensures i in tick.tyreSets && tick.tyreSets[i].carIdx as int >= participantCount ==> !ok
      ensures i in tick.histories && tick.histories[i].carIdx as int >= participantCount ==> !ok
      ensures ok && i in tick.tyreSets && tick.tyreSets[i].carIdx as int < participantCount ==>
        participants[tick.tyreSets[i].carIdx].tyreSetsPacket == Some(tick.tyreSets[i])
      ensures ok && i in tick.histories && tick.histories[i].carIdx as int < participantCount ==>
        var car := participants[tick.histories[i].carIdx];
        && car.history == tick.histories[i]
        && P.HistoryStep(tick.histories[i], car.currentLapNumber, old(car.CurrentPace())) == Some(car.CurrentPace())
      ensures i !in tick.tyreSets && i !in tick.histories ==> ok
      ensures i in tick.tyreSets && tick.tyreSets[i].carIdx as int < participantCount && tick.tyreSets[i].fittedIdx >= TYRE_SET_SLOTS ==> !ok
      ensures ok && i in tick.tyreSets && tick.tyreSets[i].carIdx as int < participantCount ==>
        var car := participants[tick.tyreSets[i].carIdx];
        car.TyreSetRules(P.TyreSetChanged(old(car.tyreSetsPacket), tick.tyreSets[i]), tick.session, tick.samples[i], true)
      ensures !ok ==>
        || (i in tick.tyreSets &&
             (|| tick.tyreSets[i].carIdx as int >= participantCount
              || tick.tyreSets[i].fittedIdx >= TYRE_SET_SLOTS
              || var car := participants[tick.tyreSets[i].carIdx];
                 car.TyreSetRules(P.TyreSetChanged(old(car.tyreSetsPacket), tick.tyreSets[i]), tick.session, tick.samples[i], false)))
        || (i in tick.histories &&
             (|| tick.histories[i].carIdx as int >= participantCount
              || var car := participants[tick.histories[i].carIdx];
                 P.HistoryStep(tick.histories[i], car.currentLapNumber, old(car.CurrentPace())).None?))
      ensures forall j :: 0 <= j < participantCount && (i !in tick.tyreSets || j != tick.tyreSets[i].carIdx as int)
                                                    && (i !in tick.histories || j != tick.histories[i].carIdx as int) ==>
        unchanged(participants[j]) && unchanged(participants[j].Repr)
      ensures forall j :: 0 <= j < participantCount && (i !in tick.histories || j != tick.histories[i].carIdx as int) ==>
        participants[j].HistoryFields() == old(participants[j].HistoryFields())
      ensures forall j :: 0 <= j < participantCount && (i !in tick.tyreSets || j != tick.tyreSets[i].carIdx as int) ==>
        participants[j].TyreFields() == old(participants[j].TyreFields()) && unchanged(old(participants[j].tyreSets))
      ensures forall j :: 0 <= j < participantCount ==> participants[j].LapFields() == old(participants[j].LapFields())
      ensures forall j :: 0 <= j < participantCount && old(participants[j].fuel) != null ==> unchanged(old(participants[j].fuel))
    {
      ok := DispatchTyreSets(i, tick);
      if !ok {
        return;
      }
      ok := DispatchHistory(i, tick);
    }

    /** Participant `i` publishes its properties and, unless that throws, is written into the slot of its position. */
    method PublishAndPlace(i: nat, tick: Tick) returns (ok: bool)
      requires Valid() && i < participantCount && i < |tick.values|
      requires |tick.values[i]| == |participants[i].properties|
      modifies Repr
      ensures Valid() && Repr == old(Repr)
      ensures sessionData == old(sessionData) && lastEventCode == old(lastEventCode)
      ensures forall j :: 0 <= j < participantCount ==> unchanged(participants[j]) && (j != i ==> unchanged(participants[j].Repr))
      ensures ok ==> forall k :: 0 <= k < |participants[i].properties| ==>
        P.Passed(participants[i].properties[k], i == tick.playerIndex as int, P.Position(participants[i].lapData), tick.now, tick.values[i][k])
      ensures ok ==>
        var pos := P.Position(participants[i].lapData) as int;
        pos <= participantCount && participantsByPosition[..] == old(participantsByPosition[..])[pos - 1 := participants[i]]
      ensures !ok ==>
        || P.Position(participants[i].lapData) as int > participantCount
        || exists k :: 0 <= k < |participants[i].properties| &&
             old(participants[i].properties[k].UpdateRequired(tick.now)) && !P.Accepts(participants[i].properties[k].pluginType, tick.values[i][k])
      ensures unchanged(old(participants[i].tyreSets))
      ensures old(participants[i].fuel) != null ==> unchanged(old(participants[i].fuel))
    {
      ok := PublishCar(i, tick);
      if !ok {
        return;
      }
      ok := PlaceByPosition(i);
    }

    /** The first half of a turn: car `i` stores its slices, then the tyre-sets and session-history packets under key `i` are dispatched. */
    method StoreAndDispatch(i: nat, tick: Tick) returns (ok: bool)
      requires Valid() && i < participantCount
      requires i < |tick.names| && i < |tick.damage| && i < |tick.laps| && i < |tick.status| && i < |tick.samples|
      modifies Repr
      ensures Valid() && fresh(Repr - old(Repr))
      ensures unchanged(participantsByPosition)
      ensures sessionData == old(sessionData) && lastEventCode == old(lastEventCode)
      ensures participants[i].Slices() == P.StoredSlices(tick.names[i], i, tick.damage[i], tick.laps[i], tick.status[i])
      ensures forall j :: 0 <= j < participantCount && j != i ==> participants[j].Slices() == old(participants[j].Slices())
      ensures forall j, k :: 0 <= j < participantCount && 0 <= k < |participants[j].properties| ==> unchanged(participants[j].properties[k])
      ensures i in tick.tyreSets && tick.tyreSets[i].carIdx as int >= participantCount ==> !ok
      ensures i in tick.histories && tick.histories[i].carIdx as int >= participantCount ==> !ok
      ensures i in tick.tyreSets && tick.tyreSets[i].carIdx as int < participantCount && tick.tyreSets[i].fittedIdx >= TYRE_SET_SLOTS ==> !ok
      ensures i !in tick.tyreSets && i !in tick.histories ==> ok
      ensures ok && i in tick.tyreSets && tick.tyreSets[i].carIdx as int < participantCount ==>
        var car := participants[tick.tyreSets[i].carIdx];
        && car.tyreSetsPacket == Some(tick.tyreSets[i])
        && car.TyreSetRules(P.TyreSetChanged(old(car.tyreSetsPacket), tick.tyreSets[i]), tick.session, tick.samples[i], true)
      ensures ok && i in tick.histories && tick.histories[i].carIdx as int < participantCount ==>
        var car := participants[tick.histories[i].carIdx];
        && car.history == tick.histories[i]
        && P.HistoryStep(tick.histories[i], car.currentLapNumber, old(car.CurrentPace())) == Some(car.CurrentPace())
      ensures !ok ==>
        || (i in tick.tyreSets &&
             (|| tick.tyreSets[i].carIdx as int >= participantCount
              || tick.tyreSets[i].fittedIdx >= TYRE_SET_SLOTS
              || var car := participants[tick.tyreSets[i].carIdx];
                 car.TyreSetRules(P.TyreSetChanged(old(car.tyreSetsPacket), tick.tyreSets[i]), tick.session, tick.samples[i], false)))
        || (i in tick.histories &&
             (|| tick.histories[i].carIdx as int >= participantCount
              || var car := participants[tick.histories[i].carIdx];
                 P.HistoryStep(tick.histories[i], car.currentLapNumber, old(car.CurrentPace())).None?))
      ensures forall j :: 0 <= j < participantCount && j != i && (i !in tick.tyreSets || j != tick.tyreSets[i].carIdx as int)
                                                    && (i !in tick.histories || j != tick.histories[i].carIdx as int) ==>
        unchanged(participants[j]) && unchanged(participants[j].Repr)
      ensures participants[i].LapAndFuelRules(tick.laps[i], tick.session, tick.sessionTime)
      ensures forall j :: 0 <= j < participantCount && (i !in tick.histories || j != tick.histories[i].carIdx as int) ==>
        participants[j].HistoryFields() == old(participants[j].HistoryFields())
      ensures forall j :: 0 <= j < participantCount && (i !in tick.tyreSets || j != tick.tyreSets[i].carIdx as int) ==>
        participants[j].TyreFields() == old(participants[j].TyreFields()) && unchanged(old(participants[j].tyreSets))
      ensures forall j :: 0 <= j < participantCount && j != i ==> participants[j].LapFields() == old(participants[j].LapFields())
      ensures forall j :: 0 <= j < participantCount && j != i && old(participants[j].fuel) != null ==> unchanged(old(participants[j].fuel))
    {
      StoreSlices(i, tick);
      ok := Dispatch(i, tick);
    }

    /** One turn of the update loop, for car `i`; `ok` is false when a step of it throws, which ends the tick. */
    method UpdateCar(i: nat, tick: Tick) returns (ok: bool)
      requires Valid() && i < participantCount
      requires i < |tick.names| && i < |tick.damage| && i < |tick.laps| && i < |tick.status|
      requires i < |tick.samples| && i < |tick.values| && |tick.values[i]| == |participants[i].properties|
      modifies Repr
      ensures Valid() && fresh(Repr - old(Repr))
      ensures sessionData == old(sessionData) && lastEventCode == old(lastEventCode)
      ensures ok ==> participants[i].Slices() == P.StoredSlices(tick.names[i], i, tick.damage[i], tick.laps[i], tick.status[i])
      ensures forall j :: 0 <= j < participantCount && j != i ==> participants[j].Slices() == old(participants[j].Slices())
      ensures ok ==>
        var pos := P.Position(tick.laps[i]) as int;
        pos <= participantCount && participantsByPosition[..] == old(participantsByPosition[..])[pos - 1 := participants[i]]
      ensures i in tick.tyreSets && tick.tyreSets[i].carIdx as int >= participantCount ==> !ok
      ensures i in tick.histories && tick.histories[i].carIdx as int >= participantCount ==> !ok
      ensures i in tick.tyreSets && tick.tyreSets[i].carIdx as int < participantCount && tick.tyreSets[i].fittedIdx >= TYRE_SET_SLOTS ==> !ok
      ensures ok && i in tick.tyreSets && tick.tyreSets[i].carIdx as int < participantCount ==>
        var car := participants[tick.tyreSets[i].carIdx];
        && car.tyreSetsPacket == Some(tick.tyreSets[i])
        && car.TyreSetRules(P.TyreSetChanged(old(car.tyreSetsPacket), tick.tyreSets[i]), tick.session, tick.samples[i], true)
      ensures ok && i in tick.histories && tick.histories[i].carIdx as int < participantCount ==>
        var car := participants[tick.histories[i].carIdx];
        && car.history == tick.histories[i]
        && P.HistoryStep(tick.histories[i], car.currentLapNumber, old(car.CurrentPace())) == Some(car.CurrentPace())
      ensures ok ==> forall k :: 0 <= k < |participants[i].properties| ==>
        P.Passed(participants[i].properties[k], i == tick.playerIndex as int, P.Position(tick.laps[i]), tick.now, tick.values[i][k])
      ensures !ok ==>
        || (i in tick.tyreSets &&
             (|| tick.tyreSets[i].carIdx as int >= participantCount
              || tick.tyreSets[i].fittedIdx >= TYRE_SET_SLOTS
              || var car := participants[tick.tyreSets[i].carIdx];
                 car.TyreSetRules(P.TyreSetChanged(old(car.tyreSetsPacket), tick.tyreSets[i]), tick.session, tick.samples[i], false)))
        || (i in tick.histories &&
             (|| tick.histories[i].carIdx as int >= participantCount
              || var car := participants[tick.histories[i].carIdx];
                 P.HistoryStep(tick.histories[i], car.currentLapNumber, old(car.CurrentPace())).None?))
        || P.Position(tick.laps[i]) as int > participantCount
        || exists k :: 0 <= k < |participants[i].properties| &&
                       old(participants[i].properties[k].UpdateRequired(tick.now)) && !P.Accepts(participants[i].properties[k].pluginType, tick.values[i][k])
      ensures forall j :: 0 <= j < participantCount && j != i && (i !in tick.tyreSets || j != tick.tyreSets[i].carIdx as int)
                                                    && (i !in tick.histories || j != tick.histories[i].carIdx as int) ==>
        unchanged(participants[j]) && unchanged(participants[j].Repr)
      ensures participants[i].LapAndFuelRules(tick.laps[i], tick.session, tick.sessionTime)
      ensures forall j :: 0 <= j < participantCount && (i !in tick.histories || j != tick.histories[i].carIdx as int) ==>
        participants[j].HistoryFields() == old(participants[j].HistoryFields())
      ensures forall j :: 0 <= j < participantCount && (i !in tick.tyreSets || j != tick.tyreSets[i].carIdx as int) ==>
        participants[j].TyreFields() == old(participants[j].TyreFields()) && unchanged(old(participants[j].tyreSets))
      ensures forall j :: 0 <= j < participantCount && j != i ==> participants[j].LapFields() == old(participants[j].LapFields())
      ensures forall j :: 0 <= j < participantCount && j != i && old(participants[j].fuel) != null ==> unchanged(old(participants[j].fuel))
    {
      ok := StoreAndDispatch(i, tick);
      if !ok {
        return;
      }
      ok := PublishAndPlace(i, tick);
    }

    /** One turn of DataUpdate's loop: update car `i` and extend the rebuild of the view by its position. */
    method CarTurn(i: nat, tick: Tick, ghost view: seq<P.Participant>, ghost cars: seq<P.Participant>, ghost positions: seq<int>)
      returns (ok: bool)
      requires Valid() && i < participantCount
      requires i < |tick.names| && i < |tick.damage| && i < |tick.laps| && i < |tick.status|
      requires i < |tick.samples| && i < |tick.values| && |tick.values[i]| == |participants[i].properties|
      requires participants == cars && |view| == participantCount && |positions| == participantCount && positions[i] == P.Position(tick.laps[i]) as int
      requires forall j :: 0 <= j < i ==> 1 <= positions[j] <= participantCount
      requires forall j :: 0 <= j < i ==>
        participants[j].Slices() == P.StoredSlices(tick.names[j], j, tick.damage[j], tick.laps[j], tick.status[j])
      requires participantsByPosition[..] == Rebuild(view, cars[..i], positions[..i])
      modifies Repr
      ensures Valid() && fresh(Repr - old(Repr))
      ensures sessionData == old(sessionData) && lastEventCode == old(lastEventCode)
      ensures ok ==> forall j :: 0 <= j <= i ==>
        participants[j].Slices() == P.StoredSlices(tick.names[j], j, tick.damage[j], tick.laps[j], tick.status[j])
      ensures ok ==> forall j :: 0 <= j <= i ==> 1 <= positions[j] <= participantCount
      ensures ok ==> participantsByPosition[..] == Rebuild(view, cars[..i + 1], positions[..i + 1])
    {
      ok := UpdateCar(i, tick);
      if ok {
        RebuildSnoc(view, cars, positions, i);
      }
    }

    /**
     * F1_2023_DataUpdate without the player and session publication: store the
     * session packet (and the event packet, when one arrived), run every car
     * through its updates and its publication, and rebuild the by-position
     * view. A throw ends the tick (`ok` false); otherwise every car holds its
     * slices, the player's car exists, and the view is the rebuild of the old
     * one by the reported positions.
     */
    method DataUpdate(tick: Tick) returns (ok: bool)
      requires Valid()
      requires |tick.names| >= participantCount && |tick.damage| >= participantCount
      requires |tick.laps| >= participantCount && |tick.status| >= participantCount
      requires |tick.samples| >= participantCount && |tick.values| >= participantCount
      requires forall i :: 0 <= i < participantCount ==> |tick.values[i]| == |participants[i].properties|
      modifies Repr
      ensures Valid() && fresh(Repr - old(Repr))
      ensures sessionData == tick.session
      ensures lastEventCode == if tick.event.Some? then tick.event else old(lastEventCode)
      ensures ok ==> tick.playerIndex as int < participantCount
      ensures ok ==> forall i :: 0 <= i < participantCount ==>
        participants[i].Slices() == P.StoredSlices(tick.names[i], i, tick.damage[i], tick.laps[i], tick.status[i])
      ensures ok ==>
        var positions := Positions(tick.laps[..participantCount]);
        && (forall i :: 0 <= i < participantCount ==> positions[i] <= participantCount)
        && participantsByPosition[..] == Rebuild(old(participantsByPosition[..]), participants, positions)
    {
      StorePackets(tick);
      ok := UpdateCars(tick);
      if ok {
        ok := tick.playerIndex as int < participantCount;
      }
    }

    /** DataUpdate's loop over the cars, in index order; the first throw ends it. */
    method UpdateCars(tick: Tick) returns (ok: bool)
      requires Valid()
      requires |tick.names| >= participantCount && |tick.damage| >= participantCount
      requires |tick.laps| >= participantCount && |tick.status| >= participantCount
      requires |tick.samples| >= participantCount && |tick.values| >= participantCount
      requires forall i :: 0 <= i < participantCount ==> |tick.values[i]| == |participants[i].properties|
      modifies Repr
      ensures Valid() && fresh(Repr - old(Repr))
      ensures sessionData == old(sessionData) && lastEventCode == old(lastEventCode)
      ensures ok ==> forall i :: 0 <= i < participantCount ==>
        participants[i].Slices() == P.StoredSlices(tick.names[i], i, tick.damage[i], tick.laps[i], tick.status[i])
      ensures ok ==>
        var positions := Positions(tick.laps[..participantCount]);
        && (forall i :: 0 <= i < participantCount ==> positions[i] <= participantCount)
        && participantsByPosition[..] == Rebuild(old(participantsByPosition[..]), participants, positions)
    {
      ghost var positions := Positions(tick.laps[..participantCount]);
      ghost var view := participantsByPosition[..];
      ghost var cars := participants;
      ok := true;
      var i := 0;
      while i < participantCount
        invariant i <= participantCount
        invariant Valid() && fresh(Repr - old(Repr))
        invariant sessionData == old(sessionData) && lastEventCode == old(lastEventCode)
        invariant forall j :: 0 <= j < i ==>
          participants[j].Slices() == P.StoredSlices(tick.names[j], j, tick.damage[j], tick.laps[j], tick.status[j])
        invariant forall j :: 0 <= j < i ==> 1 <= positions[j] <= participantCount
        invariant participants == cars
        invariant participantsByPosition[..] == Rebuild(view, cars[..i], positions[..i])
      {
        ok := CarTurn(i, tick, view, cars, positions);
        if !ok {
          return;
        }
        i := i + 1;
      }
      assert cars[..i] == cars && positions[..i] == positions;
    }
  }
}
