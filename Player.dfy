/**
 * The player (F1_2023/Player.cs): the cars ordered by how far along the lap
 * they are relative to the player, the rival-position lookup and the
 * delta-to-position value.
 */
module Player {
  import opened Numeric
  import opened Utility
  import P = Participant
  import Session
  import Property

  /** `float.MaxValue`, the sentinel written over every chosen distance. */
  const FLOAT_MAX: real := 340282346638528859811704183484516925440.0

  /** The rivals the player's properties track, by name. */
  const RIVAL_NAMES: seq<string> := ["BOTTAS", "VESTI"]

  //// the sort by relative lap distance ////

  /** Car `a` comes before car `b`: nearer, or as near and earlier in the array. */
  predicate Precedes(d: seq<real>, a: int, b: int)
    requires 0 <= a < |d| && 0 <= b < |d|
  {
    d[a] < d[b] || (d[a] == d[b] && a < b)
  }

  /** `order` lists every index of `d` exactly once, by nondecreasing distance and, among equals, by index. */
  predicate SortedOrder(d: seq<real>, order: seq<int>)
  {
    && |order| == |d|
    && (forall k :: 0 <= k < |order| ==> 0 <= order[k] < |d|)
    && (forall j :: 0 <= j < |d| ==> j in order)
    && (forall k, l :: 0 <= k < l < |order| ==> order[k] != order[l])
    && (forall k, l :: 0 <= k < l < |order| ==> Precedes(d, order[k], order[l]))
  }

  /** Precedes is a strict order: two distinct cars cannot each come before the other. */
  lemma PrecedesAsymmetric(d: seq<real>, a: int, b: int)
    requires 0 <= a < |d| && 0 <= b < |d|
    ensures !(Precedes(d, a, b) && Precedes(d, b, a))
  {
  }

  /** Two sorted orders that agree before `k` agree at `k`. */
  lemma SortedOrdersAgreeAt(d: seq<real>, o1: seq<int>, o2: seq<int>, k: int)
    requires SortedOrder(d, o1) && SortedOrder(d, o2) && 0 <= k < |o1|
    requires forall t :: 0 <= t < k ==> o1[t] == o2[t]
    ensures o1[k] == o2[k]
  {
    var a, b := o1[k], o2[k];
    if a != b {
      assert a in o2 && b in o1;
      var ka :| 0 <= ka < |o2| && o2[ka] == a;
      var kb :| 0 <= kb < |o1| && o1[kb] == b;
    }
  }

  /** At most one order satisfies `SortedOrder`: the result of the sort is determined by the distances. */
  lemma SortedOrderUnique(d: seq<real>, o1: seq<int>, o2: seq<int>)
    requires SortedOrder(d, o1) && SortedOrder(d, o2)
    ensures o1 == o2
  {
    var k := 0;
    while k < |o1|
      invariant k <= |o1| && forall t :: 0 <= t < k ==> o1[t] == o2[t]
    {
      SortedOrdersAgreeAt(d, o1, o2, k);
      k := k + 1;
    }
  }

  /** The chosen indices, shifted to the positions 1..n for the pigeonhole lemmas. */
  function Shifted(order: seq<int>): (r: seq<int>)
    ensures |r| == |order| && forall k :: 0 <= k < |order| ==> r[k] == order[k] + 1
  {
    seq(|order|, k requires 0 <= k < |order| => order[k] + 1)
  }

  /** While fewer than n indices are chosen, one is left. */
  lemma SomeUnchosen(order: seq<int>, n: nat)
    requires |order| < n
    requires forall k :: 0 <= k < |order| ==> 0 <= order[k] < n
    requires forall k, l :: 0 <= k < l < |order| ==> order[k] != order[l]
    ensures exists j :: 0 <= j < n && j !in order
  {
    Session.PositionsMiss(Shifted(order), n);
    var k :| 1 <= k <= n && k !in Shifted(order);
    assert forall t :: 0 <= t < |order| ==> order[t] != k - 1 by {
      forall t | 0 <= t < |order| ensures order[t] != k - 1 {
        assert Shifted(order)[t] in Shifted(order);
      }
    }
    assert k - 1 !in order;
  }

  /** n distinct indices below n are all of them. */
  lemma EveryIndexChosen(order: seq<int>, n: nat)
    requires |order| == n
    requires forall k :: 0 <= k < |order| ==> 0 <= order[k] < n
    requires forall k, l :: 0 <= k < l < |order| ==> order[k] != order[l]
    ensures forall j :: 0 <= j < n ==> j in order
  {
    forall j | 0 <= j < n ensures j in order {
      Session.PositionsCover(Shifted(order), j + 1);
      var t :| 0 <= t < |order| && Shifted(order)[t] == j + 1;
      assert order[t] == j;
    }
  }

  /** Min(): the smallest element. */
  method Min(a: array<real>) returns (m: real)
    requires a.Length > 0
    ensures m in a[..] && forall j :: 0 <= j < a.Length ==> m <= a[j]
  {
    m := a[0];
    for i := 1 to a.Length
      invariant m in a[..i] && forall j :: 0 <= j < i ==> m <= a[j]
    {
      if a[i] < m {
        m := a[i];
      }
      assert a[..i + 1] == a[..i] + [a[i]];
    }
    assert a[..a.Length] == a[..];
  }

  /** Array.IndexOf: the first index holding `x`, or -1. */
  method IndexOf(a: array<real>, x: real) returns (index: int)
    ensures -1 <= index < a.Length
    ensures index >= 0 ==> a[index] == x
    ensures forall j :: 0 <= j < a.Length && (index < 0 || j < index) ==> a[j] != x
    ensures index < 0 <==> x !in a[..]
  {
    for i := 0 to a.Length
      invariant forall j :: 0 <= j < i ==> a[j] != x
    {
      if a[i] == x {
        assert a[..][i] == x;
        return i;
      }
    }
    return -1;
  }

  /** Each car's lap distance minus the player's, as the first loop fills them. */
  function RelativeLapDistances(participants: seq<P.Participant>, player: P.Participant): (d: seq<real>)
    reads (set p | p in participants), player
    ensures |d| == |participants|
    ensures forall i :: 0 <= i < |d| ==> d[i] == participants[i].lapData.lapDistance - player.lapData.lapDistance
  {
    seq(|participants|, i reads (set p | p in participants), player requires 0 <= i < |participants| =>
      participants[i].lapData.lapDistance - player.lapData.lapDistance)
  }

  /**
   * What the selection loop keeps after choosing `order`: the chosen indices
   * are distinct and sorted, each precedes every index not yet chosen, and
   * chosen slots of `r` hold the sentinel while the others hold their distance.
   */
  predicate Selected(d: seq<real>, r: seq<real>, order: seq<int>)
  {
    && |r| == |d|
    && (forall k :: 0 <= k < |order| ==> 0 <= order[k] < |d|)
    && (forall k, l :: 0 <= k < l < |order| ==> order[k] != order[l])
    && (forall j :: 0 <= j < |r| ==> r[j] == if j in order then FLOAT_MAX else d[j])
    && (forall k, l :: 0 <= k < l < |order| ==> Precedes(d, order[k], order[l]))
    && (forall k, j :: 0 <= k < |order| && 0 <= j < |d| && j !in order ==> Precedes(d, order[k], j))
  }

  /** One turn: the first minimum of `r` is an index not yet chosen, and choosing it keeps `Selected`. */
  lemma SelectionStep(d: seq<real>, r: seq<real>, order: seq<int>, m: real, index: int)
    requires Selected(d, r, order) && |order| < |d|
    requires forall j :: 0 <= j < |d| ==> d[j] < FLOAT_MAX
    requires forall j :: 0 <= j < |r| ==> m <= r[j]
    requires 0 <= index < |r| && r[index] == m
    requires forall j :: 0 <= j < index ==> r[j] != m
    ensures index !in order
    ensures Selected(d, r[index := FLOAT_MAX], order + [index])
  {
    SomeUnchosen(order, |d|);
    var j0 :| 0 <= j0 < |d| && j0 !in order;
    assert m <= r[j0] == d[j0] < FLOAT_MAX;
    assert index !in order;
    var order' := order + [index];
    forall j | 0 <= j < |d| && j !in order'
      ensures Precedes(d, index, j)
    {
      assert m <= r[j] == d[j];
    }
    forall j | 0 <= j < |d|
      ensures (j in order') == (j in order || j == index)
    {
    }
  }

  /** Once every index is chosen, the chosen order is the sorted order. */
  lemma SelectedComplete(d: seq<real>, r: seq<real>, order: seq<int>)
    requires Selected(d, r, order) && |order| == |d|
    ensures SortedOrder(d, order)
  {
    EveryIndexChosen(order, |d|);
  }

  /** One turn of the selection: the index of the first minimum, overwritten with the sentinel. */
  method ChooseNext(relative: array<real>, ghost d: seq<real>, ghost order: seq<int>) returns (index: int)
    requires Selected(d, relative[..], order) && |order| < |d|
    requires forall j :: 0 <= j < |d| ==> d[j] < FLOAT_MAX
    modifies relative
    ensures 0 <= index < relative.Length && index !in order
    ensures Selected(d, relative[..], order + [index])
  {
    var m := Min(relative);
    index := IndexOf(relative, m);
    ghost var r := relative[..];
    SelectionStep(d, r, order, m, index);
    relative[index] := FLOAT_MAX;
    assert relative[..] == r[index := FLOAT_MAX];
  }

  /** The first loop of the sort: each car's relative lap distance. */
  method FillRelativeLapDistances(participants: array<P.Participant>, player: P.Participant) returns (relative: array<real>)
    ensures fresh(relative) && relative[..] == RelativeLapDistances(participants[..], player)
  {
    relative := new real[participants.Length];
    for i := 0 to participants.Length
      invariant forall j :: 0 <= j < i ==> relative[j] == participants[j].lapData.lapDistance - player.lapData.lapDistance
    {
      relative[i] := participants[i].lapData.lapDistance - player.lapData.lapDistance;
    }
  }

  /**
   * SortParticipantsByRelativeLapDistance: a selection sort; every turn picks
   * the first smallest relative distance and overwrites it with the sentinel.
   * The result is the participants in `order`, which is the sorted order.
   */
  method SortParticipantsByRelativeLapDistance(participants: array<P.Participant>, player: P.Participant)
    returns (sorted: array<P.Participant>, ghost order: seq<int>)
    requires forall i :: 0 <= i < participants.Length ==>
      participants[i].lapData.lapDistance - player.lapData.lapDistance < FLOAT_MAX
    ensures fresh(sorted) && sorted.Length == participants.Length
    ensures SortedOrder(old(RelativeLapDistances(participants[..], player)), order)
    ensures forall k :: 0 <= k < sorted.Length ==> sorted[k] == participants[order[k]]
  {
    var n := participants.Length;
    ghost var d := RelativeLapDistances(participants[..], player);
    var relative := FillRelativeLapDistances(participants, player);
    sorted := new P.Participant[n](_ => player);
    order := [];
    for i := 0 to n
      invariant |order| == i && Selected(d, relative[..], order)
      invariant forall k :: 0 <= k < i ==> sorted[k] == participants[order[k]]
    {
      var index := ChooseNext(relative, d, order);
      sorted[i] := participants[index];
      order := order + [index];
    }
    SelectedComplete(d, relative[..], order);
  }

  //// the rival lookup ////

  /**
   * The rival-position lambda: the position of the first participant whose
   * name is `rivalName`, a byte, or the literal 0 when none is, which boxes
   * as an int. The property is registered as a byte, so the value passes its
   * type check exactly when the rival is on track; with no rival every due
   * update throws. A car's name is written out as `TrimNul(rawName)`, the
   * body of `Participant.Name()`.
   */
  method RivalPosition(participants: array<P.Participant>, rivalName: string) returns (value: Property.Value)
    ensures P.Accepts(Property.ByteType, value) <==> exists i :: 0 <= i < participants.Length && TrimNul(participants[i].rawName) == rivalName
    ensures (forall i :: 0 <= i < participants.Length ==> TrimNul(participants[i].rawName) != rivalName) ==> value == Property.IntValue(0)
    ensures forall i ::
      (0 <= i < participants.Length && TrimNul(participants[i].rawName) == rivalName
       && forall j :: 0 <= j < i ==> TrimNul(participants[j].rawName) != rivalName) ==>
      value == Property.ByteValue(P.Position(participants[i].lapData))
  {
    for i := 0 to participants.Length
      invariant forall j :: 0 <= j < i ==> TrimNul(participants[j].rawName) != rivalName
    {
      if TrimNul(participants[i].rawName) == rivalName {
        return Property.ByteValue(P.Position(participants[i].lapData));
      }
    }
    return Property.IntValue(0);
  }

  //// the delta to a position ////

  /**
   * The delta-to-position lambda for the car at array index `index`: the
   * delta to the leader of the car in slot `index` of the by-position view,
   * minus the player's. An index outside the view throws (None).
   */
  function DeltaToPosition<T>(byPosition: seq<T>, index: int, deltaToLeader: T -> real, player: T): (r: Option<real>)
    ensures r.Some? <==> 0 <= index < |byPosition|
  {
    if 0 <= index < |byPosition| then Some(deltaToLeader(byPosition[index]) - deltaToLeader(player)) else None
  }

  /**
   * Once the by-position view is rebuilt from distinct positions, the value
   * labelled `index + 1` is the delta to the car in position `index + 1`, and
   * it is zero when that car is the player.
   */
  lemma DeltaToPositionAfterRebuild<T>(view: seq<T>, cars: seq<T>, positions: seq<int>, deltaToLeader: T -> real, car: int, player: T)
    requires |cars| == |positions|
    requires forall i :: 0 <= i < |positions| ==> 1 <= positions[i] <= |view|
    requires forall i, j :: 0 <= i < j < |positions| ==> positions[i] != positions[j]
    requires 0 <= car < |cars|
    ensures DeltaToPosition(Session.Rebuild(view, cars, positions), positions[car] - 1, deltaToLeader, player)
         == Some(deltaToLeader(cars[car]) - deltaToLeader(player))
    ensures cars[car] == player ==>
      DeltaToPosition(Session.Rebuild(view, cars, positions), positions[car] - 1, deltaToLeader, player) == Some(0.0)
  {
    Session.RebuildPlacesEach(view, cars, positions);
  }
}
