/**
 * The throttled publish layer (Property.cs): a named value with a declared
 * type and a minimum interval between publications. The host registry is an
 * exporter log of (prefix, value) pairs; the clock is an explicit `now` in
 * milliseconds.
 */
module Property {
  import opened Numeric

  /** The runtime types a published value can have. */
  datatype ValueType = StringType | IntType | FloatType | ByteType | BoolType

  /** A value produced by a value function; `Null` is what `?.` yields on a missing object. */
  datatype Value = StringValue(s: string) | IntValue(i: int) | FloatValue(f: real)
                 | ByteValue(b: Byte) | BoolValue(v: bool) | Null

  /** `Value.GetType()`; there is no type for null (GetType on null throws). */
  function TypeOf(v: Value): (r: ValueType)
    requires v != Null
  {
    match v
    case StringValue(_) => StringType
    case IntValue(_) => IntType
    case FloatValue(_) => FloatType
    case ByteValue(_) => ByteType
    case BoolValue(_) => BoolType
  }

  /** UpdateRequired: more than `updateRate` milliseconds have passed since the last stamp (strictly). */
  predicate Due(lastUpdated: int, updateRate: int, now: int)
  {
    now - lastUpdated > updateRate
  }

  /** What one call of Update did. */
  datatype Outcome = NotDue | Published | ThrewNullValue | ThrewTypeMismatch

  /** A publication sent to the host registry. */
  datatype Publication = Publication(prefix: string, name: string, value: Value)

  class Property {
    const name: string
    const pluginType: ValueType
    const updateRate: int
    var lastUpdated: int
    /** Every SetPropertyValue sent for this property, oldest first. */
    var published: seq<Publication>

    /** Registration under a declared type; the stamp starts at the construction time. */
    constructor (name: string, pluginType: ValueType, updateRate: int, now: int)
      ensures this.name == name && this.pluginType == pluginType && this.updateRate == updateRate
      ensures lastUpdated == now && published == []
    {
      this.name := name;
      this.pluginType := pluginType;
      this.updateRate := updateRate;
      lastUpdated := now;
      published := [];
    }

    /**
     * Registration with the type pinned from the first value: a null first
     * value throws (`GetType` on null), which is `null` here.
     */
    static method Register(name: string, initial: Value, updateRate: int, now: int) returns (p: Property?)
      ensures p == null <==> initial == Null
      ensures p != null ==> fresh(p) && p.name == name && p.pluginType == TypeOf(initial) && p.updateRate == updateRate
      ensures p != null ==> p.lastUpdated == now && p.published == []
    {
      if initial == Null {
        return null;
      }
      p := new Property(name, TypeOf(initial), updateRate, now);
    }

    predicate UpdateRequired(now: int)
      reads this
    {
      Due(lastUpdated, updateRate, now)
    }

    /**
     * Update under the prefix the caller has set: nothing happens unless the
     * property is due; a value of the wrong type (or null) throws before the
     * stamp; otherwise the stamp moves to `now` and the value is published once.
     */
    method Update(prefix: string, now: int, value: Value) returns (outcome: Outcome)
      modifies this
      ensures !old(UpdateRequired(now)) ==> outcome == NotDue
      ensures old(UpdateRequired(now)) && value == Null ==> outcome == ThrewNullValue
      ensures old(UpdateRequired(now)) && value != Null && TypeOf(value) != pluginType ==> outcome == ThrewTypeMismatch
      ensures old(UpdateRequired(now)) && value != Null && TypeOf(value) == pluginType ==> outcome == Published
      ensures outcome == Published ==> lastUpdated == now && published == old(published) + [Publication(prefix, name, value)]
      ensures outcome != Published ==> lastUpdated == old(lastUpdated) && published == old(published)
    {
      if !UpdateRequired(now) {
        return NotDue;
      }
      if value == Null {
        return ThrewNullValue;
      }
      if TypeOf(value) != pluginType {
        return ThrewTypeMismatch;
      }
      lastUpdated := now;
      published := published + [Publication(prefix, name, value)];
      outcome := Published;
    }

    /**
     * The player view: one due check and one stamp for both names. The value is
     * published under the player prefix and then under the plain prefix.
     */
    method UpdateForPlayer(playerPrefix: string, plainPrefix: string, now: int, value: Value) returns (outcome: Outcome)
      modifies this
      ensures outcome == Published <==> old(UpdateRequired(now)) && value != Null && TypeOf(value) == pluginType
      ensures !old(UpdateRequired(now)) ==> outcome == NotDue
      ensures old(UpdateRequired(now)) && value == Null ==> outcome == ThrewNullValue
      ensures old(UpdateRequired(now)) && value != Null && TypeOf(value) != pluginType ==> outcome == ThrewTypeMismatch
      ensures outcome == Published ==> lastUpdated == now
      ensures outcome == Published ==>
        published == old(published) + [Publication(playerPrefix, name, value), Publication(plainPrefix, name, value)]
      ensures outcome != Published ==> lastUpdated == old(lastUpdated) && published == old(published)
    {
      outcome := Update(playerPrefix, now, value);
      if outcome == Published {
        published := published + [Publication(plainPrefix, name, value)];
      }
    }
  }

  //// throttling over a run of polls ////

  /** The times at which a property stamped at `last` publishes when it is polled at `polls` with values of its type. */
  function Publications(last: int, rate: int, polls: seq<int>): seq<int>
    decreases |polls|
  {
    if polls == [] then []
    else if Due(last, rate, polls[0]) then [polls[0]] + Publications(polls[0], rate, polls[1..])
    else Publications(last, rate, polls[1..])
  }

  /** Every publication is more than `rate` after the previous one (the first one after the initial stamp). */
  lemma {:induction false} PublicationsSpaced(last: int, rate: int, polls: seq<int>)
    ensures var p := Publications(last, rate, polls);
      (p != [] ==> p[0] - last > rate)
      && forall k :: 0 < k < |p| ==> p[k] - p[k - 1] > rate
    decreases |polls|
  {
    if polls != [] {
      PublicationsSpaced(if Due(last, rate, polls[0]) then polls[0] else last, rate, polls[1..]);
    }
  }

  /** Every publication is one of the poll times. */
  lemma {:induction false} PublicationsArePolls(last: int, rate: int, polls: seq<int>)
    ensures forall t :: t in Publications(last, rate, polls) ==> t in polls
    decreases |polls|
  {
    if polls != [] {
      PublicationsArePolls(if Due(last, rate, polls[0]) then polls[0] else last, rate, polls[1..]);
    }
  }

  /** Publications of a run stay at least `k * (rate + 1)` after the initial stamp. */
  lemma {:induction false} PublicationsLowerBound(last: int, rate: int, polls: seq<int>, k: nat)
    requires rate >= 0
    requires k < |Publications(last, rate, polls)|
    ensures Publications(last, rate, polls)[k] >= last + (k + 1) * (rate + 1)
  {
    var p := Publications(last, rate, polls);
    PublicationsSpaced(last, rate, polls);
    if k > 0 {
      PublicationsLowerBound(last, rate, polls, k - 1);
    }
  }

  /**
   * The throttle bound: polled at any times no later than `window` after the
   * initial stamp, a property with interval `rate` publishes at most
   * `window / (rate + 1)` times.
   */
  lemma PublicationsBounded(last: int, rate: int, polls: seq<int>, window: nat)
    requires rate >= 0
    requires forall i :: 0 <= i < |polls| ==> polls[i] <= last + window
    ensures |Publications(last, rate, polls)| * (rate + 1) <= window
  {
    var p := Publications(last, rate, polls);
    if p != [] {
      var k := |p| - 1;
      PublicationsLowerBound(last, rate, polls, k);
      PublicationsArePolls(last, rate, polls);
      assert p[k] in polls;
    }
  }

  /** An interval of 1000 ms polled for 2.5 s publishes at most twice after registration. */
  lemma ThrottleSecondInTwoAndAHalf(last: int, polls: seq<int>)
    requires forall i :: 0 <= i < |polls| ==> polls[i] <= last + 2500
    ensures |Publications(last, 1000, polls)| <= 2
  {
    PublicationsBounded(last, 1000, polls, 2500);
  }

  //// the player pass of Participant.UpdateProperties ////

  /** The stamp of one property and whether each name published during one tick. */
  datatype PlayerTick = PlayerTick(lastUpdated: int, playerPublished: bool, plainPublished: bool)

  /**
   * The tick as written: the player pass, then the stamp pushed back by one
   * interval whether or not the player pass published, then the plain pass.
   */
  function PlayerTickAsWritten(last: int, rate: int, playerNow: int, plainNow: int): PlayerTick
  {
    var p := Due(last, rate, playerNow);
    var l1 := (if p then playerNow else last) - rate;
    var q := Due(l1, rate, plainNow);
    PlayerTick(if q then plainNow else l1, p, q)
  }

  /** The tick as intended: one due check, both names published together, one stamp. */
  function PlayerTickCorrected(last: int, rate: int, now: int): PlayerTick
  {
    var p := Due(last, rate, now);
    PlayerTick(if p then now else last, p, p)
  }

  /** The stamp after a run of ticks of the corrected player pass. */
  function CorrectedRun(last: int, rate: int, ticks: seq<int>): seq<PlayerTick>
    decreases |ticks|
  {
    if ticks == [] then []
    else
      var t := PlayerTickCorrected(last, rate, ticks[0]);
      [t] + CorrectedRun(t.lastUpdated, rate, ticks[1..])
  }

  /**
   * As written, two ticks read at 2000 ms and 2016 ms of a 1000 ms property
   * stamped at 0 publish the player name on both ticks, 16 ms apart, and the
   * plain name on neither.
   */
  lemma PlayerTickAsWrittenPublishesEveryTick()
    ensures var t1 := PlayerTickAsWritten(0, 1000, 2000, 2000);
      var t2 := PlayerTickAsWritten(t1.lastUpdated, 1000, 2016, 2016);
      t1.playerPublished && t2.playerPublished && !t1.plainPublished && !t2.plainPublished
  {
  }

  /**
   * As written, when the plain pass reads the clock 1 ms after the player pass,
   * the same property publishes the plain name on each of three ticks 16 ms
   * apart, and the player name only on the first.
   */
  lemma PlayerTickAsWrittenPlainEveryTick()
    ensures var t1 := PlayerTickAsWritten(0, 1000, 2000, 2001);
      var t2 := PlayerTickAsWritten(t1.lastUpdated, 1000, 2016, 2017);
      var t3 := PlayerTickAsWritten(t2.lastUpdated, 1000, 2032, 2033);
      && t1.plainPublished && t2.plainPublished && t3.plainPublished
      && t1.playerPublished && !t2.playerPublished && !t3.playerPublished
  {
  }

  /**
   * Corrected: on every tick the player and plain names publish together, and
   * each publication is more than one interval after the previous publication.
   */
  lemma {:induction false} CorrectedRunThrottles(last: int, rate: int, ticks: seq<int>)
    ensures var run := CorrectedRun(last, rate, ticks);
      |run| == |ticks|
      && (forall k :: 0 <= k < |run| ==> run[k].playerPublished == run[k].plainPublished)
      && (forall k :: 0 <= k < |run| && run[k].playerPublished ==> run[k].lastUpdated == ticks[k])
      && (forall k :: 0 <= k < |run| ==>
            run[k].playerPublished == Due(if k == 0 then last else run[k - 1].lastUpdated, rate, ticks[k]))
    decreases |ticks|
  {
    if ticks != [] {
      var t := PlayerTickCorrected(last, rate, ticks[0]);
      CorrectedRunThrottles(t.lastUpdated, rate, ticks[1..]);
    }
  }

  /** Corrected: the publication times of the player pass are exactly those of a plain throttled run. */
  lemma {:induction false} CorrectedRunMatchesThrottle(last: int, rate: int, ticks: seq<int>)
    ensures var run := CorrectedRun(last, rate, ticks);
      |run| == |ticks|
      && Publications(last, rate, ticks) == PublishedTimes(run, ticks)
    decreases |ticks|
  {
    if ticks != [] {
      var t := PlayerTickCorrected(last, rate, ticks[0]);
      CorrectedRunMatchesThrottle(t.lastUpdated, rate, ticks[1..]);
    }
  }

  /** The ticks at which a run published. */
  function PublishedTimes(run: seq<PlayerTick>, ticks: seq<int>): seq<int>
    requires |run| == |ticks|
  {
    if run == [] then []
    else (if run[0].playerPublished then [ticks[0]] else []) + PublishedTimes(run[1..], ticks[1..])
  }
}
