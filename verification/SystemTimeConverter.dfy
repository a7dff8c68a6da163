/** Converting the wrapping 32-bit times of native events to time stamps, in whole
    milliseconds. */
module SystemTimeConverters {
  import opened BasicTypes

  const HALF_RANGE := 0x7FFF_FFFF
  const SKEW_CHECK_INTERVAL := 2000
  const TOLERANCE := 30

  type Time = uint32

  datatype Converter = Converter(referenceTime: Time, referenceTimeStamp: Option<int>, lastBackwardsSkewCheck: Time)

  const INITIAL := Converter(0, None, 0)

  /** What the clocks say while an event is converted: now, and, for the first event,
      the native time and the time stamp at which it is read. */
  datatype Clocks = Clocks(now: int, currentTime: Time, currentTimeStamp: int)

  // ----- Comparing a native time with a time stamp -----

  /** Whether the native time is ahead of the time stamp, and by how much they differ. */
  function Compare(c: Converter, t: Time, stamp: int): (bool, Time)
    requires c.referenceTimeStamp.Some?
  {
    var timeDelta := Wrap(t - c.referenceTime);
    var timeStampDelta := Wrap(stamp - c.referenceTimeStamp.value);
    var timeToTimeStamp := Wrap(timeStampDelta - timeDelta);
    if timeToTimeStamp == 0 then (false, 0)
    else if timeToTimeStamp < HALF_RANGE then (false, timeToTimeStamp)
    else (true, Wrap(timeDelta - timeStampDelta))
  }

  /** Wrapping may be postponed to the end of a difference. */
  lemma WrapDifference(a: int, b: int)
    ensures Wrap(Wrap(a) - Wrap(b)) == Wrap(a - b)
  {
  }

  /** The converter's reference time is the wrapped form of an unwrapped one. */
  ghost predicate Refers(c: Converter, reference: int) {
    c.referenceTimeStamp.Some? && c.referenceTime == Wrap(reference)
  }

  /** How far the unwrapped time t lags behind the time stamp. */
  function Lag(c: Converter, reference: int, t: int, stamp: int): int
    requires c.referenceTimeStamp.Some?
  {
    (stamp - c.referenceTimeStamp.value) - (t - reference)
  }

  predicate InHalfRange(lag: int) {
    -(0x8000_0000 + 1) <= lag < 0x7FFF_FFFF
  }

  lemma CompareWrapsLag(c: Converter, reference: int, t: int, stamp: int)
    requires Refers(c, reference)
    ensures var lag := Lag(c, reference, t, stamp);
      Compare(c, Wrap(t), stamp) ==
        if Wrap(lag) < HALF_RANGE then (false, Wrap(lag)) else (true, Wrap(-lag))
  {
    var elapsed := stamp - c.referenceTimeStamp.value;
    WrapDifference(t, reference);
    WrapDifference(elapsed, t - reference);
    WrapDifference(t - reference, elapsed);
  }

  function Abs(n: int): nat { if n < 0 then -n else n }

  /** However often the counter has wrapped, the comparison is right: exactly when the
      lag is inside the half range. */
  lemma ComparesExactly(c: Converter, reference: int, t: int, stamp: int)
    requires Refers(c, reference)
    ensures var lag := Lag(c, reference, t, stamp);
      Compare(c, Wrap(t), stamp) == (lag < 0, Abs(lag)) <==> InHalfRange(lag)
  {
    CompareWrapsLag(c, reference, t, stamp);
  }

  // ----- Converting -----

  function Refer(c: Converter, t: Time, k: Clocks): Converter {
    c.(referenceTime := t, referenceTimeStamp := Some(k.currentTimeStamp - Wrap(k.currentTime - t)))
  }

  datatype Conversion = Conversion(converter: Converter, stamp: int, asks: bool)

  function ConvertReferred(c: Converter, t: Time, now: int): Conversion
    requires c.referenceTimeStamp.Some?
  {
    var (newer, delta) := Compare(c, t, now);
    if newer then Conversion(Converter(t, Some(now), t), now, false)
    else if delta <= TOLERANCE then Conversion(c.(lastBackwardsSkewCheck := t), now - delta, false)
    else if Wrap(t - c.lastBackwardsSkewCheck) > SKEW_CHECK_INTERVAL then
      Conversion(c.(lastBackwardsSkewCheck := t), now - delta, true)
    else Conversion(c, now - delta, false)
  }

  /** GetTimeStampFromSystemTime. A time of 0 cannot become the first reference. */
  function Convert(c: Converter, t: Time, k: Clocks): Conversion {
    if c.referenceTimeStamp.Some? then ConvertReferred(c, t, k.now)
    else if t == 0 then Conversion(c, k.now, false)
    else ConvertReferred(Refer(c, t, k), t, k.now)
  }

  /** CompensateForBackwardsSkew. */
  function Compensate(c: Converter, t: Time, lowerBound: int): Converter
    requires c.referenceTimeStamp.Some?
  {
    if Compare(c, t, lowerBound).0 then c else c.(referenceTime := t, referenceTimeStamp := Some(lowerBound))
  }

  class SystemTimeConverter {
    var referenceTime: Time
    var referenceTimeStamp: Option<int>
    var lastBackwardsSkewCheck: Time

    function Now(): Converter
      reads this
    {
      Converter(referenceTime, referenceTimeStamp, lastBackwardsSkewCheck)
    }

    constructor ()
      ensures Now() == INITIAL
    {
      referenceTime, referenceTimeStamp, lastBackwardsSkewCheck := 0, None, 0;
    }

    /** `asks` tells whether the current time is asked for asynchronously. */
    method GetTimeStampFromSystemTime(t: Time, k: Clocks) returns (stamp: int, asks: bool)
      modifies this
      ensures Conversion(Now(), stamp, asks) == Convert(old(Now()), t, k)
    {
      var roughlyNow := k.now;
      asks := false;
      if referenceTimeStamp.None? {
        if t == 0 {
          return roughlyNow, false;
        }
        var timeSinceReference := Wrap(k.currentTime - t);
        UpdateReferenceTime(t, k.currentTimeStamp - timeSinceReference);
      }
      var newer, deltaFromNow := IsTimeNewerThanTimestamp(t, roughlyNow);
      if newer {
        UpdateReferenceTime(t, roughlyNow);
        lastBackwardsSkewCheck := t;
        return roughlyNow, false;
      }
      if deltaFromNow <= TOLERANCE {
        lastBackwardsSkewCheck := t;
      } else if Wrap(t - lastBackwardsSkewCheck) > SKEW_CHECK_INTERVAL {
        asks := true;
        lastBackwardsSkewCheck := t;
      }
      stamp := roughlyNow - deltaFromNow;
    }

    method CompensateForBackwardsSkew(t: Time, lowerBound: int)
      requires referenceTimeStamp.Some?
      modifies this
      ensures Now() == Compensate(old(Now()), t, lowerBound)
    {
      var newer, _ := IsTimeNewerThanTimestamp(t, lowerBound);
      if newer {
        return;
      }
      UpdateReferenceTime(t, lowerBound);
    }

    method UpdateReferenceTime(t: Time, stamp: int)
      modifies this`referenceTime, this`referenceTimeStamp
      ensures referenceTime == t && referenceTimeStamp == Some(stamp)
    {
      referenceTime, referenceTimeStamp := t, Some(stamp);
    }

    method IsTimeNewerThanTimestamp(t: Time, stamp: int) returns (isNewer: bool, delta: Time)
      requires referenceTimeStamp.Some?
      ensures (isNewer, delta) == Compare(Now(), t, stamp)
    {
      var timeDelta: int := Wrap(t - referenceTime);
      var timeStampDelta: int := Wrap(stamp - referenceTimeStamp.value);
      var timeToTimeStamp: int := Wrap(timeStampDelta - timeDelta);
      isNewer := false;
      if timeToTimeStamp == 0 {
        delta := 0;
      } else if timeToTimeStamp < HALF_RANGE {
        delta := timeToTimeStamp;
      } else {
        isNewer := true;
        delta := Wrap(timeDelta - timeStampDelta);
      }
    }
  }

  // ----- Whole runs -----

  /** Native times are given unwrapped. */
  datatype Call = Event(time: int, clocks: Clocks) | Skew(time: int, lowerBound: int)

  /** A converter with the unwrapped form of its reference, and what it has returned. */
  datatype Run = Run(converter: Converter, reference: int, lastTime: int, lastNow: int, stamps: seq<int>)

  /** The time stamp that the current reference gives to a native time. */
  function Mapped(r: Run, t: int): int
    requires r.converter.referenceTimeStamp.Some?
  {
    r.converter.referenceTimeStamp.value + (t - r.reference)
  }

  ghost predicate IsTracked(r: Run) {
    Refers(r.converter, r.reference)
  }

  /** Clocks and event times do not run backwards, and the lag is in the half range. */
  predicate Admits(r: Run, c: Call)
    requires r.converter.referenceTimeStamp.Some?
  {
    match c
    case Event(t, k) =>
      && (r.stamps != [] ==> r.lastTime <= t && r.lastNow <= k.now)
      && InHalfRange(Lag(r.converter, r.reference, t, k.now))
    case Skew(t, bound) => InHalfRange(Lag(r.converter, r.reference, t, bound))
  }

  function Step(r: Run, c: Call): Run
    requires r.converter.referenceTimeStamp.Some?
  {
    match c
    case Event(t, k) =>
      var converted := ConvertReferred(r.converter, Wrap(t), k.now);
      Run(converted.converter,
          if Compare(r.converter, Wrap(t), k.now).0 then t else r.reference,
          t, k.now, r.stamps + [converted.stamp])
    case Skew(t, bound) =>
      r.(converter := Compensate(r.converter, Wrap(t), bound),
         reference := if Compare(r.converter, Wrap(t), bound).0 then r.reference else t)
  }

  /** An event's time stamp is what the reference gives it, but never in the future;
      the counter's wrap-around does not show. */
  lemma ConvertsTransparently(r: Run, c: Call)
    requires IsTracked(r) && c.Event? && InHalfRange(Lag(r.converter, r.reference, c.time, c.clocks.now))
    ensures ConvertReferred(r.converter, Wrap(c.time), c.clocks.now).stamp
            == if Mapped(r, c.time) <= c.clocks.now then Mapped(r, c.time) else c.clocks.now
    ensures IsTracked(Step(r, c))
    ensures Mapped(Step(r, c), c.time)
            == ConvertReferred(r.converter, Wrap(c.time), c.clocks.now).stamp
  {
    ComparesExactly(r.converter, r.reference, c.time, c.clocks.now);
  }

  /** The first event but one at native time 0 becomes the reference. Its time stamp lies
      as long before the one at which the native clock was read as the event lies before
      that reading, but never in the future; and the reference maps it there. */
  lemma FirstStampIsExact(c: Converter, time: int, current: int, k: Clocks)
    requires c.referenceTimeStamp.None? && Wrap(time) != 0 && k.currentTime == Wrap(current)
    requires 0 <= current - time < UINT32_RANGE
    requires InHalfRange(k.now - (k.currentTimeStamp - (current - time)))
    ensures var r := Convert(c, Wrap(time), k);
      && r.stamp == Min(k.now, k.currentTimeStamp - (current - time))
      && r.converter.referenceTime == Wrap(time) && r.converter.referenceTimeStamp == Some(r.stamp)
  {
    WrapDifference(current, time);
    ComparesExactly(Refer(c, Wrap(time), k), time, time, k.now);
  }

  /** Compensation only moves the mapping forwards. */
  lemma CompensationMovesForwards(r: Run, c: Call, t: int)
    requires IsTracked(r) && c.Skew? && InHalfRange(Lag(r.converter, r.reference, c.time, c.lowerBound))
    ensures IsTracked(Step(r, c))
    ensures Mapped(Step(r, c), t) == Max(Mapped(r, t), c.lowerBound + (t - c.time))
  {
    ComparesExactly(r.converter, r.reference, c.time, c.lowerBound);
  }

  /** Time stamps never decrease and never lie in the future, because the current
      mapping never puts the last event before its time stamp. */
  ghost predicate IsMonotone(r: Run) {
    && IsTracked(r)
    && (forall i, j :: 0 <= i <= j < |r.stamps| ==> r.stamps[i] <= r.stamps[j])
    && (r.stamps != [] ==>
          var last := r.stamps[|r.stamps| - 1];
          last <= r.lastNow && last <= Mapped(r, r.lastTime))
  }

  lemma MonotoneStep(r: Run, c: Call)
    requires IsMonotone(r) && Admits(r, c)
    ensures IsMonotone(Step(r, c))
  {
    match c
    case Event(t, k) => ConvertsTransparently(r, c);
    case Skew(t, bound) => CompensationMovesForwards(r, c, r.lastTime);
  }

  ghost predicate AdmitsAll(r: Run, calls: seq<Call>)
    requires r.converter.referenceTimeStamp.Some?
    decreases |calls|
  {
    calls == [] || (Admits(r, calls[0]) && AdmitsAll(Step(r, calls[0]), calls[1..]))
  }

  function StepAll(r: Run, calls: seq<Call>): Run
    requires r.converter.referenceTimeStamp.Some?
    decreases |calls|
  {
    if calls == [] then r else StepAll(Step(r, calls[0]), calls[1..])
  }

  lemma {:induction false} MonotoneRun(r: Run, calls: seq<Call>)
    requires IsMonotone(r) && AdmitsAll(r, calls)
    ensures IsMonotone(StepAll(r, calls))
    decreases |calls|
  {
    if calls == [] {
    } else {
      MonotoneStep(r, calls[0]);
      MonotoneRun(Step(r, calls[0]), calls[1..]);
    }
  }

  /** Once a reference exists, the time stamps of successive events never decrease and
      never exceed the current time, with compensation at any moment in between. */
  lemma TimeStampsAreMonotone(c: Converter, reference: int, calls: seq<Call>)
    requires Refers(c, reference)
    requires AdmitsAll(Run(c, reference, 0, 0, []), calls)
    ensures var r := StepAll(Run(c, reference, 0, 0, []), calls);
      && (forall i, j :: 0 <= i <= j < |r.stamps| ==> r.stamps[i] <= r.stamps[j])
      && (r.stamps != [] ==> r.stamps[|r.stamps| - 1] <= r.lastNow)
  {
    MonotoneRun(Run(c, reference, 0, 0, []), calls);
  }

  // ----- How often the current time is asked for -----

  /** A converter, the last event, the last check for skew, all unwrapped, and the
      events that asked. */
  datatype Probe = Probe(converter: Converter, lastTime: int, lastCheck: int, asked: seq<int>)

  function ProbeStep(p: Probe, c: Call): Probe {
    match c
    case Event(t, k) =>
      var r := Convert(p.converter, Wrap(t), k);
      Probe(r.converter, t,
            if r.converter.lastBackwardsSkewCheck == p.converter.lastBackwardsSkewCheck && !r.asks
            then p.lastCheck else t,
            if r.asks then p.asked + [t] else p.asked)
    case Skew(t, bound) =>
      if p.converter.referenceTimeStamp.None? then p
      else p.(converter := Compensate(p.converter, Wrap(t), bound))
  }

  function ProbeAll(p: Probe, calls: seq<Call>): Probe {
    if calls == [] then p else ProbeStep(ProbeAll(p, calls[..|calls| - 1]), calls[|calls| - 1])
  }

  /** Event times, unwrapped, do not decrease. */
  ghost predicate InTimeOrder(calls: seq<Call>) {
    forall i, j :: 0 <= i <= j < |calls| && calls[i].Event? && calls[j].Event? ==> calls[i].time <= calls[j].time
  }

  ghost predicate IsRateLimited(asked: seq<int>) {
    forall i, j :: 0 <= i <= j < |asked| ==> asked[j] - asked[i] >= (SKEW_CHECK_INTERVAL + 1) * (j - i)
  }

  ghost predicate KeepsCheck(p: Probe) {
    && IsRateLimited(p.asked)
    && (p.asked != [] ==>
          && p.converter.lastBackwardsSkewCheck == Wrap(p.lastCheck)
          && p.asked[|p.asked| - 1] <= p.lastCheck <= p.lastTime)
  }

  lemma KeepsCheckStep(p: Probe, c: Call)
    requires KeepsCheck(p) && (c.Event? && p.asked != [] ==> p.lastTime <= c.time)
    ensures KeepsCheck(ProbeStep(p, c))
  {
    if c.Event? {
      ConversionChecks(p.converter, Wrap(c.time), c.clocks);
      if p.asked != [] {
        WrapDifference(c.time, p.lastCheck);
        WrapIsAtMost(c.time - p.lastCheck);
      }
      if ProbeStep(p, c).asked != p.asked { StillRateLimited(p.asked, c.time); }
    }
  }

  /** The current time is asked for exactly if the event lies more than 30 milliseconds
      back and more than 2000 after the last check; and the event is a check itself if it
      asks or lies no further back than that. All times are unwrapped. */
  lemma AsksExactly(c: Converter, reference: int, t: int, check: int, now: int)
    requires Refers(c, reference) && InHalfRange(Lag(c, reference, t, now))
    requires c.lastBackwardsSkewCheck == Wrap(check) && 0 <= t - check < UINT32_RANGE
    ensures var r, lag := ConvertReferred(c, Wrap(t), now), Lag(c, reference, t, now);
      && (r.asks <==> lag > 30 && t - check > 2000)
      && r.converter.lastBackwardsSkewCheck == Wrap(if r.asks || lag <= 30 then t else check)
      && (lag >= 0 ==> r.converter.referenceTime == c.referenceTime
                       && r.converter.referenceTimeStamp == c.referenceTimeStamp)
  {
    ComparesExactly(c, reference, t, now);
    WrapDifference(t, check);
  }

  /** The last check moves to the event, or stays; a request moves it, and comes only
      after the interval. */
  lemma ConversionChecks(c: Converter, t: Time, k: Clocks)
    ensures var r := Convert(c, t, k); var check := r.converter.lastBackwardsSkewCheck;
      && (check == c.lastBackwardsSkewCheck || check == t)
      && (r.asks ==> check == t && Wrap(t - c.lastBackwardsSkewCheck) > SKEW_CHECK_INTERVAL)
  {
  }

  lemma WrapIsAtMost(n: nat)
    ensures Wrap(n) <= n
  {
  }

  lemma StillRateLimited(asked: seq<int>, t: int)
    requires IsRateLimited(asked) && (asked != [] ==> t - asked[|asked| - 1] > SKEW_CHECK_INTERVAL)
    ensures IsRateLimited(asked + [t])
  {
  }

  lemma {:induction false} KeepsCheckAlways(c: Converter, calls: seq<Call>)
    requires InTimeOrder(calls)
    ensures var p := ProbeAll(Probe(c, 0, 0, []), calls);
      && KeepsCheck(p)
      && (p.asked != [] ==> exists j :: 0 <= j < |calls| && calls[j].Event? && calls[j].time == p.lastTime)
  {
    if calls == [] {
    } else {
      var init, last := calls[..|calls| - 1], calls[|calls| - 1];
      KeepsCheckAlways(c, init);
      var p := ProbeAll(Probe(c, 0, 0, []), init);
      if p.asked != [] {
        var j :| 0 <= j < |init| && init[j].Event? && init[j].time == p.lastTime;
        assert calls[j] == init[j];
      }
      KeepsCheckStep(p, last);
      assert last == calls[|calls| - 1];
    }
  }

  /** The k-th request for the current time after another one comes at least 2001 * k
      milliseconds of event time later, however often the counter has wrapped. */
  lemma SkewChecksAreRateLimited(c: Converter, calls: seq<Call>, i: nat, k: nat)
    requires InTimeOrder(calls)
    ensures var asked := ProbeAll(Probe(c, 0, 0, []), calls).asked;
      i + k < |asked| ==> asked[i + k] - asked[i] >= 2001 * k
  {
    KeepsCheckAlways(c, calls);
  }
}
