/** ElapsedRealtimeEstimator of gps/core/LocApiBase.cpp: estimates when, on the boot clock, a modem time was. */
module ClockEstimator {
  import opened Wrappers

  const FIXES_TO_WAIT := 5

  datatype Clocks = Clocks(utc: int, boot: int)

  /** One call, with what getCurrentTime() answers; all times in nanoseconds. */
  datatype Call = Call(now: Option<Clocks>, data: int, trusted: bool, tbf: int)

  datatype Estimate = Estimate(clockDiff: int, prevUtc: int, prevBoot: int, threshold: int, prevData: int)

  const Fresh := Estimate(0, 0, 0, FIXES_TO_WAIT, 0)

  predicate Usable(c: Call) {
    c.now.Some? && c.trusted
  }

  function Threshold(e: Estimate, c: Call): int {
    if c.tbf > 0 && c.tbf != c.data - e.prevData then FIXES_TO_WAIT else e.threshold
  }

  function ClockDiff(e: Estimate, c: Call, travel: int): int
    requires c.now.Some?
  {
    var now := c.now.value;
    if Threshold(e, c) == 0 then now.utc - c.data - travel
    else if Threshold(e, c) < 0 then e.clockDiff + (now.utc - now.boot) - (e.prevUtc - e.prevBoot)
    else e.clockDiff
  }

  function After(e: Estimate, c: Call, travel: int): Estimate {
    if !Usable(c) then e
    else Estimate(ClockDiff(e, c, travel), c.now.value.utc, c.now.value.boot, Threshold(e, c) - 1, c.data)
  }

  /** The returned estimate; `travel` is the initial travel time. */
  function Answer(e: Estimate, c: Call, travel: int): int {
    match c.now
    case None => -1
    case Some(now) =>
      now.boot - if c.trusted && Threshold(e, c) < 0 then now.utc - c.data - ClockDiff(e, c, travel) else travel
  }

  function Run(h: seq<Call>, travel: int): Estimate {
    if h == [] then Fresh else After(Run(h[..|h| - 1], travel), h[|h| - 1], travel)
  }

  // ---------------------------------------------------------------- what the history says

  /** Data time of the last trusted call with a clock, 0 before the first. */
  function PrevData(h: seq<Call>): int {
    if h == [] then 0
    else if h[|h| - 1].trusted && h[|h| - 1].now.Some? then h[|h| - 1].data
    else PrevData(h[..|h| - 1])
  }

  /** Such calls since the data time last jumped against the time between fixes, the jump included. */
  function Streak(h: seq<Call>): nat {
    if h == [] then 0
    else
      var (before, c) := (h[..|h| - 1], h[|h| - 1]);
      if !c.trusted || c.now.None? then Streak(before)
      else if c.tbf > 0 && c.tbf != c.data - PrevData(before) then 1
      else Streak(before) + 1
  }

  /** The sixth call of the streak. */
  function Anchor(h: seq<Call>): (a: Call)
    requires Streak(h) > 5
    ensures a.now.Some?
  {
    var c := h[|h| - 1];
    if c.trusted && c.now.Some? && Streak(h) == 6 then c else Anchor(h[..|h| - 1])
  }

  /** What the estimator should say of the last call of a history: it goes by the boot clock alone. */
  function Expected(h: seq<Call>, travel: int): int
    requires h != []
  {
    var c := h[|h| - 1];
    if c.now.None? then -1
    else if c.trusted && Streak(h) > 5 then
      (Anchor(h).now.value.boot - travel) + (c.data - Anchor(h).data)
    else c.now.value.boot - travel
  }

  // ---------------------------------------------------------------- telescoping

  /** The clock difference holds the latest UTC-to-boot offset, plus what was fixed at the anchor. */
  ghost predicate Telescoped(h: seq<Call>, e: Estimate, travel: int) {
    && e.threshold == 5 - Streak(h)
    && e.prevData == PrevData(h)
    && (Streak(h) > 5 ==>
          e.clockDiff == (e.prevUtc - e.prevBoot) + (Anchor(h).now.value.boot - Anchor(h).data - travel))
  }

  lemma {:induction false} RunTelescopes(h: seq<Call>, travel: int)
    ensures Telescoped(h, Run(h, travel), travel)
  {
    if h != [] {
      RunTelescopes(h[..|h| - 1], travel);
    }
  }

  /** Every call of every run answers as `Expected`: however often the wall clock jumped, whatever untrusted
      calls came between, and after any number of jumps of the data time. */
  lemma AnswersAsExpected(h: seq<Call>, c: Call, travel: int)
    ensures Answer(Run(h, travel), c, travel) == Expected(h + [c], travel)
  {
    RunTelescopes(h, travel);
    assert (h + [c])[..|h|] == h;
  }

  predicate SameButForWallClock(a: Call, b: Call) {
    && a.now.Some? == b.now.Some? && (a.now.Some? ==> a.now.value.boot == b.now.value.boot)
    && a.data == b.data && a.trusted == b.trusted && a.tbf == b.tbf
  }

  lemma {:induction false} HistoryIgnoresWallClock(g: seq<Call>, h: seq<Call>)
    requires |g| == |h| && forall i | 0 <= i < |g| :: SameButForWallClock(g[i], h[i])
    ensures PrevData(g) == PrevData(h) && Streak(g) == Streak(h)
    ensures Streak(g) > 5 ==> SameButForWallClock(Anchor(g), Anchor(h))
  {
    if g != [] {
      HistoryIgnoresWallClock(g[..|g| - 1], h[..|h| - 1]);
    }
  }

  /** Two runs that differ only in the wall clock get the same answers. */
  lemma WallClockDoesNotMatter(g: seq<Call>, h: seq<Call>, c: Call, d: Call, travel: int)
    requires |g| == |h| && forall i | 0 <= i < |g| :: SameButForWallClock(g[i], h[i])
    requires SameButForWallClock(c, d)
    ensures Answer(Run(g, travel), c, travel) == Answer(Run(h, travel), d, travel)
  {
    AnswersAsExpected(g, c, travel);
    AnswersAsExpected(h, d, travel);
    HistoryIgnoresWallClock(g + [c], h + [d]);
  }

  // ---------------------------------------------------------------- the estimator as an object

  class ElapsedRealtimeEstimator {
    var mCurrentClockDiff: int
    var mPrevUtcTimeNanos: int
    var mPrevBootTimeNanos: int
    var mFixTimeStablizationThreshold: int
    var mPrevDataTimeNanos: int
    const mInitialTravelTime: int

    function Current(): Estimate
      reads this
    {
      Estimate(mCurrentClockDiff, mPrevUtcTimeNanos, mPrevBootTimeNanos, mFixTimeStablizationThreshold,
               mPrevDataTimeNanos)
    }

    constructor (travelTimeNanosEstimate: int)
      ensures Current() == Fresh && mInitialTravelTime == travelTimeNanosEstimate
    {
      mInitialTravelTime := travelTimeNanosEstimate;
      new;
      Reset();
    }

    method Reset()
      modifies this
      ensures Current() == Fresh
    {
      mCurrentClockDiff, mPrevDataTimeNanos, mPrevUtcTimeNanos, mPrevBootTimeNanos := 0, 0, 0, 0;
      mFixTimeStablizationThreshold := FIXES_TO_WAIT;
    }

    method GetElapsedRealtimeEstimateNanos(now: Option<Clocks>, data: int, trusted: bool, tbf: int) returns (nanos: int)
      modifies this
      ensures var c := Call(now, data, trusted, tbf);
              && Current() == After(old(Current()), c, mInitialTravelTime)
              && nanos == Answer(old(Current()), c, mInitialTravelTime)
    {
      var currentTravelTimeNanos := mInitialTravelTime;
      match now
      case None => return -1;
      case Some(time) =>
        if trusted {
          if tbf > 0 && tbf != data - mPrevDataTimeNanos {
            mFixTimeStablizationThreshold := FIXES_TO_WAIT;
          }
          if mFixTimeStablizationThreshold == 0 {
            currentTravelTimeNanos := mInitialTravelTime;
            mCurrentClockDiff := time.utc - data - currentTravelTimeNanos;
          } else if mFixTimeStablizationThreshold < 0 {
            mCurrentClockDiff := mCurrentClockDiff + (time.utc - time.boot) - (mPrevUtcTimeNanos - mPrevBootTimeNanos);
            currentTravelTimeNanos := time.utc - data - mCurrentClockDiff;
          }
          mPrevUtcTimeNanos, mPrevBootTimeNanos, mPrevDataTimeNanos := time.utc, time.boot, data;
          mFixTimeStablizationThreshold := mFixTimeStablizationThreshold - 1;
        }
        return time.boot - currentTravelTimeNanos;
    }
  }
}
