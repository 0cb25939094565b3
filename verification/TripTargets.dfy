/** What starts, stops and reports of trips do to the modem and to the list of trips, in terms of the trips themselves:
    the positive side of the bounds in TripBatching. */
module TripTargets {
  import opened Wrappers
  import opened TripBatching

  // ---------------------------------------------------------------- what a restart asks for

  /** No trip has less to go than `m`, and some trip has exactly that. */
  ghost predicate IsLeastRemaining(trips: seq<Trip>, m: int) {
    && (forall t <- trips :: m <= t.distance - t.thisTrip)
    && exists t <- trips :: m == t.distance - t.thisTrip
  }

  ghost predicate IsLeastInterval(trips: seq<Trip>, m: int) {
    (forall t <- trips :: m <= t.tbf) && exists t <- trips :: m == t.tbf
  }

  /** Some trip has less to go than is left of the target, or none is left, or the trip it was made for is gone. */
  ghost predicate NeedsTarget(a: Adapter, acc: uint32) {
    a.distanceDropped || a.ongoingDistance <= acc
    || exists t <- a.trips :: t.distance - t.thisTrip < a.ongoingDistance - acc
  }

  /** Some trip asks for a shorter interval, or the one that asked for the present one is gone. */
  ghost predicate NeedsInterval(a: Adapter) {
    (exists t <- a.trips :: t.tbf < a.ongoingTbf) || (a.tbfDropped && forall t <- a.trips :: a.ongoingTbf < t.tbf)
  }

  /** Trips with something to go, intervals that are set, and lengths under 2^31 metres. */
  ghost predicate Ordinary(a: Adapter, acc: uint32) {
    && a.trips != [] && acc < 0x8000_0000
    && forall t <- a.trips :: t.thisTrip < t.distance < 0x8000_0000 && 0 < t.tbf
  }

  lemma LeastRemainingIs(a: Adapter, acc: uint32)
    requires Ordinary(a, acc)
    ensures IsLeastRemaining(a.trips, MinRemaining(a.trips, 0))
    ensures DistanceRestarts(a, acc) <==> NeedsTarget(a, acc)
  {
    MinRemainingIsLeast(a.trips, 0);
    var t :| t in a.trips && MinRemaining(a.trips, 0) == t.distance - t.thisTrip;
  }

  lemma LeastIntervalIs(a: Adapter, acc: uint32)
    requires Ordinary(a, acc)
    ensures IsLeastInterval(a.trips, MinTbf(a.trips, 0))
    ensures IntervalRestarts(a) <==> NeedsInterval(a)
  {
    MinTbfIsLeast(a.trips, 0);
    var t :| t in a.trips && MinTbf(a.trips, 0) == t.tbf;
  }

  /** The trips after a restart: settled at the reading, with the same ends and intervals. */
  lemma RebaseSettles(trips: seq<Trip>, acc: uint32)
    requires forall t <- trips :: Progressed(t, acc) == t
    ensures forall t <- Rebase(trips, acc) :: t.ongoingBatch == 0 && t.onRestart == t.thisTrip
    ensures forall m :: IsLeastRemaining(trips, m) <==> IsLeastRemaining(Rebase(trips, acc), m)
  {
    var after := Rebase(trips, acc);
    RebaseMembers(trips, acc);
    RebaseKeepsAll(trips, acc);
    forall m ensures IsLeastRemaining(trips, m) <==> IsLeastRemaining(after, m) {
      if IsLeastRemaining(trips, m) {
        var t :| t in trips && m == t.distance - t.thisTrip;
        assert Rebased(Progressed(t, acc)) in after;
      }
      if IsLeastRemaining(after, m) {
        var t :| t in after && m == t.distance - t.thisTrip;
        var u :| u in trips && t == Rebased(Progressed(u, acc));
        forall v | v in trips ensures m <= v.distance - v.thisTrip {
          assert Rebased(Progressed(v, acc)) in after;
        }
      }
    }
  }

  /** An accepted restartTripBatching: the modem starts a new batch exactly if a target or an interval is needed; the
      target is then the least remaining distance, the interval the least interval, each if it is needed and else as
      before. */
  lemma RestartRetargets(w: World, acc: uint32)
    requires Ordinary(w.adapter, acc)
    ensures var (a, next) := (w.adapter, Restarted(w, Restart(w.adapter, acc, true), acc));
            && (NeedsTarget(a, acc) || NeedsInterval(a) ==>
                  && next.odometer == 0 && next.running && Believed(next)
                  && (NeedsTarget(a, acc) ==> IsLeastRemaining(a.trips, next.target))
                  && (!NeedsTarget(a, acc) ==> next.target == a.ongoingDistance)
                  && (NeedsInterval(a) ==> IsLeastInterval(a.trips, next.interval))
                  && (!NeedsInterval(a) ==> next.interval == a.ongoingTbf))
            && (!NeedsTarget(a, acc) && !NeedsInterval(a) ==> next == w)
  {
    LeastRemainingIs(w.adapter, acc);
    LeastIntervalIs(w.adapter, acc);
    RewrittenNotEmpty(w.adapter.trips, acc, 0);
  }

  // ---------------------------------------------------------------- reports

  /** The trips that a report leaves. */
  ghost predicate Stays(t: Trip, reading: uint32) {
    Progressed(t, reading).thisTrip < t.distance
  }

  lemma {:induction false} KeptAre(trips: seq<Trip>, reading: uint32)
    ensures forall t <- trips :: Stays(t, reading) ==> Progressed(t, reading) in Kept(trips, reading)
    ensures forall t <- trips :: !Stays(t, reading) ==> Progressed(t, reading) in Completed(trips, reading)
    ensures (forall t <- trips :: Stays(t, reading)) <==> Completed(trips, reading) == []
    ensures (forall t <- trips :: !Stays(t, reading)) <==> Kept(trips, reading) == []
  {
    if trips != [] {
      KeptAre(trips[1..], reading);
      assert forall t <- trips :: t == trips[0] || t in trips[1..];
      assert trips[0] in trips && forall t <- trips[1..] :: t in trips;
      var p := Progressed(trips[0], reading);
      if Stays(trips[0], reading) {
        assert Kept(trips, reading)[0] == p;
      } else {
        assert Completed(trips, reading)[0] == p;
      }
    }
  }

  lemma KeptAreSettled(trips: seq<Trip>, reading: uint32)
    ensures forall t <- Kept(trips, reading) :: Progressed(t, reading) == t && t.thisTrip < t.distance
  {
    ReportMembers(trips, reading);
    forall t | t in Kept(trips, reading) ensures Progressed(t, reading) == t {
      var u :| u in trips && t == Progressed(u, reading);
    }
  }

  /** The same for a restart with every account settled at the reading. */
  lemma SettledRestartRetargets(w: World, reading: uint32)
    requires Ordinary(w.adapter, reading) && NeedsTarget(w.adapter, reading)
    requires forall t <- w.adapter.trips :: Progressed(t, reading) == t
    ensures var next := Restarted(w, Restart(w.adapter, reading, true), reading);
            && next.odometer == 0 && next.running && next.adapter.trips != []
            && IsLeastRemaining(next.adapter.trips, next.target)
            && forall t <- next.adapter.trips :: 0 < t.distance - t.thisTrip
  {
    RestartRetargets(w, reading);
    LeastRemainingIs(w.adapter, reading);
    RebaseSettles(w.adapter.trips, reading);
    RebaseMembers(w.adapter.trips, reading);
    RewrittenNotEmpty(w.adapter.trips, reading, 0);
  }

  lemma LeftIsOrdinary(a: Adapter, reading: uint32)
    requires exists t <- a.trips :: Stays(t, reading)
    requires reading < 0x8000_0000 && forall t <- a.trips :: t.distance < 0x8000_0000 && 0 < t.tbf
    ensures Ordinary(WithoutCompleted(a, reading), reading)
    ensures forall t <- WithoutCompleted(a, reading).trips :: Progressed(t, reading) == t
  {
    KeptAre(a.trips, reading);
    KeptAreSettled(a.trips, reading);
    ReportMembers(a.trips, reading);
    var left := WithoutCompleted(a, reading);
    forall t | t in left.trips ensures t.distance < 0x8000_0000 && 0 < t.tbf {
      var u :| u in a.trips && t == Progressed(u, reading);
    }
  }

  lemma CompletingReport(w: World, reading: uint32, accepted: bool)
    requires Completed(w.adapter.trips, reading) != []
    ensures var left := WithoutCompleted(w.adapter, reading);
            Step(w, ReportDistance(reading, accepted))
            == Restarted(w.(adapter := left), Restart(left, reading, accepted), reading)
  {
  }

  lemma TargetTripGone(a: Adapter, reading: uint32)
    requires exists t <- a.trips :: !Stays(t, reading) && t.distance == a.ongoingDistance
    ensures Completed(a.trips, reading) != [] && NeedsTarget(WithoutCompleted(a, reading), reading)
  {
    KeptAre(a.trips, reading);
    var gone :| gone in a.trips && !Stays(gone, reading) && gone.distance == a.ongoingDistance;
    assert Progressed(gone, reading) in Completed(a.trips, reading);
  }

  /** An accepted report that completes the trip which the target was made for, with others left: the modem starts a new
      batch, whose target is at most what each of the others has left and equal to what one of them has left. */
  lemma ReportSetsLeastTarget(w: World, reading: uint32)
    requires exists t <- w.adapter.trips :: !Stays(t, reading) && t.distance == w.adapter.ongoingDistance
    requires exists t <- w.adapter.trips :: Stays(t, reading)
    requires reading < 0x8000_0000 && forall t <- w.adapter.trips :: t.distance < 0x8000_0000 && 0 < t.tbf
    ensures var next := Step(w, ReportDistance(reading, true));
            && next.odometer == 0 && next.running && next.adapter.trips != []
            && IsLeastRemaining(next.adapter.trips, next.target)
            && forall t <- next.adapter.trips :: 0 < t.distance - t.thisTrip
  {
    TargetTripGone(w.adapter, reading);
    LeftIsOrdinary(w.adapter, reading);
    CompletingReport(w, reading, true);
    SettledRestartRetargets(w.(adapter := WithoutCompleted(w.adapter, reading)), reading);
  }

  lemma CompletedDistance(trips: seq<Trip>, reading: uint32, distance: uint32)
    ensures (exists d <- Completed(trips, reading) :: d.distance == distance) <==>
            exists t <- trips :: !Stays(t, reading) && t.distance == distance
  {
    KeptAre(trips, reading);
    ReportMembers(trips, reading);
    if t :| t in trips && !Stays(t, reading) && t.distance == distance {
      assert Progressed(t, reading) in Completed(trips, reading);
    }
    if d :| d in Completed(trips, reading) && d.distance == distance {
      var u :| u in trips && d == Progressed(u, reading);
    }
  }

  lemma CompletedInterval(trips: seq<Trip>, reading: uint32, tbf: uint32)
    ensures (exists d <- Completed(trips, reading) :: d.tbf == tbf) <==>
            exists t <- trips :: !Stays(t, reading) && t.tbf == tbf
  {
    KeptAre(trips, reading);
    ReportMembers(trips, reading);
    if t :| t in trips && !Stays(t, reading) && t.tbf == tbf {
      assert Progressed(t, reading) in Completed(trips, reading);
    }
    if d :| d in Completed(trips, reading) && d.tbf == tbf {
      var u :| u in trips && d == Progressed(u, reading);
    }
  }

  /** A report takes exactly the trips out that it completes, and notes whether the present distance or interval went
      with one of them. */
  lemma ReportTakesOut(a: Adapter, reading: uint32)
    ensures var left := WithoutCompleted(a, reading);
            && (left.distanceDropped <==>
                  a.distanceDropped || exists t <- a.trips :: !Stays(t, reading) && t.distance == a.ongoingDistance)
            && (left.tbfDropped <==>
                  a.tbfDropped || exists t <- a.trips :: !Stays(t, reading) && t.tbf == a.ongoingTbf)
            && left == a.(trips := left.trips, distanceDropped := left.distanceDropped, tbfDropped := left.tbfDropped)
    ensures forall t :: t in WithoutCompleted(a, reading).trips <==>
                        exists u <- a.trips :: Stays(u, reading) && t == Progressed(u, reading)
  {
    CompletedDistance(a.trips, reading, a.ongoingDistance);
    CompletedInterval(a.trips, reading, a.ongoingTbf);
    KeptAre(a.trips, reading);
    KeptMembers(a.trips, reading);
  }

  /** An accepted report that completes some trip, with others left: a new batch exactly if a target or an interval is
      needed for them, with the least remaining distance and the least interval of them, where needed. */
  lemma ReportRetargets(w: World, reading: uint32)
    requires exists t <- w.adapter.trips :: !Stays(t, reading)
    requires exists t <- w.adapter.trips :: Stays(t, reading)
    requires reading < 0x8000_0000 && forall t <- w.adapter.trips :: t.distance < 0x8000_0000 && 0 < t.tbf
    ensures var (left, next) := (WithoutCompleted(w.adapter, reading), Step(w, ReportDistance(reading, true)));
            && (NeedsTarget(left, reading) || NeedsInterval(left) ==>
                  && next.odometer == 0 && next.running && Believed(next)
                  && (NeedsTarget(left, reading) ==> IsLeastRemaining(left.trips, next.target))
                  && (!NeedsTarget(left, reading) ==> next.target == w.adapter.ongoingDistance)
                  && (NeedsInterval(left) ==> IsLeastInterval(left.trips, next.interval))
                  && (!NeedsInterval(left) ==> next.interval == w.adapter.ongoingTbf))
            && (!NeedsTarget(left, reading) && !NeedsInterval(left) ==> next == w.(adapter := left))
  {
    KeptAre(w.adapter.trips, reading);
    LeftIsOrdinary(w.adapter, reading);
    CompletingReport(w, reading, true);
    RestartRetargets(w.(adapter := WithoutCompleted(w.adapter, reading)), reading);
  }

  /** After an engine restart the modem gets the least remaining distance and the least interval, if it accepts; if not,
      it does not batch, and the adapter has no target and no interval. The list stays as it is. */
  lemma EngineRestartTargets(w: World, accepted: bool)
    requires Ordinary(w.adapter, 0)
    ensures var next := Step(w, EngineRestart(accepted));
            && next.odometer == 0 && next.travelled == w.travelled && next.running == accepted
            && next.adapter == w.adapter.(ongoingDistance := next.adapter.ongoingDistance,
                                          ongoingTbf := next.adapter.ongoingTbf)
            && (accepted ==>
                  && Believed(next) && IsLeastRemaining(w.adapter.trips, next.target)
                  && IsLeastInterval(w.adapter.trips, next.interval))
            && (!accepted ==> next.adapter.ongoingDistance == next.adapter.ongoingTbf == 0)
  {
    LeastRemainingIs(w.adapter, 0);
    LeastIntervalIs(w.adapter, 0);
  }

  /** Without trips it changes nothing but the odometer. */
  lemma EngineRestartParked(w: World, accepted: bool)
    requires w.adapter.trips == []
    ensures var next := Step(w, EngineRestart(accepted));
            next.adapter == w.adapter && next.odometer == 0 && !next.running && next.travelled == w.travelled
  {
  }

  /** The modem has not come to its target yet. */
  predicate Ahead(w: World) {
    w.running && w.odometer < w.target
  }

  /** After a report with the reading of the odometer no unfinished trip is left behind, exactly if the report completes
      some trip and the modem accepts, or it was not at its target yet. */
  lemma ReportLeavesAheadIff(w: World, accepted: bool)
    requires Believed(w) && w.odometer < 0x8000_0000 && w.adapter.ongoingDistance < 0x8000_0000
    requires forall t <- w.adapter.trips :: t.distance < 0x8000_0000 && 0 < t.tbf
    requires exists t <- w.adapter.trips :: Stays(t, w.odometer)
    ensures Ahead(Step(w, ReportDistance(w.odometer, accepted))) <==>
            w.odometer < w.target || (accepted && exists t <- w.adapter.trips :: !Stays(t, w.odometer))
  {
    var reading, left := w.odometer, WithoutCompleted(w.adapter, w.odometer);
    KeptAre(w.adapter.trips, reading);
    if Completed(w.adapter.trips, reading) != [] {
      LeftIsOrdinary(w.adapter, reading);
      CompletingReport(w, reading, accepted);
      if accepted {
        RestartLeavesAhead(w.(adapter := left), reading);
      }
    }
  }

  lemma RestartLeavesAhead(w: World, reading: uint32)
    requires Ordinary(w.adapter, reading) && w.running && w.target == w.adapter.ongoingDistance
    requires reading == w.odometer
    ensures Ahead(Restarted(w, Restart(w.adapter, reading, true), reading))
  {
    RestartRetargets(w, reading);
  }

  /** In every smooth run: such a report leaves an unfinished trip behind exactly if the modem had come to its target
      and the report completes nobody, or the modem refuses. */
  lemma ReportInRunLeavesAheadIff(es: seq<Event>, accepted: bool)
    requires Orderly(Garage, es)
    requires var w := Drive(Garage, es);
             && w.odometer < 0x8000_0000 && w.adapter.ongoingDistance < 0x8000_0000
             && (forall t <- w.adapter.trips :: t.distance < 0x8000_0000 && 0 < t.tbf)
             && exists t <- w.adapter.trips :: Stays(t, w.odometer)
    ensures var w := Drive(Garage, es);
            Ahead(Step(w, ReportDistance(w.odometer, accepted))) <==>
            w.odometer < w.target || (accepted && exists t <- w.adapter.trips :: !Stays(t, w.odometer))
  {
    DriveKeepsBelief(Garage, es);
    ReportLeavesAheadIff(Drive(Garage, es), accepted);
  }

  // ---------------------------------------------------------------- a target that nobody ends at

  /** Trip 2, sampled more often, started after `gone` metres of trip 1, so that the target is what trip 1 had left. */
  function SecondSampled(gone: uint32, far: uint32, odometer: uint32): World
    requires gone < 1000
  {
    World(Adapter([Trip(1, 0, 0, 0, 1000, 10), Trip(2, 0, 0, 0, far, 5)], {1}, 1000 - gone, 5, false, false),
          odometer, true, 1000 - gone, 5, gone + odometer, map[1 := 0, 2 := gone], map[1 := gone, 2 := 0])
  }

  /** Trip 1 stopped right away: neither its distance nor its interval is the present one, so nothing is noticed. */
  function FirstStoppedUnnoticed(gone: uint32, far: uint32, odometer: uint32): World
    requires gone < 1000
  {
    var w := SecondSampled(gone, far, odometer);
    w.(adapter := w.adapter.(trips := [Trip(2, 0, 0, 0, far, 5)]))
  }

  lemma StartSampledAdapter(a: Adapter, gone: uint32, far: uint32)
    requires 0 < gone < 1000 <= far && a == OneTrip(1000, gone).adapter
    ensures !Listed(a.trips, 2) && StartRestarts(a, Some(gone), far, 5)
    ensures StartAnother(a, Some(gone), 2, far, 5, true) == Outcome(SecondSampled(gone, far, 0).adapter, true)
    ensures StartList(a.trips, Some(gone), 2, far, 5) == [Trip(1, 0, 0, 0, 1000, 10), Trip(2, gone, 0, 0, far, 5)]
  {
    InsertSecond(Trip(1, 0, 0, 0, 1000, 10), Trip(2, gone, 0, 0, far, 5));
  }

  lemma StartSampledForgets(w: World, t1: Trip, t2: Trip)
    requires t1.id == 1 && t2.id == 2 && Unsettled(w, t2) == 0
    requires w.forgotten == map[1 := 0, 2 := 0]
    ensures ForgetUnsettled(w, [t1, t2], 0) == map[1 := Unsettled(w, t1), 2 := 0]
  {
    var list := [t1, t2];
    assert Increasing(list) && list[0] == t1 && list[1] == t2;
    FindOfMember(list, t1);
    FindOfMember(list, t2);
  }

  lemma StartSampled(gone: uint32, far: uint32)
    requires 0 < gone < 1000 <= far
    ensures var start := StartTrip(2, far, 5, Some(gone), 0, true);
            && CanHappen(OneTrip(1000, gone), start) && Smooth(OneTrip(1000, gone), start)
            && Step(OneTrip(1000, gone), start) == SecondSampled(gone, far, 0)
  {
    var w, start := OneTrip(1000, gone), StartTrip(2, far, 5, Some(gone), 0, true);
    StartSampledAdapter(w.adapter, gone, far);
    StartSampledForgets(Joined(w, start), Trip(1, 0, 0, 0, 1000, 10), Trip(2, gone, 0, 0, far, 5));
  }

  lemma StopUnnoticed(gone: uint32, far: uint32)
    requires 0 < gone < 1000 <= far
    ensures var w := SecondSampled(gone, far, 0);
            Smooth(w, StopTrip(1, 0, true)) && Step(w, StopTrip(1, 0, true)) == FirstStoppedUnnoticed(gone, far, 0)
  {
    var t1, t2 := Trip(1, 0, 0, 0, 1000, 10), Trip(2, 0, 0, 0, far, 5);
    var w := SecondSampled(gone, far, 0);
    assert w.adapter.trips[0].id == 1 && w.adapter.trips[1..] == [t2] && [t2][1..] == [];
    assert Listed(w.adapter.trips, 1) && Find(w.adapter.trips, 1) == t1;
    assert Stopped(w.adapter, 1) == w.adapter.(trips := [t2]);
    assert MinRemaining([t2], 0) == MinRemaining([], far) == far;
    assert MinTbf([t2], 0) == MinTbf([], 5) == 5;
  }

  lemma ReachBehind(gone: uint32, far: uint32)
    requires 0 < gone < 1000 <= far
    ensures Reached(FirstStoppedUnnoticed(gone, far, 1000 - gone))
  {
    OneTripUnderWay(1000, gone);
    StartSampled(gone, far);
    ReachStep(OneTrip(1000, gone), StartTrip(2, far, 5, Some(gone), 0, true));
    StopUnnoticed(gone, far);
    ReachStep(SecondSampled(gone, far, 0), StopTrip(1, 0, true));
    ReachStep(FirstStoppedUnnoticed(gone, far, 0), Travel(1000 - gone));
  }

  lemma ReportToOne(w: World, t: Trip, reading: uint32)
    requires w.adapter.trips == [t] && Stays(t, reading)
    ensures Completed(w.adapter.trips, reading) == []
    ensures Step(w, ReportDistance(reading, true)) == w.(adapter := w.adapter.(trips := [Progressed(t, reading)]))
  {
    ReportOfOne(t, reading);
  }

  /** Such a run: after the stop the modem keeps a target at which no trip ends. The report there completes nobody, so
      the modem is left at its target although trip 2 has not come to its end. */
  lemma StopLeavesBehind(gone: uint32, far: uint32)
    requires 0 < gone < 1000 <= far
    ensures var (w, report) := (FirstStoppedUnnoticed(gone, far, 1000 - gone), ReportDistance(1000 - gone, true));
            && Reached(w) && w.odometer == w.target && Smooth(w, report)
            && Completed(w.adapter.trips, 1000 - gone) == [] && !Ahead(Step(w, report))
            && Step(w, report).adapter.trips == [Trip(2, 0, 1000 - gone, 0, far, 5)]
  {
    ReachBehind(gone, far);
    ReportToOne(FirstStoppedUnnoticed(gone, far, 1000 - gone), Trip(2, 0, 0, 0, far, 5), 1000 - gone);
  }

  // ---------------------------------------------------------------- stops

  lemma {:induction false} EraseAre(trips: seq<Trip>, id: uint32)
    requires Increasing(trips)
    ensures forall t :: t in Erase(trips, id) <==> t in trips && t.id != id
  {
    if trips != [] {
      assert forall t :: t in trips <==> t == trips[0] || t in trips[1..];
      if trips[0].id != id {
        EraseAre(trips[1..], id);
      }
    }
  }

  /** A stop takes exactly its own trip out, and notes whether target or interval went with it. */
  lemma StopTakesOut(a: Adapter, stopped: Trip)
    requires Increasing(a.trips) && stopped in a.trips
    ensures Listed(a.trips, stopped.id)
    ensures var left := Stopped(a, stopped.id);
            && (forall t :: t in left.trips <==> t in a.trips && t.id != stopped.id)
            && (left.distanceDropped <==> a.distanceDropped || stopped.distance == a.ongoingDistance)
            && (left.tbfDropped <==> a.tbfDropped || stopped.tbf == a.ongoingTbf)
            && left == a.(trips := left.trips, distanceDropped := left.distanceDropped, tbfDropped := left.tbfDropped)
  {
    FindOfMember(a.trips, stopped);
    EraseAre(a.trips, stopped.id);
  }

  /** An accepted stop with others left: the modem starts a new batch exactly if a target or an interval is needed for
      them, and then gets the least remaining distance and the least interval of them, where needed. */
  lemma StopRetargets(w: World, stopped: Trip, queried: uint32)
    requires Increasing(w.adapter.trips) && stopped in w.adapter.trips && stopped.id in w.adapter.batching
    requires Listed(w.adapter.trips, stopped.id) && Ordinary(Stopped(w.adapter, stopped.id), queried)
    ensures var (left, next) := (Stopped(w.adapter, stopped.id), Step(w, StopTrip(stopped.id, queried, true)));
            && (NeedsTarget(left, queried) || NeedsInterval(left) ==>
                  && next.odometer == 0 && next.running && Believed(next)
                  && (NeedsTarget(left, queried) ==> IsLeastRemaining(left.trips, next.target))
                  && (!NeedsTarget(left, queried) ==> next.target == w.adapter.ongoingDistance)
                  && (NeedsInterval(left) ==> IsLeastInterval(left.trips, next.interval))
                  && (!NeedsInterval(left) ==> next.interval == w.adapter.ongoingTbf))
            && (!NeedsTarget(left, queried) && !NeedsInterval(left) ==> next == w.(adapter := left))
  {
    StopTakesOut(w.adapter, stopped);
    RestartRetargets(w.(adapter := Stopped(w.adapter, stopped.id)), queried);
  }

  // ---------------------------------------------------------------- starts

  /** A start while others are under way and told of the odometer: the modem starts a new batch, if it accepts, exactly
      if the new trip is shorter than what is left of the target or asks for a shorter interval; it then gets the
      shorter of the two distances and the shorter of the two intervals. */
  lemma StartRetargets(w: World, e: Event)
    requires e.StartTrip? && CanHappen(w, e) && w.adapter.trips != [] && e.accepted
    requires e.queried.Some? && e.queried.value <= w.adapter.ongoingDistance
    ensures var (a, next) := (w.adapter, Step(w, e));
            var left := a.ongoingDistance - e.queried.value;
            && (e.distance < left || e.tbf < a.ongoingTbf ==>
                  && next.odometer == 0 && next.running && Believed(next)
                  && next.target <= left && next.target <= e.distance
                  && (next.target == left || next.target == e.distance)
                  && next.interval <= a.ongoingTbf && next.interval <= e.tbf
                  && (next.interval == a.ongoingTbf || next.interval == e.tbf))
            && (left <= e.distance && a.ongoingTbf <= e.tbf ==>
                  next.odometer == w.odometer && next.target == w.target && next.interval == w.interval)
  {
    StartListNotEmpty(w, e);
  }

  /** Without an answer to its query a start is compared with the whole target, and if the modem accepts it starts a new
      batch for it, although the trip is not listed. */
  lemma UnansweredStartRetargets(w: World, e: Event)
    requires e.StartTrip? && CanHappen(w, e) && w.adapter.trips != [] && e.accepted && e.queried.None?
    ensures var (a, next) := (w.adapter, Step(w, e));
            && (e.distance < a.ongoingDistance || e.tbf < a.ongoingTbf ==>
                  && next.odometer == 0 && next.running && Believed(next)
                  && next.target <= a.ongoingDistance && next.target <= e.distance
                  && (next.target == a.ongoingDistance || next.target == e.distance)
                  && next.interval <= a.ongoingTbf && next.interval <= e.tbf
                  && (next.interval == a.ongoingTbf || next.interval == e.tbf))
            && (a.ongoingDistance <= e.distance && a.ongoingTbf <= e.tbf ==> next == w)
  {
    StartListNotEmpty(w, e);
  }

  /** The first start gives the modem its own distance and interval, and only it can be stopped later. */
  lemma FirstStartTargets(w: World, e: Event)
    requires e.StartTrip? && CanHappen(w, e) && w.adapter.trips == [] && e.accepted
    ensures var next := Step(w, e);
            && next.adapter == Adapter([Trip(e.id, 0, 0, 0, e.distance, e.tbf)], next.adapter.batching,
                                       e.distance, e.tbf, w.adapter.tbfDropped, w.adapter.distanceDropped)
            && (forall id :: id in next.adapter.batching <==> id == e.id || id in w.adapter.batching)
            && next.odometer == 0 && next.running && next.target == e.distance && next.interval == e.tbf
            && Believed(next)
  {
  }

  /** If the modem refuses it, nothing is left of it. */
  lemma RefusedFirstStart(w: World, e: Event)
    requires e.StartTrip? && CanHappen(w, e) && w.adapter.trips == [] && !e.accepted
    ensures var next := Step(w, e);
            && next.adapter == w.adapter.(batching := next.adapter.batching)
            && (forall id :: id in next.adapter.batching <==> id in w.adapter.batching && id != e.id)
            && next.odometer == w.odometer && next.running == w.running
            && next.target == w.target && next.interval == w.interval && next.travelled == w.travelled
  {
  }

  /** Without trips the adapter has no target and no interval, and asks for no restart. */
  ghost predicate Parked(w: World, next: World) {
    && next == w.(adapter := next.adapter) && next.adapter.trips == []
    && next.adapter.ongoingDistance == next.adapter.ongoingTbf == 0 && next.adapter.batching == w.adapter.batching
  }

  lemma LastTripStopped(w: World, t: Trip, queried: uint32, accepted: bool)
    requires w.adapter.trips == [t] && t.id in w.adapter.batching
    ensures Parked(w, Step(w, StopTrip(t.id, queried, accepted)))
  {
    assert Listed([t], t.id) by {
      assert [t][0].id == t.id;
    }
    assert [t][1..] == [];
  }

  lemma LastTripsComplete(w: World, reading: uint32, accepted: bool)
    requires w.adapter.trips != [] && forall t <- w.adapter.trips :: !Stays(t, reading)
    ensures Parked(w, Step(w, ReportDistance(reading, accepted)))
  {
    KeptAre(w.adapter.trips, reading);
    assert !Stays(w.adapter.trips[0], reading);
    CompletingReport(w, reading, accepted);
  }

  // ---------------------------------------------------------------- which trips are listed

  /** Distance and interval of every trip that was started, by id, until it is stopped or reported complete. */
  type Plans = map<uint32, (uint32, uint32)>

  ghost predicate Follows(trips: seq<Trip>, m: Plans) {
    && (forall t <- trips :: t.id in m && m[t.id] == (t.distance, t.tbf))
    && forall id <- m :: Listed(trips, id)
  }

  /** The client is told that its trip runs, and it is put on the list: an accepted first start, or a further one whose
      query is answered, even if the modem then refuses to restart. */
  predicate Starts(w: World, e: Event) {
    e.StartTrip? && if w.adapter.trips == [] then e.accepted else e.queried.Some?
  }

  ghost function PlansAfter(w: World, m: Plans, e: Event): Plans {
    match e
    case StartTrip(id, distance, tbf, _, _, _) => if Starts(w, e) then m[id := (distance, tbf)] else m
    case StopTrip(id, _, _) => if id in w.adapter.batching then m - {id} else m
    case ReportDistance(reading, _) => PlansLeft(w.adapter.trips, m, reading)
    case _ => m
  }

  /** The same trips, whatever their accounts say. */
  predicate SamePlan(t: Trip, u: Trip) {
    t.id == u.id && t.distance == u.distance && t.tbf == u.tbf
  }

  ghost predicate SameTrips(a: seq<Trip>, b: seq<Trip>) {
    |a| == |b| && forall i | 0 <= i < |a| :: SamePlan(a[i], b[i])
  }

  lemma SameFollows(a: seq<Trip>, b: seq<Trip>, m: Plans)
    requires SameTrips(a, b) && Follows(a, m)
    ensures Follows(b, m)
  {
    forall u | u in b ensures u.id in m && m[u.id] == (u.distance, u.tbf) {
      var i :| 0 <= i < |b| && b[i] == u;
      assert SamePlan(a[i], b[i]) && a[i] in a;
    }
    forall id | id in m ensures Listed(b, id) {
      var i :| 0 <= i < |a| && a[i].id == id;
      assert SamePlan(a[i], b[i]);
    }
  }

  lemma ListedMember(trips: seq<Trip>, t: Trip)
    requires t in trips
    ensures Listed(trips, t.id)
  {
    var i :| 0 <= i < |trips| && trips[i] == t;
  }

  lemma {:induction false} RebaseSameTrips(trips: seq<Trip>, acc: uint32)
    ensures SameTrips(trips, Rebase(trips, acc)) && SameTrips(trips, RebaseOnStart(trips))
  {
    if trips != [] {
      RebaseSameTrips(trips[1..], acc);
      var (rest, after, started) := (trips[1..], Rebase(trips, acc), RebaseOnStart(trips));
      forall i | 0 <= i < |trips| ensures SamePlan(trips[i], after[i]) && SamePlan(trips[i], started[i]) {
        if i > 0 {
          assert SamePlan(rest[i - 1], Rebase(rest, acc)[i - 1]) && SamePlan(rest[i - 1], RebaseOnStart(rest)[i - 1]);
        }
      }
    }
  }

  lemma RestartFollows(w: World, acc: uint32, accepted: bool, m: Plans)
    requires Follows(w.adapter.trips, m)
    ensures Follows(Restart(w.adapter, acc, accepted).adapter.trips, m)
  {
    RebaseSameTrips(w.adapter.trips, acc);
    if Restart(w.adapter, acc, accepted).restarted {
      SameFollows(w.adapter.trips, Rebase(w.adapter.trips, acc), m);
    }
  }

  lemma ListFollows(w: World, m: Plans, e: Event)
    requires e.StartTrip? && CanHappen(w, e) && Follows(w.adapter.trips, m) && w.adapter.trips != []
    ensures Follows(ListWith(w, e), PlansAfter(w, m, e))
  {
    var list, next := ListWith(w, e), PlansAfter(w, m, e);
    StartListKeepsAll(w, e);
    forall t | t in list ensures t.id in next && next[t.id] == (t.distance, t.tbf) {
      if t in w.adapter.trips {
        NotListed(w.adapter.trips, e.id, t);
      }
    }
    forall id | id in next ensures Listed(list, id) {
      if id in m && id != e.id {
        var i :| 0 <= i < |w.adapter.trips| && w.adapter.trips[i].id == id;
        ListedMember(list, w.adapter.trips[i]);
      } else {
        ListedMember(list, Trip(e.id, Heard(e.queried), 0, 0, e.distance, e.tbf));
      }
    }
  }

  lemma NothingFollows(m: Plans)
    requires Follows([], m)
    ensures m == map[]
  {
    assert forall id <- m :: Listed([], id);
  }

  lemma StartFollows(w: World, m: Plans, e: Event)
    requires e.StartTrip? && CanHappen(w, e) && Follows(w.adapter.trips, m)
    ensures Follows(Started(w, e).adapter.trips, PlansAfter(w, m, e))
  {
    if w.adapter.trips == [] {
      NothingFollows(m);
      if e.accepted {
        assert Started(w, e).adapter.trips[0].id == e.id;
      }
    } else {
      ListFollows(w, m, e);
      RebaseSameTrips(ListWith(w, e), 0);
      SameFollows(ListWith(w, e), RebaseOnStart(ListWith(w, e)), PlansAfter(w, m, e));
    }
  }

  lemma StoppedFollows(a: Adapter, m: Plans, id: uint32)
    requires Increasing(a.trips) && Follows(a.trips, m) && Listed(a.trips, id)
    ensures Follows(Stopped(a, id).trips, m - {id})
  {
    EraseAre(a.trips, id);
    var left := Stopped(a, id);
    forall other | other in m - {id} ensures Listed(left.trips, other) {
      var i :| 0 <= i < |a.trips| && a.trips[i].id == other;
      ListedMember(left.trips, a.trips[i]);
    }
  }

  lemma StopFollows(w: World, m: Plans, id: uint32, queried: uint32, accepted: bool)
    requires Increasing(w.adapter.trips) && Follows(w.adapter.trips, m)
    ensures Follows(Step(w, StopTrip(id, queried, accepted)).adapter.trips,
                    PlansAfter(w, m, StopTrip(id, queried, accepted)))
  {
    if id in w.adapter.batching && Listed(w.adapter.trips, id) {
      StoppedFollows(w.adapter, m, id);
      RestartFollows(w.(adapter := Stopped(w.adapter, id)), queried, accepted, m - {id});
    } else if id in w.adapter.batching {
      assert m - {id} == m;
    }
  }

  ghost function PlansLeft(trips: seq<Trip>, m: Plans, reading: uint32): Plans {
    map id | id in m && exists t <- trips :: t.id == id && Stays(t, reading) :: m[id]
  }

  lemma KeptFollows(trips: seq<Trip>, m: Plans, reading: uint32)
    requires Follows(trips, m)
    ensures Follows(Kept(trips, reading), PlansLeft(trips, m, reading))
  {
    var (left, next) := (Kept(trips, reading), PlansLeft(trips, m, reading));
    KeptAre(trips, reading);
    KeptMembers(trips, reading);
    forall t | t in left ensures t.id in next && next[t.id] == (t.distance, t.tbf) {
      var u :| u in trips && Stays(u, reading) && t == Progressed(u, reading);
    }
    forall id | id in next ensures Listed(left, id) {
      var t :| t in trips && t.id == id && Stays(t, reading);
      ListedMember(left, Progressed(t, reading));
    }
  }

  lemma ReportFollows(w: World, m: Plans, reading: uint32, accepted: bool)
    requires Follows(w.adapter.trips, m)
    ensures Follows(Step(w, ReportDistance(reading, accepted)).adapter.trips,
                    PlansLeft(w.adapter.trips, m, reading))
  {
    KeptFollows(w.adapter.trips, m, reading);
    if Completed(w.adapter.trips, reading) != [] {
      CompletingReport(w, reading, accepted);
      RestartFollows(w.(adapter := WithoutCompleted(w.adapter, reading)), reading, accepted,
                     PlansLeft(w.adapter.trips, m, reading));
    }
  }

  lemma KeptMembers(trips: seq<Trip>, reading: uint32)
    ensures forall t <- Kept(trips, reading) :: exists u <- trips :: Stays(u, reading) && t == Progressed(u, reading)
  {
    ReportMembers(trips, reading);
  }

  lemma StepFollows(w: World, m: Plans, e: Event)
    requires Increasing(w.adapter.trips) && Follows(w.adapter.trips, m) && CanHappen(w, e)
    ensures Follows(Step(w, e).adapter.trips, PlansAfter(w, m, e))
  {
    match e
    case Travel(_) =>
    case StartTrip(_, _, _, _, _, _) => StartFollows(w, m, e);
    case StopTrip(id, queried, accepted) => StopFollows(w, m, id, queried, accepted);
    case ReportDistance(reading, accepted) => ReportFollows(w, m, reading, accepted);
    case EngineRestart(_) =>
  }

  ghost function PlansOf(w: World, m: Plans, es: seq<Event>): Plans
    requires Happens(w, es)
    decreases |es|
  {
    if es == [] then m else PlansOf(Step(w, es[0]), PlansAfter(w, m, es[0]), es[1..])
  }

  /** In every run, with answers of any age and whatever is refused: the trips on the list are exactly those that were
      started, with their distances and intervals, and neither stopped nor reported complete since. */
  lemma {:induction false} ListFollowsPlans(w: World, m: Plans, es: seq<Event>)
    requires Ledger(w, false) && Follows(w.adapter.trips, m) && Happens(w, es)
    ensures Follows(Drive(w, es).adapter.trips, PlansOf(w, m, es))
    decreases |es|
  {
    if es != [] {
      StepKeepsLedger(w, es[0], false);
      StepFollows(w, m, es[0]);
      ListFollowsPlans(Step(w, es[0]), PlansAfter(w, m, es[0]), es[1..]);
    }
  }

  /** A trip that joins others is not entered into mBatchingSessions, so no message can stop it. */
  lemma FurtherTripCannotBeStopped(w: World, e: Event, queried: uint32, accepted: bool)
    requires e.StartTrip? && CanHappen(w, e) && w.adapter.trips != [] && e.id !in w.adapter.batching
    ensures Step(Step(w, e), StopTrip(e.id, queried, accepted)) == Step(w, e)
  {
  }
}
