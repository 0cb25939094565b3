/** Trip batching of gps/batching/BatchingAdapter.cpp: several trips share one modem odometer that starts
    again from zero at every restart. Arithmetic is on uint32_t and wraps. */
module TripBatching {
  import opened Wrappers

  const WRAP := 0x1_0000_0000

  type uint32 = n: int | 0 <= n < 0x1_0000_0000

  function Sub32(a: uint32, b: uint32): uint32 {
    (a - b) % WRAP
  }

  function Add32(a: uint32, b: uint32): uint32 {
    (a + b) % WRAP
  }

  /** TripSessionStatus with its key; mTripSessions is a list of these in key order. */
  datatype Trip = Trip(id: uint32, ongoingBatch: uint32, thisTrip: uint32, onRestart: uint32,
                       distance: uint32, tbf: uint32)

  /** `batching` holds the trips that mBatchingSessions knows, the only ones that can be stopped. */
  datatype Adapter = Adapter(trips: seq<Trip>, batching: set<uint32>,
                             ongoingDistance: uint32, ongoingTbf: uint32,
                             tbfDropped: bool, distanceDropped: bool)

  const NoTrips := Adapter([], {}, 0, 0, false, false)

  // ---------------------------------------------------------------- the trip list

  /** mTripSessions[t.id] = t, in key order. */
  function Insert(trips: seq<Trip>, t: Trip): seq<Trip> {
    if trips == [] then [t]
    else if t.id < trips[0].id then [t] + trips
    else if t.id == trips[0].id then [t] + trips[1..]
    else [trips[0]] + Insert(trips[1..], t)
  }

  predicate Listed(trips: seq<Trip>, id: uint32) {
    exists i :: 0 <= i < |trips| && trips[i].id == id
  }

  function Find(trips: seq<Trip>, id: uint32): Trip
    requires Listed(trips, id)
  {
    if trips[0].id == id then trips[0] else Find(trips[1..], id)
  }

  function Erase(trips: seq<Trip>, id: uint32): seq<Trip> {
    if trips == [] then []
    else if trips[0].id == id then trips[1..]
    else [trips[0]] + Erase(trips[1..], id)
  }

  /** What a report of `a` makes of one trip. */
  function Progressed(t: Trip, a: uint32): Trip {
    t.(thisTrip := Add32(t.onRestart, Sub32(a, t.ongoingBatch)))
  }

  predicate Complete(t: Trip) {
    t.distance <= t.thisTrip
  }

  function Kept(trips: seq<Trip>, a: uint32): seq<Trip> {
    if trips == [] then []
    else (if Complete(Progressed(trips[0], a)) then [] else [Progressed(trips[0], a)]) + Kept(trips[1..], a)
  }

  function Completed(trips: seq<Trip>, a: uint32): seq<Trip> {
    if trips == [] then []
    else (if Complete(Progressed(trips[0], a)) then [Progressed(trips[0], a)] else []) + Completed(trips[1..], a)
  }

  /** The running minimum of restartTripBatching(), in which 0 stands for "not set yet". */
  function MinRemaining(trips: seq<Trip>, sofar: uint32): uint32
    decreases |trips|
  {
    if trips == [] then sofar
    else
      var remaining := Sub32(trips[0].distance, trips[0].thisTrip);
      MinRemaining(trips[1..], if sofar == 0 || sofar > remaining then remaining else sofar)
  }

  function MinTbf(trips: seq<Trip>, sofar: uint32): uint32
    decreases |trips|
  {
    if trips == [] then sofar
    else MinTbf(trips[1..], if sofar == 0 || sofar > trips[0].tbf then trips[0].tbf else sofar)
  }

  /** Rebasing after a restart that the modem accepted, with the odometer at `acc` before it. */
  function Rebase(trips: seq<Trip>, acc: uint32): seq<Trip> {
    if trips == [] then []
    else
      var t := Progressed(trips[0], acc);
      [t.(ongoingBatch := 0, onRestart := t.thisTrip)] + Rebase(trips[1..], acc)
  }

  /** Rebasing in the start path: the last reported distance is kept, not the one just queried. */
  function RebaseOnStart(trips: seq<Trip>): seq<Trip> {
    if trips == [] then []
    else [trips[0].(ongoingBatch := 0, onRestart := trips[0].thisTrip)] + RebaseOnStart(trips[1..])
  }

  // ---------------------------------------------------------------- the operations

  /** Adapter after an operation, and whether the modem was started or restarted, so that its odometer is zero. */
  datatype Outcome = Outcome(adapter: Adapter, restarted: bool)

  function StartFirst(a: Adapter, id: uint32, distance: uint32, tbf: uint32, accepted: bool): Outcome {
    if accepted then
      Outcome(Adapter(Insert(a.trips, Trip(id, 0, 0, 0, distance, tbf)), a.batching + {id},
                      distance, tbf, a.tbfDropped, a.distanceDropped), true)
    else Outcome(a.(batching := a.batching - {id}), false)
  }

  /** The odometer as the modem answered it. If it did not, all of the target counts as left. */
  function Heard(queried: Option<uint32>): uint32 {
    if queried.Some? then queried.value else 0
  }

  /** The tests that give the modem a shorter interval, or a shorter distance than is left of the target. */
  predicate StartRestarts(a: Adapter, queried: Option<uint32>, distance: uint32, tbf: uint32) {
    a.ongoingTbf > tbf || distance < Sub32(a.ongoingDistance, Heard(queried))
  }

  function StartTarget(a: Adapter, queried: Option<uint32>, distance: uint32): uint32 {
    var left := Sub32(a.ongoingDistance, Heard(queried));
    if distance < left then distance else left
  }

  /** Without an answer to the query the new trip is not listed, though the modem may be restarted for it. */
  function StartList(trips: seq<Trip>, queried: Option<uint32>, id: uint32, distance: uint32, tbf: uint32): seq<Trip> {
    if queried.None? then trips else Insert(trips, Trip(id, queried.value, 0, 0, distance, tbf))
  }

  /** The accounts are rebased before the modem answers whether it restarts, and stay so if it refuses. */
  function StartAnother(a: Adapter, queried: Option<uint32>, id: uint32, distance: uint32, tbf: uint32,
                        accepted: bool): Outcome
  {
    var trips := StartList(a.trips, queried, id, distance, tbf);
    if StartRestarts(a, queried, distance, tbf) then
      Outcome(a.(trips := RebaseOnStart(trips), ongoingDistance := StartTarget(a, queried, distance),
                 ongoingTbf := if a.ongoingTbf > tbf then tbf else a.ongoingTbf), accepted)
    else Outcome(a.(trips := trips), false)
  }

  function Start(a: Adapter, queried: Option<uint32>, id: uint32, distance: uint32, tbf: uint32,
                 accepted: bool): Outcome
  {
    if a.trips == [] then StartFirst(a, id, distance, tbf, accepted)
    else StartAnother(a, queried, id, distance, tbf, accepted)
  }

  /** The test that gives the modem a new distance: while the old one runs, a shorter one; after it, any. */
  predicate DistanceRestarts(a: Adapter, acc: uint32) {
    var left := Sub32(a.ongoingDistance, acc);
    if !a.distanceDropped && left != 0 then MinRemaining(a.trips, 0) < left else MinRemaining(a.trips, 0) != 0
  }

  /** The test that gives the modem a new interval. */
  predicate IntervalRestarts(a: Adapter) {
    var tbf := MinTbf(a.trips, 0);
    tbf < a.ongoingTbf || (tbf != a.ongoingTbf && a.tbfDropped)
  }

  /** restartTripBatching, with the accumulated distance it ends up using; the accounts wait for the modem. */
  function Restart(a: Adapter, acc: uint32, accepted: bool): Outcome {
    if a.trips == [] then Outcome(a.(ongoingDistance := 0, ongoingTbf := 0), false)
    else if accepted && (DistanceRestarts(a, acc) || IntervalRestarts(a)) then
      Outcome(a.(trips := Rebase(a.trips, acc),
                 ongoingDistance := if DistanceRestarts(a, acc) then MinRemaining(a.trips, 0) else a.ongoingDistance,
                 ongoingTbf := if IntervalRestarts(a) then MinTbf(a.trips, 0) else a.ongoingTbf), true)
    else Outcome(a, false)
  }

  function Stopped(a: Adapter, id: uint32): Adapter
    requires Listed(a.trips, id)
  {
    var t := Find(a.trips, id);
    a.(trips := Erase(a.trips, id),
       tbfDropped := a.tbfDropped || t.tbf == a.ongoingTbf,
       distanceDropped := a.distanceDropped || t.distance == a.ongoingDistance)
  }

  function Stop(a: Adapter, queried: uint32, id: uint32, accepted: bool): Outcome {
    if id !in a.batching || !Listed(a.trips, id) then Outcome(a, false)
    else
      var left := Stopped(a, id);
      if left.trips == [] then Outcome(left.(ongoingDistance := 0, ongoingTbf := 0), false)
      else Restart(left, queried, accepted)
  }

  /** A report of the odometer drops the completed trips. */
  function WithoutCompleted(a: Adapter, reading: uint32): Adapter {
    var done := Completed(a.trips, reading);
    a.(trips := Kept(a.trips, reading),
       tbfDropped := a.tbfDropped || exists t <- done :: t.tbf == a.ongoingTbf,
       distanceDropped := a.distanceDropped || exists t <- done :: t.distance == a.ongoingDistance)
  }

  function Report(a: Adapter, reading: uint32, accepted: bool): Outcome {
    var left := WithoutCompleted(a, reading);
    if Completed(a.trips, reading) == [] then Outcome(left, false) else Restart(left, reading, accepted)
  }

  /** restartSessions, after an engine restart: a new target and interval, but the offsets of the trips are reset in
      copies of their entries only, so that the entries stay as they are. */
  function EngineUp(a: Adapter, accepted: bool): Adapter {
    if a.trips == [] then a
    else if accepted then a.(ongoingDistance := MinRemaining(a.trips, 0), ongoingTbf := MinTbf(a.trips, 0))
    else a.(ongoingDistance := 0, ongoingTbf := 0)
  }

  // ---------------------------------------------------------------- the adapter on the road

  /** The adapter, the modem's odometer, whether it is batching and the target and interval it last accepted, the
      distance really travelled, and for each trip where it joined and how much of its way the adapter lost track of.
      A restart after an account was last settled forgets what came between; late or refused answers may make the
      adapter count too much, so that less than nothing is forgotten. */
  datatype World = World(adapter: Adapter, odometer: uint32, running: bool, target: uint32, interval: uint32,
                         travelled: nat, joined: map<uint32, int>, forgotten: map<uint32, int>)

  /** The modem's answers to queries are part of the event that uses them, and may be of any age; and so are its answers
      to the start or restart that the event may ask for. A start also says how far the modem has travelled since it
      answered the query: that is where the trip joined. */
  datatype Event =
    | Travel(metres: nat)
    | StartTrip(id: uint32, distance: uint32, tbf: uint32, queried: Option<uint32>, since: nat, accepted: bool)
    | StopTrip(id: uint32, reading: uint32, accepted: bool)
    | ReportDistance(reading: uint32, accepted: bool)
    | EngineRestart(accepted: bool)

  function Settle(w: World, o: Outcome): World {
    if o.restarted
    then w.(adapter := o.adapter, odometer := 0, running := true,
            target := o.adapter.ongoingDistance, interval := o.adapter.ongoingTbf)
    else w.(adapter := o.adapter)
  }

  /** The odometer stays in range, and session ids are not reused while in use. */
  predicate CanHappen(w: World, e: Event) {
    match e
    case Travel(metres) => w.odometer + metres < WRAP
    case StartTrip(id, _, _, _, since, _) => !Listed(w.adapter.trips, id) && since <= w.travelled
    case StopTrip(_, _, _) => true
    case ReportDistance(_, _) => true
    case EngineRestart(_) => true
  }

  /** Travelled since the trip's account was last settled. */
  function Unsettled(w: World, t: Trip): int {
    (w.odometer - t.ongoingBatch) - (t.thisTrip - t.onRestart)
  }

  /** The accounts start a new batch as they are, while the odometer goes on at `left`. */
  function ForgetUnsettled(w: World, trips: seq<Trip>, left: int): map<uint32, int> {
    map k | k in w.forgotten ::
      w.forgotten[k] + if Listed(trips, k) then Unsettled(w, Find(trips, k)) - left else 0
  }

  function ForgetSince(w: World, acc: uint32): map<uint32, int> {
    map k | k in w.forgotten :: w.forgotten[k] + (w.odometer - acc)
  }

  /** A trip joins with the batch that it starts, or when its query is answered. */
  function Joined(w: World, e: Event): World
    requires e.StartTrip?
  {
    if w.adapter.trips == [] then
      w.(joined := w.joined[e.id := w.travelled], forgotten := w.forgotten[e.id := 0])
    else if e.queried.None? then w
    else w.(joined := w.joined[e.id := w.travelled - e.since],
            forgotten := w.forgotten[e.id := e.since - (w.odometer - e.queried.value)])
  }

  /** The trips before the restart that a start may ask for. */
  function ListWith(w: World, e: Event): seq<Trip>
    requires e.StartTrip?
  {
    StartList(w.adapter.trips, e.queried, e.id, e.distance, e.tbf)
  }

  predicate AsksForRestart(w: World, e: Event)
    requires e.StartTrip?
  {
    w.adapter.trips != [] && StartRestarts(w.adapter, e.queried, e.distance, e.tbf)
  }

  function Started(w: World, e: Event): World
    requires e.StartTrip?
  {
    var joins := Joined(w, e);
    Settle(if AsksForRestart(w, e)
           then joins.(forgotten := ForgetUnsettled(joins, ListWith(w, e), if e.accepted then 0 else w.odometer))
           else joins,
           Start(w.adapter, e.queried, e.id, e.distance, e.tbf, e.accepted))
  }

  function Restarted(w: World, o: Outcome, acc: uint32): World {
    Settle(if o.restarted then w.(forgotten := ForgetSince(w, acc)) else w, o)
  }

  /** The odometer starts afresh, whatever the adapter knew of it. */
  function EngineRestarted(w: World, accepted: bool): World {
    var a := EngineUp(w.adapter, accepted);
    w.(adapter := a, odometer := 0, running := a.trips != [] && accepted,
       target := a.ongoingDistance, interval := a.ongoingTbf, forgotten := ForgetSince(w, 0))
  }

  function Step(w: World, e: Event): World
    requires CanHappen(w, e)
  {
    match e
    case Travel(metres) => w.(odometer := w.odometer + metres, travelled := w.travelled + metres)
    case StartTrip(_, _, _, _, _, _) => Started(w, e)
    case StopTrip(id, queried, accepted) => Restarted(w, Stop(w.adapter, queried, id, accepted), queried)
    case ReportDistance(reading, accepted) => Restarted(w, Report(w.adapter, reading, accepted), reading)
    case EngineRestart(accepted) => EngineRestarted(w, accepted)
  }

  /** The reading was taken in the running batch, after the last trip joined it. */
  predicate Fresh(w: World, reading: uint32) {
    reading <= w.odometer && forall t <- w.adapter.trips :: t.ongoingBatch <= reading
  }

  /** What the modem said was not overtaken by a restart or a join, and it does not refuse the restart that a start
      asks for, nor to start again after an engine restart; and no trip joined the batch that an engine restart ends. */
  predicate Smooth(w: World, e: Event) {
    match e
    case Travel(_) => true
    case StartTrip(_, _, _, queried, since, accepted) =>
      && (w.adapter.trips != [] && queried.Some? ==>
            queried.value <= w.odometer && since == w.odometer - queried.value)
      && (AsksForRestart(w, e) ==> accepted)
    case StopTrip(_, queried, _) => Fresh(w, queried)
    case ReportDistance(reading, _) => Fresh(w, reading)
    case EngineRestart(accepted) =>
      w.adapter.trips != [] ==> accepted && forall t <- w.adapter.trips :: t.ongoingBatch == 0
  }

  /** One trip: its offset lies behind the odometer, and what it has on its account was really travelled. */
  predicate TripInv(w: World, t: Trip) {
    && t.id in w.joined && w.joined[t.id] <= w.travelled
    && t.ongoingBatch <= w.odometer
    && t.thisTrip <= w.travelled - w.joined[t.id]
    && t.onRestart + (w.odometer - t.ongoingBatch) <= w.travelled - w.joined[t.id]
    && (t.ongoingBatch > 0 ==> t.onRestart == 0)
  }

  ghost predicate Inv(w: World) {
    forall t <- w.adapter.trips :: TripInv(w, t)
  }

  // ---------------------------------------------------------------- members of the rewritten lists

  lemma {:induction false} InsertMembers(trips: seq<Trip>, n: Trip)
    ensures forall t <- Insert(trips, n) :: t == n || t in trips
  {
    if trips != [] && n.id > trips[0].id {
      InsertMembers(trips[1..], n);
    }
  }

  lemma {:induction false} EraseMembers(trips: seq<Trip>, id: uint32)
    ensures forall t <- Erase(trips, id) :: t in trips
  {
    if trips != [] && trips[0].id != id {
      EraseMembers(trips[1..], id);
    }
  }

  lemma {:induction false} ReportMembers(trips: seq<Trip>, a: uint32)
    ensures forall t <- Kept(trips, a) :: !Complete(t) && exists u <- trips :: t == Progressed(u, a)
    ensures forall t <- Completed(trips, a) :: Complete(t) && exists u <- trips :: t == Progressed(u, a)
  {
    if trips != [] {
      ReportMembers(trips[1..], a);
    }
  }

  function Rebased(t: Trip): Trip {
    t.(ongoingBatch := 0, onRestart := t.thisTrip)
  }

  lemma {:induction false} RebaseMembers(trips: seq<Trip>, acc: uint32)
    ensures forall t <- Rebase(trips, acc) :: exists u <- trips :: t == Rebased(Progressed(u, acc))
  {
    if trips != [] {
      RebaseMembers(trips[1..], acc);
      assert Rebase(trips, acc)[0] == Rebased(Progressed(trips[0], acc));
    }
  }

  lemma {:induction false} RebaseOnStartMembers(trips: seq<Trip>)
    ensures forall t <- RebaseOnStart(trips) :: exists u <- trips :: t == Rebased(u)
  {
    if trips != [] {
      RebaseOnStartMembers(trips[1..]);
      assert RebaseOnStart(trips)[0] == Rebased(trips[0]);
    }
  }

  // ---------------------------------------------------------------- what every step keeps

  lemma ProgressKeepsTrip(w: World, t: Trip, a: uint32)
    requires TripInv(w, t) && t.ongoingBatch <= a <= w.odometer
    ensures TripInv(w, Progressed(t, a))
    ensures Sub32(a, t.ongoingBatch) == a - t.ongoingBatch
    ensures Progressed(t, a).thisTrip <= w.travelled - w.joined[t.id]
  {
  }

  lemma RestartKeepsInv(w: World, acc: uint32, accepted: bool)
    requires Inv(w) && Fresh(w, acc)
    ensures Inv(Restarted(w, Restart(w.adapter, acc, accepted), acc))
  {
    var o := Restart(w.adapter, acc, accepted);
    var next := Restarted(w, o, acc);
    RebaseMembers(w.adapter.trips, acc);
    forall t | t in next.adapter.trips ensures TripInv(next, t) {
      if o.restarted {
        var u :| u in w.adapter.trips && t == Rebased(Progressed(u, acc));
        ProgressKeepsTrip(w, u, acc);
      }
    }
  }

  /** Before a restart: the new trip and the old ones. */
  lemma JoinsKeepInv(w: World, e: Event)
    requires e.StartTrip? && Inv(w) && CanHappen(w, e) && Smooth(w, e) && w.adapter.trips != []
    ensures forall t <- ListWith(w, e) :: TripInv(Joined(w, e), t)
  {
    if e.queried.Some? {
      var n := Trip(e.id, e.queried.value, 0, 0, e.distance, e.tbf);
      InsertMembers(w.adapter.trips, n);
      forall t | t in ListWith(w, e) ensures TripInv(Joined(w, e), t) {
        if t != n {
          NotListed(w.adapter.trips, e.id, t);
        }
      }
    }
  }

  lemma StartKeepsInv(w: World, e: Event)
    requires e.StartTrip? && Inv(w) && CanHappen(w, e) && Smooth(w, e)
    ensures Inv(Started(w, e))
  {
    var next := Started(w, e);
    if w.adapter.trips != [] {
      JoinsKeepInv(w, e);
      RebaseOnStartMembers(ListWith(w, e));
      forall t | t in next.adapter.trips ensures TripInv(next, t) {
        if AsksForRestart(w, e) {
          var u :| u in ListWith(w, e) && t == Rebased(u);
          assert TripInv(Joined(w, e), u);
        } else {
          assert TripInv(Joined(w, e), t);
        }
      }
    }
  }

  lemma NotListed(trips: seq<Trip>, id: uint32, t: Trip)
    requires !Listed(trips, id) && t in trips
    ensures t.id != id
  {
    var i :| 0 <= i < |trips| && trips[i] == t;
  }

  lemma StopKeepsInv(w: World, id: uint32, queried: uint32, accepted: bool)
    requires Inv(w) && Fresh(w, queried)
    ensures Inv(Step(w, StopTrip(id, queried, accepted)))
  {
    var a := w.adapter;
    if id in a.batching && Listed(a.trips, id) {
      EraseMembers(a.trips, id);
      RestartKeepsInv(w.(adapter := Stopped(a, id)), queried, accepted);
    }
  }

  lemma DroppingKeepsInv(w: World, reading: uint32)
    requires Inv(w) && Fresh(w, reading)
    ensures var left := w.(adapter := WithoutCompleted(w.adapter, reading));
            Inv(left) && Fresh(left, reading)
  {
    ReportMembers(w.adapter.trips, reading);
    var left := w.(adapter := WithoutCompleted(w.adapter, reading));
    forall t | t in left.adapter.trips ensures TripInv(left, t) && t.ongoingBatch <= reading {
      var u :| u in w.adapter.trips && t == Progressed(u, reading);
      ProgressKeepsTrip(w, u, reading);
    }
  }

  lemma ReportKeepsInv(w: World, reading: uint32, accepted: bool)
    requires Inv(w) && Fresh(w, reading)
    ensures Inv(Step(w, ReportDistance(reading, accepted)))
  {
    DroppingKeepsInv(w, reading);
    RestartKeepsInv(w.(adapter := WithoutCompleted(w.adapter, reading)), reading, accepted);
  }

  lemma StepKeepsInv(w: World, e: Event)
    requires Inv(w) && CanHappen(w, e) && Smooth(w, e)
    ensures Inv(Step(w, e))
  {
    match e
    case Travel(_) =>
    case StartTrip(_, _, _, _, _, _) => StartKeepsInv(w, e);
    case StopTrip(id, queried, accepted) => StopKeepsInv(w, id, queried, accepted);
    case ReportDistance(reading, accepted) => ReportKeepsInv(w, reading, accepted);
    case EngineRestart(_) =>
  }

  // ---------------------------------------------------------------- no two trips share an id

  predicate Increasing(trips: seq<Trip>) {
    forall i, j | 0 <= i < j < |trips| :: trips[i].id < trips[j].id
  }

  /** The ids of one list are among those of another, in the same order. */
  ghost predicate SameIds(a: seq<Trip>, b: seq<Trip>) {
    |a| == |b| && forall i | 0 <= i < |a| :: a[i].id == b[i].id
  }

  lemma ConsIncreasing(t: Trip, trips: seq<Trip>)
    requires Increasing(trips) && forall u <- trips :: t.id < u.id
    ensures Increasing([t] + trips)
  {
  }

  lemma {:induction false} InsertIncreasing(trips: seq<Trip>, n: Trip)
    requires Increasing(trips)
    ensures Increasing(Insert(trips, n))
  {
    if trips == [] || n.id < trips[0].id {
      ConsIncreasing(n, trips);
    } else if n.id == trips[0].id {
      ConsIncreasing(n, trips[1..]);
    } else {
      InsertIncreasing(trips[1..], n);
      InsertMembers(trips[1..], n);
      ConsIncreasing(trips[0], Insert(trips[1..], n));
    }
  }

  lemma {:induction false} EraseIncreasing(trips: seq<Trip>, id: uint32)
    requires Increasing(trips)
    ensures Increasing(Erase(trips, id))
  {
    if trips != [] && trips[0].id != id {
      EraseIncreasing(trips[1..], id);
      EraseMembers(trips[1..], id);
      ConsIncreasing(trips[0], Erase(trips[1..], id));
    }
  }

  lemma {:induction false} KeptIncreasing(trips: seq<Trip>, a: uint32)
    requires Increasing(trips)
    ensures Increasing(Kept(trips, a))
  {
    if trips != [] {
      KeptIncreasing(trips[1..], a);
      ReportMembers(trips[1..], a);
      forall t | t in Kept(trips[1..], a) ensures trips[0].id < t.id {
        var u :| u in trips[1..] && t == Progressed(u, a);
      }
      ConsIncreasing(Progressed(trips[0], a), Kept(trips[1..], a));
      assert [] + Kept(trips[1..], a) == Kept(trips[1..], a);
    }
  }

  lemma {:induction false} RebaseSameIds(trips: seq<Trip>, acc: uint32)
    ensures SameIds(trips, Rebase(trips, acc)) && SameIds(trips, RebaseOnStart(trips))
  {
    if trips != [] {
      RebaseSameIds(trips[1..], acc);
    }
  }

  lemma {:induction false} FindOfMember(trips: seq<Trip>, t: Trip)
    requires Increasing(trips) && t in trips
    ensures Listed(trips, t.id) && Find(trips, t.id) == t
  {
    var i :| 0 <= i < |trips| && trips[i] == t;
    if i > 0 {
      assert trips[1..][i - 1] == t;
      FindOfMember(trips[1..], t);
    }
  }

  // ---------------------------------------------------------------- what is travelled is on account or forgotten

  /** What a report at the odometer would put on a trip's account, and what was forgotten, but for wrapping and less
      the distance since the trip joined. */
  function Imbalance(w: World, t: Trip): int
    requires t.id in w.joined && t.id in w.forgotten
  {
    t.onRestart + (w.odometer - t.ongoingBatch) + w.forgotten[t.id] - (w.travelled - w.joined[t.id])
  }

  /** It is a multiple of 2^32, and zero while everything is `smooth` and no account can have wrapped. */
  predicate Balanced(w: World, t: Trip, smooth: bool) {
    && t.id in w.joined && 0 <= w.joined[t.id] <= w.travelled && t.id in w.forgotten
    && if smooth && w.travelled < WRAP then Imbalance(w, t) == 0 else Imbalance(w, t) % WRAP == 0
  }

  ghost predicate LedgerOf(w: World, trips: seq<Trip>, smooth: bool) {
    w.odometer <= w.travelled && Increasing(trips) && forall t <- trips :: Balanced(w, t, smooth)
  }

  ghost predicate Ledger(w: World, smooth: bool) {
    LedgerOf(w, w.adapter.trips, smooth)
  }

  /** Balance is not a matter of the adapter, nor of target and interval. */
  lemma AdapterAside(w: World, trips: seq<Trip>, next: World, smooth: bool)
    requires LedgerOf(w, trips, smooth)
    requires next.odometer == w.odometer && next.travelled == w.travelled
    requires next.joined == w.joined && next.forgotten == w.forgotten
    ensures LedgerOf(next, trips, smooth)
  {
    forall t | t in trips ensures Balanced(next, t, smooth) {
      assert Balanced(w, t, smooth);
    }
  }

  lemma ProgressWraps(t: Trip, a: uint32)
    ensures (Progressed(t, a).thisTrip - (t.onRestart + a - t.ongoingBatch)) % WRAP == 0
  {
  }

  lemma RebaseKeepsBalance(w: World, u: Trip, acc: uint32, smooth: bool)
    requires Balanced(w, u, smooth) && (smooth ==> TripInv(w, u) && u.ongoingBatch <= acc <= w.odometer)
    ensures Balanced(w.(forgotten := ForgetSince(w, acc), odometer := 0), Rebased(Progressed(u, acc)), smooth)
  {
    ProgressWraps(u, acc);
    if smooth && w.travelled < WRAP {
      assert Progressed(u, acc).thisTrip == u.onRestart + (acc - u.ongoingBatch);
    }
  }

  lemma RebaseKeepsLedger(w: World, trips: seq<Trip>, acc: uint32, smooth: bool)
    requires LedgerOf(w, trips, smooth)
    requires smooth ==> forall t <- trips :: TripInv(w, t) && t.ongoingBatch <= acc <= w.odometer
    ensures LedgerOf(w.(forgotten := ForgetSince(w, acc), odometer := 0), Rebase(trips, acc), smooth)
  {
    var next := w.(forgotten := ForgetSince(w, acc), odometer := 0);
    RebaseMembers(trips, acc);
    RebaseSameIds(trips, acc);
    forall t | t in Rebase(trips, acc) ensures Balanced(next, t, smooth) {
      var u :| u in trips && t == Rebased(Progressed(u, acc));
      RebaseKeepsBalance(w, u, acc, smooth);
    }
  }

  lemma RestartKeepsLedger(w: World, acc: uint32, accepted: bool, smooth: bool)
    requires Ledger(w, smooth) && (smooth ==> Inv(w) && Fresh(w, acc))
    ensures Ledger(Restarted(w, Restart(w.adapter, acc, accepted), acc), smooth)
  {
    var o := Restart(w.adapter, acc, accepted);
    var next := Restarted(w, o, acc);
    if o.restarted {
      RebaseKeepsLedger(w, w.adapter.trips, acc, smooth);
      AdapterAside(w.(forgotten := ForgetSince(w, acc), odometer := 0), Rebase(w.adapter.trips, acc), next, smooth);
    } else {
      AdapterAside(w, w.adapter.trips, next, smooth);
    }
  }

  /** Before a restart: the new trip and the old ones are balanced. */
  lemma JoinsKeepLedger(w: World, e: Event, smooth: bool)
    requires e.StartTrip? && Ledger(w, smooth) && CanHappen(w, e) && w.adapter.trips != []
    ensures LedgerOf(Joined(w, e), ListWith(w, e), smooth)
  {
    if e.queried.Some? {
      var n := Trip(e.id, e.queried.value, 0, 0, e.distance, e.tbf);
      InsertMembers(w.adapter.trips, n);
      InsertIncreasing(w.adapter.trips, n);
      forall u | u in ListWith(w, e) ensures Balanced(Joined(w, e), u, smooth) {
        if u != n {
          assert Balanced(w, u, smooth);
          NotListed(w.adapter.trips, e.id, u);
        }
      }
    }
  }

  /** The restart of a start leaves every account as it is, and forgets what was not on it yet. */
  lemma StartRebaseBalanced(w: World, list: seq<Trip>, u: Trip, left: uint32, smooth: bool)
    requires Balanced(w, u, smooth) && Increasing(list) && u in list
    ensures Balanced(w.(forgotten := ForgetUnsettled(w, list, left), odometer := left), Rebased(u), smooth)
  {
    FindOfMember(list, u);
  }

  lemma StartRebaseKeepsLedger(w: World, list: seq<Trip>, left: uint32, smooth: bool)
    requires LedgerOf(w, list, smooth) && left <= w.odometer
    ensures LedgerOf(w.(forgotten := ForgetUnsettled(w, list, left), odometer := left), RebaseOnStart(list), smooth)
  {
    var next := w.(forgotten := ForgetUnsettled(w, list, left), odometer := left);
    RebaseOnStartMembers(list);
    RebaseSameIds(list, 0);
    forall t | t in RebaseOnStart(list) ensures Balanced(next, t, smooth) {
      var u :| u in list && t == Rebased(u);
      StartRebaseBalanced(w, list, u, left, smooth);
    }
  }

  lemma StartKeepsLedger(w: World, e: Event, smooth: bool)
    requires e.StartTrip? && Ledger(w, smooth) && CanHappen(w, e)
    ensures Ledger(Started(w, e), smooth)
  {
    var next := Started(w, e);
    if w.adapter.trips != [] {
      var joins, list := Joined(w, e), ListWith(w, e);
      JoinsKeepLedger(w, e, smooth);
      if AsksForRestart(w, e) {
        var left := if e.accepted then 0 else w.odometer;
        StartRebaseKeepsLedger(joins, list, left, smooth);
        AdapterAside(joins.(forgotten := ForgetUnsettled(joins, list, left), odometer := left), RebaseOnStart(list),
                     next, smooth);
      } else {
        AdapterAside(joins, list, next, smooth);
      }
    }
  }

  lemma StoppingKeepsLedger(w: World, id: uint32, smooth: bool)
    requires Ledger(w, smooth) && Listed(w.adapter.trips, id)
    ensures Ledger(w.(adapter := Stopped(w.adapter, id)), smooth)
    ensures smooth && Inv(w) ==> Inv(w.(adapter := Stopped(w.adapter, id)))
  {
    EraseMembers(w.adapter.trips, id);
    EraseIncreasing(w.adapter.trips, id);
    var left := w.(adapter := Stopped(w.adapter, id));
    AdapterAside(w, w.adapter.trips, left, smooth);
  }

  lemma StopKeepsLedger(w: World, id: uint32, queried: uint32, accepted: bool, smooth: bool)
    requires Ledger(w, smooth) && (smooth ==> Inv(w) && Fresh(w, queried))
    ensures Ledger(Step(w, StopTrip(id, queried, accepted)), smooth)
  {
    var a := w.adapter;
    if id in a.batching && Listed(a.trips, id) {
      EraseMembers(a.trips, id);
      StoppingKeepsLedger(w, id, smooth);
      RestartKeepsLedger(w.(adapter := Stopped(a, id)), queried, accepted, smooth);
    }
  }

  lemma DroppingKeepsLedger(w: World, reading: uint32, smooth: bool)
    requires Ledger(w, smooth)
    ensures Ledger(w.(adapter := WithoutCompleted(w.adapter, reading)), smooth)
  {
    var left := w.(adapter := WithoutCompleted(w.adapter, reading));
    ReportMembers(w.adapter.trips, reading);
    KeptIncreasing(w.adapter.trips, reading);
    forall t | t in left.adapter.trips ensures Balanced(left, t, smooth) {
      var u :| u in w.adapter.trips && t == Progressed(u, reading);
      assert Balanced(w, u, smooth);
    }
  }

  lemma ReportKeepsLedger(w: World, reading: uint32, accepted: bool, smooth: bool)
    requires Ledger(w, smooth) && (smooth ==> Inv(w) && Fresh(w, reading))
    ensures Ledger(Step(w, ReportDistance(reading, accepted)), smooth)
  {
    if smooth {
      DroppingKeepsInv(w, reading);
    }
    DroppingKeepsLedger(w, reading, smooth);
    RestartKeepsLedger(w.(adapter := WithoutCompleted(w.adapter, reading)), reading, accepted, smooth);
  }

  /** Whatever the modem answers: every step keeps the balance up to multiples of 2^32; smooth ones keep it
      exactly. */
  lemma StepKeepsLedger(w: World, e: Event, smooth: bool)
    requires Ledger(w, smooth) && CanHappen(w, e) && (smooth ==> Inv(w) && Smooth(w, e))
    ensures Ledger(Step(w, e), smooth)
  {
    match e
    case Travel(metres) =>
      forall t | t in w.adapter.trips ensures Balanced(Step(w, e), t, smooth) {
        assert Balanced(w, t, smooth);
      }
    case StartTrip(_, _, _, _, _, _) => StartKeepsLedger(w, e, smooth);
    case StopTrip(id, queried, accepted) => StopKeepsLedger(w, id, queried, accepted, smooth);
    case ReportDistance(reading, accepted) => ReportKeepsLedger(w, reading, accepted, smooth);
    case EngineRestart(_) =>
      forall t | t in w.adapter.trips ensures Balanced(Step(w, e), t, smooth) {
        assert Balanced(w, t, smooth);
      }
  }

  // ---------------------------------------------------------------- runs

  const Garage := World(NoTrips, 0, false, 0, 0, 0, map[], map[])

  /** Every event can happen where it happens. */
  ghost predicate Happens(w: World, es: seq<Event>)
    decreases |es|
  {
    es == [] || (CanHappen(w, es[0]) && Happens(Step(w, es[0]), es[1..]))
  }

  /** Moreover, everything is smooth. */
  ghost predicate Orderly(w: World, es: seq<Event>): (orderly: bool)
    ensures orderly ==> Happens(w, es)
    decreases |es|
  {
    es == [] || (CanHappen(w, es[0]) && Smooth(w, es[0]) && Orderly(Step(w, es[0]), es[1..]))
  }

  ghost function Drive(w: World, es: seq<Event>): World
    requires Happens(w, es)
    decreases |es|
  {
    if es == [] then w else Drive(Step(w, es[0]), es[1..])
  }

  lemma {:induction false} DriveKeepsLedger(w: World, es: seq<Event>)
    requires Ledger(w, false) && Happens(w, es)
    ensures Ledger(Drive(w, es), false)
    decreases |es|
  {
    if es != [] {
      StepKeepsLedger(w, es[0], false);
      DriveKeepsLedger(Step(w, es[0]), es[1..]);
    }
  }

  lemma {:induction false} DriveKeepsInv(w: World, es: seq<Event>)
    requires Inv(w) && Ledger(w, true) && Orderly(w, es)
    ensures Inv(Drive(w, es)) && Ledger(Drive(w, es), true)
    decreases |es|
  {
    if es != [] {
      StepKeepsInv(w, es[0]);
      StepKeepsLedger(w, es[0], true);
      DriveKeepsInv(Step(w, es[0]), es[1..]);
    }
  }

  /** Conservation, in every run, whatever starts, stops and reports were told and however late: what a report with
      any reading puts on a trip's account is the distance since the trip joined, less what the reading lacks to
      the odometer and less what was forgotten, modulo 2^32. */
  lemma OdometerConserves(es: seq<Event>, t: Trip, reading: uint32)
    requires Happens(Garage, es) && t in Drive(Garage, es).adapter.trips
    ensures var w := Drive(Garage, es);
            && t.id in w.joined && 0 <= w.joined[t.id] <= w.travelled && t.id in w.forgotten
            && Progressed(t, reading).thisTrip
                 == (w.travelled - w.joined[t.id] - (w.odometer - reading) - w.forgotten[t.id]) % WRAP
  {
    DriveKeepsLedger(Garage, es);
    var w := Drive(Garage, es);
    assert Balanced(w, t, false);
    ProgressWraps(t, reading);
    SameModulo(Progressed(t, reading).thisTrip, t.onRestart + reading - t.ongoingBatch, Imbalance(w, t));
  }

  lemma SameModulo(a: uint32, b: int, x: int)
    requires (a - b) % WRAP == 0 && x % WRAP == 0
    ensures a == (b - x) % WRAP
  {
  }

  /** So a report is honest about a trip, that is, it puts no more on its account than was travelled since it joined,
      exactly if what the account will lack is neither negative nor more than was travelled: in every run, for
      every reading, as long as both are under 2^31 metres, so that a wrapped value cannot be mistaken for a real
      one. */
  lemma ReportHonestIff(es: seq<Event>, t: Trip, reading: uint32)
    requires Happens(Garage, es) && t in Drive(Garage, es).adapter.trips
    ensures var w := Drive(Garage, es);
            && t.id in w.joined && t.id in w.forgotten
            && var (since, lacking) := (w.travelled - w.joined[t.id], w.odometer - reading + w.forgotten[t.id]);
               since < 0x8000_0000 && -0x8000_0000 < lacking < 0x8000_0000 ==>
                 (Progressed(t, reading).thisTrip <= since <==> 0 <= lacking <= since)
  {
    OdometerConserves(es, t, reading);
  }

  /** In a run in which everything is smooth nothing is ever counted twice: the balance is exact, and a report at
      the odometer puts on the account all but what was forgotten. */
  lemma SmoothRunConserves(es: seq<Event>, t: Trip)
    requires Orderly(Garage, es) && t in Drive(Garage, es).adapter.trips && Drive(Garage, es).travelled < WRAP
    ensures var w := Drive(Garage, es);
            && t.id in w.joined && t.id in w.forgotten && 0 <= w.forgotten[t.id]
            && Progressed(t, w.odometer).thisTrip + w.forgotten[t.id] == w.travelled - w.joined[t.id]
  {
    DriveKeepsInv(Garage, es);
    var w := Drive(Garage, es);
    assert TripInv(w, t) && Balanced(w, t, true);
  }

  /** After such a run the next report, of any age, is honest exactly if its reading is neither older than the trip's
      joining of the batch nor further than the odometer and what was forgotten. */
  lemma LastReportHonestIff(es: seq<Event>, t: Trip, reading: uint32)
    requires Orderly(Garage, es) && t in Drive(Garage, es).adapter.trips
    requires Drive(Garage, es).travelled < 0x8000_0000 && reading < 0x8000_0000
    ensures var w := Drive(Garage, es);
            && t.id in w.joined && t.id in w.forgotten
            && (Progressed(t, reading).thisTrip <= w.travelled - w.joined[t.id]
                <==> t.ongoingBatch <= reading <= w.odometer + w.forgotten[t.id])
  {
    DriveKeepsInv(Garage, es);
    var w := Drive(Garage, es);
    assert TripInv(w, t) && Balanced(w, t, true);
    ShortProgress(t, reading);
  }

  lemma ShortProgress(t: Trip, reading: uint32)
    requires t.onRestart < 0x8000_0000 && reading < 0x8000_0000 && (t.ongoingBatch > 0 ==> t.onRestart == 0)
    ensures Progressed(t, reading).thisTrip ==
            t.onRestart + reading - t.ongoingBatch + if reading < t.ongoingBatch then WRAP else 0
  {
  }

  /** After such a run an engine restart leaves the offsets where they are, so a report of the new batch is honest
      about a trip exactly if it has passed the trip's offset; until then it completes the trip. */
  lemma EngineRestartHonestIff(es: seq<Event>, t: Trip, reading: uint32)
    requires Orderly(Garage, es) && t in Drive(Garage, es).adapter.trips
    requires Drive(Garage, es).travelled < 0x8000_0000 && reading < 0x8000_0000 && t.distance <= 0x8000_0000
    ensures var w := Step(Drive(Garage, es), EngineRestart(true));
            && t in w.adapter.trips && t.id in w.joined && t.id in w.forgotten && 0 <= w.forgotten[t.id]
            && (Progressed(t, reading).thisTrip <= w.travelled - w.joined[t.id]
                <==> t.ongoingBatch <= reading <= w.forgotten[t.id])
            && (reading < t.ongoingBatch ==> Complete(Progressed(t, reading)))
  {
    DriveKeepsInv(Garage, es);
    var w := Drive(Garage, es);
    assert TripInv(w, t) && Balanced(w, t, true);
    ShortProgress(t, reading);
  }

  /** And a fresh report is honest without a limit on the distance: no account exceeds what was travelled since its
      trip joined, no subtraction wraps, and a trip is listed as completed only when its distance was covered. */
  lemma OdometerIsHonest(es: seq<Event>, reading: uint32)
    requires Orderly(Garage, es)
    ensures var w := Drive(Garage, es);
            && (forall t <- w.adapter.trips :: t.id in w.joined && t.thisTrip <= w.travelled - w.joined[t.id])
            && (Fresh(w, reading) ==>
                  && (forall t <- w.adapter.trips :: Sub32(reading, t.ongoingBatch) == reading - t.ongoingBatch)
                  && (forall t <- Completed(w.adapter.trips, reading) ::
                        t.id in w.joined && t.distance <= w.travelled - w.joined[t.id]))
  {
    DriveKeepsInv(Garage, es);
    var w := Drive(Garage, es);
    if Fresh(w, reading) {
      ReportMembers(w.adapter.trips, reading);
      forall t | t in w.adapter.trips
        ensures Sub32(reading, t.ongoingBatch) == reading - t.ongoingBatch
                && Progressed(t, reading).thisTrip <= w.travelled - w.joined[t.id]
      {
        ProgressKeepsTrip(w, t, reading);
      }
    }
  }

  // ---------------------------------------------------------------- what late messages do

  lemma ReportOfOne(t: Trip, reading: uint32)
    ensures Completed([t], reading) == if Complete(Progressed(t, reading)) then [Progressed(t, reading)] else []
    ensures Kept([t], reading) == if Complete(Progressed(t, reading)) then [] else [Progressed(t, reading)]
  {
    assert [t][1..] == [];
  }

  lemma InsertSecond(t: Trip, n: Trip)
    requires t.id < n.id
    ensures Insert([t], n) == [t, n]
    ensures RebaseOnStart([t, n]) == [Rebased(t), Rebased(n)]
  {
    assert [t][1..] == [];
    assert [t, n][1..] == [n] && [n][1..] == [];
    assert RebaseOnStart([n]) == [Rebased(n)] + RebaseOnStart([]);
    assert RebaseOnStart([t, n]) == [Rebased(t)] + RebaseOnStart([n]);
  }

  /** Some run in which everything is smooth gets to `w`. */
  ghost predicate Reached(w: World) {
    exists es :: Orderly(Garage, es) && Drive(Garage, es) == w
  }

  lemma {:induction false} DriveFurther(w: World, es: seq<Event>, e: Event)
    requires Orderly(w, es) && CanHappen(Drive(w, es), e) && Smooth(Drive(w, es), e)
    ensures Orderly(w, es + [e]) && Drive(w, es + [e]) == Step(Drive(w, es), e)
    decreases |es|
  {
    if es == [] {
      assert ([] + [e])[1..] == [];
    } else {
      DriveFurther(Step(w, es[0]), es[1..], e);
      assert (es + [e])[1..] == es[1..] + [e];
    }
  }

  lemma ReachStep(w: World, e: Event)
    requires Reached(w) && CanHappen(w, e) && Smooth(w, e)
    ensures Reached(Step(w, e))
  {
    var es :| Orderly(Garage, es) && Drive(Garage, es) == w;
    DriveFurther(Garage, es, e);
    assert Drive(Garage, es + [e]) == Step(w, e);
  }

  /** Trip 1 of 1000 m was started first, trip 2 of `distance` after `before` metres. */
  function UnderWay(before: uint32, distance: uint32): World {
    World(Adapter([Trip(1, 0, 0, 0, 1000, 10), Trip(2, before, 0, 0, distance, 20)], {1}, 1000, 10, false, false),
          before, true, 1000, 10, before, map[1 := 0, 2 := before], map[1 := 0, 2 := 0])
  }

  /** A first start, then `before` metres. */
  function OneTrip(distance: uint32, before: uint32): World {
    World(Adapter([Trip(1, 0, 0, 0, distance, 10)], {1}, distance, 10, false, false),
          before, true, distance, 10, before, map[1 := 0], map[1 := 0])
  }

  lemma OneTripUnderWay(distance: uint32, before: uint32)
    ensures Reached(OneTrip(distance, before))
  {
    assert Orderly(Garage, []) && Drive(Garage, []) == Garage;
    ReachStep(Garage, StartTrip(1, distance, 10, Some(0), 0, true));
    var w := Step(Garage, StartTrip(1, distance, 10, Some(0), 0, true));
    assert w.adapter.batching == {1};
    ReachStep(w, Travel(before));
  }

  lemma TwoTripsUnderWay(before: uint32, distance: uint32)
    requires before < 1000 && 1000 - before <= distance
    ensures Reached(UnderWay(before, distance))
  {
    OneTripUnderWay(1000, before);
    InsertSecond(Trip(1, 0, 0, 0, 1000, 10), Trip(2, before, 0, 0, distance, 20));
    ReachStep(OneTrip(1000, before), StartTrip(2, distance, 20, Some(before), 0, true));
  }

  /** A report posted before a second trip joined, and processed after it, completes that trip at once. */
  lemma StaleReportCompletesTrip(before: uint32, distance: uint32, reading: uint32)
    requires reading < before < 1000 <= distance <= 0x8000_0000
    ensures var w := UnderWay(before, distance);
            && Reached(w) && 2 in w.joined && w.joined[2] == w.travelled
            && exists t <- Completed(w.adapter.trips, reading) :: t.id == 2
  {
    TwoTripsUnderWay(before, distance);
    var t1, t2 := Trip(1, 0, 0, 0, 1000, 10), Trip(2, before, 0, 0, distance, 20);
    ReportOfOne(t2, reading);
    assert [t1, t2][1..] == [t2];
    assert Progressed(t2, reading) in Completed([t1, t2], reading);
  }

  /** An engine restart leaves the offset of trip 2 in place: the next report, below it, completes the trip, although
      it is fresh. */
  lemma EngineRestartCompletesTrip(before: uint32, distance: uint32, gone: uint32)
    requires gone < before < 1000 <= distance <= 0x8000_0000
    ensures Reached(UnderWay(before, distance))
    ensures var w := Step(UnderWay(before, distance), EngineRestart(true));
            && CanHappen(w, Travel(gone))
            && var next := Step(w, Travel(gone));
               && next.odometer == gone && 2 in next.joined && next.travelled - next.joined[2] == gone < distance
               && exists t <- Completed(next.adapter.trips, gone) :: t.id == 2
  {
    StaleReportCompletesTrip(before, distance, gone);
  }

  /** What is left after `gone` more metres when trip 1 is stopped: trip 2 has gone that far, and the modem is given
      the whole of its distance again. */
  function FirstStopped(before: uint32, distance: uint32, gone: uint32): World {
    World(Adapter([Trip(2, 0, gone, gone, distance, 20)], {1}, distance, 20, true, true),
          0, true, distance, 20, before + gone, map[1 := 0, 2 := before], map[1 := 0, 2 := 0])
  }

  function Moved(before: uint32, distance: uint32, gone: uint32): World
    requires before + gone < WRAP
  {
    UnderWay(before, distance).(odometer := before + gone, travelled := before + gone)
  }

  lemma ReachMoved(before: uint32, distance: uint32, gone: uint32)
    requires before + gone < 1000 <= distance
    ensures Reached(Moved(before, distance, gone))
  {
    TwoTripsUnderWay(before, distance);
    ReachStep(UnderWay(before, distance), Travel(gone));
  }

  lemma StopFirst(before: uint32, distance: uint32, gone: uint32)
    requires before + gone < 1000 <= distance
    ensures var (w, stop) := (Moved(before, distance, gone), StopTrip(1, before + gone, true));
            && Smooth(w, stop) && Step(w, stop) == FirstStopped(before, distance, gone)
            && Stopped(w.adapter, 1).trips == [Trip(2, before, 0, 0, distance, 20)]
            && DistanceRestarts(Stopped(w.adapter, 1), before + gone)
  {
    var t1, t2 := Trip(1, 0, 0, 0, 1000, 10), Trip(2, before, 0, 0, distance, 20);
    var w := Moved(before, distance, gone);
    var a := w.adapter;
    assert a.trips[0].id == 1 && a.trips[1..] == [t2] && [t2][1..] == [];
    assert Listed(a.trips, 1) && Find(a.trips, 1) == t1;
    assert Stopped(a, 1) == a.(trips := [t2], tbfDropped := true, distanceDropped := true);
    assert MinRemaining([t2], 0) == MinRemaining([], distance) == distance;
    assert MinTbf([t2], 0) == MinTbf([], 20) == 20;
    assert Rebase([t2], before + gone) == [Rebased(Progressed(t2, before + gone))] + Rebase([], before + gone);
    assert ForgetSince(w, before + gone) == w.forgotten;
  }

  lemma ReachFirstStopped(before: uint32, distance: uint32, gone: uint32)
    requires before + gone < 1000 <= distance
    ensures Reached(FirstStopped(before, distance, gone))
  {
    ReachMoved(before, distance, gone);
    StopFirst(before, distance, gone);
    ReachStep(Moved(before, distance, gone), StopTrip(1, before + gone, true));
  }

  /** A report posted before a restart, and processed after it, counts twice: a trip is listed as completed when
      only half of its distance was travelled. */
  lemma LateReportCountsTwice(distance: uint32, gone: uint32)
    requires gone < 1000 <= distance <= 2 * gone
    ensures var w := FirstStopped(0, distance, gone);
            && Reached(w) && 2 in w.joined && w.travelled - w.joined[2] == gone < distance
            && exists t <- Completed(w.adapter.trips, gone) :: t.id == 2
  {
    ReachFirstStopped(0, distance, gone);
    var moved := Trip(2, 0, gone, gone, distance, 20);
    ReportOfOne(moved, gone);
    assert Progressed(moved, gone) in Completed([moved], gone);
  }

  /** The adapter after trip 3 was started with the answer `gone` of the batch before. */
  lemma LateStart(a: Adapter, gone: uint32, distance: uint32)
    requires a == Adapter([Trip(2, 0, gone, gone, 1000, 20)], {1}, 1000, 20, true, true)
    requires gone < 1000 <= distance
    ensures !Listed(a.trips, 3) && !StartRestarts(a, Some(gone), distance, 30)
    ensures StartAnother(a, Some(gone), 3, distance, 30, true) == Outcome(a.(trips :=
              [Trip(2, 0, gone, gone, 1000, 20), Trip(3, gone, 0, 0, distance, 30)]), false)
  {
    InsertSecond(Trip(2, 0, gone, gone, 1000, 20), Trip(3, gone, 0, 0, distance, 30));
  }

  /** A start whose query was answered before another message made the modem restart leaves an offset ahead of the
      odometer: the next report, fresh though it is, wraps and completes the trip. */
  lemma LateAnswerCompletesTrip(gone: uint32, distance: uint32, next: uint32)
    requires next < gone < 1000 <= distance <= 0x8000_0000
    ensures var (w, start) := (FirstStopped(0, 1000, gone), StartTrip(3, distance, 30, Some(gone), 0, true));
            && Reached(w) && CanHappen(w, start) && !Smooth(w, start)
            && var w1 := Step(w, start);
               && 3 in w1.joined && w1.joined[3] == w1.travelled && CanHappen(w1, Travel(next))
               && var w2 := Step(w1, Travel(next));
                  w2.odometer == next && exists t <- Completed(w2.adapter.trips, next) :: t.id == 3
  {
    ReachFirstStopped(0, 1000, gone);
    var w := FirstStopped(0, 1000, gone);
    LateStart(w.adapter, gone, distance);
    LateReading(Trip(2, 0, gone, gone, 1000, 20), Trip(3, gone, 0, 0, distance, 30), next);
  }

  lemma LateReading(t: Trip, late: Trip, reading: uint32)
    requires reading < late.ongoingBatch <= 0x8000_0000 && late.onRestart == 0 && late.distance <= 0x8000_0000
    ensures Progressed(late, reading) in Completed([t, late], reading)
  {
    ReportOfOne(late, reading);
    assert [t, late][1..] == [late];
  }

  /** Trip 3, sampled more often, is started after `gone` metres, and the modem restarted for it. */
  function ThirdStarted(second: uint32, third: uint32, gone: uint32): World
    requires gone < 1000 <= third
  {
    World(Adapter([Trip(1, 0, 0, 0, 1000, 10), Trip(2, 0, 0, 0, second, 20), Trip(3, 0, 0, 0, third, 5)], {1},
                  1000 - gone, 5, false, false),
          0, true, 1000 - gone, 5, gone, map[1 := 0, 2 := 0, 3 := gone], map[1 := gone, 2 := gone, 3 := 0])
  }

  lemma InsertThird(t1: Trip, t2: Trip, t3: Trip)
    requires t1.id < t2.id < t3.id
    ensures Insert([t1, t2], t3) == [t1, t2, t3]
    ensures RebaseOnStart([t1, t2, t3]) == [Rebased(t1), Rebased(t2), Rebased(t3)]
  {
    InsertSecond(t2, t3);
    assert [t1, t2][1..] == [t2] && [t1, t2, t3][1..] == [t2, t3];
    assert Insert([t1, t2], t3) == [t1] + Insert([t2], t3);
    assert RebaseOnStart([t1, t2, t3]) == [Rebased(t1)] + RebaseOnStart([t2, t3]);
  }

  lemma StartThirdAdapter(a: Adapter, second: uint32, third: uint32, gone: uint32)
    requires gone < 1000 <= third && a == UnderWay(0, second).adapter
    ensures !Listed(a.trips, 3) && StartRestarts(a, Some(gone), third, 5)
    ensures StartAnother(a, Some(gone), 3, third, 5, true) == Outcome(ThirdStarted(second, third, gone).adapter, true)
  {
    InsertThird(Trip(1, 0, 0, 0, 1000, 10), Trip(2, 0, 0, 0, second, 20), Trip(3, gone, 0, 0, third, 5));
    assert forall i | 0 <= i < |a.trips| :: a.trips[i].id < 3;
  }

  lemma StartThirdForgets(w: World, list: seq<Trip>, gone: uint32)
    requires |list| == 3 && list[0].id == 1 && list[1].id == 2 && list[2].id == 3
    requires forall t <- list :: t.thisTrip == t.onRestart == 0
    requires list[0].ongoingBatch == list[1].ongoingBatch == 0 && list[2].ongoingBatch == gone == w.odometer
    requires w.forgotten == map[1 := 0, 2 := 0, 3 := 0]
    ensures ForgetUnsettled(w, list, 0) == map[1 := gone, 2 := gone, 3 := 0]
  {
    FindOfMember(list, list[0]);
    FindOfMember(list, list[1]);
    FindOfMember(list, list[2]);
  }

  lemma StartThirdWorld(second: uint32, third: uint32, gone: uint32)
    requires gone < 1000 <= second && 1000 <= third
    ensures Started(Moved(0, second, gone), StartTrip(3, third, 5, Some(gone), 0, true))
            == ThirdStarted(second, third, gone)
  {
    var w, start := Moved(0, second, gone), StartTrip(3, third, 5, Some(gone), 0, true);
    var list := [Trip(1, 0, 0, 0, 1000, 10), Trip(2, 0, 0, 0, second, 20), Trip(3, gone, 0, 0, third, 5)];
    InsertThird(list[0], list[1], list[2]);
    StartThirdForgets(Joined(w, start), list, gone);
    StartThirdAdapter(w.adapter, second, third, gone);
  }

  lemma StartThird(second: uint32, third: uint32, gone: uint32)
    requires gone < 1000 <= second && 1000 <= third
    ensures Reached(ThirdStarted(second, third, gone))
  {
    ReachMoved(0, second, gone);
    StartThirdAdapter(UnderWay(0, second).adapter, second, third, gone);
    StartThirdWorld(second, third, gone);
    ReachStep(Moved(0, second, gone), StartTrip(3, third, 5, Some(gone), 0, true));
  }

  lemma StopOfThree(a: Adapter, second: uint32, third: uint32, gone: uint32)
    requires 500 <= gone < 1000 <= second <= 0x8000_0000 && 1000 <= third <= 0x8000_0000
    requires a == ThirdStarted(second, third, gone).adapter
    ensures Listed(a.trips, 1) && Stopped(a, 1).trips == [Trip(2, 0, 0, 0, second, 20), Trip(3, 0, 0, 0, third, 5)]
    ensures DistanceRestarts(Stopped(a, 1), gone)
  {
    var t2, t3 := Trip(2, 0, 0, 0, second, 20), Trip(3, 0, 0, 0, third, 5);
    assert a.trips[0].id == 1 && a.trips[1..] == [t2, t3];
    assert [t2, t3][1..] == [t3] && [t3][1..] == [];
    assert MinRemaining([t2, t3], 0) == MinRemaining([t3], second);
  }

  /** A stop whose query was answered before a start made the modem restart puts the metres of the old batch on the
      account of the new trip, which has not moved. */
  lemma LateStopCountsOldBatch(second: uint32, third: uint32, gone: uint32)
    requires 500 <= gone < 1000 <= second <= 0x8000_0000 && 1000 <= third <= 0x8000_0000
    ensures var (w, stop) := (ThirdStarted(second, third, gone), StopTrip(1, gone, true));
            && Reached(w) && CanHappen(w, stop) && !Smooth(w, stop)
            && 3 in Step(w, stop).joined && Step(w, stop).joined[3] == Step(w, stop).travelled
            && Trip(3, 0, gone, gone, third, 5) in Step(w, stop).adapter.trips
  {
    StartThird(second, third, gone);
    var w := ThirdStarted(second, third, gone);
    StopOfThree(w.adapter, second, third, gone);
    var t3 := Trip(3, 0, 0, 0, third, 5);
    var left := Stopped(w.adapter, 1).trips;
    assert left[1] == t3;
    RebaseKeepsAll(left, gone);
    assert Rebased(Progressed(t3, gone)) == Trip(3, 0, gone, gone, third, 5);
  }

  lemma RefusedStart(a: Adapter, gone: uint32, distance: uint32)
    requires a == OneTrip(1000, gone).adapter
    ensures Start(a, Some(gone), 2, distance, 5, false).adapter.trips
            == [Trip(1, 0, 0, 0, 1000, 10), Trip(2, 0, 0, 0, distance, 5)]
    ensures !Start(a, Some(gone), 2, distance, 5, false).restarted && !Listed(a.trips, 2)
  {
    InsertSecond(Trip(1, 0, 0, 0, 1000, 10), Trip(2, gone, 0, 0, distance, 5));
  }

  lemma LastOfTwoCompletes(t: Trip, last: Trip, reading: uint32)
    requires Complete(Progressed(last, reading))
    ensures Progressed(last, reading) in Completed([t, last], reading)
  {
    ReportOfOne(last, reading);
    assert [t, last][1..] == [last];
  }

  /** A start asks for a restart that the modem refuses. The accounts are rebased all the same, so the next report
      puts the metres of the running batch on the account of the new trip and completes it. */
  lemma RefusedStartCountsBatch(gone: uint32, distance: uint32)
    requires distance <= gone < 1000
    ensures var (w, start) := (OneTrip(1000, gone), StartTrip(2, distance, 5, Some(gone), 0, false));
            && Reached(w) && CanHappen(w, start)
            && var next := Step(w, start);
               && 2 in next.joined && next.joined[2] == next.travelled && next.odometer == gone
               && exists t <- Completed(next.adapter.trips, gone) :: t.id == 2
  {
    OneTripUnderWay(1000, gone);
    RefusedStart(OneTrip(1000, gone).adapter, gone, distance);
    LastOfTwoCompletes(Trip(1, 0, 0, 0, 1000, 10), Trip(2, 0, 0, 0, distance, 5), gone);
  }

  // ---------------------------------------------------------------- does the modem stop in time?

  /** When the odometer reaches the distance that the modem last accepted, no trip is past its end, by its account. */
  ghost predicate Covered(w: World) {
    forall t <- w.adapter.trips :: w.running && t.onRestart + w.target <= t.ongoingBatch + t.distance
  }

  /** The adapter knows what the modem does. */
  predicate Believed(w: World) {
    w.adapter.trips != [] ==>
      w.running && w.target == w.adapter.ongoingDistance && w.interval == w.adapter.ongoingTbf
  }

  lemma {:induction false} RewrittenNotEmpty(trips: seq<Trip>, acc: uint32, id: uint32)
    ensures trips == [] ==> Kept(trips, acc) == Erase(trips, id) == []
    ensures (Rebase(trips, acc) == [] <==> trips == []) && (RebaseOnStart(trips) == [] <==> trips == [])
  {
  }

  /** It is misled only if the modem refuses the restart that a start asks for, or to start again after an engine
      restart. */
  lemma StepKeepsBeliefIff(w: World, e: Event)
    requires Believed(w) && CanHappen(w, e)
    ensures Believed(Step(w, e)) <==>
            (e.StartTrip? && AsksForRestart(w, e) && !e.accepted ==>
               w.adapter.ongoingTbf <= e.tbf
               && StartTarget(w.adapter, e.queried, e.distance) == w.adapter.ongoingDistance)
            && (e.EngineRestart? && w.adapter.trips != [] ==> e.accepted)
  {
    var a := w.adapter;
    match e {
      case Travel(_) =>
      case StartTrip(_, _, _, _, _, _) =>
        RewrittenNotEmpty(ListWith(w, e), 0, 0);
      case StopTrip(id, queried, _) =>
        RewrittenNotEmpty(a.trips, queried, id);
      case ReportDistance(reading, _) =>
        RewrittenNotEmpty(a.trips, reading, 0);
      case EngineRestart(_) =>
    }
  }

  /** So in a smooth run it never is. */
  lemma {:induction false} DriveKeepsBelief(w: World, es: seq<Event>)
    requires Believed(w) && Orderly(w, es)
    ensures Believed(Drive(w, es))
    decreases |es|
  {
    if es != [] {
      StepKeepsBeliefIff(w, es[0]);
      DriveKeepsBelief(Step(w, es[0]), es[1..]);
    }
  }

  lemma {:induction false} InsertKeepsAll(trips: seq<Trip>, n: Trip)
    requires !Listed(trips, n.id)
    ensures n in Insert(trips, n) && forall t <- trips :: t in Insert(trips, n)
  {
    if trips != [] {
      assert trips[0].id != n.id;
      if n.id > trips[0].id {
        assert forall i | 0 <= i < |trips[1..]| :: trips[1..][i] == trips[i + 1];
        InsertKeepsAll(trips[1..], n);
      }
    }
  }

  lemma {:induction false} RebaseOnStartKeepsAll(trips: seq<Trip>)
    ensures forall t <- trips :: Rebased(t) in RebaseOnStart(trips)
  {
    if trips != [] {
      RebaseOnStartKeepsAll(trips[1..]);
      assert RebaseOnStart(trips)[0] == Rebased(trips[0]);
    }
  }

  /** What the modem is given, or keeps if it refuses, must fit every trip by its last account; a trip that joins
      without a restart must not end before the target. */
  predicate StartFits(w: World, e: Event)
    requires e.StartTrip?
  {
    var target := if e.accepted then StartTarget(w.adapter, e.queried, e.distance) else w.target;
    if AsksForRestart(w, e) then
      && (forall t <- w.adapter.trips :: t.thisTrip + target <= t.distance)
      && (e.queried.Some? ==> target <= e.distance)
    else w.adapter.trips != [] && e.queried.Some? ==> w.target <= e.queried.value + e.distance
  }

  /** A start keeps the target within every trip's end exactly if this holds: for every world, every answer to the
      query, none included, and whether or not the modem accepts. */
  lemma StartKeepsCoveredIff(w: World, e: Event)
    requires e.StartTrip? && Covered(w) && CanHappen(w, e)
    ensures Covered(Step(w, e)) <==> StartFits(w, e)
  {
    if w.adapter.trips != [] {
      StartListKeepsAll(w, e);
      if AsksForRestart(w, e) {
        StartRestartCoveredIff(w, e);
      } else {
        StartJoinCoveredIff(w, e);
      }
    }
  }

  lemma StartListKeepsAll(w: World, e: Event)
    requires e.StartTrip? && CanHappen(w, e)
    ensures var n := Trip(e.id, Heard(e.queried), 0, 0, e.distance, e.tbf);
            && (forall t <- w.adapter.trips :: t in ListWith(w, e))
            && (forall t <- ListWith(w, e) :: t in w.adapter.trips || (t == n && e.queried.Some?))
            && (e.queried.Some? ==> n in ListWith(w, e))
  {
    var n := Trip(e.id, Heard(e.queried), 0, 0, e.distance, e.tbf);
    InsertMembers(w.adapter.trips, n);
    InsertKeepsAll(w.adapter.trips, n);
  }

  lemma StartJoinCoveredIff(w: World, e: Event)
    requires e.StartTrip? && Covered(w) && CanHappen(w, e) && w.adapter.trips != [] && !AsksForRestart(w, e)
    ensures Covered(Started(w, e)) <==> (e.queried.Some? ==> w.target <= e.queried.value + e.distance)
  {
    StartListKeepsAll(w, e);
  }

  lemma StartRestartCoveredIff(w: World, e: Event)
    requires e.StartTrip? && Covered(w) && CanHappen(w, e) && AsksForRestart(w, e)
    ensures Covered(Started(w, e)) <==> StartFits(w, e)
  {
    var next, list := Started(w, e), ListWith(w, e);
    StartListKeepsAll(w, e);
    RebaseOnStartMembers(list);
    RebaseOnStartKeepsAll(list);
    if Covered(next) {
      forall t | t in list ensures t.thisTrip + next.target <= t.distance {
        assert Rebased(t) in next.adapter.trips;
      }
    } else {
      var t :| t in next.adapter.trips && t.onRestart + next.target > t.ongoingBatch + t.distance;
      var u :| u in list && t == Rebased(u);
    }
  }

  /** So an accepted start whose query is answered at once keeps it, as long as the modem has not passed its target,
      the adapter knows it and no account is ahead of the odometer, though the start forgets what was travelled since
      the last report. */
  lemma StartKeepsCovered(w: World, id: uint32, distance: uint32, tbf: uint32)
    requires Inv(w) && Covered(w) && Believed(w) && !Listed(w.adapter.trips, id)
    requires w.odometer <= w.target || w.adapter.trips == []
    requires forall t <- w.adapter.trips :: 0 <= Unsettled(w, t)
    ensures Covered(Step(w, StartTrip(id, distance, tbf, Some(w.odometer), 0, true)))
  {
    var e := StartTrip(id, distance, tbf, Some(w.odometer), 0, true);
    StartKeepsCoveredIff(w, e);
    forall t | t in w.adapter.trips
      ensures t.thisTrip + StartTarget(w.adapter, e.queried, distance) <= t.distance
    {
      assert TripInv(w, t);
    }
  }

  /** One trip, `gone` metres under way and up to date. */
  function Halfway(gone: uint32): World {
    OneTrip(1000, gone).(adapter := Adapter([Trip(1, 0, gone, 0, 1000, 10)], {1}, 1000, 10, false, false))
  }

  lemma ReachHalfway(gone: uint32)
    requires gone < 1000
    ensures Reached(Halfway(gone))
  {
    OneTripUnderWay(1000, gone);
    ReportOfOne(OneTrip(1000, gone).adapter.trips[0], gone);
    ReachStep(OneTrip(1000, gone), ReportDistance(gone, true));
  }

  /** A start whose query was answered before the last report gives the modem more than trip 1 has left. */
  lemma StartCanOvershoot(gone: uint32, distance: uint32)
    requires 0 < gone < 1000 <= distance
    ensures var (w, start) := (Halfway(gone), StartTrip(2, distance, 5, Some(0), gone, true));
            && Reached(w) && Covered(w) && CanHappen(w, start) && Smooth(w, start) && !Covered(Step(w, start))
  {
    ReachHalfway(gone);
    var w := Halfway(gone);
    assert w.adapter.trips[0] in w.adapter.trips;
    StartKeepsCoveredIff(w, StartTrip(2, distance, 5, Some(0), gone, true));
  }

  // The remaining distances, none of them zero, so that the sentinel of MinRemaining does no harm.
  predicate Unfinished(trips: seq<Trip>) {
    forall t <- trips :: t.thisTrip < t.distance
  }

  lemma {:induction false} MinRemainingIsLeast(trips: seq<Trip>, sofar: uint32)
    requires Unfinished(trips)
    ensures var m := MinRemaining(trips, sofar);
            && (forall t <- trips :: m <= t.distance - t.thisTrip)
            && (sofar > 0 ==> m <= sofar)
            && (m == sofar || exists t <- trips :: m == t.distance - t.thisTrip)
            && (trips != [] || sofar > 0 ==> m > 0)
    decreases |trips|
  {
    if trips != [] {
      var remaining := Sub32(trips[0].distance, trips[0].thisTrip);
      MinRemainingIsLeast(trips[1..], if sofar == 0 || sofar > remaining then remaining else sofar);
    }
  }

  lemma {:induction false} RebaseKeepsAll(trips: seq<Trip>, acc: uint32)
    ensures forall t <- trips :: Rebased(Progressed(t, acc)) in Rebase(trips, acc)
  {
    if trips != [] {
      RebaseKeepsAll(trips[1..], acc);
      assert Rebase(trips, acc)[0] == Rebased(Progressed(trips[0], acc));
    }
  }

  /** No trip has less to go than the target, once its account is settled at `acc`. */
  predicate Fits(trips: seq<Trip>, acc: uint32, target: uint32) {
    forall t <- trips :: Progressed(t, acc).thisTrip + target <= t.distance
  }

  /** The target of restartTripBatching fits, whichever of its tests make it restart: the least remaining distance
      of accounts as old as the last report, or else the old target unchanged. */
  predicate RestartFits(a: Adapter, acc: uint32) {
    if DistanceRestarts(a, acc) then Fits(a.trips, acc, MinRemaining(a.trips, 0))
    else IntervalRestarts(a) ==> Fits(a.trips, acc, a.ongoingDistance)
  }

  lemma RestartKeepsCoveredIff(w: World, acc: uint32, accepted: bool)
    requires Covered(w)
    ensures Covered(Restarted(w, Restart(w.adapter, acc, accepted), acc)) <==>
            (w.adapter.trips != [] && accepted ==> RestartFits(w.adapter, acc))
  {
    var a, o := w.adapter, Restart(w.adapter, acc, accepted);
    var next := Restarted(w, o, acc);
    RebaseMembers(a.trips, acc);
    RebaseKeepsAll(a.trips, acc);
    if o.restarted {
      if Covered(next) {
        forall t | t in a.trips ensures Progressed(t, acc).thisTrip + next.target <= t.distance {
          assert Rebased(Progressed(t, acc)) in next.adapter.trips;
        }
      } else {
        var t :| t in next.adapter.trips && t.onRestart + next.target > t.ongoingBatch + t.distance;
        var u :| u in a.trips && t == Rebased(Progressed(u, acc));
      }
    }
  }

  /** A stop keeps the modem's target within every trip's end exactly if the target of the restart fits the trips
      that are left, or the modem refuses it: for every world and every answer to the query. */
  lemma StopKeepsCoveredIff(w: World, id: uint32, queried: uint32, accepted: bool)
    requires Covered(w)
    ensures Covered(Step(w, StopTrip(id, queried, accepted))) <==>
            (accepted && id in w.adapter.batching && Listed(w.adapter.trips, id) && Stopped(w.adapter, id).trips != []
             ==> RestartFits(Stopped(w.adapter, id), queried))
  {
    var a := w.adapter;
    if id in a.batching && Listed(a.trips, id) {
      EraseMembers(a.trips, id);
      RestartKeepsCoveredIff(w.(adapter := Stopped(a, id)), queried, accepted);
    }
  }

  /** When does it fit? A new target fits if all accounts are up to date, and only if those of the trips with the
      least to go are; so a stop that was not preceded by a report at the same reading sets the target too far. */
  lemma NewTargetFits(w: World, acc: uint32)
    requires Inv(w) && Covered(w) && Fresh(w, acc) && acc <= w.target
    requires w.adapter.trips != [] && Unfinished(w.adapter.trips)
    ensures var (trips, m) := (w.adapter.trips, MinRemaining(w.adapter.trips, 0));
            && ((forall t <- trips :: Progressed(t, acc).thisTrip <= t.thisTrip) ==> Fits(trips, acc, m))
            && (exists t <- trips :: t.distance - t.thisTrip == m)
            && (Fits(trips, acc, m) ==>
                  forall t <- trips :: t.distance - t.thisTrip == m ==> Progressed(t, acc).thisTrip <= t.thisTrip)
  {
    MinRemainingIsLeast(w.adapter.trips, 0);
  }

  /** The old target fits, if some trip's end is exactly what it was made for, only at the start of the batch. */
  lemma OldTargetFitsIff(w: World, acc: uint32, tight: Trip)
    requires Inv(w) && Covered(w) && Believed(w) && Fresh(w, acc) && acc <= w.target
    requires tight in w.adapter.trips
    requires tight.onRestart + w.target == tight.ongoingBatch + tight.distance
    ensures Fits(w.adapter.trips, acc, w.adapter.ongoingDistance) <==> acc == 0
  {
    forall t | t in w.adapter.trips
      ensures Progressed(t, acc).thisTrip == t.onRestart + (acc - t.ongoingBatch)
    {
      assert TripInv(w, t);
    }
    assert tight.ongoingBatch <= acc;
  }

  /** After a report every account is settled, so a new target always fits: the modem is given too much exactly when
      it is restarted for the interval alone while some trip has less to go than the old target. */
  lemma ReportKeepsCoveredIff(w: World, reading: uint32, accepted: bool)
    requires Inv(w) && Covered(w) && Fresh(w, reading)
    ensures var left := WithoutCompleted(w.adapter, reading);
            Covered(Step(w, ReportDistance(reading, accepted))) <==>
            (accepted && Completed(w.adapter.trips, reading) != [] && left.trips != []
             && !DistanceRestarts(left, reading) && IntervalRestarts(left)
             ==> left.ongoingDistance <= MinRemaining(left.trips, 0))
  {
    var left := WithoutCompleted(w.adapter, reading);
    ReportMembers(w.adapter.trips, reading);
    forall t | t in left.trips
      ensures t.thisTrip < t.distance && Progressed(t, reading) == t
              && t.onRestart + w.target <= t.ongoingBatch + t.distance
    {
      var u :| u in w.adapter.trips && t == Progressed(u, reading);
    }
    if left.trips != [] {
      MinRemainingIsLeast(left.trips, 0);
      RestartKeepsCoveredIff(w.(adapter := left), reading, accepted);
    }
  }

  /** After an engine restart the new target fits every trip by its account, if accounts did not go down before it
      and no trip is finished, exactly if the modem starts again. */
  lemma EngineRestartCoversIff(w: World, accepted: bool)
    requires Unfinished(w.adapter.trips)
    requires forall t <- w.adapter.trips :: t.onRestart <= t.ongoingBatch + t.thisTrip
    ensures Covered(Step(w, EngineRestart(accepted))) <==> w.adapter.trips == [] || accepted
  {
    MinRemainingIsLeast(w.adapter.trips, 0);
    assert w.adapter.trips != [] ==> w.adapter.trips[0] in w.adapter.trips;
  }

  /** A stop with no report before it: the new target is the whole distance of the trip that is left, although it
      has already gone part of it. */
  lemma StopAfterDropOvershoots(distance: uint32, gone: uint32)
    requires 0 < gone < 1000 <= distance
    ensures var w := Moved(0, distance, gone);
            && Reached(w) && Covered(w) && Smooth(w, StopTrip(1, gone, true))
            && !Covered(Step(w, StopTrip(1, gone, true)))
            && Listed(w.adapter.trips, 1) && DistanceRestarts(Stopped(w.adapter, 1), gone)
  {
    ReachMoved(0, distance, gone);
    StopFirst(0, distance, gone);
    var next := FirstStopped(0, distance, gone);
    assert next.adapter.trips[0] in next.adapter.trips;
    assert UnderWay(0, distance).adapter.trips[0].id == 1;
  }

  /** Trip 2, shorter but sampled less often, was started at once after trip 1; then `gone` metres. */
  function ShorterSecond(far: uint32, gone: uint32): World {
    World(Adapter([Trip(1, 0, 0, 0, far, 10), Trip(2, 0, 0, 0, 1000, 20)], {1}, 1000, 10, false, false),
          gone, true, 1000, 10, gone, map[1 := 0, 2 := 0], map[1 := 0, 2 := 0])
  }

  lemma ShorterSecondAdapter(a: Adapter, far: uint32)
    requires 1000 < far && a == OneTrip(far, 0).adapter
    ensures StartAnother(a, Some(0), 2, 1000, 20, true) == Outcome(ShorterSecond(far, 0).adapter, true)
    ensures !Listed(a.trips, 2)
  {
    InsertSecond(Trip(1, 0, 0, 0, far, 10), Trip(2, 0, 0, 0, 1000, 20));
  }

  lemma ShorterSecondForgets(w: World, t1: Trip, t2: Trip)
    requires t1.id == 1 && t2.id == 2 && Unsettled(w, t1) == Unsettled(w, t2) == 0
    requires w.forgotten == map[1 := 0, 2 := 0]
    ensures ForgetUnsettled(w, [t1, t2], 0) == map[1 := 0, 2 := 0]
  {
    var list := [t1, t2];
    assert Increasing(list) && list[0] == t1 && list[1] == t2;
    FindOfMember(list, t1);
    FindOfMember(list, t2);
  }

  lemma ReachShorterSecond(far: uint32, gone: uint32)
    requires 1000 < far
    ensures Reached(ShorterSecond(far, gone))
  {
    OneTripUnderWay(far, 0);
    var t1, t2 := Trip(1, 0, 0, 0, far, 10), Trip(2, 0, 0, 0, 1000, 20);
    var w := OneTrip(far, 0);
    var start := StartTrip(2, 1000, 20, Some(0), 0, true);
    ShorterSecondAdapter(w.adapter, far);
    InsertSecond(t1, t2);
    ShorterSecondForgets(Joined(w, start), t1, t2);
    ReachStep(w, start);
    ReachStep(ShorterSecond(far, 0), Travel(gone));
  }

  /** Stopping the trip with the shortest interval restarts the modem for the new interval, with the old distance
      instead of what is left of it. */
  lemma StopCanOvershoot(far: uint32, gone: uint32)
    requires 1000 < far && 0 < gone < 1000
    ensures var w := ShorterSecond(far, gone);
            && Reached(w) && Covered(w) && Listed(w.adapter.trips, 1)
            && !DistanceRestarts(Stopped(w.adapter, 1), gone)
            && Smooth(w, StopTrip(1, gone, true)) && !Covered(Step(w, StopTrip(1, gone, true)))
  {
    ReachShorterSecond(far, gone);
    var t1, t2 := Trip(1, 0, 0, 0, far, 10), Trip(2, 0, 0, 0, 1000, 20);
    var w := ShorterSecond(far, gone);
    var a := w.adapter;
    assert a.trips[0].id == 1;
    assert Listed(a.trips, 1) && Find(a.trips, 1) == t1;
    assert a.trips[1..] == [t2];
    assert Erase(a.trips, 1) == [t2];
    assert [t2][1..] == [];
    assert MinRemaining([t2], 0) == MinRemaining([], 1000) == 1000;
    assert MinTbf([t2], 0) == MinTbf([], 20) == 20;
    var moved := Rebased(Progressed(t2, gone));
    assert Rebase([t2], gone) == [moved] + Rebase([], gone);
    var next := Step(w, StopTrip(1, gone, true));
    assert next.adapter.trips == [moved] && next.adapter.ongoingDistance == 1000;
    assert moved in next.adapter.trips;
  }

  // ---------------------------------------------------------------- does the modem sample often enough?

  /** The modem's interval is no longer than any trip's, and the adapter knows it; an interval of 0 means "not set"
      to MinTbf. */
  ghost predicate Sampled(w: World) {
    && (forall t <- w.adapter.trips :: 0 < t.tbf && w.interval <= t.tbf)
    && (w.adapter.trips != [] ==> w.running && w.interval == w.adapter.ongoingTbf)
  }

  lemma {:induction false} MinTbfIsLeast(trips: seq<Trip>, sofar: uint32)
    requires forall t <- trips :: 0 < t.tbf
    ensures var m := MinTbf(trips, sofar);
            && (forall t <- trips :: m <= t.tbf) && (sofar > 0 ==> m <= sofar)
            && (m == sofar || exists t <- trips :: m == t.tbf)
            && (trips != [] || sofar > 0 ==> m > 0)
    decreases |trips|
  {
    if trips != [] {
      MinTbfIsLeast(trips[1..], if sofar == 0 || sofar > trips[0].tbf then trips[0].tbf else sofar);
    }
  }

  lemma RestartKeepsSampled(w: World, acc: uint32, accepted: bool)
    requires Sampled(w)
    ensures Sampled(Restarted(w, Restart(w.adapter, acc, accepted), acc))
  {
    var a, o := w.adapter, Restart(w.adapter, acc, accepted);
    var next := Restarted(w, o, acc);
    MinTbfIsLeast(a.trips, 0);
    RebaseMembers(a.trips, acc);
    forall t | t in next.adapter.trips ensures 0 < t.tbf && next.interval <= t.tbf {
      if o.restarted {
        var u :| u in a.trips && t == Rebased(Progressed(u, acc));
      }
    }
  }

  lemma StartListNotEmpty(w: World, e: Event)
    requires e.StartTrip? && w.adapter.trips != []
    ensures ListWith(w, e) != [] && RebaseOnStart(ListWith(w, e)) != []
  {
    RewrittenNotEmpty(ListWith(w, e), 0, 0);
  }

  lemma StartAnotherSampled(w: World, e: Event)
    requires Sampled(w) && CanHappen(w, e) && e.StartTrip? && 0 < e.tbf && w.adapter.trips != []
    requires e.tbf < w.interval ==> e.accepted
    ensures Sampled(Started(w, e))
  {
    var next, list := Started(w, e), ListWith(w, e);
    StartListKeepsAll(w, e);
    RebaseOnStartMembers(list);
    forall t | t in next.adapter.trips ensures 0 < t.tbf && next.interval <= t.tbf {
      if AsksForRestart(w, e) {
        var u :| u in list && t == Rebased(u);
      }
    }
  }

  lemma StartKeepsSampledIff(w: World, e: Event)
    requires Sampled(w) && CanHappen(w, e) && e.StartTrip? && 0 < e.tbf
    ensures Sampled(Started(w, e)) <==> (w.adapter.trips != [] && e.tbf < w.interval ==> e.accepted)
  {
    if w.adapter.trips != [] {
      if e.tbf < w.interval && !e.accepted {
        StartListNotEmpty(w, e);
      } else {
        StartAnotherSampled(w, e);
      }
    }
  }

  /** The modem accepts the restarts for shorter intervals that starts ask for, and to start again after an engine
      restart. */
  predicate Heeds(w: World, e: Event) {
    w.adapter.trips != [] && (e.EngineRestart? || (e.StartTrip? && e.tbf < w.interval)) ==> e.accepted
  }

  lemma StepKeepsSampledIff(w: World, e: Event)
    requires Sampled(w) && CanHappen(w, e) && (e.StartTrip? ==> 0 < e.tbf)
    ensures Sampled(Step(w, e)) <==> Heeds(w, e)
  {
    var a := w.adapter;
    match e
    case Travel(_) =>
    case StartTrip(_, _, _, _, _, _) => StartKeepsSampledIff(w, e);
    case StopTrip(id, queried, accepted) =>
      EraseMembers(a.trips, id);
      if id in a.batching && Listed(a.trips, id) {
        RestartKeepsSampled(w.(adapter := Stopped(a, id)), queried, accepted);
      }
    case ReportDistance(reading, accepted) =>
      ReportMembers(a.trips, reading);
      RewrittenNotEmpty(a.trips, reading, 0);
      RestartKeepsSampled(w.(adapter := WithoutCompleted(a, reading)), reading, accepted);
    case EngineRestart(_) => MinTbfIsLeast(a.trips, 0);
  }

  ghost predicate Heeded(w: World, es: seq<Event>)
    requires Happens(w, es)
    decreases |es|
  {
    es == [] || (Heeds(w, es[0]) && Heeded(Step(w, es[0]), es[1..]))
  }

  /** In every run of these, late answers and other refusals included, the modem samples at least as often as every
      trip asks, if every trip asks for an interval at all. */
  lemma {:induction false} EveryTripIsSampled(w: World, es: seq<Event>)
    requires Sampled(w) && Happens(w, es) && Heeded(w, es)
    requires forall e <- es :: e.StartTrip? ==> 0 < e.tbf
    ensures Sampled(Drive(w, es))
    decreases |es|
  {
    if es != [] {
      StepKeepsSampledIff(w, es[0]);
      EveryTripIsSampled(Step(w, es[0]), es[1..]);
    }
  }

  // ---------------------------------------------------------------- the adapter as an object

  class BatchingAdapter {
    var mTripSessions: seq<Trip>
    var mBatchingSessions: set<uint32>
    var mOngoingTripDistance: uint32
    var mOngoingTripTBFInterval: uint32
    var mTripWithOngoingTBFDropped: bool
    var mTripWithOngoingTripDistanceDropped: bool

    function Current(): Adapter
      reads this
    {
      Adapter(mTripSessions, mBatchingSessions, mOngoingTripDistance, mOngoingTripTBFInterval,
              mTripWithOngoingTBFDropped, mTripWithOngoingTripDistanceDropped)
    }

    constructor ()
      ensures Current() == NoTrips
    {
      mTripSessions, mBatchingSessions := [], {};
      mOngoingTripDistance, mOngoingTripTBFInterval := 0, 0;
      mTripWithOngoingTBFDropped, mTripWithOngoingTripDistanceDropped := false, false;
    }

    /** `odometer` is what queryAccumulatedTripDistance answers, if it does, and `accepted` what the modem answers to
        a start or restart. */
    method StartTripBatchingMultiplex(odometer: Option<uint32>, id: uint32, distance: uint32, tbf: uint32,
                                      accepted: bool) returns (restarted: bool)
      modifies this
      ensures Outcome(Current(), restarted) == Start(old(Current()), odometer, id, distance, tbf, accepted)
    {
      if |mTripSessions| == 0 {
        mBatchingSessions := mBatchingSessions + {id};
        mTripSessions := Insert(mTripSessions, Trip(id, 0, 0, 0, distance, tbf));
        if accepted {
          mOngoingTripDistance, mOngoingTripTBFInterval := distance, tbf;
        } else {
          mBatchingSessions := mBatchingSessions - {id};
          mTripSessions := Erase(mTripSessions, id);
          assert mTripSessions == [] && mBatchingSessions == old(mBatchingSessions) - {id};
        }
        return accepted;
      }
      var ongoingDistance, ongoingInterval := mOngoingTripDistance, mOngoingTripTBFInterval;
      var needsRestart := false;
      if ongoingInterval > tbf {
        ongoingInterval := tbf;
        needsRestart := true;
      }
      if odometer.None? {
        if distance < ongoingDistance {
          ongoingDistance := distance;
          needsRestart := true;
        }
      } else {
        var remaining := Sub32(ongoingDistance, odometer.value);
        if distance < remaining {
          ongoingDistance := distance;
          needsRestart := true;
        } else if needsRestart {
          ongoingDistance := remaining;
        }
        mTripSessions := Insert(mTripSessions, Trip(id, odometer.value, 0, 0, distance, tbf));
      }
      if needsRestart {
        mOngoingTripDistance, mOngoingTripTBFInterval := ongoingDistance, ongoingInterval;
        RebaseForStart();
      }
      restarted := needsRestart && accepted;
    }

    method RebaseForStart()
      modifies this`mTripSessions
      ensures mTripSessions == RebaseOnStart(old(mTripSessions))
    {
      ghost var before := mTripSessions;
      var i := 0;
      while i < |mTripSessions|
        invariant 0 <= i <= |mTripSessions| == |before|
        invariant mTripSessions[i..] == before[i..]
        invariant mTripSessions[..i] + RebaseOnStart(before[i..]) == RebaseOnStart(before)
      {
        RebaseStep(mTripSessions, before, i, 0);
        var t := mTripSessions[i];
        mTripSessions := mTripSessions[i := t.(ongoingBatch := 0, onRestart := t.thisTrip)];
        i := i + 1;
      }
    }

    method RestartTripBatching(acc: uint32, accepted: bool) returns (restarted: bool)
      modifies this
      ensures Outcome(Current(), restarted) == Restart(old(Current()), acc, accepted)
    {
      if |mTripSessions| == 0 {
        mOngoingTripDistance, mOngoingTripTBFInterval := 0, 0;
        return false;
      }
      var minRemaining: uint32, minTbf: uint32 := 0, 0;
      var i := 0;
      while i < |mTripSessions|
        invariant 0 <= i <= |mTripSessions|
        invariant MinRemaining(mTripSessions[i..], minRemaining) == MinRemaining(mTripSessions, 0)
        invariant MinTbf(mTripSessions[i..], minTbf) == MinTbf(mTripSessions, 0)
      {
        var t := mTripSessions[i];
        assert mTripSessions[i..][0] == t && mTripSessions[i..][1..] == mTripSessions[i + 1..];
        var remaining := Sub32(t.distance, t.thisTrip);
        if minRemaining == 0 || minRemaining > remaining {
          minRemaining := remaining;
        }
        if minTbf == 0 || minTbf > t.tbf {
          minTbf := t.tbf;
        }
        i := i + 1;
      }
      var ongoingDistance, ongoingInterval := mOngoingTripDistance, mOngoingTripTBFInterval;
      var needsRestart := false;
      if !mTripWithOngoingTripDistanceDropped && Sub32(ongoingDistance, acc) != 0 {
        if minRemaining < Sub32(ongoingDistance, acc) {
          ongoingDistance := minRemaining;
          needsRestart := true;
        }
      } else if minRemaining != 0 {
        ongoingDistance := minRemaining;
        needsRestart := true;
      }
      if minTbf < ongoingInterval || (minTbf != ongoingInterval && mTripWithOngoingTBFDropped) {
        ongoingInterval := minTbf;
        needsRestart := true;
      }
      restarted := needsRestart && accepted;
      if restarted {
        RebaseAll(acc);
        mOngoingTripDistance, mOngoingTripTBFInterval := ongoingDistance, ongoingInterval;
      }
    }

    method RebaseAll(acc: uint32)
      modifies this`mTripSessions
      ensures mTripSessions == Rebase(old(mTripSessions), acc)
    {
      ghost var before := mTripSessions;
      var i := 0;
      while i < |mTripSessions|
        invariant 0 <= i <= |mTripSessions| == |before|
        invariant mTripSessions[i..] == before[i..]
        invariant mTripSessions[..i] + Rebase(before[i..], acc) == Rebase(before, acc)
      {
        RebaseStep(mTripSessions, before, i, acc);
        var t := Progressed(mTripSessions[i], acc);
        mTripSessions := mTripSessions[i := t.(ongoingBatch := 0, onRestart := t.thisTrip)];
        i := i + 1;
      }
    }

    method StopTrip(odometer: uint32, id: uint32, accepted: bool) returns (restarted: bool)
      modifies this
      ensures Outcome(Current(), restarted) == Stop(old(Current()), odometer, id, accepted)
    {
      if id !in mBatchingSessions || !Listed(mTripSessions, id) {
        return false;
      }
      var t := Find(mTripSessions, id);
      if t.tbf == mOngoingTripTBFInterval {
        mTripWithOngoingTBFDropped := true;
      }
      if t.distance == mOngoingTripDistance {
        mTripWithOngoingTripDistanceDropped := true;
      }
      mTripSessions := Erase(mTripSessions, id);
      if |mTripSessions| == 0 {
        mOngoingTripDistance, mOngoingTripTBFInterval := 0, 0;
        return false;
      }
      restarted := RestartTripBatching(odometer, accepted);
    }

    /** The loop resets the offset of a copy of each entry. */
    method RestartSessions(accepted: bool)
      modifies this
      ensures Current() == EngineUp(old(Current()), accepted)
    {
      if |mTripSessions| > 0 {
        mOngoingTripDistance, mOngoingTripTBFInterval := 0, 0;
        var i := 0;
        while i < |mTripSessions|
          invariant 0 <= i <= |mTripSessions| && mTripSessions == old(mTripSessions)
          invariant MinRemaining(mTripSessions[i..], mOngoingTripDistance) == MinRemaining(mTripSessions, 0)
          invariant MinTbf(mTripSessions[i..], mOngoingTripTBFInterval) == MinTbf(mTripSessions, 0)
          invariant Current() == old(Current()).(ongoingDistance := mOngoingTripDistance,
                                                 ongoingTbf := mOngoingTripTBFInterval)
        {
          var t := mTripSessions[i];
          assert mTripSessions[i..][0] == t && mTripSessions[i..][1..] == mTripSessions[i + 1..];
          var remaining := Sub32(t.distance, t.thisTrip);
          if mOngoingTripDistance == 0 || mOngoingTripDistance > remaining {
            mOngoingTripDistance := remaining;
          }
          if mOngoingTripTBFInterval == 0 || mOngoingTripTBFInterval > t.tbf {
            mOngoingTripTBFInterval := t.tbf;
          }
          t := t.(ongoingBatch := 0);
          i := i + 1;
        }
        if !accepted {
          mOngoingTripDistance, mOngoingTripTBFInterval := 0, 0;
        }
      }
    }

    /** Walks the trips, drops the completed ones, and returns them in order. */
    method DropCompleted(reading: uint32) returns (completed: seq<Trip>)
      modifies this`mTripSessions, this`mTripWithOngoingTBFDropped, this`mTripWithOngoingTripDistanceDropped
      ensures completed == Completed(old(mTripSessions), reading)
      ensures mTripSessions == Kept(old(mTripSessions), reading)
      ensures mTripWithOngoingTBFDropped <==>
                old(mTripWithOngoingTBFDropped) || exists t <- completed :: t.tbf == mOngoingTripTBFInterval
      ensures mTripWithOngoingTripDistanceDropped <==>
                old(mTripWithOngoingTripDistanceDropped) || exists t <- completed :: t.distance == mOngoingTripDistance
    {
      completed := [];
      var i := 0;
      while i < |mTripSessions|
        invariant 0 <= i <= |mTripSessions|
        invariant mTripSessions[..i] + Kept(mTripSessions[i..], reading) == Kept(old(mTripSessions), reading)
        invariant completed + Completed(mTripSessions[i..], reading) == Completed(old(mTripSessions), reading)
        invariant mTripWithOngoingTBFDropped <==> (old(mTripWithOngoingTBFDropped)
                    || exists t <- completed :: t.tbf == mOngoingTripTBFInterval)
        invariant mTripWithOngoingTripDistanceDropped <==> (old(mTripWithOngoingTripDistanceDropped)
                    || exists t <- completed :: t.distance == mOngoingTripDistance)
        decreases |mTripSessions| - i
      {
        ReportStep(mTripSessions, i, reading, completed);
        var t := Progressed(mTripSessions[i], reading);
        if t.distance <= t.thisTrip {
          completed := completed + [t];
          mTripSessions := mTripSessions[..i] + mTripSessions[i + 1..];
          if t.tbf == mOngoingTripTBFInterval {
            mTripWithOngoingTBFDropped := true;
          }
          if t.distance == mOngoingTripDistance {
            mTripWithOngoingTripDistanceDropped := true;
          }
        } else {
          mTripSessions := mTripSessions[i := t];
          i := i + 1;
        }
      }
      assert mTripSessions[i..] == [] && mTripSessions[..i] == mTripSessions;
    }

    method ReportCompletedTrips(reading: uint32, accepted: bool) returns (completed: seq<Trip>, restarted: bool)
      modifies this
      ensures completed == Completed(old(mTripSessions), reading)
      ensures Outcome(Current(), restarted) == Report(old(Current()), reading, accepted)
    {
      completed := DropCompleted(reading);
      restarted := false;
      if |completed| > 0 {
        restarted := RestartTripBatching(reading, accepted);
      }
    }
  }

  lemma RebaseStep(now: seq<Trip>, before: seq<Trip>, i: nat, acc: uint32)
    requires i < |now| == |before| && now[i..] == before[i..]
    ensures var (kept, settled) := (now[i := Rebased(now[i])], now[i := Rebased(Progressed(now[i], acc))]);
            && kept[i + 1..] == settled[i + 1..] == before[i + 1..]
            && kept[..i + 1] + RebaseOnStart(before[i + 1..]) == now[..i] + RebaseOnStart(before[i..])
            && settled[..i + 1] + Rebase(before[i + 1..], acc) == now[..i] + Rebase(before[i..], acc)
  {
    var t := before[i..][0];
    assert t == now[i..][0] == now[i] && before[i..][1..] == before[i + 1..] && now[i..][1..] == now[i + 1..];
    AppendOne(now, i, Rebased(t), RebaseOnStart(before[i + 1..]));
    AppendOne(now, i, Rebased(Progressed(t, acc)), Rebase(before[i + 1..], acc));
  }

  lemma AppendOne(now: seq<Trip>, i: nat, t: Trip, rest: seq<Trip>)
    requires i < |now|
    ensures now[i := t][i + 1..] == now[i + 1..]
    ensures now[i := t][..i + 1] + rest == now[..i] + ([t] + rest)
  {
    assert now[i := t][..i + 1] == now[..i] + [t];
  }

  lemma ReportStep(trips: seq<Trip>, i: nat, a: uint32, done: seq<Trip>)
    requires i < |trips|
    ensures var t := Progressed(trips[i], a);
            var erased := trips[..i] + trips[i + 1..];
            var updated := trips[i := t];
            && (if Complete(t)
                then erased[..i] + Kept(erased[i..], a) == trips[..i] + Kept(trips[i..], a)
                     && (done + [t]) + Completed(erased[i..], a) == done + Completed(trips[i..], a)
                else updated[..i + 1] + Kept(updated[i + 1..], a) == trips[..i] + Kept(trips[i..], a)
                     && done + Completed(updated[i + 1..], a) == done + Completed(trips[i..], a))
  {
    var t := Progressed(trips[i], a);
    var erased := trips[..i] + trips[i + 1..];
    var updated := trips[i := t];
    assert trips[i..][0] == trips[i] && trips[i..][1..] == trips[i + 1..];
    assert erased[i..] == trips[i + 1..] && erased[..i] == trips[..i];
    assert updated[i + 1..] == trips[i + 1..] && updated[..i + 1] == trips[..i] + [t];
    var kept, completed := Kept(trips[i + 1..], a), Completed(trips[i + 1..], a);
    assert trips[..i] + ([t] + kept) == (trips[..i] + [t]) + kept;
    assert done + ([t] + completed) == (done + [t]) + completed;
    assert [] + kept == kept && [] + completed == completed;
  }
}
