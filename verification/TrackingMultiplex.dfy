/** Time-based tracking of gps/gnss/GnssAdapter.cpp: any number of sessions share the one session that the modem
    runs. Of the options, those that decide whether the modem is asked are kept; only its interval is followed. */
module TrackingMultiplex {
  import opened Wrappers

  /** 100 ms or 1000 ms, depending on how the source is built. */
  const MIN_TRACKING_INTERVAL: nat
  const POWER_MODE_INVALID := 0

  datatype Options = Options(minInterval: nat, powerMode: nat, quality: nat)

  datatype Session = Session(key: nat, options: Options)

  /** mTimeBasedTrackingSessions in key order, mNHzNeeded, mSPEAlreadyRunningAtHighestInterval, the interval the
      modem runs at, and whether the system is suspended. */
  datatype Tracking = Tracking(sessions: seq<Session>, nHzNeeded: bool, atHighest: bool,
                               running: Option<nat>, suspended: bool)

  const Idle := Tracking([], false, false, None, false)

  /** `accepted` is the modem's answer, if the event makes the adapter ask it. */
  datatype Event =
    | Start(key: nat, options: Options, accepted: bool)
    | Update(key: nat, options: Options, accepted: bool)
    | Stop(key: nat, accepted: bool)
    | NHzRequirement(needed: bool, accepted: bool)
    | Suspend
    | Resume(accepted: bool)
    | EngineUp(accepted: bool)

  // ---------------------------------------------------------------- the session map

  predicate Listed(sessions: seq<Session>, key: nat) {
    exists s <- sessions :: s.key == key
  }

  function Put(sessions: seq<Session>, key: nat, options: Options): seq<Session> {
    if sessions == [] || key < sessions[0].key then [Session(key, options)] + sessions
    else if key == sessions[0].key then [Session(key, options)] + sessions[1..]
    else [sessions[0]] + Put(sessions[1..], key, options)
  }

  function Without(sessions: seq<Session>, key: nat): seq<Session> {
    if sessions == [] then []
    else (if sessions[0].key == key then [] else [sessions[0]]) + Without(sessions[1..], key)
  }

  function Lookup(sessions: seq<Session>, key: nat): Options
    requires Listed(sessions, key)
  {
    if sessions[0].key == key then sessions[0].options else Lookup(sessions[1..], key)
  }

  predicate Ordered(sessions: seq<Session>) {
    forall i, j | 0 <= i < j < |sessions| :: sessions[i].key < sessions[j].key
  }

  // ---------------------------------------------------------------- the multiplexing loop

  /** The loop's variables; an interval counts only once something was found. */
  datatype Mux = Mux(found: bool, interval: nat, quality: nat, powerMode: nat)

  const NothingYet := Mux(false, 0, 0, POWER_MODE_INVALID)

  function Take(m: Mux, o: Options): Mux {
    var picked :=
      if !m.found || o.minInterval < m.interval
      then m.(found := true, interval := o.minInterval, quality := o.quality) else m;
    var powered :=
      if m.powerMode == POWER_MODE_INVALID || o.powerMode < m.powerMode
      then picked.(powerMode := o.powerMode) else picked;
    if o.quality > powered.quality then powered.(quality := o.quality) else powered
  }

  function Multiplexed(m: Mux, sessions: seq<Session>): Mux
    decreases |sessions|
  {
    if sessions == [] then m else Multiplexed(Take(m, sessions[0].options), sessions[1..])
  }

  // ---------------------------------------------------------------- what the adapter does

  function Clamped(o: Options): Options {
    if o.minInterval < MIN_TRACKING_INTERVAL then o.(minInterval := MIN_TRACKING_INTERVAL) else o
  }

  function Least(a: nat, b: nat): nat {
    if a < b then a else b
  }

  /** The interval the adapter wants the modem to run at for a new session, if it wants anything. */
  function WantedByStart(sessions: seq<Session>, o: Options): Option<nat> {
    var m := Multiplexed(NothingYet, sessions);
    if sessions == [] then Some(o.minInterval)
    else if o.minInterval < m.interval || o.powerMode < m.powerMode || o.quality > m.quality
    then Some(Least(o.minInterval, m.interval))
    else None
  }

  function WantedByUpdate(sessions: seq<Session>, key: nat, o: Options): Option<nat>
    requires Listed(sessions, key)
  {
    var was, m := Lookup(sessions, key), Multiplexed(NothingYet, Without(sessions, key));
    if was.minInterval == o.minInterval && was.powerMode == o.powerMode then None
    else if |sessions| == 1 then Some(o.minInterval)
    else if o.minInterval < m.interval || o.powerMode < m.powerMode then Some(Least(o.minInterval, m.interval))
    else None
  }

  /** The last session is stopped, not replaced. */
  function WantedByStop(sessions: seq<Session>, key: nat): Option<nat>
    requires Listed(sessions, key)
  {
    var was, m := Lookup(sessions, key), Multiplexed(NothingYet, Without(sessions, key));
    if |sessions| > 1 && (was.minInterval < m.interval || was.powerMode < m.powerMode) then Some(m.interval) else None
  }

  function Wanted(t: Tracking, e: Event): Option<nat> {
    match e
    case Start(_, options, _) => WantedByStart(t.sessions, Clamped(options))
    case Update(key, options, _) =>
      if Listed(t.sessions, key) then WantedByUpdate(t.sessions, key, Clamped(options)) else None
    case Stop(key, _) => if Listed(t.sessions, key) then WantedByStop(t.sessions, key) else None
    case _ => None
  }

  /** checkAndSetSPEToRunforNHz: the modem is not asked if it already runs at the highest rate for NHz. */
  predicate Skipped(t: Tracking) {
    t.nHzNeeded && t.atHighest
  }

  function Ask(t: Tracking, interval: nat, accepted: bool): Tracking {
    if Skipped(t) then t
    else
      var forced := t.nHzNeeded && interval > MIN_TRACKING_INTERVAL;
      t.(atHighest := t.atHighest || forced,
         running := if !accepted then t.running else Some(if forced then MIN_TRACKING_INTERVAL else interval))
  }

  function AskFor(t: Tracking, wanted: Option<nat>, accepted: bool): Tracking {
    match wanted
    case None => t
    case Some(interval) => Ask(t, interval, accepted)
  }

  predicate Refused(t: Tracking, wanted: Option<nat>, accepted: bool) {
    wanted.Some? && !Skipped(t) && !accepted
  }

  /** checkAndRestartSPESession: nobody hears of a refusal. */
  function Restarted(t: Tracking, accepted: bool): Tracking {
    var reset := t.(atHighest := false);
    if t.sessions == [] then reset else Ask(reset, Multiplexed(NothingYet, t.sessions).interval, accepted)
  }

  /** A refused start leaves no session, a refused update leaves the old options. */
  function Step(t: Tracking, e: Event): Tracking {
    match e
    case Start(key, options, accepted) =>
      var wanted := Wanted(t, e);
      AskFor(t, wanted, accepted).(sessions :=
        if Refused(t, wanted, accepted) then t.sessions else Put(t.sessions, key, Clamped(options)))
    case Update(key, options, accepted) =>
      if !Listed(t.sessions, key) then t
      else
        var wanted := Wanted(t, e);
        AskFor(t, wanted, accepted).(sessions :=
          if Refused(t, wanted, accepted) then t.sessions else Put(t.sessions, key, Clamped(options)))
    case Stop(key, accepted) =>
      if !Listed(t.sessions, key) then t
      else if |t.sessions| == 1 then t.(sessions := [], running := None, atHighest := false)
      else AskFor(t, Wanted(t, e), accepted).(sessions := Without(t.sessions, key))
    case NHzRequirement(needed, accepted) =>
      if needed == t.nHzNeeded then t else Restarted(t.(nHzNeeded := needed), accepted)
    case Suspend =>
      if t.sessions == [] then t.(suspended := true) else t.(suspended := true, running := None, atHighest := false)
    case Resume(accepted) => Restarted(t.(suspended := false), accepted)
    case EngineUp(accepted) =>
      if !t.suspended then Restarted(t.(running := None), accepted)
      else t.(running := None, atHighest := t.atHighest && t.sessions == [])
  }

  predicate CanHappen(t: Tracking, e: Event) {
    e.Start? ==> !Listed(t.sessions, e.key)
  }

  // ---------------------------------------------------------------- the multiplexing loop finds the minimum

  lemma {:induction false} MultiplexedIsLeast(m: Mux, sessions: seq<Session>)
    ensures var r := Multiplexed(m, sessions);
            && (r.found <==> m.found || sessions != [])
            && (m.found ==> r.interval <= m.interval)
            && (forall s <- sessions :: r.interval <= s.options.minInterval)
            && (r.found ==>
                  (m.found && r.interval == m.interval) || exists s <- sessions :: r.interval == s.options.minInterval)
    decreases |sessions|
  {
    if sessions != [] {
      MultiplexedIsLeast(Take(m, sessions[0].options), sessions[1..]);
    }
  }

  /** And the lowest power mode, if all modes are valid ones. */
  lemma {:induction false} MultiplexedPowerIsLeast(m: Mux, sessions: seq<Session>)
    requires forall s <- sessions :: s.options.powerMode > POWER_MODE_INVALID
    ensures var r := Multiplexed(m, sessions);
            && (forall s <- sessions :: r.powerMode <= s.options.powerMode)
            && (m.powerMode > POWER_MODE_INVALID ==> r.powerMode <= m.powerMode)
            && (r.powerMode == m.powerMode || exists s <- sessions :: r.powerMode == s.options.powerMode)
            && (sessions != [] ==> r.powerMode > POWER_MODE_INVALID)
    decreases |sessions|
  {
    if sessions != [] {
      MultiplexedPowerIsLeast(Take(m, sessions[0].options), sessions[1..]);
    }
  }

  /** The session whose interval is the least, the first of them, is at `i`. */
  ghost predicate FirstLeast(sessions: seq<Session>, i: nat) {
    && i < |sessions|
    && (forall j | 0 <= j < i :: sessions[i].options.minInterval < sessions[j].options.minInterval)
    && forall j | i <= j < |sessions| :: sessions[i].options.minInterval <= sessions[j].options.minInterval
  }

  /** `quality` is the greatest from the session at `i` on. */
  ghost predicate GreatestFrom(sessions: seq<Session>, i: nat, quality: nat)
    requires i <= |sessions|
  {
    && (forall j | i <= j < |sessions| :: sessions[j].options.quality <= quality)
    && exists j | i <= j < |sessions| :: sessions[j].options.quality == quality
  }

  lemma TakeAfter(m: Mux, sessions: seq<Session>)
    ensures sessions != [] ==>
              Multiplexed(m, sessions) == Take(Multiplexed(m, sessions[..|sessions| - 1]),
                                               sessions[|sessions| - 1].options)
    decreases |sessions|
  {
    if |sessions| > 1 {
      TakeAfter(Take(m, sessions[0].options), sessions[1..]);
      assert sessions[1..][..|sessions| - 2] == sessions[..|sessions| - 1][1..];
    }
  }

  /** The quality is not the greatest of all: whenever a shorter interval is found, the loop takes the quality of that
      session along and forgets the ones before it. */
  lemma {:induction false} MultiplexedQuality(sessions: seq<Session>) returns (i: nat)
    requires sessions != []
    ensures FirstLeast(sessions, i) && GreatestFrom(sessions, i, Multiplexed(NothingYet, sessions).quality)
    ensures Multiplexed(NothingYet, sessions).interval == sessions[i].options.minInterval
    decreases |sessions|
  {
    var n := |sessions| - 1;
    TakeAfter(NothingYet, sessions);
    MultiplexedIsLeast(NothingYet, sessions[..n]);
    if n == 0 {
      i := 0;
      assert GreatestFrom(sessions, 0, sessions[0].options.quality);
    } else {
      i := MultiplexedQuality(sessions[..n]);
      var before := Multiplexed(NothingYet, sessions[..n]);
      if sessions[n].options.minInterval < before.interval {
        i := n;
        assert GreatestFrom(sessions, n, sessions[n].options.quality);
      } else {
        var j :| i <= j < n && sessions[..n][j].options.quality == before.quality;
        assert sessions[j].options.quality == before.quality;
      }
    }
  }

  lemma {:induction false} PutMembers(sessions: seq<Session>, key: nat, options: Options)
    requires Ordered(sessions)
    ensures var r := Put(sessions, key, options);
            && Ordered(r) && (forall s :: s in r <==> s == Session(key, options) || (s in sessions && s.key != key))
    decreases |sessions|
  {
    if sessions != [] && key > sessions[0].key {
      PutMembers(sessions[1..], key, options);
      var rest := Put(sessions[1..], key, options);
      forall s | s in rest ensures s.key > sessions[0].key {}
      assert Put(sessions, key, options) == [sessions[0]] + rest;
    }
  }

  lemma {:induction false} WithoutMembers(sessions: seq<Session>, key: nat)
    requires Ordered(sessions)
    ensures var r := Without(sessions, key);
            && Ordered(r) && (forall s :: s in r <==> s in sessions && s.key != key)
            && |r| == if Listed(sessions, key) then |sessions| - 1 else |sessions|
    decreases |sessions|
  {
    if sessions != [] {
      WithoutMembers(sessions[1..], key);
      var rest := Without(sessions[1..], key);
      forall s | s in rest ensures s.key > sessions[0].key {}
      assert Listed(sessions, key) <==> sessions[0].key == key || Listed(sessions[1..], key);
      assert sessions[0].key == key ==> !Listed(sessions[1..], key);
    }
  }

  lemma {:induction false} LookupIsListed(sessions: seq<Session>, key: nat)
    requires Listed(sessions, key)
    ensures Session(key, Lookup(sessions, key)) in sessions
    decreases |sessions|
  {
    if sessions[0].key != key {
      LookupIsListed(sessions[1..], key);
    }
  }

  // ---------------------------------------------------------------- the modem serves every session

  /** No session asks for a shorter interval. */
  ghost predicate Serves(interval: nat, sessions: seq<Session>) {
    forall s <- sessions :: interval <= s.options.minInterval
  }

  ghost predicate Served(t: Tracking) {
    t.sessions != [] ==> t.running.Some? && Serves(t.running.value, t.sessions)
  }

  ghost predicate Inv(t: Tracking) {
    && Ordered(t.sessions) && Serves(MIN_TRACKING_INTERVAL, t.sessions)
    && (t.atHighest ==> t.nHzNeeded)
    && (t.sessions == [] ==> t.running == None)
    && (!t.suspended ==> Served(t) && (t.atHighest ==> t.running == Some(MIN_TRACKING_INTERVAL)))
  }

  function Accepted(e: Event): bool {
    e.Suspend? || e.accepted
  }

  /** What a restart starts from, if the event makes one. */
  function RestartFrom(t: Tracking, e: Event): Option<Tracking> {
    match e
    case NHzRequirement(needed, _) =>
      if needed == t.nHzNeeded then None else Some(t.(nHzNeeded := needed, atHighest := false))
    case Resume(_) => Some(t.(suspended := false, atHighest := false))
    case EngineUp(_) => if t.suspended then None else Some(t.(running := None, atHighest := false))
    case _ => None
  }

  /** The interval that the event makes the adapter ask for, if it does, and from what state. */
  function Asked(t: Tracking, e: Event): Option<(Tracking, nat)> {
    match RestartFrom(t, e)
    case Some(from) =>
      if from.sessions == [] then None else Some((from, Multiplexed(NothingYet, from.sessions).interval))
    case None => if Wanted(t, e).Some? then Some((t, Wanted(t, e).value)) else None
  }

  /** The modem refuses a request that would have taken it to the highest rate for NHz. The adapter has noted by
      then that it runs there. */
  predicate RefusedAtHighest(t: Tracking, e: Event) {
    && !Accepted(e) && Asked(t, e).Some?
    && var (from, interval) := Asked(t, e).value;
       && !from.suspended && from.nHzNeeded && !from.atHighest
       && interval > MIN_TRACKING_INTERVAL && from.running != Some(MIN_TRACKING_INTERVAL)
  }

  /** The modem refuses to run again, when it does not run or runs less often than some session wants. */
  predicate RefusedRestart(t: Tracking, e: Event) {
    && !Accepted(e) && RestartFrom(t, e).Some?
    && var from := RestartFrom(t, e).value;
       && !from.suspended && from.sessions != []
       && !(from.running.Some? && from.running.value <= Multiplexed(NothingYet, from.sessions).interval)
  }

  lemma StartServes(sessions: seq<Session>, key: nat, o: Options, running: nat)
    requires Ordered(sessions) && MIN_TRACKING_INTERVAL <= o.minInterval && Serves(MIN_TRACKING_INTERVAL, sessions)
    requires !Listed(sessions, key)
    ensures var (after, wanted) := (Put(sessions, key, o), WantedByStart(sessions, o));
            && Ordered(after) && after != [] && Serves(MIN_TRACKING_INTERVAL, after)
            && (wanted.Some? ==> MIN_TRACKING_INTERVAL <= wanted.value && Serves(wanted.value, after))
            && (wanted.None? ==> sessions != [] && (Serves(running, sessions) ==> Serves(running, after)))
  {
    PutMembers(sessions, key, o);
    MultiplexedIsLeast(NothingYet, sessions);
    assert Session(key, o) in Put(sessions, key, o);
  }

  lemma StopServes(sessions: seq<Session>, key: nat, running: nat)
    requires Ordered(sessions) && Serves(MIN_TRACKING_INTERVAL, sessions) && Listed(sessions, key)
    ensures var (after, wanted) := (Without(sessions, key), WantedByStop(sessions, key));
            && Ordered(after) && (after == [] <==> |sessions| == 1) && Serves(MIN_TRACKING_INTERVAL, after)
            && (wanted.Some? ==> after != [] && MIN_TRACKING_INTERVAL <= wanted.value && Serves(wanted.value, after))
            && (Serves(running, sessions) ==> Serves(running, after))
  {
    WithoutMembers(sessions, key);
    MultiplexedIsLeast(NothingYet, Without(sessions, key));
  }

  lemma UpdateServes(sessions: seq<Session>, key: nat, o: Options, running: nat)
    requires Ordered(sessions) && MIN_TRACKING_INTERVAL <= o.minInterval && Serves(MIN_TRACKING_INTERVAL, sessions)
    requires Listed(sessions, key)
    ensures var (after, wanted) := (Put(sessions, key, o), WantedByUpdate(sessions, key, o));
            && Ordered(after) && after != [] && Serves(MIN_TRACKING_INTERVAL, after)
            && (wanted.Some? ==> MIN_TRACKING_INTERVAL <= wanted.value && Serves(wanted.value, after))
            && (wanted.None? ==> (Serves(running, sessions) ==> Serves(running, after)))
  {
    PutServes(sessions, key, o, MIN_TRACKING_INTERVAL);
    PutServes(sessions, key, o, running);
    PutMembers(sessions, key, o);
    UpdateWants(sessions, key, o, running);
    var wanted := WantedByUpdate(sessions, key, o);
    if wanted.Some? {
      PutServes(sessions, key, o, wanted.value);
    }
  }

  lemma PutServes(sessions: seq<Session>, key: nat, o: Options, interval: nat)
    requires Ordered(sessions)
    ensures Put(sessions, key, o) != []
    ensures Serves(interval, Put(sessions, key, o))
            <==> interval <= o.minInterval && Serves(interval, Without(sessions, key))
    ensures Serves(interval, sessions) ==> Serves(interval, Without(sessions, key))
  {
    PutMembers(sessions, key, o);
    WithoutMembers(sessions, key);
    assert Session(key, o) in Put(sessions, key, o);
    forall s | s in Without(sessions, key) ensures s in Put(sessions, key, o) {}
  }

  lemma UpdateWants(sessions: seq<Session>, key: nat, o: Options, running: nat)
    requires Ordered(sessions) && MIN_TRACKING_INTERVAL <= o.minInterval && Serves(MIN_TRACKING_INTERVAL, sessions)
    requires Listed(sessions, key)
    ensures var (others, wanted) := (Without(sessions, key), WantedByUpdate(sessions, key, o));
            && (wanted.Some? ==>
                  MIN_TRACKING_INTERVAL <= wanted.value <= o.minInterval && Serves(wanted.value, others))
            && (wanted.None? && Serves(running, sessions) ==> running <= o.minInterval)
  {
    var others := Without(sessions, key);
    WithoutMembers(sessions, key);
    LookupIsListed(sessions, key);
    MultiplexedIsLeast(NothingYet, others);
    if |sessions| > 1 {
      var s :| s in others && Multiplexed(NothingYet, others).interval == s.options.minInterval;
      assert s in sessions;
    }
  }

  /** Asking the modem for an interval that serves the sessions. */
  lemma AskServes(t: Tracking, interval: nat, accepted: bool, after: seq<Session>)
    requires t.atHighest ==> t.nHzNeeded && (!t.suspended ==> t.running == Some(MIN_TRACKING_INTERVAL))
    requires MIN_TRACKING_INTERVAL <= interval && Serves(interval, after) && Serves(MIN_TRACKING_INTERVAL, after)
    ensures var n := Ask(t, interval, accepted);
            && (n.atHighest ==> n.nHzNeeded)
            && (!t.suspended && (accepted || Skipped(t)) ==>
                  && n.running.Some? && Serves(n.running.value, after)
                  && (n.atHighest ==> n.running == Some(MIN_TRACKING_INTERVAL)))
            && (Refused(t, Some(interval), accepted) ==>
                  && n.running == t.running
                  && (n.atHighest <==> t.nHzNeeded && interval > MIN_TRACKING_INTERVAL))
  {
  }

  lemma StartKeepsInvIff(t: Tracking, key: nat, options: Options, accepted: bool)
    requires Inv(t) && !Listed(t.sessions, key)
    ensures Inv(Step(t, Start(key, options, accepted))) <==> !RefusedAtHighest(t, Start(key, options, accepted))
  {
    var o := Clamped(options);
    StartServes(t.sessions, key, o, if t.running.Some? then t.running.value else 0);
    var wanted := WantedByStart(t.sessions, o);
    if wanted.Some? {
      AskServes(t, wanted.value, accepted, Put(t.sessions, key, o));
    }
  }

  lemma UpdateKeepsInvIff(t: Tracking, key: nat, options: Options, accepted: bool)
    requires Inv(t)
    ensures Inv(Step(t, Update(key, options, accepted))) <==> !RefusedAtHighest(t, Update(key, options, accepted))
  {
    if Listed(t.sessions, key) {
      var o := Clamped(options);
      UpdateServes(t.sessions, key, o, if t.running.Some? then t.running.value else 0);
      var wanted := WantedByUpdate(t.sessions, key, o);
      if wanted.Some? {
        AskServes(t, wanted.value, accepted, Put(t.sessions, key, o));
      }
    }
  }

  lemma StopKeepsInvIff(t: Tracking, key: nat, accepted: bool)
    requires Inv(t)
    ensures Inv(Step(t, Stop(key, accepted))) <==> !RefusedAtHighest(t, Stop(key, accepted))
  {
    if Listed(t.sessions, key) && |t.sessions| > 1 {
      StopServes(t.sessions, key, if t.running.Some? then t.running.value else 0);
      var wanted := WantedByStop(t.sessions, key);
      if wanted.Some? {
        AskServes(t, wanted.value, accepted, Without(t.sessions, key));
      }
    }
  }

  lemma RestartKeepsInvIff(t: Tracking, e: Event)
    requires Inv(t) && RestartFrom(t, e).Some?
    ensures Inv(Restarted(RestartFrom(t, e).value, Accepted(e))) <==> !RefusedAtHighest(t, e) && !RefusedRestart(t, e)
  {
    var from := RestartFrom(t, e).value;
    MultiplexedIsLeast(NothingYet, t.sessions);
    if t.sessions != [] {
      AskServes(from, Multiplexed(NothingYet, t.sessions).interval, Accepted(e), t.sessions);
    }
  }

  /** Every session stays served and mSPEAlreadyRunningAtHighestInterval stays true of the modem, exactly unless the
      modem refuses a request as in `RefusedAtHighest` or `RefusedRestart`. */
  lemma StepKeepsInvIff(t: Tracking, e: Event)
    requires Inv(t) && CanHappen(t, e)
    ensures Inv(Step(t, e)) <==> !RefusedAtHighest(t, e) && !RefusedRestart(t, e)
  {
    match e
    case Start(key, options, accepted) => StartKeepsInvIff(t, key, options, accepted);
    case Update(key, options, accepted) => UpdateKeepsInvIff(t, key, options, accepted);
    case Stop(key, accepted) => StopKeepsInvIff(t, key, accepted);
    case Suspend =>
    case _ =>
      if RestartFrom(t, e).Some? {
        RestartKeepsInvIff(t, e);
      }
  }

  function Run(t: Tracking, es: seq<Event>): Tracking
    decreases |es|
  {
    if es == [] then t else Run(Step(t, es[0]), es[1..])
  }

  // ---------------------------------------------------------------- when is the modem asked, and for what?

  predicate ValidModes(sessions: seq<Session>) {
    forall s <- sessions :: s.options.powerMode > 0
  }

  /** For a start: there was no session, or it wants a shorter interval or a lower power mode than all of them, or a
      higher quality than those from the first with the least interval on. It asks for the shortest interval. */
  lemma StartAsksIff(sessions: seq<Session>, o: Options, i: nat)
    requires ValidModes(sessions) && (sessions != [] ==> FirstLeast(sessions, i))
    ensures WantedByStart(sessions, o).Some? <==>
            || sessions == []
            || (forall s <- sessions :: o.minInterval < s.options.minInterval)
            || (forall s <- sessions :: o.powerMode < s.options.powerMode)
            || (forall j | i <= j < |sessions| :: sessions[j].options.quality < o.quality)
    ensures WantedByStart(sessions, o).Some? ==>
              var interval := WantedByStart(sessions, o).value;
              && interval <= o.minInterval && (forall s <- sessions :: interval <= s.options.minInterval)
              && (interval == o.minInterval || exists s <- sessions :: interval == s.options.minInterval)
  {
    if sessions != [] {
      MultiplexedIsLeast(NothingYet, sessions);
      MultiplexedPowerIsLeast(NothingYet, sessions);
      var k := MultiplexedQuality(sessions);
      assert sessions[k] in sessions && sessions[i] in sessions;
      assert k == i;
    }
  }

  /** For an update: interval or power mode changes, and it is the only session or wants a shorter interval or a lower
      power mode than all others. */
  lemma UpdateAsksIff(sessions: seq<Session>, key: nat, o: Options)
    requires ValidModes(sessions) && Ordered(sessions) && Listed(sessions, key)
    ensures var was := Lookup(sessions, key);
            WantedByUpdate(sessions, key, o).Some? <==>
            && (was.minInterval != o.minInterval || was.powerMode != o.powerMode)
            && (|sessions| == 1
                || (forall s <- sessions :: s.key != key ==> o.minInterval < s.options.minInterval)
                || (forall s <- sessions :: s.key != key ==> o.powerMode < s.options.powerMode))
    ensures WantedByUpdate(sessions, key, o).Some? ==>
              var interval := WantedByUpdate(sessions, key, o).value;
              && interval <= o.minInterval
              && (forall s <- sessions :: s.key != key ==> interval <= s.options.minInterval)
              && (interval == o.minInterval
                  || exists s <- sessions :: s.key != key && interval == s.options.minInterval)
  {
    var others := Without(sessions, key);
    WithoutMembers(sessions, key);
    MultiplexedIsLeast(NothingYet, others);
    MultiplexedPowerIsLeast(NothingYet, others);
  }

  /** For a stop: others are left, and it alone set the shortest interval or the lowest power mode. It asks for the
      shortest interval of the others. */
  lemma StopAsksIff(sessions: seq<Session>, key: nat)
    requires ValidModes(sessions) && Ordered(sessions) && Listed(sessions, key)
    ensures var was := Lookup(sessions, key);
            WantedByStop(sessions, key).Some? <==>
            && |sessions| > 1
            && ((forall s <- sessions :: s.key != key ==> was.minInterval < s.options.minInterval)
                || (forall s <- sessions :: s.key != key ==> was.powerMode < s.options.powerMode))
    ensures WantedByStop(sessions, key).Some? ==>
              var interval := WantedByStop(sessions, key).value;
              && (forall s <- sessions :: s.key != key ==> interval <= s.options.minInterval)
              && exists s <- sessions :: s.key != key && interval == s.options.minInterval
  {
    var others := Without(sessions, key);
    WithoutMembers(sessions, key);
    MultiplexedIsLeast(NothingYet, others);
    MultiplexedPowerIsLeast(NothingYet, others);
  }

  // ---------------------------------------------------------------- suspension and restarts

  ghost predicate IsLeast(sessions: seq<Session>, interval: nat) {
    (forall s <- sessions :: interval <= s.options.minInterval)
    && exists s <- sessions :: interval == s.options.minInterval
  }

  /** A suspension stops the modem, and so does an engine restart during it; both forget that it ran at the highest
      rate, and neither touches the sessions. */
  lemma SuspensionStopsModem(t: Tracking, accepted: bool)
    requires t.sessions == [] ==> t.running == None
    ensures var (off, up) := (Step(t, Suspend), Step(Step(t, Suspend), EngineUp(accepted)));
            && off.suspended && off.running == None && off.sessions == t.sessions && off.nHzNeeded == t.nHzNeeded
            && (t.sessions != [] ==> !off.atHighest) && (t.sessions == [] ==> off == t.(suspended := true))
            && up == off
    ensures t.suspended ==>
              var up := Step(t, EngineUp(accepted));
              && up.suspended && up.running == None && up.sessions == t.sessions && up.nHzNeeded == t.nHzNeeded
              && (up.atHighest <==> t.atHighest && t.sessions == [])
  {
  }

  /** A resumption, an engine restart while not suspended, and a changed NHz requirement run the modem again: at the
      least interval, or at the highest rate for NHz, if it accepts; otherwise it goes on as it was, except that an
      engine restart has stopped it. */
  lemma RestartRuns(t: Tracking, e: Event, interval: nat)
    requires IsLeast(t.sessions, interval) && (e.Resume? || e.NHzRequirement? || (e.EngineUp? && !t.suspended))
    requires e.NHzRequirement? ==> e.needed != t.nHzNeeded
    ensures var next := Step(t, e);
            && next.sessions == t.sessions && (e.Resume? ==> !next.suspended)
            && (!e.Resume? ==> next.suspended == t.suspended)
            && next.nHzNeeded == (if e.NHzRequirement? then e.needed else t.nHzNeeded)
            && (e.accepted && next.nHzNeeded && MIN_TRACKING_INTERVAL <= interval ==>
                  next.running == Some(MIN_TRACKING_INTERVAL))
            && (e.accepted && !next.nHzNeeded ==> next.running == Some(interval))
            && (!e.accepted ==> next.running == if e.EngineUp? then None else t.running)
            && (next.atHighest <==> next.nHzNeeded && MIN_TRACKING_INTERVAL < interval)
  {
    MultiplexedIsLeast(NothingYet, t.sessions);
  }

  // ---------------------------------------------------------------- whose sessions are listed

  /** What a session asks for, with the interval that the modem can do at least. */
  function AtLeastMinimum(o: Options): Options {
    Options(if o.minInterval < MIN_TRACKING_INTERVAL then MIN_TRACKING_INTERVAL else o.minInterval,
            o.powerMode, o.quality)
  }

  /** The client is told that its start or update failed: the modem was asked, and refused. */
  predicate ToldFailure(t: Tracking, e: Event) {
    (e.Start? || e.Update?) && !e.accepted && Wanted(t, e).Some? && !(t.nHzNeeded && t.atHighest)
  }

  /** What the clients asked for so far, by key: starts and updates that were not told to have failed, until a stop. */
  function Wishes(t: Tracking, m: map<nat, Options>, e: Event): map<nat, Options> {
    match e
    case Start(key, options, _) => if ToldFailure(t, e) then m else m[key := options]
    case Update(key, options, _) => if key !in m || ToldFailure(t, e) then m else m[key := options]
    case Stop(key, _) => m - {key}
    case _ => m
  }

  function WishesAfter(t: Tracking, m: map<nat, Options>, es: seq<Event>): map<nat, Options>
    decreases |es|
  {
    if es == [] then m else WishesAfter(Step(t, es[0]), Wishes(t, m, es[0]), es[1..])
  }

  /** The sessions are exactly those, with exactly these options but for the least interval. */
  ghost predicate Lists(sessions: seq<Session>, m: map<nat, Options>) {
    && (forall s <- sessions :: s.key in m && s.options == AtLeastMinimum(m[s.key]))
    && (forall key <- m :: Session(key, AtLeastMinimum(m[key])) in sessions)
  }

  lemma ListedByKey(sessions: seq<Session>, m: map<nat, Options>, key: nat)
    requires Lists(sessions, m)
    ensures Listed(sessions, key) <==> key in m
  {
    if key in m {
      assert Session(key, AtLeastMinimum(m[key])).key == key;
    }
  }

  lemma PutLists(sessions: seq<Session>, m: map<nat, Options>, key: nat, o: Options)
    requires Ordered(sessions) && Lists(sessions, m)
    ensures Lists(Put(sessions, key, Clamped(o)), m[key := o])
  {
    PutMembers(sessions, key, Clamped(o));
    var (after, next) := (Put(sessions, key, Clamped(o)), m[key := o]);
    assert Clamped(o) == AtLeastMinimum(o);
    forall k | k in next ensures Session(k, AtLeastMinimum(next[k])) in after {
      if k != key {
        assert Session(k, AtLeastMinimum(m[k])) in sessions;
      }
    }
  }

  lemma WithoutLists(sessions: seq<Session>, m: map<nat, Options>, key: nat)
    requires Ordered(sessions) && Lists(sessions, m)
    ensures Lists(Without(sessions, key), m - {key})
  {
    WithoutMembers(sessions, key);
  }

  /** A start that is not told to have failed lists its session, whether the modem had to be asked or not; a stop takes
      exactly its own session away; and nothing else changes what is listed. */
  lemma StepLists(t: Tracking, m: map<nat, Options>, e: Event)
    requires Ordered(t.sessions) && Lists(t.sessions, m) && CanHappen(t, e)
    ensures Lists(Step(t, e).sessions, Wishes(t, m, e))
  {
    match e
    case Start(key, options, _) => PutLists(t.sessions, m, key, options);
    case Update(key, options, _) =>
      ListedByKey(t.sessions, m, key);
      PutLists(t.sessions, m, key, options);
    case Stop(key, _) =>
      ListedByKey(t.sessions, m, key);
      StopLists(t, m, key, e.accepted);
    case _ =>
  }

  lemma StopLists(t: Tracking, m: map<nat, Options>, key: nat, accepted: bool)
    requires Ordered(t.sessions) && Lists(t.sessions, m)
    ensures Lists(Step(t, Stop(key, accepted)).sessions, m - {key})
  {
    ListedByKey(t.sessions, m, key);
    WithoutLists(t.sessions, m, key);
    WithoutMembers(t.sessions, key);
    if !Listed(t.sessions, key) {
      assert m - {key} == m;
    }
  }

  // ---------------------------------------------------------------- when is a session not served?

  /** What holds in every reachable state, whatever the modem refused. */
  ghost predicate Sound(t: Tracking) {
    && Ordered(t.sessions) && Serves(MIN_TRACKING_INTERVAL, t.sessions)
    && (t.atHighest ==> t.nHzNeeded)
    && (t.sessions == [] ==> t.running == None)
  }

  /** The adapter does not ask the modem, because it believes that it runs at the highest rate, and the modem runs
      less often than the new options want, or not at all. */
  predicate Unasked(t: Tracking, e: Event) {
    && !t.suspended && Skipped(t)
    && (e.Start? || (e.Update? && Listed(t.sessions, e.key)))
    && !(t.running.Some? && t.running.value <= Clamped(e.options).minInterval)
  }

  ghost predicate ServedIfRunning(t: Tracking) {
    !t.suspended ==> Served(t)
  }

  lemma StepKeepsSound(t: Tracking, e: Event)
    requires Sound(t) && CanHappen(t, e)
    ensures Sound(Step(t, e))
  {
    match e
    case Start(key, options, _) => StartServes(t.sessions, key, Clamped(options), 0);
    case Update(key, options, _) =>
      if Listed(t.sessions, key) {
        UpdateServes(t.sessions, key, Clamped(options), 0);
      }
    case Stop(key, _) =>
      if Listed(t.sessions, key) {
        StopServes(t.sessions, key, 0);
      }
    case _ =>
  }

  ghost predicate Happens(t: Tracking, es: seq<Event>)
    decreases |es|
  {
    es == [] || (CanHappen(t, es[0]) && Happens(Step(t, es[0]), es[1..]))
  }

  lemma {:induction false} ReachableSound(t: Tracking, es: seq<Event>)
    requires Sound(t) && Happens(t, es)
    ensures Sound(Run(t, es))
    decreases |es|
  {
    if es != [] {
      StepKeepsSound(t, es[0]);
      ReachableSound(Step(t, es[0]), es[1..]);
    }
  }

  lemma StartServedIff(t: Tracking, key: nat, options: Options, accepted: bool)
    requires Sound(t) && ServedIfRunning(t) && !Listed(t.sessions, key)
    ensures ServedIfRunning(Step(t, Start(key, options, accepted))) <==> !Unasked(t, Start(key, options, accepted))
  {
    var o := Clamped(options);
    var running := if t.running.Some? then t.running.value else 0;
    StartServes(t.sessions, key, o, running);
    PutMembers(t.sessions, key, o);
    assert Session(key, o) in Put(t.sessions, key, o);
    assert Serves(running, t.sessions) && running <= o.minInterval ==> Serves(running, Put(t.sessions, key, o));
  }

  lemma UpdateServedIff(t: Tracking, key: nat, options: Options, accepted: bool)
    requires Sound(t) && ServedIfRunning(t)
    ensures ServedIfRunning(Step(t, Update(key, options, accepted))) <==> !Unasked(t, Update(key, options, accepted))
  {
    if Listed(t.sessions, key) {
      var o := Clamped(options);
      var running := if t.running.Some? then t.running.value else 0;
      UpdateServes(t.sessions, key, o, running);
      PutMembers(t.sessions, key, o);
      assert Session(key, o) in Put(t.sessions, key, o);
      assert Serves(running, t.sessions) && running <= o.minInterval ==> Serves(running, Put(t.sessions, key, o));
    }
  }

  lemma StopKeepsServed(t: Tracking, key: nat, accepted: bool)
    requires Sound(t) && ServedIfRunning(t)
    ensures ServedIfRunning(Step(t, Stop(key, accepted)))
  {
    if Listed(t.sessions, key) && |t.sessions| > 1 {
      StopServes(t.sessions, key, if t.running.Some? then t.running.value else 0);
    }
  }

  lemma RestartServedIff(t: Tracking, e: Event)
    requires Sound(t) && RestartFrom(t, e).Some?
    ensures ServedIfRunning(Restarted(RestartFrom(t, e).value, Accepted(e))) <==> !RefusedRestart(t, e)
  {
    MultiplexedIsLeast(NothingYet, t.sessions);
  }

  /** One event leaves every session served, exactly unless the modem is not asked as in `Unasked` or refuses to run
      again as in `RefusedRestart`; its other refusals alone leave nobody unserved. */
  lemma StepKeepsServedIff(t: Tracking, e: Event)
    requires Sound(t) && ServedIfRunning(t) && CanHappen(t, e)
    ensures ServedIfRunning(Step(t, e)) <==> !Unasked(t, e) && !RefusedRestart(t, e)
  {
    match e
    case Start(key, options, accepted) => StartServedIff(t, key, options, accepted);
    case Update(key, options, accepted) => UpdateServedIff(t, key, options, accepted);
    case Stop(key, accepted) => StopKeepsServed(t, key, accepted);
    case _ =>
      if RestartFrom(t, e).Some? {
        RestartServedIff(t, e);
      }
  }

  ghost predicate AlwaysAsked(t: Tracking, es: seq<Event>)
    decreases |es|
  {
    es == [] ||
    (CanHappen(t, es[0]) && !Unasked(t, es[0]) && !RefusedRestart(t, es[0]) && AlwaysAsked(Step(t, es[0]), es[1..]))
  }

  lemma {:induction false} RunKeepsServed(t: Tracking, es: seq<Event>)
    requires Sound(t) && ServedIfRunning(t) && AlwaysAsked(t, es)
    ensures Sound(Run(t, es)) && ServedIfRunning(Run(t, es))
    decreases |es|
  {
    if es != [] {
      StepKeepsSound(t, es[0]);
      StepKeepsServedIff(t, es[0]);
      RunKeepsServed(Step(t, es[0]), es[1..]);
    }
  }

  /** Over all starts, stops, updates, NHz changes, suspensions and restarts in which the modem is asked when it has
      to be, and runs again when it is restarted: while not suspended it runs at least as often as every session
      wants, whatever else it refuses. */
  lemma EverySessionIsServed(es: seq<Event>)
    requires AlwaysAsked(Idle, es)
    ensures var t := Run(Idle, es);
            !t.suspended ==> Served(t) && (t.sessions == [] ==> t.running == None)
  {
    RunKeepsServed(Idle, es);
  }

  lemma {:induction false} RunLists(t: Tracking, m: map<nat, Options>, es: seq<Event>)
    requires Sound(t) && Lists(t.sessions, m) && Happens(t, es)
    ensures Lists(Run(t, es).sessions, WishesAfter(t, m, es))
    decreases |es|
  {
    if es != [] {
      StepKeepsSound(t, es[0]);
      StepLists(t, m, es[0]);
      RunLists(Step(t, es[0]), Wishes(t, m, es[0]), es[1..]);
    }
  }

  /** In terms of the clients: after every run the sessions are those that were started, updated and not stopped, with
      the options asked for; and if the modem was asked whenever it had to be, it runs, while not suspended, at least
      as often as each of them asked for, or at the least interval that it can do. */
  lemma EveryWishIsServed(es: seq<Event>)
    requires Happens(Idle, es)
    ensures var (t, m) := (Run(Idle, es), WishesAfter(Idle, map[], es));
            && Lists(t.sessions, m)
            && (AlwaysAsked(Idle, es) && !t.suspended ==>
                  forall key <- m :: t.running.Some?
                    && (t.running.value <= m[key].minInterval || t.running.value <= MIN_TRACKING_INTERVAL))
  {
    RunLists(Idle, map[], es);
    var (t, m) := (Run(Idle, es), WishesAfter(Idle, map[], es));
    if AlwaysAsked(Idle, es) {
      EverySessionIsServed(es);
      forall key | key in m && !t.suspended
        ensures t.running.Some? && t.running.value <= AtLeastMinimum(m[key]).minInterval
      {
        assert Session(key, AtLeastMinimum(m[key])) in t.sessions;
      }
    }
  }

  ghost predicate Orderly(t: Tracking, es: seq<Event>)
    decreases |es|
  {
    es == [] ||
    (CanHappen(t, es[0]) && !RefusedAtHighest(t, es[0]) && !RefusedRestart(t, es[0])
     && Orderly(Step(t, es[0]), es[1..]))
  }

  /** The modem is asked whenever it has to be, if it never refuses the request that takes it to the NHz rate, nor to
      run again. */
  lemma {:induction false} AskedUnlessRefused(t: Tracking, es: seq<Event>)
    requires Inv(t) && Orderly(t, es)
    ensures AlwaysAsked(t, es)
    decreases |es|
  {
    if es != [] {
      StepKeepsInvIff(t, es[0]);
      AskedUnlessRefused(Step(t, es[0]), es[1..]);
    }
  }

  /** And after such a refusal any start of a session that wants the modem more often than it runs is told that it
      succeeded without the modem being asked. */
  lemma RefusalLeavesNextUnasked(t: Tracking, e: Event, key: nat, options: Options, accepted: bool)
    requires Inv(t) && CanHappen(t, e) && RefusedAtHighest(t, e)
    requires t.running.Some? ==> Clamped(options).minInterval < t.running.value
    ensures Unasked(Step(t, e), Start(key, options, accepted))
  {
  }

  /** When NHz is needed and the modem refuses the first session, the next one is told it was started, but the
      modem was never asked. */
  lemma RefusedStartSilencesTheNext(first: Options, second: Options)
    requires first.minInterval > MIN_TRACKING_INTERVAL
    ensures var t := Step(Step(Idle, NHzRequirement(true, true)), Start(1, first, false));
            var next := Step(t, Start(2, second, true));
            && t.sessions == [] && next.sessions == [Session(2, Clamped(second))] && next.running == None
  {
  }

  // ---------------------------------------------------------------- and not more often than needed

  /** The modem runs at the smallest interval that a session asks for. */
  ghost predicate Tight(t: Tracking) {
    !t.suspended && t.sessions != [] ==>
      t.running.Some? && Serves(t.running.value, t.sessions) && Reached(t.running.value, t.sessions)
  }

  ghost predicate Reached(interval: nat, sessions: seq<Session>) {
    exists s <- sessions :: s.options.minInterval == interval
  }

  /** The session alone sets the pace. */
  predicate SetsThePace(sessions: seq<Session>, key: nat)
    requires Listed(sessions, key)
  {
    Lookup(sessions, key).minInterval < Multiplexed(NothingYet, Without(sessions, key)).interval
  }

  /** The modem leaves the pace in three cases: it refuses to slow down when the session that sets the pace stops;
      this session is updated to a longer interval and the adapter does not ask; or it refuses a restart at any
      other interval than the one it runs at. */
  predicate KeepsPace(t: Tracking, e: Event) {
    match e
    case Stop(key, accepted) =>
      !t.suspended && Listed(t.sessions, key) && SetsThePace(t.sessions, key) && |t.sessions| > 1 ==> accepted
    case Update(key, options, _) =>
      !t.suspended && Listed(t.sessions, key) && SetsThePace(t.sessions, key)
      && Lookup(t.sessions, key).minInterval < Clamped(options).minInterval
      ==> Wanted(t, e).Some?
    case _ =>
      RestartFrom(t, e).Some? && t.sessions != [] && !RestartFrom(t, e).value.suspended && !Accepted(e) ==>
        RestartFrom(t, e).value.running == Some(Multiplexed(NothingYet, t.sessions).interval)
  }

  /** The minimum is unique. */
  lemma PaceIs(sessions: seq<Session>, interval: nat)
    requires sessions != []
    ensures Serves(interval, sessions) && Reached(interval, sessions)
            <==> interval == Multiplexed(NothingYet, sessions).interval
  {
    MultiplexedIsLeast(NothingYet, sessions);
  }

  lemma {:induction false} SplitPace(sessions: seq<Session>, key: nat)
    requires Ordered(sessions) && Listed(sessions, key)
    ensures var (was, others) := (Lookup(sessions, key).minInterval, Without(sessions, key));
            Multiplexed(NothingYet, sessions).interval ==
            if others == [] then was else Least(was, Multiplexed(NothingYet, others).interval)
  {
    var others := Without(sessions, key);
    var was := Lookup(sessions, key);
    WithoutMembers(sessions, key);
    LookupIsListed(sessions, key);
    MultiplexedIsLeast(NothingYet, others);
    forall s | s in sessions ensures s == Session(key, was) || s in others {
      if s.key == key {
        UniqueKey(sessions, s, Session(key, was));
      }
    }
    var least :=
      if others == [] then was.minInterval else Least(was.minInterval, Multiplexed(NothingYet, others).interval);
    assert Reached(least, sessions);
    PaceIs(sessions, least);
  }

  lemma UniqueKey(sessions: seq<Session>, a: Session, b: Session)
    requires Ordered(sessions) && a in sessions && b in sessions && a.key == b.key
    ensures a == b
  {
  }

  lemma {:induction false} LookupAfterPut(sessions: seq<Session>, key: nat, o: Options)
    requires Ordered(sessions)
    ensures Listed(Put(sessions, key, o), key) && Lookup(Put(sessions, key, o), key) == o
    ensures Without(Put(sessions, key, o), key) == Without(sessions, key)
    decreases |sessions|
  {
    if sessions != [] && key > sessions[0].key {
      LookupAfterPut(sessions[1..], key, o);
      var r := Put(sessions, key, o);
      assert r[1..] == Put(sessions[1..], key, o);
      var s :| s in r[1..] && s.key == key;
      assert s in r;
    } else {
      var r := Put(sessions, key, o);
      assert r[0] == Session(key, o);
      if sessions != [] && key < sessions[0].key {
        assert r[1..] == sessions;
      } else if sessions != [] {
        assert r[1..] == sessions[1..];
      }
    }
  }

  /** The minimum with one session more. */
  lemma PutSplitsNew(sessions: seq<Session>, key: nat, o: Options)
    requires Ordered(sessions) && !Listed(sessions, key)
    ensures var after := Put(sessions, key, o);
            && after != []
            && Multiplexed(NothingYet, after).interval ==
               if sessions == [] then o.minInterval
               else Least(o.minInterval, Multiplexed(NothingYet, sessions).interval)
  {
    LookupAfterPut(sessions, key, o);
    PutMembers(sessions, key, o);
    SplitPace(Put(sessions, key, o), key);
    WithoutUnlisted(sessions, key);
  }

  lemma PutPace(sessions: seq<Session>, key: nat, o: Options)
    requires Ordered(sessions) && !Listed(sessions, key)
    ensures var (after, wanted) := (Put(sessions, key, o), WantedByStart(sessions, o));
            && after != []
            && (wanted.Some? ==> wanted.value == Multiplexed(NothingYet, after).interval)
            && (wanted.None? ==> Multiplexed(NothingYet, sessions).interval == Multiplexed(NothingYet, after).interval)
  {
    PutSplitsNew(sessions, key, o);
  }

  lemma StartPace(t: Tracking, key: nat, options: Options, accepted: bool)
    requires Inv(t) && Tight(t) && !t.nHzNeeded && !Listed(t.sessions, key)
    ensures Tight(Step(t, Start(key, options, accepted)))
  {
    var after := Put(t.sessions, key, Clamped(options));
    PutPace(t.sessions, key, Clamped(options));
    PaceIs(after, Multiplexed(NothingYet, after).interval);
    if t.sessions != [] && t.running.Some? {
      PaceIs(t.sessions, t.running.value);
    }
  }

  lemma {:induction false} WithoutUnlisted(sessions: seq<Session>, key: nat)
    requires !Listed(sessions, key)
    ensures Without(sessions, key) == sessions
    decreases |sessions|
  {
    if sessions != [] {
      assert sessions[0] in sessions;
      WithoutUnlisted(sessions[1..], key);
    }
  }

  /** The minimum with one session updated, against the others. */
  lemma PutSplits(sessions: seq<Session>, key: nat, o: Options)
    requires Ordered(sessions) && Listed(sessions, key)
    ensures var (after, others) := (Put(sessions, key, o), Without(sessions, key));
            && after != [] && |others| == |sessions| - 1
            && Multiplexed(NothingYet, after).interval ==
               if others == [] then o.minInterval else Least(o.minInterval, Multiplexed(NothingYet, others).interval)
  {
    LookupAfterPut(sessions, key, o);
    PutMembers(sessions, key, o);
    WithoutMembers(sessions, key);
    SplitPace(Put(sessions, key, o), key);
  }

  lemma UpdatePace(sessions: seq<Session>, key: nat, o: Options, running: nat)
    requires Ordered(sessions) && Listed(sessions, key) && running == Multiplexed(NothingYet, sessions).interval
    ensures var (after, wanted) := (Put(sessions, key, o), WantedByUpdate(sessions, key, o));
            && after != []
            && (wanted.Some? ==> wanted.value == Multiplexed(NothingYet, after).interval)
            && (wanted.None? ==>
                  (running == Multiplexed(NothingYet, after).interval <==>
                   !(SetsThePace(sessions, key) && Lookup(sessions, key).minInterval < o.minInterval)))
  {
    SplitPace(sessions, key);
    PutSplits(sessions, key, o);
  }

  lemma UpdatePaceIff(t: Tracking, key: nat, options: Options, accepted: bool)
    requires Inv(t) && Tight(t) && !t.nHzNeeded
    ensures Tight(Step(t, Update(key, options, accepted))) <==> KeepsPace(t, Update(key, options, accepted))
  {
    if Listed(t.sessions, key) && !t.suspended {
      var o := Clamped(options);
      var after := Put(t.sessions, key, o);
      PaceIs(t.sessions, t.running.value);
      UpdatePace(t.sessions, key, o, t.running.value);
      PaceIs(after, t.running.value);
      PaceIs(after, Multiplexed(NothingYet, after).interval);
    }
  }

  lemma StopPaceIff(t: Tracking, key: nat, accepted: bool)
    requires Inv(t) && Tight(t) && !t.nHzNeeded
    ensures Tight(Step(t, Stop(key, accepted))) <==> KeepsPace(t, Stop(key, accepted))
  {
    if Listed(t.sessions, key) && !t.suspended && |t.sessions| > 1 {
      var after := Without(t.sessions, key);
      WithoutMembers(t.sessions, key);
      SplitPace(t.sessions, key);
      PaceIs(t.sessions, t.running.value);
      PaceIs(after, Multiplexed(NothingYet, after).interval);
      PaceIs(after, t.running.value);
    }
  }

  lemma RestartPaceIff(t: Tracking, e: Event)
    requires Ordered(t.sessions) && RestartFrom(t, e).Some? && !RestartFrom(t, e).value.nHzNeeded
    ensures Tight(Restarted(RestartFrom(t, e).value, Accepted(e))) <==> KeepsPace(t, e)
  {
    var from := RestartFrom(t, e).value;
    if t.sessions != [] {
      PaceIs(t.sessions, Multiplexed(NothingYet, t.sessions).interval);
      if from.running.Some? {
        PaceIs(t.sessions, from.running.value);
      }
    }
  }

  /** Without NHz, the modem keeps running exactly as often as the most demanding session asks, exactly if
      `KeepsPace`. */
  lemma StepKeepsPaceIff(t: Tracking, e: Event)
    requires Inv(t) && Tight(t) && CanHappen(t, e) && !t.nHzNeeded && !(e.NHzRequirement? && e.needed)
    ensures Tight(Step(t, e)) <==> KeepsPace(t, e)
  {
    match e
    case Start(key, options, accepted) => StartPace(t, key, options, accepted);
    case Update(key, options, accepted) => UpdatePaceIff(t, key, options, accepted);
    case Stop(key, accepted) => StopPaceIff(t, key, accepted);
    case NHzRequirement(_, _) =>
    case Suspend =>
    case _ =>
      if RestartFrom(t, e).Some? {
        RestartPaceIff(t, e);
      }
  }

  ghost predicate Steady(t: Tracking, es: seq<Event>)
    decreases |es|
  {
    es == [] ||
    (CanHappen(t, es[0]) && !(es[0].NHzRequirement? && es[0].needed) && KeepsPace(t, es[0])
     && Steady(Step(t, es[0]), es[1..]))
  }

  lemma {:induction false} RunKeepsPace(t: Tracking, es: seq<Event>)
    requires Inv(t) && Tight(t) && !t.nHzNeeded && Steady(t, es)
    ensures Inv(Run(t, es)) && Tight(Run(t, es))
    decreases |es|
  {
    if es != [] {
      StepKeepsPaceIff(t, es[0]);
      MultiplexedIsLeast(NothingYet, t.sessions);
      StepKeepsInvIff(t, es[0]);
      RunKeepsPace(Step(t, es[0]), es[1..]);
    }
  }

  /** In every such run of starts, updates, stops and restarts without NHz the modem runs at the minimum. */
  lemma ModemRunsAtMinimum(es: seq<Event>)
    requires Steady(Idle, es)
    ensures var t := Run(Idle, es);
            !t.suspended && t.sessions != [] ==>
              && t.running.Some? && Serves(t.running.value, t.sessions)
              && exists s <- t.sessions :: s.options.minInterval == t.running.value
  {
    RunKeepsPace(Idle, es);
  }

  // ---------------------------------------------------------------- the adapter as an object

  class GnssAdapter {
    var mTimeBasedTrackingSessions: seq<Session>
    var mNHzNeeded: bool
    var mSPEAlreadyRunningAtHighestInterval: bool
    var mSuspended: bool
    /** What the modem runs. */
    var modem: Option<nat>

    function Current(): Tracking
      reads this
    {
      Tracking(mTimeBasedTrackingSessions, mNHzNeeded, mSPEAlreadyRunningAtHighestInterval, modem, mSuspended)
    }

    constructor ()
      ensures Current() == Idle
    {
      mTimeBasedTrackingSessions, modem := [], None;
      mNHzNeeded, mSPEAlreadyRunningAtHighestInterval, mSuspended := false, false, false;
    }

    /** The loop over the sessions, leaving out one when `skip` names it. */
    method Multiplex(skip: Option<nat>) returns (m: Mux)
      ensures m == Multiplexed(NothingYet, if skip.Some? then Without(mTimeBasedTrackingSessions, skip.value)
                                           else mTimeBasedTrackingSessions)
    {
      m := NothingYet;
      var sessions := mTimeBasedTrackingSessions;
      var i := 0;
      while i < |sessions|
        invariant 0 <= i <= |sessions|
        invariant skip.None? ==> Multiplexed(m, sessions[i..]) == Multiplexed(NothingYet, sessions)
        invariant skip.Some? ==>
                    Multiplexed(m, Without(sessions[i..], skip.value))
                    == Multiplexed(NothingYet, Without(sessions, skip.value))
      {
        var s := sessions[i];
        assert sessions[i..][0] == s && sessions[i..][1..] == sessions[i + 1..];
        if skip != Some(s.key) {
          assert skip.Some? ==>
              Without(sessions[i..], skip.value)[0] == s
              && Without(sessions[i..], skip.value)[1..] == Without(sessions[i + 1..], skip.value);
          if !m.found || s.options.minInterval < m.interval {
            m := m.(found := true, interval := s.options.minInterval, quality := s.options.quality);
          }
          if m.powerMode == POWER_MODE_INVALID || s.options.powerMode < m.powerMode {
            m := m.(powerMode := s.options.powerMode);
          }
          if s.options.quality > m.quality {
            m := m.(quality := s.options.quality);
          }
        } else {
          assert Without(sessions[i..], skip.value) == Without(sessions[i + 1..], skip.value);
        }
        i := i + 1;
      }
    }

    /** startTimeBasedTracking(); `refused` when the modem was asked and said no. */
    method AskModem(interval: nat, accepted: bool) returns (refused: bool)
      modifies this`mSPEAlreadyRunningAtHighestInterval, this`modem
      ensures Current() == Ask(old(Current()), interval, accepted)
      ensures refused <==> Refused(old(Current()), Some(interval), accepted)
    {
      var target := interval;
      if mNHzNeeded {
        if mSPEAlreadyRunningAtHighestInterval {
          return false;
        }
        if target > MIN_TRACKING_INTERVAL {
          target := MIN_TRACKING_INTERVAL;
          mSPEAlreadyRunningAtHighestInterval := true;
        }
      }
      if accepted {
        modem := Some(target);
      }
      return !accepted;
    }

    method StartTracking(key: nat, options: Options, accepted: bool)
      requires !Listed(mTimeBasedTrackingSessions, key)
      modifies this
      ensures Current() == Step(old(Current()), Start(key, options, accepted))
    {
      var o := Clamped(options);
      var refused := false;
      if |mTimeBasedTrackingSessions| == 0 {
        refused := AskModem(o.minInterval, accepted);
      } else {
        var m := Multiplex(None);
        var updateOptions, interval := false, m.interval;
        if o.minInterval < interval {
          interval := o.minInterval;
          updateOptions := true;
        }
        if o.powerMode < m.powerMode || o.quality > m.quality {
          updateOptions := true;
        }
        if updateOptions {
          refused := AskModem(interval, accepted);
        }
      }
      if !refused {
        mTimeBasedTrackingSessions := Put(mTimeBasedTrackingSessions, key, o);
      }
    }

    method UpdateTracking(key: nat, options: Options, accepted: bool)
      modifies this
      ensures Current() == Step(old(Current()), Update(key, options, accepted))
    {
      if !Listed(mTimeBasedTrackingSessions, key) {
        return;
      }
      var o := Clamped(options);
      var was := Lookup(mTimeBasedTrackingSessions, key);
      var refused := false;
      if was.minInterval != o.minInterval || was.powerMode != o.powerMode {
        var m := Multiplex(Some(key));
        var updateOptions, interval := false, m.interval;
        if o.minInterval < interval {
          interval := o.minInterval;
          updateOptions := true;
        }
        if o.powerMode < m.powerMode {
          updateOptions := true;
        }
        if |mTimeBasedTrackingSessions| == 1 {
          interval := o.minInterval;
          updateOptions := true;
        }
        if updateOptions {
          refused := AskModem(interval, accepted);
        }
      }
      if !refused {
        mTimeBasedTrackingSessions := Put(mTimeBasedTrackingSessions, key, o);
      }
    }

    method StopTracking(key: nat, accepted: bool)
      modifies this
      ensures Current() == Step(old(Current()), Stop(key, accepted))
    {
      if !Listed(mTimeBasedTrackingSessions, key) {
        return;
      }
      if |mTimeBasedTrackingSessions| == 1 {
        modem, mSPEAlreadyRunningAtHighestInterval, mTimeBasedTrackingSessions := None, false, [];
        return;
      }
      var was := Lookup(mTimeBasedTrackingSessions, key);
      var m := Multiplex(Some(key));
      if was.minInterval < m.interval || was.powerMode < m.powerMode {
        var _ := AskModem(m.interval, accepted);
      }
      mTimeBasedTrackingSessions := Without(mTimeBasedTrackingSessions, key);
    }

    method CheckAndRestartSPESession(accepted: bool)
      modifies this`mSPEAlreadyRunningAtHighestInterval, this`modem
      ensures Current() == Restarted(old(Current()), accepted)
    {
      mSPEAlreadyRunningAtHighestInterval := false;
      if |mTimeBasedTrackingSessions| > 0 {
        var m := Multiplex(None);
        var _ := AskModem(m.interval, accepted);
      }
    }

    method UpdateNHzRequirement(needed: bool, accepted: bool)
      modifies this
      ensures Current() == Step(old(Current()), NHzRequirement(needed, accepted))
    {
      if mNHzNeeded != needed {
        mNHzNeeded := needed;
        CheckAndRestartSPESession(accepted);
      }
    }

    method SuspendSessions()
      modifies this
      ensures Current() == Step(old(Current()), Suspend)
    {
      mSuspended := true;
      if |mTimeBasedTrackingSessions| > 0 {
        modem, mSPEAlreadyRunningAtHighestInterval := None, false;
      }
    }

    method ResumeSessions(accepted: bool)
      modifies this
      ensures Current() == Step(old(Current()), Resume(accepted))
    {
      mSuspended := false;
      CheckAndRestartSPESession(accepted);
    }

    /** The modem comes up again and has forgotten its session. */
    method HandleEngineUp(accepted: bool)
      modifies this
      ensures Current() == Step(old(Current()), EngineUp(accepted))
    {
      modem := None;
      if mSuspended {
        SuspendSessions();
      } else {
        CheckAndRestartSPESession(accepted);
      }
    }
  }
}
