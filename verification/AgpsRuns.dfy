/** Whole runs of the AGPS state machine: the agreement of state and list, the ledger of
    framework requests, and what each connection handle hears. */
module AgpsRuns {
  import opened Wrappers
  import opened Agps

  // ---------------------------------------------------------------- state and list

  predicate AnyInactive(list: seq<Subscriber>) {
    exists i :: 0 <= i < |list| && list[i].inactive
  }

  /** Holds in every reachable state, modem restarts included. */
  ghost predicate ListInv(m: Machine) {
    && UniqueHandles(m.subscribers)
    && (forall s <- m.subscribers :: s.inactive ==> s.waitForClose)
    && (m.state == Released ==> m.subscribers == [])
  }

  /** Holds in every state reachable without a modem restart. */
  ghost predicate Agreement(m: Machine) {
    && ListInv(m)
    && (m.state == Released <==> m.subscribers == [])
    && (m.state == Pending || m.state == Acquired ==> AnyActive(m.subscribers))
    && (m.state == Releasing ==> AnyInactive(m.subscribers))
  }

  /** requestATL always hands over an active subscriber. */
  predicate ProperEvent(e: Event) {
    e.Subscribe? ==> !e.subscriber.inactive
  }

  lemma {:induction false} DeactivateKeepsWaiters(list: seq<Subscriber>, s: Subscriber)
    requires s.waitForClose && Lookup(list, s.handle) == Some(s)
    requires forall x <- list :: x.inactive ==> x.waitForClose
    ensures forall x <- Deactivate(list, s.handle) :: x.inactive ==> x.waitForClose
    ensures AnyInactive(Deactivate(list, s.handle))
  {
    var result := Deactivate(list, s.handle);
    if list[0].handle == s.handle {
      assert result[0].inactive;
    } else {
      DeactivateKeepsWaiters(list[1..], s);
      var i :| 0 <= i < |Deactivate(list[1..], s.handle)| && Deactivate(list[1..], s.handle)[i].inactive;
      assert result[i + 1].inactive;
    }
  }

  lemma {:induction false} NothingLeftForAll(list: seq<Subscriber>)
    ensures Unselected(list, ForAll) == []
  {
    if list != [] {
      NothingLeftForAll(list[1..]);
    }
  }

  lemma UnsubscribeKeepsListInv(m: Machine, s: Subscriber)
    requires ListInv(m) && Lookup(m.subscribers, s.handle) == Some(s)
    ensures ListInv(OnUnsubscribe(m, s).machine)
  {
    if s.waitForClose {
      LookupDeactivate(m.subscribers, s.handle, s.handle);
      DeactivateKeepsWaiters(m.subscribers, s);
    } else {
      LookupWithout(m.subscribers, s.handle, s.handle);
    }
  }

  lemma FinishReleaseKeepsListInv(m: Machine)
    requires ListInv(m)
    ensures ListInv(FinishRelease(m).machine)
  {
    UnselectedKeepsUnique(m.subscribers, ForInactive);
    OnlyActiveLeft(m.subscribers);
  }

  /** One event keeps handles unique, keeps only waiters inactive, and empties the list on RELEASED. */
  lemma StepKeepsListInv(m: Machine, e: Event)
    requires ListInv(m) && ProperEvent(e)
    ensures ListInv(Step(m, e).machine)
  {
    match e
    case Subscribe(s) => AddKeepsUnique(m.subscribers, s);
    case Unsubscribe(handle) =>
      LookupFinds(m.subscribers, handle);
      if Lookup(m.subscribers, handle).Some? {
        UnsubscribeKeepsListInv(m, Lookup(m.subscribers, handle).value);
      }
    case Granted =>
    case ReleasedByFramework =>
      NothingLeftForAll(m.subscribers);
      FinishReleaseKeepsListInv(m);
    case Denied =>
      NothingLeftForAll(m.subscribers);
      FinishReleaseKeepsListInv(m);
    case ModemRestart =>
  }

  lemma OnlyActiveLeft(list: seq<Subscriber>)
    requires UniqueHandles(list)
    ensures var left := Unselected(list, ForInactive); AnyActive(left) || left == []
  {
    LookupUnselected(list, ForInactive, 0);
    var left := Unselected(list, ForInactive);
    if left != [] {
      assert left[0] in left;
      assert !left[0].inactive;
    }
  }

  lemma InactiveOutlivesWithout(list: seq<Subscriber>, s: Subscriber)
    requires UniqueHandles(list) && Lookup(list, s.handle) == Some(s) && !s.inactive && AnyInactive(list)
    ensures AnyInactive(Without(list, s.handle))
  {
    var i :| 0 <= i < |list| && list[i].inactive;
    LookupOfMember(list, i);
    LookupWithout(list, s.handle, list[i].handle);
    LookupFinds(Without(list, s.handle), list[i].handle);
  }

  lemma ActiveAfterAdd(list: seq<Subscriber>, s: Subscriber)
    requires AnyActive(list) || (list == [] && !s.inactive)
    ensures AnyActive(Add(list, s))
  {
    if list != [] {
      var i :| 0 <= i < |list| && !list[i].inactive;
      assert !Add(list, s)[i].inactive;
    } else {
      assert !Add(list, s)[0].inactive;
    }
  }

  lemma UnsubscribeKeepsAgreement(m: Machine, s: Subscriber)
    requires Agreement(m) && Lookup(m.subscribers, s.handle) == Some(s)
    ensures Agreement(OnUnsubscribe(m, s).machine)
  {
    LookupFinds(m.subscribers, s.handle);
    StepKeepsListInv(m, Unsubscribe(s.handle));
    if s.waitForClose {
      LookupDeactivate(m.subscribers, s.handle, s.handle);
      DeactivateKeepsWaiters(m.subscribers, s);
    } else {
      var left := Without(m.subscribers, s.handle);
      if m.state == Releasing {
        InactiveOutlivesWithout(m.subscribers, s);
      } else if left != [] && !AnyActive(left) {
        assert left[0].inactive;
      }
    }
  }

  /** State and list agree after every event but a modem restart, whatever the flags of the subscribers. */
  lemma StepKeepsAgreement(m: Machine, e: Event)
    requires Agreement(m) && ProperEvent(e) && e != ModemRestart
    ensures Agreement(Step(m, e).machine)
  {
    StepKeepsListInv(m, e);
    match e
    case Subscribe(s) =>
      if m.state == Releasing {
        var i :| 0 <= i < |m.subscribers| && m.subscribers[i].inactive;
        assert Add(m.subscribers, s)[i].inactive;
      } else {
        ActiveAfterAdd(m.subscribers, s);
      }
    case Unsubscribe(handle) =>
      LookupFinds(m.subscribers, handle);
      if Lookup(m.subscribers, handle).Some? {
        UnsubscribeKeepsAgreement(m, Lookup(m.subscribers, handle).value);
      }
    case Granted =>
    case ReleasedByFramework => NothingLeftForAll(m.subscribers); OnlyActiveLeft(m.subscribers);
    case Denied => NothingLeftForAll(m.subscribers); OnlyActiveLeft(m.subscribers);
  }

  // ---------------------------------------------------------------- runs

  /** A run: where the machine is, all it sent, the handles ever requested, and the handles
      that a modem restart dropped without a callback. */
  datatype Trace = Trace(machine: Machine, log: seq<Output>, requested: set<int>, dropped: set<int>)

  function Handles(list: seq<Subscriber>): set<int> {
    set s <- list :: s.handle
  }

  function Extend(t: Trace, e: Event): Trace {
    var effect := Step(t.machine, e);
    Trace(effect.machine,
          t.log + effect.outputs,
          if e.Subscribe? then t.requested + {e.subscriber.handle} else t.requested,
          if e == ModemRestart then t.dropped + Handles(t.machine.subscribers) else t.dropped)
  }

  function Run(es: seq<Event>): Trace {
    if es == [] then Trace(Initial, [], {}, {})
    else Extend(Run(es[..|es| - 1]), es[|es| - 1])
  }

  ghost predicate ProperRun(es: seq<Event>) {
    forall e <- es :: ProperEvent(e)
  }

  ghost predicate FreshHandles(es: seq<Event>) {
    forall i, j :: 0 <= i < j < |es| && es[i].Subscribe? && es[j].Subscribe? ==>
      es[i].subscriber.handle != es[j].subscriber.handle
  }

  lemma {:induction false} ReachableListInv(es: seq<Event>)
    requires ProperRun(es)
    ensures ListInv(Run(es).machine)
  {
    if es != [] {
      var n := |es| - 1;
      ReachableListInv(es[..n]);
      assert es[n] in es;
      StepKeepsListInv(Run(es[..n]).machine, es[n]);
    }
  }

  /** In every state reachable without a modem restart: RELEASED iff nobody is listed, PENDING and
      ACQUIRED hold an active subscriber, RELEASING an inactive one. */
  lemma {:induction false} ReachableAgreement(es: seq<Event>)
    requires ProperRun(es) && ModemRestart !in es
    ensures Agreement(Run(es).machine)
  {
    if es != [] {
      var n := |es| - 1;
      ReachableAgreement(es[..n]);
      assert es[n] in es;
      StepKeepsAgreement(Run(es[..n]).machine, es[n]);
    }
  }

  /** The branch of UNSUBSCRIBE that leaves RELEASING because the list became empty is never taken,
      and UNSUBSCRIBE never arrives in RELEASED. */
  lemma DeadUnsubscribeExits(es: seq<Event>, handle: int)
    requires ProperRun(es) && ModemRestart !in es
    requires Lookup(Run(es).machine.subscribers, handle).Some?
    ensures var m := Run(es).machine;
            && m.state != Released
            && (m.state == Releasing ==> Step(m, Unsubscribe(handle)).machine.state == Releasing)
  {
    ReachableAgreement(es);
    var m := Run(es).machine;
    LookupFinds(m.subscribers, handle);
    StepKeepsAgreement(m, Unsubscribe(handle));
    if m.state == Releasing {
      var s := Lookup(m.subscribers, handle).value;
      if s.waitForClose {
        DeactivateKeepsWaiters(m.subscribers, s);
      } else {
        InactiveOutlivesWithout(m.subscribers, s);
      }
    }
  }

  // ---------------------------------------------------------------- everybody leaves

  function UnsubscribeAll(m: Machine, handles: seq<int>): Machine
    decreases |handles|
  {
    if handles == [] then m
    else UnsubscribeAll(Step(m, Unsubscribe(handles[0])).machine, handles[1..])
  }

  /** PENDING and ACQUIRED hold an active subscriber, or lost everybody to a modem restart. */
  ghost predicate Settled(m: Machine) {
    ListInv(m) && (m.state in {Pending, Acquired} ==> AnyActive(m.subscribers) || m.subscribers == [])
  }

  predicate Stranded(m: Machine) {
    m.state == Pending && m.subscribers == []
  }

  lemma UnsubscribeKeepsSettled(m: Machine, handle: int)
    requires Settled(m)
    ensures Settled(Step(m, Unsubscribe(handle)).machine)
    ensures Stranded(Step(m, Unsubscribe(handle)).machine) <==> Stranded(m)
  {
    StepKeepsListInv(m, Unsubscribe(handle));
    LookupFinds(m.subscribers, handle);
    LookupDeactivate(m.subscribers, handle, handle);
  }

  lemma StepKeepsSettled(m: Machine, e: Event)
    requires Settled(m) && ProperEvent(e)
    ensures Settled(Step(m, e).machine)
  {
    StepKeepsListInv(m, e);
    match e
    case Subscribe(s) =>
      if m.state != Releasing {
        ActiveAfterAdd(m.subscribers, s);
      }
    case Unsubscribe(handle) => UnsubscribeKeepsSettled(m, handle);
    case _ =>
  }

  /** In every reachable state, modem restarts included. */
  lemma {:induction false} ReachableSettled(es: seq<Event>)
    requires ProperRun(es)
    ensures Settled(Run(es).machine)
  {
    if es != [] {
      var n := |es| - 1;
      ReachableSettled(es[..n]);
      assert es[n] in es;
      StepKeepsSettled(Run(es[..n]).machine, es[n]);
    }
  }

  lemma {:induction false} DeactivateSilences(list: seq<Subscriber>, handle: int)
    requires UniqueHandles(list)
    ensures forall s <- Deactivate(list, handle) :: s.inactive || (s.handle != handle && s in list)
  {
    if list != [] && list[0].handle != handle {
      DeactivateSilences(list[1..], handle);
    }
  }

  lemma {:induction false} WithoutSilences(list: seq<Subscriber>, handle: int)
    ensures forall s <- Without(list, handle) :: s.handle != handle && s in list
  {
    if list != [] {
      WithoutSilences(list[1..], handle);
    }
  }

  lemma UnsubscribeSilences(m: Machine, handle: int)
    requires ListInv(m)
    ensures forall s <- Step(m, Unsubscribe(handle)).machine.subscribers ::
              s.inactive || (s.handle != handle && s in m.subscribers)
  {
    LookupFinds(m.subscribers, handle);
    DeactivateSilences(m.subscribers, handle);
    WithoutSilences(m.subscribers, handle);
    if Lookup(m.subscribers, handle).None? {
      forall s | s in m.subscribers ensures s.handle != handle {
        var i :| 0 <= i < |m.subscribers| && m.subscribers[i] == s;
      }
    }
  }

  lemma {:induction false} UnsubscribeAllSilences(m: Machine, handles: seq<int>)
    requires Settled(m) && forall s <- m.subscribers :: s.inactive || s.handle in handles
    ensures var last := UnsubscribeAll(m, handles);
            Settled(last) && !AnyActive(last.subscribers) && (Stranded(last) <==> Stranded(m))
    decreases |handles|
  {
    if handles == [] {
      forall i | 0 <= i < |m.subscribers| ensures m.subscribers[i].inactive {
        assert m.subscribers[i] in m.subscribers;
      }
    } else {
      UnsubscribeKeepsSettled(m, handles[0]);
      UnsubscribeSilences(m, handles[0]);
      UnsubscribeAllSilences(Step(m, Unsubscribe(handles[0])).machine, handles[1..]);
    }
  }

  lemma {:induction false} NoneActiveNoneLeft(list: seq<Subscriber>)
    requires !AnyActive(list)
    ensures Unselected(list, ForInactive) == []
  {
    if list != [] {
      assert list[0].inactive;
      forall i | 0 <= i < |list[1..]| ensures list[1..][i].inactive {
        assert list[1..][i] == list[i + 1];
      }
      NoneActiveNoneLeft(list[1..]);
    }
  }

  /** After every run, modem restarts included: unsubscribing every listed handle, in any order, and then one
      RELEASED event bring the machine to RELEASED with an empty list, except exactly from PENDING with an empty
      list, where a modem restart can leave it. */
  lemma UnsubscribeAllThenReleased(es: seq<Event>, handles: seq<int>)
    requires ProperRun(es) && forall s <- Run(es).machine.subscribers :: s.handle in handles
    ensures Step(UnsubscribeAll(Run(es).machine, handles), ReleasedByFramework).machine == Initial
            <==> !Stranded(Run(es).machine)
  {
    ReachableSettled(es);
    UnsubscribeAllSilences(Run(es).machine, handles);
    var last := UnsubscribeAll(Run(es).machine, handles);
    NoneActiveNoneLeft(last.subscribers);
    NothingLeftForAll(last.subscribers);
  }

  /** The exception is reached, by every subscriber whose request a modem restart overtakes. */
  lemma RestartStrands(s: Subscriber)
    requires !s.inactive
    ensures ProperRun([Subscribe(s), ModemRestart]) && Stranded(Run([Subscribe(s), ModemRestart]).machine)
  {
    var es := [Subscribe(s), ModemRestart];
    assert es[..1] == [Subscribe(s)] && es[..1][..0] == [];
    assert Run(es[..1]) == Extend(Run([]), Subscribe(s));
    assert Run(es[..1]).machine.state == Pending;
  }

  // ---------------------------------------------------------------- the connection ledger

  datatype Ledger = Ledger(requests: nat, releases: nat, denials: nat, forced: nat)

  function CountOutput(out: seq<Output>, o: Output): nat {
    if out == [] then 0 else (if out[0] == o then 1 else 0) + CountOutput(out[1..], o)
  }

  lemma {:induction false} CountAppend(out: seq<Output>, last: Output, o: Output)
    ensures CountOutput(out + [last], o) == CountOutput(out, o) + (if last == o then 1 else 0)
  {
    if out == [] {
      assert [] + [last] == [last];
    } else {
      assert (out + [last])[1..] == out[1..] + [last];
      CountAppend(out[1..], last, o);
    }
  }

  /** Counts every framework message of the run, the denials taken in PENDING and the releases
      that the framework forced in ACQUIRED. */
  function Book(es: seq<Event>): Ledger {
    if es == [] then Ledger(0, 0, 0, 0)
    else
      var n := |es| - 1;
      var before := Run(es[..n]).machine;
      var effect := Step(before, es[n]);
      var book := Book(es[..n]);
      Ledger(book.requests + CountOutput(effect.outputs, RequestDataConn),
             book.releases + CountOutput(effect.outputs, ReleaseDataConn),
             book.denials + (if es[n] == Denied && before.state == Pending then 1 else 0),
             book.forced + (if es[n] == ReleasedByFramework && before.state == Acquired then 1 else 0))
  }

  function Holding(s: AgpsState): nat {
    if s == Pending || s == Acquired then 1 else 0
  }

  lemma {:induction false} CallbacksAskNothing(list: seq<Subscriber>, notice: Notice, kind: Notification)
    ensures var out := Callbacks(list, notice, kind);
            CountOutput(out, RequestDataConn) == CountOutput(out, ReleaseDataConn) == 0
  {
    if list != [] {
      CallbacksAskNothing(list[1..], notice, kind);
      var out := Callbacks(list, notice, kind);
      if Selected(kind, list[0]) {
        assert out[1..] == Callbacks(list[1..], notice, kind);
      } else {
        assert out == Callbacks(list[1..], notice, kind);
      }
    }
  }

  lemma FinishReleaseBalances(m: Machine)
    ensures var effect := FinishRelease(m);
            && CountOutput(effect.outputs, RequestDataConn) == Holding(effect.machine.state)
            && CountOutput(effect.outputs, ReleaseDataConn) == 0
  {
    var notes := Callbacks(m.subscribers, ClosedNotice, ForInactive);
    CallbacksAskNothing(m.subscribers, ClosedNotice, ForInactive);
    CountAppend(notes, RequestDataConn, RequestDataConn);
    CountAppend(notes, RequestDataConn, ReleaseDataConn);
  }

  lemma UnsubscribeBalances(m: Machine, s: Subscriber)
    ensures var effect := OnUnsubscribe(m, s);
            && CountOutput(effect.outputs, RequestDataConn) == 0
            && Holding(m.state) == CountOutput(effect.outputs, ReleaseDataConn) + Holding(effect.machine.state)
  {
    var notes := if s.waitForClose then [] else [Callback(ClosedNotice, s.handle)];
    CountAppend(notes, ReleaseDataConn, RequestDataConn);
    CountAppend(notes, ReleaseDataConn, ReleaseDataConn);
  }

  lemma StepBalances(m: Machine, e: Event)
    ensures var effect := Step(m, e);
            CountOutput(effect.outputs, RequestDataConn) + Holding(m.state) ==
            CountOutput(effect.outputs, ReleaseDataConn) + Holding(effect.machine.state)
            + (if e == Denied && m.state == Pending then 1 else 0)
            + (if e == ReleasedByFramework && m.state == Acquired then 1 else 0)
    ensures CountOutput(Step(m, e).outputs, ReleaseDataConn) > 0 ==>
              Holding(m.state) == 1 && CountOutput(Step(m, e).outputs, RequestDataConn) == 0
  {
    match e
    case Subscribe(s) =>
    case Unsubscribe(handle) =>
      if Lookup(m.subscribers, handle).Some? {
        UnsubscribeBalances(m, Lookup(m.subscribers, handle).value);
      }
    case Granted => CallbacksAskNothing(m.subscribers, GrantedNotice, ForActive);
    case ReleasedByFramework =>
      FinishReleaseBalances(m);
      CallbacksAskNothing(m.subscribers, ClosedNotice, ForAll);
    case Denied =>
      FinishReleaseBalances(m);
      CallbacksAskNothing(m.subscribers, DeniedNotice, ForAll);
    case ModemRestart =>
  }

  /** On every run, modem restarts included: requests = releases + denials + forced releases
      + the connection now held or asked for. */
  lemma {:induction false} LedgerBalances(es: seq<Event>)
    ensures var b := Book(es);
            b.requests == b.releases + b.denials + b.forced + Holding(Run(es).machine.state)
  {
    if es != [] {
      var n := |es| - 1;
      LedgerBalances(es[..n]);
      StepBalances(Run(es[..n]).machine, es[n]);
    }
  }

  /** A release is sent only while exactly one request is open: neither released, denied nor forced closed. */
  lemma ReleaseNeedsOpenRequest(es: seq<Event>, e: Event)
    requires CountOutput(Step(Run(es).machine, e).outputs, ReleaseDataConn) > 0
    ensures var b := Book(es); b.requests == b.releases + b.denials + b.forced + 1
  {
    LedgerBalances(es);
    StepBalances(Run(es).machine, e);
  }

  // ---------------------------------------------------------------- what one handle hears

  predicate Concerns(o: Output, h: int) {
    (o.AtlOpen? || o.AtlClose?) && o.handle == h
  }

  function History(log: seq<Output>, h: int): seq<Output> {
    if log == [] then []
    else (if Concerns(log[0], h) then [log[0]] else []) + History(log[1..], h)
  }

  lemma {:induction false} HistoryConcat(a: seq<Output>, b: seq<Output>, h: int)
    ensures History(a + b, h) == History(a, h) + History(b, h)
  {
    if a == [] {
      assert a + b == b;
    } else {
      assert (a + b)[1..] == a[1..] + b && (a + b)[0] == a[0];
      HistoryConcat(a[1..], b, h);
      var first := if Concerns(a[0], h) then [a[0]] else [];
      assert first + (History(a[1..], h) + History(b, h)) == (first + History(a[1..], h)) + History(b, h);
    }
  }

  lemma {:induction false} HistoryOfCallbacks(
      list: seq<Subscriber>, notice: Notice, kind: Notification, h: int)
    requires UniqueHandles(list)
    ensures History(Callbacks(list, notice, kind), h) ==
            if Lookup(list, h).Some? && Selected(kind, Lookup(list, h).value)
            then [Callback(notice, h)] else []
  {
    if list != [] {
      var tail := list[1..];
      HistoryOfCallbacks(tail, notice, kind, h);
      LookupFinds(tail, h);
      var first := if Selected(kind, list[0]) then [Callback(notice, list[0].handle)] else [];
      assert Callbacks(list, notice, kind) == first + Callbacks(tail, notice, kind);
      HistoryConcat(first, Callbacks(tail, notice, kind), h);
    }
  }

  /** What a listed handle may have heard so far. */
  predicate Listening(state: AgpsState, inactive: bool, h: int, history: seq<Output>) {
    match state
    case Released => false
    case Pending => history == []
    case Acquired => history == [AtlOpen(h, true)] || (inactive && history == [])
    case Releasing => history == [] || (inactive && history == [AtlOpen(h, true)])
  }

  /** What a handle has heard once it left the list other than by a modem restart. */
  predicate Finished(h: int, history: seq<Output>) {
    || history == [AtlClose(h)]
    || history == [AtlOpen(h, false)]
    || history == [AtlOpen(h, true), AtlClose(h)]
  }

  predicate HandleOk(state: AgpsState, listed: Option<Subscriber>, requested: bool, dropped: bool,
                     h: int, history: seq<Output>)
  {
    if listed.Some? then requested && !dropped && Listening(state, listed.value.inactive, h, history)
    else if !requested then history == [] && !dropped
    else if dropped then history == [] || history == [AtlOpen(h, true)]
    else Finished(h, history)
  }

  ghost predicate HandleInv(t: Trace, h: int) {
    HandleOk(t.machine.state, Lookup(t.machine.subscribers, h), h in t.requested, h in t.dropped,
             h, History(t.log, h))
  }

  // ---------------------------------------------------------------- what a modem restart leaves behind

  /** It empties the list, keeps the state and sends nothing. */
  lemma RestartKeepsState(m: Machine)
    ensures Step(m, ModemRestart) == Effect(Machine(m.state, []), [])
  {
  }

  /** So a release that is under way stays so: a new subscriber waits for its close, which requests for it. */
  lemma RestartKeepsRelease(m: Machine, s: Subscriber, e: Event)
    requires m.state == Releasing && !s.inactive && (e == ReleasedByFramework || e == Denied)
    ensures var asked := Step(Step(m, ModemRestart).machine, Subscribe(s));
            && asked == Effect(Machine(Releasing, [s]), [])
            && Step(asked.machine, e) == Effect(Machine(Pending, [s]), [RequestDataConn])
            && Step(Step(m, ModemRestart).machine, e) == Effect(Initial, [])
  {
    assert Lookup([], s.handle) == None && [] + [s] == [s];
    assert [s][0] == s && [s][1..] == [];
    assert Unselected([s], ForInactive) == [s] + [] == [s];
    assert Callbacks([s], ClosedNotice, ForInactive) == [] + [];
    assert [] + [RequestDataConn] == [RequestDataConn];
  }

  /** What an event does to the entry of one handle and what that handle hears of it. */
  datatype View = View(state: AgpsState, listed: Option<Subscriber>, heard: seq<Output>)

  function ViewOf(effect: Effect, h: int): View {
    View(effect.machine.state, Lookup(effect.machine.subscribers, h), History(effect.outputs, h))
  }

  lemma ViewExtends(t: Trace, e: Event, v: View, h: int)
    requires v == ViewOf(Step(t.machine, e), h) && e != ModemRestart && !e.Subscribe?
    requires HandleOk(v.state, v.listed, h in t.requested, h in t.dropped, h, History(t.log, h) + v.heard)
    ensures HandleInv(Extend(t, e), h)
  {
    HistoryConcat(t.log, Step(t.machine, e).outputs, h);
  }

  /** SUBSCRIBE lists a handle that was not listed, and grants it at once in ACQUIRED. */
  lemma SubscribeView(m: Machine, s: Subscriber, h: int)
    requires Lookup(m.subscribers, s.handle).None?
    ensures var v := ViewOf(OnSubscribe(m, s), h);
            && v.state == (if m.state == Released then Pending else m.state)
            && v.listed == (if h == s.handle then Some(s) else Lookup(m.subscribers, h))
            && v.heard == (if m.state == Acquired && h == s.handle then [AtlOpen(h, true)] else [])
  {
    LookupAppend(m.subscribers, s, h);
    HistoryOfOne(RequestDataConn, h);
    HistoryOfOne(Callback(GrantedNotice, s.handle), h);
  }

  lemma HistoryOfOne(o: Output, h: int)
    ensures History([o], h) == if Concerns(o, h) then [o] else []
  {
    assert [o][1..] == [];
  }

  lemma SubscribeKeepsHandle(t: Trace, s: Subscriber, h: int)
    requires ListInv(t.machine) && HandleInv(t, h) && !s.inactive && s.handle !in t.requested
    requires HandleInv(t, s.handle)
    ensures HandleInv(Extend(t, Subscribe(s)), h)
  {
    SubscribeView(t.machine, s, h);
    HistoryConcat(t.log, Step(t.machine, Subscribe(s)).outputs, h);
  }

  lemma UnsubscribeEntry(m: Machine, s: Subscriber, h: int)
    requires ListInv(m) && Lookup(m.subscribers, s.handle) == Some(s)
    ensures Lookup(OnUnsubscribe(m, s).machine.subscribers, h) ==
            if h != s.handle then Lookup(m.subscribers, h)
            else if s.waitForClose then Some(s.(inactive := true)) else None
  {
    LookupFinds(m.subscribers, s.handle);
    UnsubscribeList(m, s);
    LookupDeactivate(m.subscribers, s.handle, h);
    LookupWithout(m.subscribers, s.handle, h);
  }

  lemma UnsubscribeList(m: Machine, s: Subscriber)
    requires m.state != Released
    ensures OnUnsubscribe(m, s).machine.subscribers ==
            if s.waitForClose then Deactivate(m.subscribers, s.handle) else Without(m.subscribers, s.handle)
  {
  }

  lemma UnsubscribeState(m: Machine, s: Subscriber, h: int)
    requires m.state != Released
    ensures var after := OnUnsubscribe(m, s).machine;
            var entry := Lookup(after.subscribers, h);
            after.state == m.state || entry.None? || (after.state == Releasing && entry.value.inactive)
  {
    var list := OnUnsubscribe(m, s).machine.subscribers;
    LookupFinds(list, h);
    if Lookup(list, h).Some? && !Lookup(list, h).value.inactive {
      var i :| 0 <= i < |list| && list[i] == Lookup(list, h).value;
      assert AnyActive(list);
    }
  }

  /** After UNSUBSCRIBE a waiting handle is still listed, now inactive; a handle that does not wait is closed
      and gone; every other handle is as before, unless nobody active is left. */
  lemma UnsubscribeView(m: Machine, s: Subscriber, h: int)
    requires ListInv(m) && Lookup(m.subscribers, s.handle) == Some(s)
    ensures var v := ViewOf(OnUnsubscribe(m, s), h);
            && v.listed == (if h != s.handle then Lookup(m.subscribers, h)
                            else if s.waitForClose then Some(s.(inactive := true)) else None)
            && v.heard == (if h == s.handle && !s.waitForClose then [AtlClose(h)] else [])
            && (v.state == m.state || v.listed.None? || (v.state == Releasing && v.listed.value.inactive))
  {
    LookupFinds(m.subscribers, s.handle);
    UnsubscribeEntry(m, s, h);
    UnsubscribeHeard(m, s, h);
    UnsubscribeState(m, s, h);
  }

  lemma UnsubscribeHeard(m: Machine, s: Subscriber, h: int)
    ensures m.state != Released ==>
              History(OnUnsubscribe(m, s).outputs, h) ==
              if h == s.handle && !s.waitForClose then [AtlClose(h)] else []
  {
    var notes := if s.waitForClose then [] else [Callback(ClosedNotice, s.handle)];
    HistoryConcat(notes, [ReleaseDataConn], h);
    assert History([ReleaseDataConn], h) == [];
    assert History(notes, h) == if h == s.handle && !s.waitForClose then [AtlClose(h)] else [];
  }

  lemma UnsubscribeKeepsHandle(t: Trace, handle: int, h: int)
    requires ListInv(t.machine) && HandleInv(t, h)
    ensures HandleInv(Extend(t, Unsubscribe(handle)), h)
  {
    var m := t.machine;
    var entry := Lookup(m.subscribers, handle);
    LookupFinds(m.subscribers, handle);
    var v := ViewOf(Step(m, Unsubscribe(handle)), h);
    if entry.Some? {
      UnsubscribeView(m, entry.value, h);
    }
    ViewExtends(t, Unsubscribe(handle), v, h);
  }

  lemma FinishReleaseView(m: Machine, h: int)
    requires ListInv(m)
    ensures var v := ViewOf(FinishRelease(m), h);
            var entry := Lookup(m.subscribers, h);
            && v.listed == (if entry.Some? && entry.value.inactive then None else entry)
            && v.heard == (if entry.Some? && entry.value.inactive then [AtlClose(h)] else [])
            && (v.listed.Some? ==> v.state == Pending)
  {
    var notes := Callbacks(m.subscribers, ClosedNotice, ForInactive);
    HistoryConcat(notes, [RequestDataConn], h);
    assert History([RequestDataConn], h) == [];
    HistoryOfCallbacks(m.subscribers, ClosedNotice, ForInactive, h);
    LookupUnselected(m.subscribers, ForInactive, h);
    OnlyActiveLeft(m.subscribers);
    LookupFinds(FinishRelease(m).machine.subscribers, h);
  }

  /** GRANTED, RELEASED and DENIED outside RELEASING. */
  lemma FrameworkView(m: Machine, e: Event, h: int)
    requires ListInv(m) && (e == Granted || ((e == Denied || e == ReleasedByFramework) && m.state != Releasing))
    ensures var v := ViewOf(Step(m, e), h);
            var entry := Lookup(m.subscribers, h);
            if e == Granted && m.state == Pending then
              v == View(Acquired, entry,
                        if entry.Some? && !entry.value.inactive then [AtlOpen(h, true)] else [])
            else if e == Denied && m.state == Pending then
              v == View(Released, None, if entry.Some? then [AtlOpen(h, false)] else [])
            else if e == ReleasedByFramework && m.state == Acquired then
              v == View(Released, None, if entry.Some? then [AtlClose(h)] else [])
            else v == View(m.state, entry, [])
  {
    match e
    case Granted => HistoryOfCallbacks(m.subscribers, GrantedNotice, ForActive, h);
    case Denied =>
      HistoryOfCallbacks(m.subscribers, DeniedNotice, ForAll, h);
      NothingLeftForAll(m.subscribers);
    case _ =>
      HistoryOfCallbacks(m.subscribers, ClosedNotice, ForAll, h);
      NothingLeftForAll(m.subscribers);
  }

  lemma FinishReleaseKeepsHandle(t: Trace, e: Event, h: int)
    requires ListInv(t.machine) && HandleInv(t, h) && t.machine.state == Releasing
    requires e == Denied || e == ReleasedByFramework
    ensures HandleInv(Extend(t, e), h)
  {
    FinishReleaseView(t.machine, h);
    ViewExtends(t, e, ViewOf(Step(t.machine, e), h), h);
  }

  lemma FrameworkKeepsHandle(t: Trace, e: Event, h: int)
    requires ListInv(t.machine) && HandleInv(t, h)
    requires e == Granted || e == Denied || e == ReleasedByFramework
    ensures HandleInv(Extend(t, e), h)
  {
    if e != Granted && t.machine.state == Releasing {
      FinishReleaseKeepsHandle(t, e, h);
    } else {
      FrameworkView(t.machine, e, h);
      ViewExtends(t, e, ViewOf(Step(t.machine, e), h), h);
    }
  }

  lemma RestartKeepsHandle(t: Trace, h: int)
    requires ListInv(t.machine) && HandleInv(t, h)
    ensures HandleInv(Extend(t, ModemRestart), h)
  {
    LookupFinds(t.machine.subscribers, h);
    if h in Handles(t.machine.subscribers) {
      var s :| s in t.machine.subscribers && s.handle == h;
      var i :| 0 <= i < |t.machine.subscribers| && t.machine.subscribers[i] == s;
    }
    assert t.log + [] == t.log;
  }

  ghost predicate Requests(es: seq<Event>, h: int) {
    exists i :: 0 <= i < |es| && es[i].Subscribe? && es[i].subscriber.handle == h
  }

  lemma RequestsOneMore(es: seq<Event>, n: nat, h: int)
    requires |es| == n + 1
    ensures Requests(es, h) <==> Requests(es[..n], h) || (es[n].Subscribe? && es[n].subscriber.handle == h)
  {
    if i :| 0 <= i < n && es[i].Subscribe? && es[i].subscriber.handle == h {
      assert es[..n][i] == es[i];
    }
    if i :| 0 <= i < |es[..n]| && es[..n][i].Subscribe? && es[..n][i].subscriber.handle == h {
      assert es[i] == es[..n][i];
    }
  }

  lemma {:induction false} RequestedByRun(es: seq<Event>, h: int)
    ensures h in Run(es).requested <==> Requests(es, h)
  {
    if es != [] {
      var n := |es| - 1;
      RequestedByRun(es[..n], h);
      RequestsOneMore(es, n, h);
    }
  }

  /** The callback protocol of every handle over every run with fresh handles, modem restarts included. */
  lemma {:induction false} EveryHandleHearsItsProtocol(es: seq<Event>, h: int)
    requires ProperRun(es) && FreshHandles(es)
    ensures HandleInv(Run(es), h)
  {
    if es != [] {
      var n := |es| - 1;
      var t := Run(es[..n]);
      EveryHandleHearsItsProtocol(es[..n], h);
      ReachableListInv(es[..n]);
      assert es[n] in es;
      match es[n]
      case Subscribe(s) =>
        RequestedByRun(es[..n], s.handle);
        forall i | 0 <= i < n && es[..n][i].Subscribe? ensures es[..n][i].subscriber.handle != s.handle {
          assert es[..n][i] == es[i];
        }
        EveryHandleHearsItsProtocol(es[..n], s.handle);
        SubscribeKeepsHandle(t, s, h);
      case Unsubscribe(handle) => UnsubscribeKeepsHandle(t, handle, h);
      case ModemRestart => RestartKeepsHandle(t, h);
      case _ => FrameworkKeepsHandle(t, es[n], h);
    }
  }

  lemma LastWordIsTerminal(h: int, before: seq<Output>, heard: seq<Output>)
    requires before == [] || before == [AtlOpen(h, true)]
    requires var all := before + heard; Finished(h, all) || all == [] || all == [AtlOpen(h, true)]
    ensures (AtlClose(h) in heard || AtlOpen(h, false) in heard) <==> Finished(h, before + heard)
  {
    var all := before + heard;
    assert forall o <- heard :: o in all;
    if Finished(h, all) {
      var last := all[|all| - 1];
      assert |all| > |before|;
      assert heard[|heard| - 1] == last;
    }
  }

  lemma TerminalOfOneEvent(t: Trace, e: Event, h: int)
    requires HandleInv(t, h) && HandleInv(Extend(t, e), h)
    requires Lookup(t.machine.subscribers, h).Some? && e != ModemRestart
    ensures var v := ViewOf(Step(t.machine, e), h);
            (AtlClose(h) in v.heard || AtlOpen(h, false) in v.heard) <==> v.listed.None?
  {
    var effect := Step(t.machine, e);
    HistoryConcat(t.log, effect.outputs, h);
    LastWordIsTerminal(h, History(t.log, h), History(effect.outputs, h));
  }

  lemma RunOneMore(es: seq<Event>, e: Event)
    ensures Run(es + [e]) == Extend(Run(es), e)
  {
    var run := es + [e];
    assert run[..|run| - 1] == es && run[|run| - 1] == e;
  }

  /** The terminal callback of a handle comes in the very event that takes it off the list,
      and in no other event. */
  lemma TerminalCallbackIsTheLeaving(es: seq<Event>, e: Event, h: int)
    requires ProperRun(es) && FreshHandles(es) && ProperRun(es + [e]) && FreshHandles(es + [e])
    requires Lookup(Run(es).machine.subscribers, h).Some? && e != ModemRestart
    ensures var effect := Step(Run(es).machine, e);
            var heard := History(effect.outputs, h);
            (AtlClose(h) in heard || AtlOpen(h, false) in heard)
            <==> Lookup(effect.machine.subscribers, h).None?
  {
    EveryHandleHearsItsProtocol(es, h);
    EveryHandleHearsItsProtocol(es + [e], h);
    RunOneMore(es, e);
    TerminalOfOneEvent(Run(es), e, h);
  }
}
