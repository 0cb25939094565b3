/** The AGPS data-call state machine of gps/gnss/Agps.cpp as a step function on values:
    one state, one subscriber list, and for every event the messages it sends. */
module Agps {
  import opened Wrappers

  /** One client request; `waitForClose` and `inactive` are the flags of AgpsSubscriber. */
  datatype Subscriber = Subscriber(handle: int, waitForClose: bool, inactive: bool, apnTypeMask: int)

  datatype AgpsState = Released | Pending | Acquired | Releasing

  /** What an event makes the machine send: the framework requests, and the callbacks of one handle. */
  datatype Output =
    | RequestDataConn
    | ReleaseDataConn
    | AtlOpen(handle: int, success: bool)
    | AtlClose(handle: int)

  datatype Notification = ForAll | ForInactive | ForActive

  /** The events a subscriber can be notified of. */
  datatype Notice = GrantedNotice | DeniedNotice | ClosedNotice

  datatype Machine = Machine(state: AgpsState, subscribers: seq<Subscriber>)

  /** Machine after an event, and what the event sent. */
  datatype Effect = Effect(machine: Machine, outputs: seq<Output>)

  datatype Event =
    | Subscribe(subscriber: Subscriber)
    | Unsubscribe(handle: int)
    | Granted
    | ReleasedByFramework
    | Denied
    | ModemRestart

  const Initial := Machine(Released, [])

  // ---------------------------------------------------------------- the subscriber list

  function Lookup(list: seq<Subscriber>, handle: int): Option<Subscriber> {
    if list == [] then None
    else if list[0].handle == handle then Some(list[0])
    else Lookup(list[1..], handle)
  }

  predicate AnyActive(list: seq<Subscriber>) {
    exists i :: 0 <= i < |list| && !list[i].inactive
  }

  ghost predicate UniqueHandles(list: seq<Subscriber>) {
    forall i, j :: 0 <= i < j < |list| ==> list[i].handle != list[j].handle
  }

  function Add(list: seq<Subscriber>, s: Subscriber): seq<Subscriber> {
    if Lookup(list, s.handle).Some? then list else list + [s]
  }

  function Deactivate(list: seq<Subscriber>, handle: int): seq<Subscriber> {
    if list == [] then []
    else if list[0].handle == handle then [list[0].(inactive := true)] + list[1..]
    else [list[0]] + Deactivate(list[1..], handle)
  }

  function Without(list: seq<Subscriber>, handle: int): seq<Subscriber> {
    if list == [] then []
    else (if list[0].handle == handle then [] else [list[0]]) + Without(list[1..], handle)
  }

  predicate Selected(kind: Notification, s: Subscriber) {
    kind == ForAll || (kind == ForInactive && s.inactive) || (kind == ForActive && !s.inactive)
  }

  function Unselected(list: seq<Subscriber>, kind: Notification): seq<Subscriber> {
    if list == [] then []
    else (if Selected(kind, list[0]) then [] else [list[0]]) + Unselected(list[1..], kind)
  }

  function Callback(notice: Notice, handle: int): Output {
    match notice
    case GrantedNotice => AtlOpen(handle, true)
    case DeniedNotice => AtlOpen(handle, false)
    case ClosedNotice => AtlClose(handle)
  }

  function Callbacks(list: seq<Subscriber>, notice: Notice, kind: Notification): seq<Output> {
    if list == [] then []
    else (if Selected(kind, list[0]) then [Callback(notice, list[0].handle)] else [])
         + Callbacks(list[1..], notice, kind)
  }

  // ---------------------------------------------------------------- the events

  function OnSubscribe(m: Machine, s: Subscriber): Effect {
    var list := Add(m.subscribers, s);
    match m.state
    case Released => Effect(Machine(Pending, list), [RequestDataConn])
    case Pending => Effect(Machine(Pending, list), [])
    case Acquired => Effect(Machine(Acquired, list), [Callback(GrantedNotice, s.handle)])
    case Releasing => Effect(Machine(Releasing, list), [])
  }

  /** `s` is the list entry that releaseATL found for the handle. */
  function OnUnsubscribe(m: Machine, s: Subscriber): Effect {
    if m.state == Released then Effect(m, [Callback(ClosedNotice, s.handle)])
    else
      var list := if s.waitForClose then Deactivate(m.subscribers, s.handle)
                  else Without(m.subscribers, s.handle);
      var notes := if s.waitForClose then [] else [Callback(ClosedNotice, s.handle)];
      if m.state == Releasing then
        Effect(Machine(if list == [] then Released else Releasing, list), notes)
      else if list == [] then Effect(Machine(Released, list), notes + [ReleaseDataConn])
      else if !AnyActive(list) then Effect(Machine(Releasing, list), notes + [ReleaseDataConn])
      else Effect(Machine(m.state, list), notes)
  }

  function OnGranted(m: Machine): Effect {
    if m.state == Pending
    then Effect(Machine(Acquired, m.subscribers), Callbacks(m.subscribers, GrantedNotice, ForActive))
    else Effect(m, [])
  }

  /** The part RELEASED and DENIED share in state RELEASING. */
  function FinishRelease(m: Machine): Effect {
    var notes := Callbacks(m.subscribers, ClosedNotice, ForInactive);
    var list := Unselected(m.subscribers, ForInactive);
    if AnyActive(list) then Effect(Machine(Pending, list), notes + [RequestDataConn])
    else Effect(Machine(Released, list), notes)
  }

  function OnReleased(m: Machine): Effect {
    match m.state
    case Acquired =>
      Effect(Machine(Released, Unselected(m.subscribers, ForAll)),
             Callbacks(m.subscribers, ClosedNotice, ForAll))
    case Releasing => FinishRelease(m)
    case _ => Effect(m, [])
  }

  function OnDenied(m: Machine): Effect {
    match m.state
    case Pending =>
      Effect(Machine(Released, Unselected(m.subscribers, ForAll)),
             Callbacks(m.subscribers, DeniedNotice, ForAll))
    case Releasing => FinishRelease(m)
    case _ => Effect(m, [])
  }

  function Step(m: Machine, e: Event): Effect {
    match e
    case Subscribe(s) => OnSubscribe(m, s)
    case Unsubscribe(handle) =>
      (match Lookup(m.subscribers, handle)
       case None => Effect(m, [])
       case Some(s) => OnUnsubscribe(m, s))
    case Granted => OnGranted(m)
    case ReleasedByFramework => OnReleased(m)
    case Denied => OnDenied(m)
    case ModemRestart => Effect(m.(subscribers := []), [])
  }

  // ---------------------------------------------------------------- lookups through the list operations

  lemma {:induction false} LookupFinds(list: seq<Subscriber>, handle: int)
    ensures Lookup(list, handle).Some? <==> exists i :: 0 <= i < |list| && list[i].handle == handle
    ensures Lookup(list, handle).Some? ==>
              Lookup(list, handle).value in list && Lookup(list, handle).value.handle == handle
  {
    if list != [] {
      LookupFinds(list[1..], handle);
      if list[0].handle != handle && exists i :: 0 <= i < |list| && list[i].handle == handle {
        var i :| 0 <= i < |list| && list[i].handle == handle;
        assert list[1..][i - 1].handle == handle;
      }
    }
  }

  lemma {:induction false} LookupOfMember(list: seq<Subscriber>, i: nat)
    requires UniqueHandles(list) && i < |list|
    ensures Lookup(list, list[i].handle) == Some(list[i])
  {
    if i > 0 {
      LookupOfMember(list[1..], i - 1);
    }
  }

  lemma {:induction false} LookupAppend(list: seq<Subscriber>, s: Subscriber, h: int)
    ensures Lookup(list + [s], h) ==
            if Lookup(list, h).Some? then Lookup(list, h) else if h == s.handle then Some(s) else None
  {
    if list == [] {
      assert [] + [s] == [s];
    } else {
      assert (list + [s])[1..] == list[1..] + [s];
      LookupAppend(list[1..], s, h);
    }
  }

  lemma AddKeepsUnique(list: seq<Subscriber>, s: Subscriber)
    requires UniqueHandles(list)
    ensures UniqueHandles(Add(list, s))
  {
    LookupFinds(list, s.handle);
  }

  lemma {:induction false} LookupDeactivate(list: seq<Subscriber>, handle: int, h: int)
    requires UniqueHandles(list)
    ensures UniqueHandles(Deactivate(list, handle))
    ensures |Deactivate(list, handle)| == |list|
    ensures forall i :: 0 <= i < |list| ==> Deactivate(list, handle)[i].handle == list[i].handle
    ensures Lookup(Deactivate(list, handle), h) ==
            if h == handle && Lookup(list, h).Some?
            then Some(Lookup(list, h).value.(inactive := true)) else Lookup(list, h)
  {
    if list != [] && list[0].handle != handle {
      LookupDeactivate(list[1..], handle, h);
    }
  }

  lemma ConsKeepsUnique(s: Subscriber, tail: seq<Subscriber>, full: seq<Subscriber>)
    requires UniqueHandles(tail) && UniqueHandles([s] + full)
    requires forall x <- tail :: x in full
    ensures UniqueHandles([s] + tail)
  {
    var list := [s] + tail;
    forall i, j | 0 <= i < j < |list| ensures list[i].handle != list[j].handle {
      if i == 0 {
        assert tail[j - 1] in full;
        var k :| 0 <= k < |full| && full[k] == tail[j - 1];
        assert ([s] + full)[0] == list[0] && ([s] + full)[k + 1] == list[j];
      } else {
        assert list[i] == tail[i - 1] && list[j] == tail[j - 1];
      }
    }
  }

  lemma {:induction false} LookupWithout(list: seq<Subscriber>, handle: int, h: int)
    requires UniqueHandles(list)
    ensures UniqueHandles(Without(list, handle))
    ensures forall x <- Without(list, handle) :: x in list
    ensures Lookup(Without(list, handle), h) == if h == handle then None else Lookup(list, h)
  {
    if list != [] {
      var tail := list[1..];
      LookupWithout(tail, handle, h);
      if list[0].handle != handle {
        assert Without(list, handle) == [list[0]] + Without(tail, handle);
        assert list == [list[0]] + tail;
        ConsKeepsUnique(list[0], Without(tail, handle), tail);
      } else {
        assert Without(list, handle) == Without(tail, handle);
        LookupFinds(tail, handle);
      }
    }
  }

  lemma {:induction false} UnselectedKeepsUnique(list: seq<Subscriber>, kind: Notification)
    requires UniqueHandles(list)
    ensures UniqueHandles(Unselected(list, kind))
    ensures forall x <- Unselected(list, kind) :: x in list && !Selected(kind, x)
  {
    if list != [] {
      var tail := list[1..];
      UnselectedKeepsUnique(tail, kind);
      if Selected(kind, list[0]) {
        assert Unselected(list, kind) == Unselected(tail, kind);
      } else {
        assert Unselected(list, kind) == [list[0]] + Unselected(tail, kind);
        assert list == [list[0]] + tail;
        ConsKeepsUnique(list[0], Unselected(tail, kind), tail);
      }
    }
  }

  lemma {:induction false} LookupUnselected(list: seq<Subscriber>, kind: Notification, h: int)
    requires UniqueHandles(list)
    ensures UniqueHandles(Unselected(list, kind))
    ensures forall x <- Unselected(list, kind) :: x in list && !Selected(kind, x)
    ensures Lookup(Unselected(list, kind), h) ==
            if Lookup(list, h).Some? && Selected(kind, Lookup(list, h).value)
            then None else Lookup(list, h)
  {
    UnselectedKeepsUnique(list, kind);
    if list != [] {
      var tail := list[1..];
      LookupUnselected(tail, kind, h);
      if Selected(kind, list[0]) {
        assert Unselected(list, kind) == Unselected(tail, kind);
        LookupFinds(tail, h);
      }
    }
  }
}
