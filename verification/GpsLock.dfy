/** The GPS lock that gps/gnss/GnssAdapter.cpp keeps in the modem. There are two behaviours: while NFW access is
    controlled by the framework ("Q") GPS_LOCK is the state of the modem; once a lock was configured ("P") it is
    the lock to apply when location is off. */
module GpsLock {
  import opened Wrappers

  /** A lock word as the set of its bits: bit 0 locks MO, bits 1 to 11 lock the kinds of NFW access. */
  type Lock = set<nat>

  const LOCK_NONE: Lock := {}
  const LOCK_MO: Lock := {0}
  const LOCK_NFW_ALL: Lock := {1, 2, 3, 4, 5, 6, 7, 8, 9, 10, 11}
  const LOCK_MO_AND_NI: Lock := LOCK_MO + LOCK_NFW_ALL

  /** GPS_LOCK, mAfwControlId, mSupportNfwControl, whether the engine came up, and the lock last sent to it. */
  datatype Adapter = Adapter(gpsLock: Lock, controlId: nat, supportNfw: bool, engineKnown: bool, sent: Option<Lock>)

  const Boot := Adapter(LOCK_MO_AND_NI, 0, true, false, None)

  /** A message that was put off until the engine is up comes again as a later event. */
  datatype Event =
    | Enable(sessionId: nat, isGnss: bool)
    | Disable(sessionId: nat)
    | ControlNfw(enabledBits: Lock)
    | UpdateConfig(gpsLock: Option<Lock>)
    | EngineUp

  predicate CanHappen(e: Event) {
    e.Enable? ==> e.sessionId != 0
  }

  // ---------------------------------------------------------------- what the adapter does

  function OnEnable(a: Adapter, sessionId: nat, isGnss: bool): Adapter {
    if !isGnss || a.controlId > 0 then a
    else if a.supportNfw then
      var lock := a.gpsLock * LOCK_NFW_ALL;
      a.(controlId := sessionId, gpsLock := lock, sent := Some(lock))
    else a.(controlId := sessionId, sent := Some(LOCK_NONE))
  }

  function OnDisable(a: Adapter, sessionId: nat): Adapter {
    if a.controlId != sessionId then a
    else
      var lock := if a.supportNfw then a.gpsLock + LOCK_MO else a.gpsLock;
      a.(controlId := 0, gpsLock := lock, sent := Some(lock))
  }

  function OnControlNfw(a: Adapter, enabledBits: Lock): Adapter {
    if !a.engineKnown || !a.supportNfw then a
    else
      var lock := a.gpsLock * LOCK_MO + (LOCK_NFW_ALL - enabledBits);
      a.(gpsLock := lock, sent := Some(lock))
  }

  function OnUpdateConfig(a: Adapter, gpsLock: Option<Lock>): Adapter {
    if !a.engineKnown || gpsLock.None? then a
    else
      var lock := gpsLock.value + LOCK_MO;
      a.(gpsLock := lock, supportNfw := false,
         sent := if a.controlId == 0 then Some(lock) else if a.supportNfw then Some(LOCK_NONE) else a.sent)
  }

  function OnEngineUp(a: Adapter): Adapter {
    a.(engineKnown := true, sent := Some(if a.supportNfw || a.controlId == 0 then a.gpsLock else LOCK_NONE))
  }

  function Step(a: Adapter, e: Event): Adapter {
    match e
    case Enable(sessionId, isGnss) => OnEnable(a, sessionId, isGnss)
    case Disable(sessionId) => OnDisable(a, sessionId)
    case ControlNfw(enabledBits) => OnControlNfw(a, enabledBits)
    case UpdateConfig(gpsLock) => OnUpdateConfig(a, gpsLock)
    case EngineUp => OnEngineUp(a)
  }

  function Run(a: Adapter, es: seq<Event>): Adapter {
    if es == [] then a else Step(Run(a, es[..|es| - 1]), es[|es| - 1])
  }

  // ---------------------------------------------------------------- the policy, read off the history

  /** Whether location is on: who enabled it last and did not disable it. */
  function Owner(es: seq<Event>): nat {
    if es == [] then 0
    else
      var (before, e) := (Owner(es[..|es| - 1]), es[|es| - 1]);
      match e
      case Enable(sessionId, isGnss) => if isGnss && before == 0 then sessionId else before
      case Disable(sessionId) => if before == sessionId then 0 else before
      case _ => before
  }

  predicate EngineSeen(es: seq<Event>) {
    exists e <- es :: e.EngineUp?
  }

  /** The lock that was configured last, after the engine came up. */
  function Configured(es: seq<Event>): Option<Lock> {
    if es == [] then None
    else
      var (front, e) := (es[..|es| - 1], es[|es| - 1]);
      if e.UpdateConfig? && e.gpsLock.Some? && EngineSeen(front) then e.gpsLock else Configured(front)
  }

  /** The NFW bits that the last effective control message locked; all of them before the first. */
  function LockedNfws(es: seq<Event>): Lock {
    if es == [] then LOCK_NFW_ALL
    else
      var (front, e) := (es[..|es| - 1], es[|es| - 1]);
      if e.ControlNfw? && EngineSeen(front) then LOCK_NFW_ALL - e.enabledBits else LockedNfws(front)
  }

  /** "Q": the MO bit says whether location is off, the others come from the NFW control. "P": nothing is locked
      while location is on, else the configured lock with the MO bit. */
  function Policy(es: seq<Event>): Lock {
    match Configured(es)
    case None => (if Owner(es) == 0 then LOCK_MO else LOCK_NONE) + LockedNfws(es)
    case Some(lock) => if Owner(es) == 0 then lock + LOCK_MO else LOCK_NONE
  }

  // ---------------------------------------------------------------- the adapter follows the policy

  ghost predicate Follows(a: Adapter, es: seq<Event>) {
    && a.controlId == Owner(es)
    && (a.engineKnown <==> EngineSeen(es))
    && (a.supportNfw <==> Configured(es).None?)
    && (a.supportNfw ==> a.gpsLock == Policy(es))
    && (!a.supportNfw ==> a.gpsLock == Configured(es).value + LOCK_MO)
    && (a.engineKnown ==> a.sent.Some?)
    && (a.sent.Some? ==> a.sent.value == Policy(es))
  }

  lemma {:induction false} LockedNfwsAreNfws(es: seq<Event>)
    ensures LockedNfws(es) <= LOCK_NFW_ALL
  {
    if es != [] {
      LockedNfwsAreNfws(es[..|es| - 1]);
    }
  }

  lemma EngineSeenSnoc(es: seq<Event>)
    requires es != []
    ensures EngineSeen(es) <==> EngineSeen(es[..|es| - 1]) || es[|es| - 1].EngineUp?
  {
    if e :| e in es && e.EngineUp? {
      assert e in es[..|es| - 1] || e == es[|es| - 1];
    }
  }

  /** Bit 0 is MO, and bits 1 to 11 are all the kinds of NFW access. */
  lemma LockBits(b: nat)
    ensures (b in LOCK_MO <==> b == 0) && (b in LOCK_NFW_ALL <==> 1 <= b <= 11)
  {
  }

  lemma Bits(nfws: Lock)
    requires nfws <= LOCK_NFW_ALL
    ensures (LOCK_MO + nfws) * LOCK_NFW_ALL == nfws && (LOCK_NONE + nfws) * LOCK_NFW_ALL == nfws
    ensures LOCK_NONE + nfws == nfws && (LOCK_NONE + nfws) + LOCK_MO == LOCK_MO + nfws
    ensures (LOCK_MO + nfws) + LOCK_MO == LOCK_MO + nfws
    ensures (LOCK_MO + nfws) * LOCK_MO == LOCK_MO && (LOCK_NONE + nfws) * LOCK_MO == LOCK_NONE
  {
    assert 0 !in LOCK_NFW_ALL;
  }

  lemma {:induction false} RunFollows(es: seq<Event>)
    requires forall e <- es :: CanHappen(e)
    ensures Follows(Run(Boot, es), es)
  {
    if es != [] {
      var (front, e) := (es[..|es| - 1], es[|es| - 1]);
      RunFollows(front);
      EngineSeenSnoc(es);
      LockedNfwsAreNfws(front);
      Bits(LockedNfws(front));
      assert CanHappen(e);
    }
  }

  /** In every run, whatever was enabled, disabled, controlled, configured or restarted: once the engine is up,
      the lock in the modem is the one of the policy. */
  lemma ModemLockFollowsPolicy(es: seq<Event>)
    requires forall e <- es :: CanHappen(e)
    ensures var a := Run(Boot, es);
            && (EngineSeen(es) ==> a.sent == Some(Policy(es)))
            && (a.sent.Some? ==> a.sent == Some(Policy(es)))
  {
    RunFollows(es);
  }

  /** The MO bit of GPS_LOCK: in "Q" it is set exactly while location is off, in "P" always. */
  lemma MoBit(es: seq<Event>)
    requires forall e <- es :: CanHappen(e)
    ensures var a := Run(Boot, es);
            a.gpsLock * LOCK_MO == if a.supportNfw && a.controlId != 0 then LOCK_NONE else LOCK_MO
  {
    RunFollows(es);
    LockedNfwsAreNfws(es);
    Bits(LockedNfws(es));
  }

  // ---------------------------------------------------------------- the adapter as an object

  class GnssAdapter {
    var gpsLock: Lock
    var mAfwControlId: nat
    var mSupportNfwControl: bool
    var mIsEngineCapabilitiesKnown: bool
    var modemLock: Option<Lock>

    function Current(): Adapter
      reads this
    {
      Adapter(gpsLock, mAfwControlId, mSupportNfwControl, mIsEngineCapabilitiesKnown, modemLock)
    }

    constructor ()
      ensures Current() == Boot
    {
      gpsLock, mAfwControlId, modemLock := LOCK_MO_AND_NI, 0, None;
      mSupportNfwControl, mIsEngineCapabilitiesKnown := true, false;
    }

    method EnableCommand(sessionId: nat, isGnss: bool)
      modifies this
      ensures Current() == Step(old(Current()), Enable(sessionId, isGnss))
    {
      if !isGnss || mAfwControlId > 0 {
        return;
      }
      mAfwControlId := sessionId;
      var lock := LOCK_NONE;
      if mSupportNfwControl {
        gpsLock := gpsLock * LOCK_NFW_ALL;
        lock := gpsLock;
      }
      modemLock := Some(lock);
    }

    method DisableCommand(sessionId: nat)
      modifies this
      ensures Current() == Step(old(Current()), Disable(sessionId))
    {
      if mAfwControlId != sessionId {
        return;
      }
      mAfwControlId := 0;
      if mSupportNfwControl {
        gpsLock := gpsLock + LOCK_MO;
      }
      modemLock := Some(gpsLock);
    }

    method NfwControlCommand(enabledBits: Lock)
      modifies this
      ensures Current() == Step(old(Current()), ControlNfw(enabledBits))
    {
      if !mIsEngineCapabilitiesKnown {
        return;
      }
      if mSupportNfwControl {
        gpsLock := gpsLock * LOCK_MO + (LOCK_NFW_ALL - enabledBits);
        modemLock := Some(gpsLock);
      }
    }

    method GnssUpdateConfigCommand(requested: Option<Lock>)
      modifies this
      ensures Current() == Step(old(Current()), UpdateConfig(requested))
    {
      if !mIsEngineCapabilitiesKnown || requested.None? {
        return;
      }
      var newGpsLock := requested.value + LOCK_MO;
      var needEngineUpdate := true;
      gpsLock := newGpsLock;
      if mAfwControlId != 0 {
        if mSupportNfwControl {
          newGpsLock := LOCK_NONE;
        } else {
          needEngineUpdate := false;
        }
      }
      mSupportNfwControl := false;
      if needEngineUpdate {
        modemLock := Some(newGpsLock);
      }
    }

    method HandleEngineUp()
      modifies this
      ensures Current() == Step(old(Current()), Event.EngineUp)
    {
      mIsEngineCapabilitiesKnown := true;
      if mSupportNfwControl || mAfwControlId == 0 {
        modemLock := Some(gpsLock);
      } else {
        modemLock := Some(LOCK_NONE);
      }
    }
  }
}
