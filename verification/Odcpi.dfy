/** Requests for on-demand coarse positions (ODCPI) in gps/gnss/GnssAdapter.cpp. The modem may start and stop in
    quick succession; a timer keeps the adapter from passing every start on to the framework. */
module Odcpi {

  datatype Request = Start(isEmergency: bool, isCivicAddressRequired: bool) | Stop(isEmergency: bool)

  /** The two bits of mOdcpiStateMask, the timer, the request last started, and the handlers there are. */
  datatype Limiter = Limiter(active: bool, civic: bool, timer: bool, lastEmergency: bool,
                             handler: bool, addressHandler: bool)

  const Quiet := Limiter(false, false, false, false, false, false)

  datatype Event =
    | Requested(request: Request)
    | TimerExpired
    | EngineRestart
    | HandlerSet
    | AddressHandlerSet

  /** A request passed on to the framework. */
  datatype Fired = FiredStart(isEmergency: bool) | FiredStop

  // ---------------------------------------------------------------- what each message does

  function OnStart(l: Limiter, isEmergency: bool, civicRequired: bool): (Limiter, seq<Fired>) {
    var first := !l.active && !l.timer;
    var upgrade := !l.lastEmergency && isEmergency;
    (l.(active := true, timer := l.timer || first || upgrade, lastEmergency := isEmergency,
        civic := l.civic || (l.addressHandler && civicRequired)),
     if first || upgrade then [FiredStart(isEmergency)] else [])
  }

  function Step(l: Limiter, e: Event): (Limiter, seq<Fired>) {
    match e
    case Requested(request) =>
      if !l.handler then (l, [])
      else (
        match request
        case Start(isEmergency, civicRequired) => OnStart(l, isEmergency, civicRequired)
        case Stop(_) => (l.(active := false, civic := false), [FiredStop]))
    case TimerExpired =>
      if l.active then (l.(timer := true), [FiredStart(l.lastEmergency)]) else (l.(timer := false), [])
    case EngineRestart => (l.(active := false, civic := false), [])
    case HandlerSet => (l.(handler := true), [])
    case AddressHandlerSet => (l.(addressHandler := true), [])
  }

  function Run(l: Limiter, es: seq<Event>): (Limiter, seq<Fired>)
    decreases |es|
  {
    if es == [] then (l, [])
    else
      var (next, fired) := Step(l, es[0]);
      var (end, more) := Run(next, es[1..]);
      (end, fired + more)
  }

  // ---------------------------------------------------------------- what is active is timed

  predicate Timed(l: Limiter) {
    (l.civic ==> l.active) && (l.active ==> l.timer)
  }

  function Starts(fired: seq<Fired>): nat {
    if fired == [] then 0 else (if fired[0].FiredStart? then 1 else 0) + Starts(fired[1..])
  }

  function CalmStarts(fired: seq<Fired>): nat {
    if fired == [] then 0 else (if fired[0] == FiredStart(false) then 1 else 0) + CalmStarts(fired[1..])
  }

  function Expiries(es: seq<Event>): nat {
    if es == [] then 0 else (if es[0].TimerExpired? then 1 else 0) + Expiries(es[1..])
  }

  /** Non-emergency starts that came in. */
  function CalmRequests(es: seq<Event>): nat {
    if es == [] then 0
    else
      (if es[0].Requested? && es[0].request.Start? && !es[0].request.isEmergency then 1 else 0)
      + CalmRequests(es[1..])
  }

  function One(b: bool): nat {
    if b then 1 else 0
  }

  lemma {:induction false} StartsConcat(a: seq<Fired>, b: seq<Fired>)
    ensures Starts(a + b) == Starts(a) + Starts(b) && CalmStarts(a + b) == CalmStarts(a) + CalmStarts(b)
    decreases |a|
  {
    if a == [] {
      assert a + b == b;
    } else {
      assert (a + b)[1..] == a[1..] + b;
      StartsConcat(a[1..], b);
    }
  }

  /** A free timer pays for one start; an expiry pays for the next. A calm request pays for the emergency that
      replaces it. */
  lemma StepIsPaidFor(l: Limiter, e: Event)
    requires Timed(l)
    ensures var (next, fired) := Step(l, e);
            && Timed(next)
            && CalmStarts(fired) + One(!next.timer) <= One(!l.timer) + Expiries([e])
            && Starts(fired) + One(!next.timer) + One(!next.lastEmergency)
               <= One(!l.timer) + One(!l.lastEmergency) + Expiries([e]) + CalmRequests([e])
  {
    var fired := Step(l, e).1;
    assert [e][1..] == [];
    assert |fired| == 1 ==> fired[1..] == [];
  }

  lemma {:induction false} RunIsPaidFor(l: Limiter, es: seq<Event>)
    requires Timed(l)
    ensures var (end, fired) := Run(l, es);
            && Timed(end)
            && CalmStarts(fired) + One(!end.timer) <= One(!l.timer) + Expiries(es)
            && Starts(fired) + One(!end.timer) + One(!end.lastEmergency)
               <= One(!l.timer) + One(!l.lastEmergency) + Expiries(es) + CalmRequests(es)
    decreases |es|
  {
    if es != [] {
      var (next, fired) := Step(l, es[0]);
      StepIsPaidFor(l, es[0]);
      RunIsPaidFor(next, es[1..]);
      StartsConcat(fired, Run(next, es[1..]).1);
      assert [es[0]][1..] == [];
    }
  }

  /** In every run: an active request, and an active civic address request, has the timer running; the framework
      gets at most one non-emergency start more than the timer expired; and all its starts together are at most
      two more than expiries and non-emergency requests. */
  lemma RequestsAreLimited(es: seq<Event>)
    ensures var (l, fired) := Run(Quiet, es);
            && (l.active ==> l.timer) && (l.civic ==> l.active)
            && CalmStarts(fired) <= 1 + Expiries(es)
            && Starts(fired) <= 2 + Expiries(es) + CalmRequests(es)
  {
    RunIsPaidFor(Quiet, es);
  }

  /** What the history says: a request is active from its start to a stop or an engine restart; the timer runs from a
      start to an expiry that finds no active request; the last start was an emergency or not, and the modem needs a
      civic address as long as the request is active. */
  datatype History = History(active: bool, timer: bool, emergency: bool, civic: bool,
                             handler: bool, addressHandler: bool)

  function Later(h: History, e: Event): History {
    match e
    case Requested(request) =>
      if !h.handler then h
      else if request.Stop? then h.(active := false, civic := false)
      else
        var asks := h.addressHandler && request.isCivicAddressRequired;
        h.(active := true, timer := true, emergency := request.isEmergency, civic := if asks then true else h.civic)
    case TimerExpired => h.(timer := h.active)
    case EngineRestart => h.(active := false, civic := false)
    case HandlerSet => h.(handler := true)
    case AddressHandlerSet => h.(addressHandler := true)
  }

  /** What has to be passed on: a start that finds no request active and no timer running, an emergency that follows
      a non-emergency request, and every expiry while a request is active. */
  predicate Due(h: History, e: Event) {
    || (e.TimerExpired? && h.active)
    || (e.Requested? && e.request.Start? && h.handler
        && ((!h.active && !h.timer) || (e.request.isEmergency && !h.emergency)))
  }

  function DueStarts(h: History, es: seq<Event>): nat
    decreases |es|
  {
    if es == [] then 0 else One(Due(h, es[0])) + DueStarts(Later(h, es[0]), es[1..])
  }

  function HistoryOf(l: Limiter): History {
    History(l.active, l.timer, l.lastEmergency, l.civic, l.handler, l.addressHandler)
  }

  lemma StepIsDue(l: Limiter, e: Event)
    requires Timed(l)
    ensures HistoryOf(Step(l, e).0) == Later(HistoryOf(l), e)
    ensures Starts(Step(l, e).1) == One(Due(HistoryOf(l), e))
  {
    StartsOfOne(Step(l, e).1);
  }

  lemma StartsOfOne(fired: seq<Fired>)
    requires |fired| <= 1
    ensures Starts(fired) == if fired != [] && fired[0].FiredStart? then 1 else 0
  {
    assert |fired| == 1 ==> fired[1..] == [];
  }

  /** In every run the starts passed on are as many as are due, so no request is forgotten. */
  lemma {:induction false} StartsAreDue(l: Limiter, es: seq<Event>)
    requires Timed(l)
    ensures Starts(Run(l, es).1) == DueStarts(HistoryOf(l), es)
    decreases |es|
  {
    if es != [] {
      var (next, fired) := Step(l, es[0]);
      StepIsPaidFor(l, es[0]);
      StepIsDue(l, es[0]);
      StartsAreDue(next, es[1..]);
      StartsConcat(fired, Run(next, es[1..]).1);
    }
  }

  /** And each carries the kind of the request it stands for. */
  lemma FiredCarriesRequest(l: Limiter, e: Event, f: Fired)
    requires f in Step(l, e).1
    ensures match e
            case Requested(Start(isEmergency, _)) => f == FiredStart(isEmergency)
            case Requested(Stop(_)) => f == FiredStop
            case TimerExpired => f == FiredStart(l.lastEmergency)
            case _ => false
    ensures |Step(l, e).1| == 1
  {
  }

  function Stops(fired: seq<Fired>): nat {
    if fired == [] then 0 else (if fired[0].FiredStop? then 1 else 0) + Stops(fired[1..])
  }

  /** Stops that come in when there is a handler. */
  function DueStops(handler: bool, es: seq<Event>): nat
    decreases |es|
  {
    if es == [] then 0
    else One(handler && es[0].Requested? && es[0].request.Stop?) + DueStops(handler || es[0].HandlerSet?, es[1..])
  }

  lemma {:induction false} StopsConcat(a: seq<Fired>, b: seq<Fired>)
    ensures Stops(a + b) == Stops(a) + Stops(b)
    decreases |a|
  {
    if a == [] {
      assert a + b == b;
    } else {
      assert (a + b)[1..] == a[1..] + b;
      StopsConcat(a[1..], b);
    }
  }

  lemma StepStops(l: Limiter, e: Event)
    ensures Stops(Step(l, e).1) == One(l.handler && e.Requested? && e.request.Stop?)
    ensures Step(l, e).0.handler == (l.handler || e.HandlerSet?)
  {
    var fired := Step(l, e).1;
    assert |fired| <= 1 && (|fired| == 1 ==> fired[1..] == []);
  }

  /** Every stop is passed on. */
  lemma {:induction false} StopsAreDue(l: Limiter, es: seq<Event>)
    ensures Stops(Run(l, es).1) == DueStops(l.handler, es)
    decreases |es|
  {
    if es != [] {
      var (next, fired) := Step(l, es[0]);
      StepStops(l, es[0]);
      StopsAreDue(next, es[1..]);
      StopsConcat(fired, Run(next, es[1..]).1);
    }
  }

  /** n times a non-emergency start and then an emergency one. */
  function Alternating(n: nat): seq<Event> {
    if n == 0 then [] else [Requested(Start(false, false)), Requested(Start(true, false))] + Alternating(n - 1)
  }

  /** The timer does not limit emergencies: while it runs, each emergency start that follows a non-emergency one
      is passed on, so the number of requests is needed in the bound. */
  lemma {:induction false} AlternationIsNotLimited(l: Limiter, n: nat)
    requires Timed(l) && l.handler
    ensures var es := Alternating(n);
            Expiries(es) == 0 && CalmRequests(es) == n && Starts(Run(l, es).1) >= n
    decreases n
  {
    if n > 0 {
      var calm, emergency := Requested(Start(false, false)), Requested(Start(true, false));
      var es, rest := Alternating(n), Alternating(n - 1);
      assert es[1..] == [emergency] + rest && es[1..][1..] == rest;
      var (l1, f1) := Step(l, calm);
      var (l2, f2) := Step(l1, emergency);
      assert f2 == [FiredStart(true)] && f2[1..] == [];
      AlternationIsNotLimited(l2, n - 1);
      StartsConcat(f2, Run(l2, rest).1);
      StartsConcat(f1, f2 + Run(l2, rest).1);
    }
  }

  // ---------------------------------------------------------------- the adapter as an object

  class OdcpiTimer {
    var mActive: bool

    constructor ()
      ensures !mActive
    {
      mActive := false;
    }

    method StartTimer()
      modifies this
      ensures mActive
    {
      mActive := true;
    }

    method StopTimer()
      modifies this
      ensures !mActive
    {
      mActive := false;
    }

    method RestartTimer()
      modifies this
      ensures mActive
    {
      StopTimer();
      StartTimer();
    }
  }

  class GnssAdapter {
    var requestActive: bool
    var civicAddressActive: bool
    const mOdcpiTimer: OdcpiTimer
    var lastIsEmergency: bool
    var hasOdcpiRequestCb: bool
    var hasAddressRequestCb: bool

    function Current(): Limiter
      reads this, mOdcpiTimer
    {
      Limiter(requestActive, civicAddressActive, mOdcpiTimer.mActive, lastIsEmergency,
              hasOdcpiRequestCb, hasAddressRequestCb)
    }

    constructor ()
      ensures Current() == Quiet && fresh(mOdcpiTimer)
    {
      requestActive, civicAddressActive, lastIsEmergency := false, false, false;
      hasOdcpiRequestCb, hasAddressRequestCb := false, false;
      mOdcpiTimer := new OdcpiTimer();
    }

    method RequestOdcpi(request: Request) returns (fired: seq<Fired>)
      modifies this, mOdcpiTimer
      ensures (Current(), fired) == Step(old(Current()), Requested(request))
    {
      fired := [];
      if !hasOdcpiRequestCb {
        return;
      }
      match request
      case Start(isEmergency, isCivicAddressRequired) =>
        if !requestActive && !mOdcpiTimer.mActive {
          fired := [FiredStart(isEmergency)];
          requestActive := true;
          mOdcpiTimer.StartTimer();
        } else if !lastIsEmergency && isEmergency {
          fired := [FiredStart(isEmergency)];
          requestActive := true;
          if mOdcpiTimer.mActive {
            mOdcpiTimer.RestartTimer();
          } else {
            mOdcpiTimer.StartTimer();
          }
        } else if !requestActive && mOdcpiTimer.mActive {
          requestActive := true;
        }
        lastIsEmergency := isEmergency;
        if hasAddressRequestCb && isCivicAddressRequired {
          civicAddressActive := true;
        }
      case Stop(_) =>
        fired := [FiredStop];
        requestActive, civicAddressActive := false, false;
    }

    method OdcpiTimerExpire() returns (fired: seq<Fired>)
      modifies mOdcpiTimer
      ensures (Current(), fired) == Step(old(Current()), TimerExpired)
    {
      if requestActive {
        fired := [FiredStart(lastIsEmergency)];
        mOdcpiTimer.RestartTimer();
      } else {
        fired := [];
        mOdcpiTimer.StopTimer();
      }
    }

    method RestartSessions()
      modifies this
      ensures (Current(), []) == Step(old(Current()), EngineRestart)
    {
      requestActive, civicAddressActive := false, false;
    }
  }
}
