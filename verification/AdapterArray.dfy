/** The adapters registered with LocApiBase (gps/core/LocApiBase.cpp): a fixed array that is kept without holes,
    so that a broadcast can stop at the first null. */
module AdapterArray {

  const MAX_ADAPTERS := 10

  type Adapter = nat
  const NULL: Adapter := 0

  /** Messages for the modem thread; an open without an adapter re-registers the event mask. */
  datatype Msg = Open(adapter: Adapter) | Reopen | Close

  type Bit = nat

  // ---------------------------------------------------------------- the registered adapters as a list

  predicate Registered(s: seq<Adapter>) {
    && |s| <= MAX_ADAPTERS && NULL !in s
    && forall i, j | 0 <= i < j < |s| :: s[i] != s[j]
  }

  function IndexOf(s: seq<Adapter>, a: Adapter): (i: nat)
    ensures i <= |s| && (i < |s| ==> s[i] == a)
    ensures forall j | 0 <= j < i :: s[j] != a
  {
    if s == [] || s[0] == a then 0 else 1 + IndexOf(s[1..], a)
  }

  function Add(s: seq<Adapter>, a: Adapter): (seq<Adapter>, seq<Msg>) {
    if a == NULL || a in s || |s| >= MAX_ADAPTERS then (s, []) else (s + [a], [Open(a)])
  }

  /** The last adapter takes the place of the removed one. */
  function Remove(s: seq<Adapter>, a: Adapter): (seq<Adapter>, seq<Msg>) {
    var i := IndexOf(s, a);
    if a == NULL || i == |s| then (s, [])
    else (s[i := s[|s| - 1]][..|s| - 1], [if |s| == 1 then Close else Reopen])
  }

  datatype Event = AddAdapter(adapter: Adapter) | RemoveAdapter(adapter: Adapter)

  function Step(s: seq<Adapter>, e: Event): (seq<Adapter>, seq<Msg>) {
    match e
    case AddAdapter(a) => Add(s, a)
    case RemoveAdapter(a) => Remove(s, a)
  }

  function Run(s: seq<Adapter>, es: seq<Event>): (seq<Adapter>, seq<Msg>)
    decreases |es|
  {
    if es == [] then (s, [])
    else
      var (next, sent) := Step(s, es[0]);
      var (end, more) := Run(next, es[1..]);
      (end, sent + more)
  }

  function Members(s: seq<Adapter>): set<Adapter> {
    set a <- s
  }

  /** The list is the set of adapters, as far as there is room. */
  function SetStep(m: set<Adapter>, e: Event): set<Adapter> {
    match e
    case AddAdapter(a) => if a == NULL || |m| >= MAX_ADAPTERS then m else m + {a}
    case RemoveAdapter(a) => m - {a}
  }

  function SetRun(m: set<Adapter>, es: seq<Event>): set<Adapter>
    decreases |es|
  {
    if es == [] then m else SetRun(SetStep(m, es[0]), es[1..])
  }

  /** Whether the modem is open after the messages. */
  function ModemOpen(isOpen: bool, msgs: seq<Msg>): bool
    decreases |msgs|
  {
    if msgs == [] then isOpen else ModemOpen(!msgs[0].Close?, msgs[1..])
  }

  lemma {:induction false} MembersSize(s: seq<Adapter>)
    requires forall i, j | 0 <= i < j < |s| :: s[i] != s[j]
    ensures |Members(s)| == |s|
  {
    if s != [] {
      var rest := s[..|s| - 1];
      MembersSize(rest);
      assert Members(s) == Members(rest) + {s[|s| - 1]} by {
        assert s == rest + [s[|s| - 1]];
      }
    }
  }

  lemma AddRefines(s: seq<Adapter>, a: Adapter)
    requires Registered(s)
    ensures Registered(Add(s, a).0)
    ensures Members(Add(s, a).0) == SetStep(Members(s), AddAdapter(a))
  {
    MembersSize(s);
  }

  lemma RemoveRefines(s: seq<Adapter>, a: Adapter)
    requires Registered(s)
    ensures Registered(Remove(s, a).0)
    ensures Members(Remove(s, a).0) == SetStep(Members(s), RemoveAdapter(a))
  {
    var i := IndexOf(s, a);
    if i < |s| {
      var r := Remove(s, a).0;
      forall b ensures b in r <==> b in s && b != a {
        if b in s && b != a {
          var k :| 0 <= k < |s| && s[k] == b;
          assert r[if k == |s| - 1 then i else k] == b;
        }
        if b in r {
          var k :| 0 <= k < |r| && r[k] == b;
          assert b == s[if k == i then |s| - 1 else k];
        }
      }
    }
  }

  lemma {:induction false} ModemOpenConcat(isOpen: bool, a: seq<Msg>, b: seq<Msg>)
    ensures ModemOpen(isOpen, a + b) == ModemOpen(ModemOpen(isOpen, a), b)
    decreases |a|
  {
    if a == [] {
      assert a + b == b;
    } else {
      assert (a + b)[1..] == a[1..] + b;
      ModemOpenConcat(!a[0].Close?, a[1..], b);
    }
  }

  lemma StepKeepsRegistered(s: seq<Adapter>, e: Event)
    requires Registered(s)
    ensures var (next, msgs) := Step(s, e);
            && Registered(next) && Members(next) == SetStep(Members(s), e)
            && (ModemOpen(s != [], msgs) <==> next != [])
  {
    match e {
      case AddAdapter(a) => AddRefines(s, a);
      case RemoveAdapter(a) => RemoveRefines(s, a);
    }
    var msgs := Step(s, e).1;
    assert |msgs| == 1 ==> msgs[1..] == [];
  }

  /** In every run the array stays free of holes and duplicates, holds the registered set, and the modem is open
      exactly while some adapter is registered. */
  lemma {:induction false} RunKeepsRegistered(s: seq<Adapter>, es: seq<Event>)
    requires Registered(s)
    ensures var (end, msgs) := Run(s, es);
            && Registered(end) && Members(end) == SetRun(Members(s), es)
            && (ModemOpen(s != [], msgs) <==> end != [])
    decreases |es|
  {
    if es != [] {
      var (next, sent) := Step(s, es[0]);
      StepKeepsRegistered(s, es[0]);
      RunKeepsRegistered(next, es[1..]);
      ModemOpenConcat(s != [], sent, Run(next, es[1..]).1);
    }
  }

  // ---------------------------------------------------------------- who is told of

  function Opens(msgs: seq<Msg>, a: Adapter): nat {
    if msgs == [] then 0 else (if msgs[0] == Open(a) then 1 else 0) + Opens(msgs[1..], a)
  }

  /** Messages that follow a removal. */
  function Others(msgs: seq<Msg>): nat {
    if msgs == [] then 0 else (if msgs[0].Open? then 0 else 1) + Others(msgs[1..])
  }

  /** How often the adapter came to be registered. */
  function Joins(m: set<Adapter>, es: seq<Event>, a: Adapter): nat
    decreases |es|
  {
    if es == [] then 0
    else (if a !in m && a in SetStep(m, es[0]) then 1 else 0) + Joins(SetStep(m, es[0]), es[1..], a)
  }

  /** How often some adapter ceased to be. */
  function Leaves(m: set<Adapter>, es: seq<Event>): nat
    decreases |es|
  {
    if es == [] then 0 else (if m <= SetStep(m, es[0]) then 0 else 1) + Leaves(SetStep(m, es[0]), es[1..])
  }

  lemma {:induction false} CountsConcat(x: seq<Msg>, y: seq<Msg>, a: Adapter)
    ensures Opens(x + y, a) == Opens(x, a) + Opens(y, a) && Others(x + y) == Others(x) + Others(y)
    decreases |x|
  {
    if x == [] {
      assert x + y == y;
    } else {
      assert (x + y)[1..] == x[1..] + y;
      CountsConcat(x[1..], y, a);
    }
  }

  lemma StepTells(s: seq<Adapter>, e: Event, a: Adapter)
    requires Registered(s)
    ensures var (m, msgs) := (Members(s), Step(s, e).1);
            && Opens(msgs, a) == (if a !in m && a in SetStep(m, e) then 1 else 0)
            && Others(msgs) == (if m <= SetStep(m, e) then 0 else 1)
  {
    MembersSize(s);
    var msgs := Step(s, e).1;
    assert |msgs| <= 1 && (|msgs| == 1 ==> msgs[1..] == []);
    if e.RemoveAdapter? && e.adapter in s {
      assert e.adapter in Members(s);
    }
  }

  /** In every run each adapter is the subject of exactly one open message for every time that it joined, the first
      or not, and there is exactly one other message for every removal. */
  lemma {:induction false} EveryJoinIsOpened(s: seq<Adapter>, es: seq<Event>, a: Adapter)
    requires Registered(s)
    ensures Opens(Run(s, es).1, a) == Joins(Members(s), es, a) && Others(Run(s, es).1) == Leaves(Members(s), es)
    decreases |es|
  {
    if es != [] {
      var (next, sent) := Step(s, es[0]);
      StepKeepsRegistered(s, es[0]);
      StepTells(s, es[0], a);
      EveryJoinIsOpened(next, es[1..], a);
      CountsConcat(sent, Run(next, es[1..]).1, a);
    }
  }

  /** There is room for ten. */
  lemma TenFit(s: seq<Adapter>, a: Adapter)
    requires Registered(s)
    ensures a in Add(s, a).0 <==> a != NULL && (a in s || |s| < 10)
    ensures forall b | b != a :: b in Add(s, a).0 <==> b in s
  {
  }

  // ---------------------------------------------------------------- the array

  class LocApiBase {
    const mLocAdapters: array<Adapter>
    const mExcludedMask: set<Bit>

    function Adapters(): seq<Adapter>
      reads mLocAdapters
    {
      mLocAdapters[..IndexOf(mLocAdapters[..], NULL)]
    }

    ghost predicate Valid()
      reads mLocAdapters
    {
      && mLocAdapters.Length == MAX_ADAPTERS
      && Registered(Adapters())
      && forall i | |Adapters()| <= i < MAX_ADAPTERS :: mLocAdapters[i] == NULL
    }

    constructor (excludedMask: set<Bit>)
      ensures Valid() && fresh(mLocAdapters) && Adapters() == [] && mExcludedMask == excludedMask
    {
      mExcludedMask := excludedMask;
      mLocAdapters := new Adapter[MAX_ADAPTERS](_ => NULL);
      new;
      assert IndexOf(mLocAdapters[..], NULL) == 0 by {
        assert mLocAdapters[..][0] == NULL;
      }
    }

    method AddAdapter(adapter: Adapter) returns (msgs: seq<Msg>)
      requires Valid()
      modifies mLocAdapters
      ensures Valid() && (Adapters(), msgs) == Add(old(Adapters()), adapter)
    {
      msgs := [];
      var n := |Adapters()|;
      ghost var s := Adapters();
      var i := 0;
      while i < MAX_ADAPTERS && mLocAdapters[i] != adapter
        invariant 0 <= i <= MAX_ADAPTERS
        invariant mLocAdapters[..] == old(mLocAdapters[..]) && msgs == []
        invariant i <= n && forall k | 0 <= k < i :: s[k] != adapter
      {
        if mLocAdapters[i] == NULL {
          mLocAdapters[i] := adapter;
          msgs := [Open(adapter)];
          PrefixIs(mLocAdapters[..], s + [adapter]);
          return;
        }
        i := i + 1;
      }
    }

    method RemoveAdapter(adapter: Adapter) returns (msgs: seq<Msg>)
      requires Valid()
      modifies mLocAdapters
      ensures Valid() && (Adapters(), msgs) == Remove(old(Adapters()), adapter)
    {
      ghost var s := Adapters();
      var i := 0;
      while i < MAX_ADAPTERS && mLocAdapters[i] != NULL
        invariant 0 <= i <= |s|
        invariant mLocAdapters[..] == old(mLocAdapters[..])
        invariant forall k | 0 <= k < i :: s[k] != adapter
      {
        if mLocAdapters[i] == adapter {
          assert IndexOf(s, adapter) == i;
          i := CloseGap(i);
          return [if i == 0 then Close else Reopen];
        }
        i := i + 1;
      }
      assert adapter !in s;
      return [];
    }

    /** Empties slot j and moves the last used one there; returns the slot that became free. */
    method CloseGap(j: nat) returns (i: nat)
      requires Valid() && j < |Adapters()|
      modifies mLocAdapters
      ensures i == |old(Adapters())| - 1
      ensures Valid() && Adapters() == old(Adapters())[j := old(Adapters())[i]][..i]
    {
      ghost var all: seq<Adapter>, s: seq<Adapter> := mLocAdapters[..], Adapters();
      mLocAdapters[j] := NULL;
      i := j + 1;
      while i < MAX_ADAPTERS && mLocAdapters[i] != NULL
        invariant j < i <= |s|
        invariant mLocAdapters[..] == all[j := NULL]
      {
        i := i + 1;
      }
      i := i - 1;
      assert i == |s| - 1;
      mLocAdapters[j] := mLocAdapters[i];
      mLocAdapters[i] := NULL;
      LastIntoHole(all, s, j);
      assert mLocAdapters[..] == all[j := s[i]][i := NULL];
    }

    /** getEvtMask: each registered adapter is asked once, in order. */
    method GetEvtMask(masks: map<Adapter, set<Bit>>) returns (mask: set<Bit>, asked: seq<Adapter>)
      requires Valid() && forall a <- Adapters() :: a in masks
      ensures asked == Adapters()
      ensures forall b :: b in mask <==> b !in mExcludedMask && exists a <- Adapters() :: b in masks[a]
    {
      mask, asked := {}, [];
      var i := 0;
      while i < MAX_ADAPTERS && mLocAdapters[i] != NULL
        invariant 0 <= i <= |Adapters()|
        invariant asked == Adapters()[..i]
        invariant forall b :: b in mask <==> exists a <- asked :: b in masks[a]
      {
        asked := asked + [mLocAdapters[i]];
        mask := mask + masks[mLocAdapters[i]];
        i := i + 1;
      }
      mask := mask - mExcludedMask;
    }
  }

  lemma LastIntoHole(all: seq<Adapter>, s: seq<Adapter>, j: nat)
    requires Registered(s) && |all| == MAX_ADAPTERS && j < |s| && all[..|s|] == s
    requires forall i | |s| <= i < |all| :: all[i] == NULL
    ensures var r := all[j := s[|s| - 1]][|s| - 1 := NULL];
            && r[..IndexOf(r, NULL)] == s[j := s[|s| - 1]][..|s| - 1]
            && Registered(s[j := s[|s| - 1]][..|s| - 1])
            && forall i | |s| - 1 <= i < |r| :: r[i] == NULL
  {
    RemoveRefines(s, s[j]);
    PrefixIs(all[j := s[|s| - 1]][|s| - 1 := NULL], s[j := s[|s| - 1]][..|s| - 1]);
  }

  lemma PrefixIs(all: seq<Adapter>, prefix: seq<Adapter>)
    requires |prefix| <= |all| && all[..|prefix|] == prefix && NULL !in prefix
    requires |prefix| < |all| ==> all[|prefix|] == NULL
    ensures all[..IndexOf(all, NULL)] == prefix
  {
    forall j | 0 <= j < |prefix| ensures all[j] != NULL {
      assert all[j] == all[..|prefix|][j];
    }
  }
}
