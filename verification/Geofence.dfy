/** The two indexes of gps/geofence/GeofenceAdapter.cpp: modem id to fence, and client key to modem id. Of a
    fence only its key matters here. */
module Geofence {
  import opened SetWalk

  type Client = nat
  type HwId = nat

  datatype Key = Key(client: Client, id: nat)

  /** mGeofences (the key in each object), mGeofenceIds, the removals sent for departing clients that the modem has
      not answered yet, and the keys of all fences that engine restarts asked it to add again. */
  datatype Index = Index(fences: map<HwId, Key>, ids: map<Key, HwId>, erasing: set<HwId>, readding: set<Key>)

  const Empty := Index(map[], map[], {}, {})

  datatype Event =
    | Added(key: Key, hwId: HwId)
    | Removed(hwId: HwId)
    | StopClient(client: Client)
    | EraseAnswered(hwId: HwId, ok: bool)
    | EngineRestart
    | ReAdded(key: Key, hwId: HwId)

  // ---------------------------------------------------------------- what each message does

  function Save(x: Index, key: Key, hwId: HwId): Index {
    x.(fences := x.fences[hwId := key], ids := x.ids[key := hwId])
  }

  function RemoveItem(x: Index, hwId: HwId): Index {
    if hwId in x.fences && x.fences[hwId] in x.ids
    then x.(fences := x.fences - {hwId}, ids := x.ids - {x.fences[hwId]})
    else x
  }

  function KeysOf(keys: set<Key>, client: Client): set<Key> {
    set k | k in keys && k.client == client
  }

  function HwIdsOf(ids: map<Key, HwId>, keys: set<Key>): set<HwId> {
    set k | k in keys && k in ids :: ids[k]
  }

  /** stopClientSessions(client, true): the keys go at once, the objects when the modem answers. */
  function Stop(x: Index, client: Client): Index {
    var keys := KeysOf(x.ids.Keys, client);
    x.(ids := x.ids - keys, erasing := x.erasing + HwIdsOf(x.ids, keys))
  }

  function Erased(x: Index, hwId: HwId, ok: bool): Index {
    x.(fences := if ok then x.fences - {hwId} else x.fences, erasing := x.erasing - {hwId})
  }

  /** restartGeofences: both indexes start afresh, and the modem is asked to add every fence again. */
  function Restarted(x: Index): Index {
    if x.fences == map[] then x else x.(fences := map[], ids := map[], readding := x.readding + x.fences.Values)
  }

  /** The modem answers what it was asked; an addition, perhaps repeatedly, as one key may be asked for twice. */
  predicate CanHappen(x: Index, e: Event) {
    (e.EraseAnswered? ==> e.hwId in x.erasing) && (e.ReAdded? ==> e.key in x.readding)
  }

  function Step(x: Index, e: Event): Index {
    match e
    case Added(key, hwId) => Save(x, key, hwId)
    case Removed(hwId) => RemoveItem(x, hwId)
    case StopClient(client) => Stop(x, client)
    case EraseAnswered(hwId, ok) => Erased(x, hwId, ok)
    case EngineRestart => Restarted(x)
    case ReAdded(key, hwId) => Save(x, key, hwId)
  }

  // ---------------------------------------------------------------- the index is consistent

  /** Every key leads to an object that carries this key. */
  ghost predicate Consistent(x: Index) {
    forall k <- x.ids :: x.ids[k] in x.fences && x.fences[x.ids[k]] == k
  }

  /** No key leads to an object that is about to be erased. */
  ghost predicate Undisturbed(x: Index) {
    forall k <- x.ids :: x.ids[k] !in x.erasing
  }

  ghost predicate Unused(x: Index, key: Key, hwId: HwId) {
    hwId !in x.erasing && forall k <- x.ids :: k != key ==> x.ids[k] != hwId
  }

  /** What the modem must observe: an id it hands out is neither in use under another key nor waiting for the
      answer to a removal. */
  ghost predicate Proper(x: Index, e: Event) {
    match e
    case Added(key, hwId) => Unused(x, key, hwId)
    case ReAdded(key, hwId) => Unused(x, key, hwId)
    case _ => true
  }

  lemma SaveKeepsIndexIff(x: Index, key: Key, hwId: HwId)
    requires Consistent(x) && Undisturbed(x)
    ensures Consistent(Save(x, key, hwId)) && Undisturbed(Save(x, key, hwId)) <==> Unused(x, key, hwId)
  {
    var next := Save(x, key, hwId);
    assert key in next.ids && next.ids[key] == hwId;
    if k :| k in x.ids && k != key && x.ids[k] == hwId {
      assert k in next.ids && next.fences[next.ids[k]] == key;
    }
  }

  /** Every message keeps the index consistent and safe from late answers, exactly if the modem behaves. */
  lemma StepKeepsIndexIff(x: Index, e: Event)
    requires Consistent(x) && Undisturbed(x) && CanHappen(x, e)
    ensures Consistent(Step(x, e)) && Undisturbed(Step(x, e)) <==> Proper(x, e)
  {
    var next := Step(x, e);
    match e {
      case Added(key, hwId) => SaveKeepsIndexIff(x, key, hwId);
      case ReAdded(key, hwId) => SaveKeepsIndexIff(x, key, hwId);
      case Removed(hwId) =>
        forall k | k in next.ids
          ensures next.ids[k] in next.fences && next.fences[next.ids[k]] == k && next.ids[k] !in next.erasing
        {
          assert k in x.ids;
        }
      case StopClient(client) =>
        forall k | k in next.ids
          ensures next.ids[k] in next.fences && next.fences[next.ids[k]] == k && next.ids[k] !in next.erasing
        {
          assert k in x.ids;
          forall other | other in KeysOf(x.ids.Keys, client) ensures x.ids[other] != x.ids[k] {
            assert x.fences[x.ids[other]] == other;
          }
        }
      case EraseAnswered(hwId, ok) =>
      case EngineRestart =>
    }
  }

  ghost predicate Orderly(x: Index, es: seq<Event>)
    decreases |es|
  {
    es == [] || (CanHappen(x, es[0]) && Proper(x, es[0]) && Orderly(Step(x, es[0]), es[1..]))
  }

  function Run(x: Index, es: seq<Event>): Index
    decreases |es|
  {
    if es == [] then x else Run(Step(x, es[0]), es[1..])
  }

  lemma {:induction false} RunKeepsIndex(x: Index, es: seq<Event>)
    requires Consistent(x) && Undisturbed(x) && Orderly(x, es)
    ensures Consistent(Run(x, es)) && Undisturbed(Run(x, es))
    decreases |es|
  {
    if es != [] {
      StepKeepsIndexIff(x, es[0]);
      RunKeepsIndex(Step(x, es[0]), es[1..]);
    }
  }

  /** In every reachable state, removals in flight included, each key leads to its own fence, so no two keys
      share one. */
  lemma ReachableIndexIsConsistent(es: seq<Event>, k: Key, other: Key)
    requires Orderly(Empty, es)
    ensures var x := Run(Empty, es);
            && Consistent(x)
            && (k in x.ids && other in x.ids && x.ids[k] == x.ids[other] ==> k == other)
  {
    RunKeepsIndex(Empty, es);
  }

  /** That new ids are not in mGeofences is not enough: a removal from before an engine restart, answered
      after it, erases the fence that got the same id. */
  lemma LateAnswerErasesNewFence()
    ensures var before := Run(Empty, [Added(Key(1, 1), 7), StopClient(1), EngineRestart]);
            && 7 !in before.fences
            && var x := Step(Step(before, Added(Key(2, 2), 7)), EraseAnswered(7, true));
               && CanHappen(Step(before, Added(Key(2, 2), 7)), EraseAnswered(7, true))
               && Key(2, 2) in x.ids && 7 !in x.fences && !Consistent(x)
  {
    var es := [Added(Key(1, 1), 7), StopClient(1), EngineRestart];
    var x1 := Step(Empty, es[0]);
    var x2 := Step(x1, es[1]);
    var x3 := Step(x2, es[2]);
    assert x1.ids == map[Key(1, 1) := 7];
    assert Key(1, 1) in KeysOf(x1.ids.Keys, 1);
    assert x1.ids[Key(1, 1)] == 7;
    assert 7 in x2.erasing;
    assert es[1..] == [StopClient(1), EngineRestart] && es[1..][1..] == [EngineRestart] && es[1..][1..][1..] == [];
    assert Run(x2, [EngineRestart]) == x3;
    assert Run(x1, es[1..]) == x3;
    var x := Step(Step(x3, Added(Key(2, 2), 7)), EraseAnswered(7, true));
    assert Key(2, 2) in x.ids && x.ids[Key(2, 2)] == 7;
  }

  // ---------------------------------------------------------------- removals in flight

  /** When a client stops, its keys go and a removal is in flight for each id they led to, besides those that were; the
      fences themselves stay. */
  lemma StopSendsRemovals(x: Index, client: Client)
    ensures var next := Step(x, StopClient(client));
            && next.fences == x.fences && next.readding == x.readding
            && (forall k :: k in next.ids <==> k in x.ids && k.client != client)
            && (forall k <- next.ids :: next.ids[k] == x.ids[k])
            && (forall h :: h in next.erasing <==>
                  h in x.erasing || exists k <- x.ids :: k.client == client && x.ids[k] == h)
  {
    var keys := KeysOf(x.ids.Keys, client);
    forall k | k in x.ids && k.client == client ensures x.ids[k] in HwIdsOf(x.ids, keys) {
      assert k in keys;
    }
  }

  /** The answer ends it: the fence goes exactly if the modem removed it, and nothing else changes. */
  lemma AnswerEndsRemoval(x: Index, hwId: HwId, ok: bool)
    ensures var next := Step(x, EraseAnswered(hwId, ok));
            && hwId !in next.erasing && (forall h | h != hwId :: h in next.erasing <==> h in x.erasing)
            && (hwId in next.fences <==> hwId in x.fences && !ok)
            && (forall h | h != hwId :: h in next.fences <==> h in x.fences)
            && (forall h <- next.fences :: next.fences[h] == x.fences[h])
            && next.ids == x.ids && next.readding == x.readding
  {
  }

  /** An engine restart asks again for the fence of every object, besides those asked for before, and answers to earlier
      removals may still come. */
  lemma RestartAsksForAll(x: Index, k: Key)
    ensures var next := Step(x, EngineRestart);
            && next.fences == map[] && (Consistent(x) ==> next.ids == map[]) && next.erasing == x.erasing
            && (k in next.readding <==> k in x.readding || exists h <- x.fences :: x.fences[h] == k)
  {
    assert Consistent(x) && x.fences == map[] ==> x.ids.Keys == {};
  }

  // ---------------------------------------------------------------- what a restart brings back

  predicate OnlyReAdditions(es: seq<Event>) {
    forall e <- es :: e.ReAdded?
  }

  function KeysReAdded(es: seq<Event>): set<Key>
    requires OnlyReAdditions(es)
  {
    set e | e in es :: e.key
  }

  lemma {:induction false} AnswersAddKeys(x: Index, es: seq<Event>)
    requires OnlyReAdditions(es)
    ensures Run(x, es).ids.Keys == x.ids.Keys + KeysReAdded(es)
    decreases |es|
  {
    if es != [] {
      AnswersAddKeys(Step(x, es[0]), es[1..]);
      assert es == [es[0]] + es[1..];
      assert KeysReAdded(es) == {es[0].key} + KeysReAdded(es[1..]);
    }
  }

  /** When the modem has added all fences again, the keys are those of all objects. So a restart keeps the keys
      exactly if no object is left of a client that is gone, its removal being in flight or refused. */
  lemma RestartKeepsKeysIff(x: Index, es: seq<Event>)
    requires Consistent(x) && OnlyReAdditions(es) && KeysReAdded(es) == x.fences.Values
    ensures var y := Run(Step(x, EngineRestart), es);
            && y.ids.Keys == x.fences.Values >= x.ids.Keys
            && (y.ids.Keys == x.ids.Keys <==> forall hwId <- x.fences :: x.fences[hwId] in x.ids)
  {
    AnswersAddKeys(Step(x, EngineRestart), es);
    forall k | k in x.ids ensures k in x.fences.Values {
      assert x.fences[x.ids[k]] == k;
    }
    if x.fences == map[] {
      assert x.fences.Values == {};
    }
  }

  /** For one, the fences of a client that left right before a restart come back with it: for every client, fence and
      new id, and whatever the modem answers to the removal later, if the id is a new one. */
  lemma StoppedClientComesBack(x: Index, key: Key, hwId: HwId, ok: bool)
    requires Consistent(x) && key in x.ids && hwId != x.ids[key]
    ensures var y := Step(Step(x, StopClient(key.client)), EngineRestart);
            && key !in y.ids && CanHappen(y, ReAdded(key, hwId))
            && var z := Step(y, ReAdded(key, hwId));
               && CanHappen(z, EraseAnswered(x.ids[key], ok))
               && var last := Step(z, EraseAnswered(x.ids[key], ok));
                  key in last.ids && last.ids[key] in last.fences && last.fences[last.ids[key]] == key
  {
    assert key in KeysOf(x.ids.Keys, key.client);
    assert x.fences[x.ids[key]] == key;
  }

  // ---------------------------------------------------------------- does stopClientSessions end?

  /** Its loop: the keys in map order, the iterator, and the removals sent. */
  datatype Loop = Loop(keys: seq<Key>, i: nat, sent: nat)

  function Turn(l: Loop, client: Client, erase: bool): Loop {
    if l.i >= |l.keys| then l
    else if l.keys[l.i].client != client then l.(i := l.i + 1)
    else if erase then Loop(l.keys[..l.i] + l.keys[l.i + 1..], l.i, l.sent + 1)
    else l.(sent := l.sent + 1)
  }

  function Turns(l: Loop, client: Client, erase: bool, n: nat): Loop
    decreases n
  {
    if n == 0 then l else Turns(Turn(l, client, erase), client, erase, n - 1)
  }

  predicate Ended(l: Loop) {
    l.i >= |l.keys|
  }

  predicate EndsAfter(keys: seq<Key>, client: Client, erase: bool, n: nat) {
    Ended(Turns(Loop(keys, 0, 0), client, erase, n))
  }

  predicate Owns(keys: seq<Key>, client: Client) {
    exists k <- keys :: k.client == client
  }

  lemma {:induction false} Advances(l: Loop, client: Client, erase: bool)
    requires l.i <= |l.keys| && (erase || !Owns(l.keys, client))
    ensures Ended(Turns(l, client, erase, |l.keys| - l.i))
    decreases |l.keys| - l.i
  {
    if l.i < |l.keys| {
      assert l.keys[l.i] in l.keys;
      Advances(Turn(l, client, erase), client, erase);
    }
  }

  lemma {:induction false} StaysBefore(l: Loop, client: Client, j: nat, n: nat)
    requires l.i <= j < |l.keys| && l.keys[j].client == client
    ensures !Ended(Turns(l, client, false, n))
    decreases n
  {
    if n > 0 {
      StaysBefore(Turn(l, client, false), client, j, n - 1);
    }
  }

  /** The loop ends if and only if it erases or the client has no fence: without erasing, the iterator is not
      advanced past the client's first one. */
  lemma StopEndsIff(keys: seq<Key>, client: Client, erase: bool)
    ensures (exists n: nat :: EndsAfter(keys, client, erase, n)) <==> erase || !Owns(keys, client)
  {
    var l := Loop(keys, 0, 0);
    if erase || !Owns(keys, client) {
      var n: nat := |keys|;
      Advances(l, client, erase);
      assert EndsAfter(keys, client, erase, n);
    } else {
      var j :| 0 <= j < |keys| && keys[j].client == client;
      forall n: nat ensures !EndsAfter(keys, client, erase, n) {
        StaysBefore(l, client, j, n);
      }
    }
  }

  function Owned(keys: seq<Key>, client: Client): nat {
    if keys == [] then 0 else (if keys[0].client == client then 1 else 0) + Owned(keys[1..], client)
  }

  lemma {:induction false} OwnedConcat(a: seq<Key>, b: seq<Key>, client: Client)
    ensures Owned(a + b, client) == Owned(a, client) + Owned(b, client)
  {
    if a == [] {
      assert a + b == b;
    } else {
      assert (a + b)[1..] == a[1..] + b;
      OwnedConcat(a[1..], b, client);
    }
  }

  lemma OwnedWithout(keys: seq<Key>, i: nat, client: Client)
    requires i < |keys|
    ensures Owned(keys, client) ==
            Owned(keys[..i] + keys[i + 1..], client) + (if keys[i].client == client then 1 else 0)
  {
    assert keys == keys[..i] + ([keys[i]] + keys[i + 1..]);
    assert ([keys[i]] + keys[i + 1..])[1..] == keys[i + 1..];
    OwnedConcat(keys[..i], [keys[i]] + keys[i + 1..], client);
    OwnedConcat(keys[..i], keys[i + 1..], client);
  }

  /** While it erases, each turn that removes a key of the client sends one removal, and other keys stay. */
  lemma {:induction false} ErasingSendsEach(l: Loop, client: Client, n: nat)
    ensures var end := Turns(l, client, true, n);
            && end.sent + Owned(end.keys, client) == l.sent + Owned(l.keys, client)
            && |l.keys| - |end.keys| == end.sent - l.sent
    decreases n
  {
    if n > 0 {
      if l.i < |l.keys| {
        OwnedWithout(l.keys, l.i, client);
      }
      ErasingSendsEach(Turn(l, client, true), client, n - 1);
    }
  }

  lemma {:induction false} StuckSends(l: Loop, client: Client, n: nat)
    requires l.i < |l.keys| && l.keys[l.i].client == client
    ensures Turns(l, client, false, n).sent == l.sent + n
    decreases n
  {
    if n > 0 {
      StuckSends(Turn(l, client, false), client, n - 1);
    }
  }

  /** The iterator has passed no key of the client that is still there. */
  lemma {:induction false} NonePassed(l: Loop, client: Client, n: nat)
    requires l.i <= |l.keys| && forall j | 0 <= j < l.i :: l.keys[j].client != client
    ensures var end := Turns(l, client, true, n);
            end.i <= |end.keys| && forall j | 0 <= j < end.i :: end.keys[j].client != client
    decreases n
  {
    if n > 0 {
      NonePassed(Turn(l, client, true), client, n - 1);
    }
  }

  lemma {:induction false} NoneOwned(keys: seq<Key>, client: Client)
    requires forall j | 0 <= j < |keys| :: keys[j].client != client
    ensures Owned(keys, client) == 0
  {
    if keys != [] {
      NoneOwned(keys[1..], client);
    }
  }

  /** So when it has ended, it has sent exactly as many removals as the client has fences; without erasing it sends
      another one in every turn, for ever, once it has come to a fence of the client. */
  lemma StopSendsAsMany(keys: seq<Key>, client: Client, n: nat)
    ensures var end := Turns(Loop(keys, 0, 0), client, true, n); Ended(end) ==> end.sent == Owned(keys, client)
    ensures keys != [] && keys[0].client == client ==> Turns(Loop(keys, 0, 0), client, false, n).sent == n
  {
    ErasingSendsEach(Loop(keys, 0, 0), client, n);
    NonePassed(Loop(keys, 0, 0), client, n);
    var end := Turns(Loop(keys, 0, 0), client, true, n);
    if Ended(end) {
      NoneOwned(end.keys, client);
    }
    if keys != [] && keys[0].client == client {
      StuckSends(Loop(keys, 0, 0), client, n);
    }
  }

  // ---------------------------------------------------------------- breach reports

  /** The ids told to one client, in the order of the report. */
  function IdsFor(fences: map<HwId, Key>, hwIds: seq<HwId>, client: Client): seq<nat> {
    if hwIds == [] then []
    else
      var (front, last) := (IdsFor(fences, hwIds[..|hwIds| - 1], client), hwIds[|hwIds| - 1]);
      if last in fences && fences[last].client == client then front + [fences[last].id] else front
  }

  /** The places in the report that are the client's. */
  function Places(fences: map<HwId, Key>, hwIds: seq<HwId>, client: Client): seq<nat> {
    if hwIds == [] then []
    else
      var (front, n) := (Places(fences, hwIds[..|hwIds| - 1], client), |hwIds| - 1);
      if hwIds[n] in fences && fences[hwIds[n]].client == client then front + [n] else front
  }

  /** A client hears of exactly the fences in the report that are its own, in the order of the report: the
      places are increasing, they are all the places with a fence of the client, and the ids are theirs. */
  lemma {:induction false} BreachReportIsExact(fences: map<HwId, Key>, hwIds: seq<HwId>, client: Client)
    ensures var places, ids := Places(fences, hwIds, client), IdsFor(fences, hwIds, client);
            && |ids| == |places| <= |hwIds|
            && (forall i, j | 0 <= i < j < |places| :: places[i] < places[j])
            && (forall p: nat ::
                  p in places <==> p < |hwIds| && hwIds[p] in fences && fences[hwIds[p]].client == client)
            && (forall i | 0 <= i < |ids| :: places[i] < |hwIds| && hwIds[places[i]] in fences
                                             && ids[i] == fences[hwIds[places[i]]].id)
  {
    if hwIds != [] {
      BreachReportIsExact(fences, hwIds[..|hwIds| - 1], client);
      var front := hwIds[..|hwIds| - 1];
      assert forall p | 0 <= p < |front| :: front[p] == hwIds[p];
    }
  }

  /** No place of the report goes to two clients. */
  lemma BreachGoesToOneClient(fences: map<HwId, Key>, hwIds: seq<HwId>, a: Client, b: Client, p: nat)
    requires p in Places(fences, hwIds, a) && p in Places(fences, hwIds, b)
    ensures a == b
  {
    BreachReportIsExact(fences, hwIds, a);
    BreachReportIsExact(fences, hwIds, b);
  }

  /** A successful removal: the fence and its key are gone and no breach report finds it, and everything else is as it
      was. A fence that no key leads to stays. */
  lemma RemovedIsGone(x: Index, hwId: HwId, hwIds: seq<HwId>, client: Client)
    requires Consistent(x)
    ensures var next := Step(x, Removed(hwId));
            && (hwId in x.fences && x.fences[hwId] in x.ids ==>
                  && hwId !in next.fences && x.fences[hwId] !in next.ids
                  && forall p <- Places(next.fences, hwIds, client) :: p < |hwIds| && hwIds[p] != hwId)
            && (forall h | h != hwId :: h in next.fences <==> h in x.fences)
            && (forall h <- next.fences :: h in x.fences && next.fences[h] == x.fences[h])
            && (forall k :: k in next.ids <==> k in x.ids && !(hwId in x.fences && x.fences[hwId] == k))
            && (forall k <- next.ids :: next.ids[k] == x.ids[k])
            && (hwId !in x.fences || x.fences[hwId] !in x.ids ==> next == x)
            && next.erasing == x.erasing && next.readding == x.readding
  {
    BreachReportIsExact(Step(x, Removed(hwId)).fences, hwIds, client);
  }

  datatype ClientData = ClientData(client: Client, hasBreachCb: bool)

  datatype Notification = Notification(client: Client, ids: seq<nat>)

  /** The notifications, in the order of the client table. */
  function Notifications(fences: map<HwId, Key>, hwIds: seq<HwId>, clients: seq<ClientData>): seq<Notification> {
    if clients == [] then []
    else
      var (front, c) := (Notifications(fences, hwIds, clients[..|clients| - 1]), clients[|clients| - 1]);
      var ids := IdsFor(fences, hwIds, c.client);
      if ids != [] && c.hasBreachCb then front + [Notification(c.client, ids)] else front
  }

  /** Who is notified: exactly the clients with a callback that have a fence in the report, each of its ids; and no
      client twice, if the table lists none twice. */
  lemma {:induction false} NotifiedAre(fences: map<HwId, Key>, hwIds: seq<HwId>, clients: seq<ClientData>)
    ensures var told := Notifications(fences, hwIds, clients);
            && (forall n :: n in told <==>
                  && n.ids == IdsFor(fences, hwIds, n.client) && n.ids != []
                  && ClientData(n.client, true) in clients)
            && ((forall i, j | 0 <= i < j < |clients| :: clients[i].client != clients[j].client) ==>
                  forall i, j | 0 <= i < j < |told| :: told[i].client != told[j].client)
  {
    if clients != [] {
      var (rest, c) := (clients[..|clients| - 1], clients[|clients| - 1]);
      NotifiedAre(fences, hwIds, rest);
      assert clients == rest + [c];
      forall n | n in Notifications(fences, hwIds, rest)
        ensures ClientData(n.client, true) in rest
      {
      }
    }
  }

  /** They are told in the order of the table. */
  lemma {:induction false} NotifiedInOrder(fences: map<HwId, Key>, hwIds: seq<HwId>, clients: seq<ClientData>, n: nat)
    requires n <= |clients|
    ensures Notifications(fences, hwIds, clients[..n]) <= Notifications(fences, hwIds, clients)
    decreases |clients|
  {
    if n == |clients| {
      assert clients[..n] == clients;
    } else {
      var rest := clients[..|clients| - 1];
      NotifiedInOrder(fences, hwIds, rest, n);
      assert rest[..n] == clients[..n];
    }
  }

  lemma StopOneMore(ids: map<Key, HwId>, done: set<Key>, key: Key, client: Client)
    requires key in ids && key !in done
    ensures var (before, after) := (KeysOf(done, client), KeysOf(done + {key}, client));
            && (key.client != client ==> after == before)
            && (key.client == client ==>
                  && key in ids - before && ids - after == ids - before - {key}
                  && HwIdsOf(ids, after) == HwIdsOf(ids, before) + {ids[key]})
  {
    var (before, after) := (KeysOf(done, client), KeysOf(done + {key}, client));
    if key.client == client {
      assert after == before + {key};
      assert ids - after == ids - before - {key};
    }
  }

  // ---------------------------------------------------------------- the adapter as an object

  class GeofenceAdapter {
    var mGeofences: map<HwId, Key>
    var mGeofenceIds: map<Key, HwId>
    var mClientData: seq<ClientData>

    /** The index, with the removals and additions in flight, which only the modem knows. */
    function Current(erasing: set<HwId>, readding: set<Key>): Index
      reads this
    {
      Index(mGeofences, mGeofenceIds, erasing, readding)
    }

    constructor ()
      ensures Current({}, {}) == Empty && mClientData == []
    {
      mGeofences, mGeofenceIds, mClientData := map[], map[], [];
    }

    method SaveGeofenceItem(client: Client, clientId: nat, hwId: HwId)
      modifies this`mGeofences, this`mGeofenceIds
      ensures Current({}, {}) == Step(old(Current({}, {})), Added(Key(client, clientId), hwId))
    {
      var key := Key(client, clientId);
      mGeofences := mGeofences[hwId := key];
      mGeofenceIds := mGeofenceIds[key := hwId];
    }

    method RemoveGeofenceItem(hwId: HwId)
      modifies this`mGeofences, this`mGeofenceIds
      ensures Current({}, {}) == Step(old(Current({}, {})), Removed(hwId))
    {
      if hwId in mGeofences {
        var key := mGeofences[hwId];
        if key in mGeofenceIds {
          mGeofenceIds := mGeofenceIds - {key};
          mGeofences := mGeofences - {hwId};
        }
      }
    }

    /** With `eraseSession`; without it the loop ends only for a client without fences, see StopEndsIff. */
    method StopClientSessions(client: Client, ghost erasing: set<HwId>) returns (removals: set<HwId>)
      modifies this`mGeofenceIds
      ensures Current(erasing + removals, {}) == Step(old(Current(erasing, {})), StopClient(client))
    {
      removals := {};
      var rest := mGeofenceIds.Keys;
      ghost var done: set<Key> := {};
      while rest != {}
        invariant done !! rest && done + rest == old(mGeofenceIds).Keys
        invariant mGeofenceIds == old(mGeofenceIds) - KeysOf(done, client)
        invariant removals == HwIdsOf(old(mGeofenceIds), KeysOf(done, client))
        decreases |rest|
      {
        var key :| key in rest;
        StopOneMore(old(mGeofenceIds), done, key, client);
        if key.client == client {
          removals := removals + {mGeofenceIds[key]};
          mGeofenceIds := mGeofenceIds - {key};
        }
        MoveOne(old(mGeofenceIds).Keys, done, rest, key);
        rest, done := rest - {key}, done + {key};
      }
      assert done == old(mGeofenceIds).Keys;
    }

    method EraseAnswered(hwId: HwId, ok: bool)
      modifies this`mGeofences
      ensures Current({}, {}) == Step(old(Current({hwId}, {})), Event.EraseAnswered(hwId, ok))
    {
      if ok && hwId in mGeofences {
        mGeofences := mGeofences - {hwId};
      }
    }

    /** Returns the fences that the modem is asked to add again. */
    method RestartGeofences() returns (again: map<HwId, Key>)
      modifies this`mGeofences, this`mGeofenceIds
      ensures again == old(mGeofences)
      ensures Current({}, again.Values) == Step(old(Current({}, {})), EngineRestart)
    {
      again := mGeofences;
      if mGeofences != map[] {
        mGeofences, mGeofenceIds := map[], map[];
      }
    }

    method GeofenceBreach(hwIds: seq<HwId>) returns (told: seq<Notification>)
      ensures told == Notifications(mGeofences, hwIds, mClientData)
    {
      told := [];
      var c := 0;
      while c < |mClientData|
        invariant 0 <= c <= |mClientData|
        invariant told == Notifications(mGeofences, hwIds, mClientData[..c])
      {
        var client := mClientData[c];
        assert mClientData[..c + 1][..c] == mClientData[..c];
        var clientIds := new nat[|hwIds|];
        var index := 0;
        var i := 0;
        while i < |hwIds|
          invariant 0 <= i <= |hwIds| && 0 <= index <= i
          invariant clientIds[..index] == IdsFor(mGeofences, hwIds[..i], client.client)
        {
          assert hwIds[..i + 1][..i] == hwIds[..i];
          if hwIds[i] in mGeofences && mGeofences[hwIds[i]].client == client.client {
            clientIds[index] := mGeofences[hwIds[i]].id;
            index := index + 1;
          }
          i := i + 1;
        }
        assert hwIds[..i] == hwIds;
        if index > 0 && client.hasBreachCb {
          told := told + [Notification(client.client, clientIds[..index])];
        }
        c := c + 1;
      }
      assert mClientData[..c] == mClientData;
    }
  }
}
