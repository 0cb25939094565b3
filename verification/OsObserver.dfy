/** The set map of gps/utils/LocUnorderedSetMap.h: every key holds a set of values, and an entry whose set
    becomes empty is removed. */
module SetMaps {
  import opened SetWalk

  function Vals<K, V>(m: map<K, set<V>>, k: K): set<V> {
    if k in m then m[k] else {}
  }

  function Added<K, V>(m: map<K, set<V>>, keys: set<K>, vals: set<V>): map<K, set<V>> {
    if vals == {} then m else map k | k in m.Keys + keys :: if k in keys then Vals(m, k) + vals else m[k]
  }

  predicate Emptied<K, V>(m: map<K, set<V>>, keys: set<K>, vals: set<V>, k: K) {
    k in keys && k in m && m[k] <= vals
  }

  function GoneKeys<K, V>(m: map<K, set<V>>, keys: set<K>, vals: set<V>): set<K> {
    set k | k in keys && Emptied(m, keys, vals, k)
  }

  function GoneVals<K, V>(m: map<K, set<V>>, keys: set<K>, vals: set<V>): set<V> {
    set k, v | k in keys && v in vals && v in Vals(m, k) :: v
  }

  function Trimmed<K, V>(m: map<K, set<V>>, keys: set<K>, vals: set<V>): map<K, set<V>> {
    map k | k in m.Keys && !Emptied(m, keys, vals, k) :: if k in keys then m[k] - vals else m[k]
  }

  ghost predicate NoEmpty<K, V>(m: map<K, set<V>>) {
    forall k <- m :: m[k] != {}
  }

  lemma AddedVals<K, V>(m: map<K, set<V>>, keys: set<K>, vals: set<V>)
    ensures forall k :: Vals(Added(m, keys, vals), k) == Vals(m, k) + (if k in keys then vals else {})
    ensures NoEmpty(m) ==> NoEmpty(Added(m, keys, vals))
    ensures vals != {} ==> Added(m, keys, vals).Keys == m.Keys + keys
  {
  }

  lemma TrimmedVals<K, V>(m: map<K, set<V>>, keys: set<K>, vals: set<V>)
    ensures forall k :: Vals(Trimmed(m, keys, vals), k) == Vals(m, k) - (if k in keys then vals else {})
    ensures NoEmpty(m) ==> NoEmpty(Trimmed(m, keys, vals))
    ensures Trimmed(m, keys, vals).Keys == m.Keys - GoneKeys(m, keys, vals)
  {
    var t := Trimmed(m, keys, vals);
    forall k ensures Vals(t, k) == Vals(m, k) - (if k in keys then vals else {}) {
      if Emptied(m, keys, vals, k) {
        assert m[k] - vals == {};
      }
    }
    forall k | NoEmpty(m) && k in t ensures t[k] != {} {
      if k in keys {
        var v :| v in m[k] && v !in vals;
        assert v in t[k];
      }
    }
  }

  lemma AddOneMore<K, V>(m: map<K, set<V>>, keys: set<K>, key: K, vals: set<V>)
    requires key !in keys && vals != {}
    ensures var t := Added(m, keys, vals);
            && Vals(t, key) == Vals(m, key) && (key in t <==> key in m)
            && Added(m, keys + {key}, vals) == t[key := Vals(m, key) + vals]
            && (keys + {key}) - m.Keys == if key in m then keys - m.Keys else (keys - m.Keys) + {key}
  {
  }

  lemma AddedToOne<K, V>(m: map<K, set<V>>, key: K, vals: set<V>)
    requires vals != {}
    ensures Added(m, {key}, vals) == m[key := Vals(m, key) + vals]
  {
  }

  lemma TrimOneMore<K, V>(m: map<K, set<V>>, keys: set<K>, key: K, vals: set<V>)
    requires key !in keys
    ensures var t := Trimmed(m, keys, vals);
            && Vals(t, key) == Vals(m, key) && (key in t <==> key in m)
            && (key in m && m[key] <= vals ==> Trimmed(m, keys + {key}, vals) == t - {key})
            && (key in m && !(m[key] <= vals) ==> Trimmed(m, keys + {key}, vals) == t[key := m[key] - vals])
            && (key !in m ==> Trimmed(m, keys + {key}, vals) == t)
            && GoneVals(m, keys + {key}, vals) == GoneVals(m, keys, vals) + Vals(m, key) * vals
            && GoneKeys(m, keys + {key}, vals) ==
               if key in m && m[key] <= vals then GoneKeys(m, keys, vals) + {key} else GoneKeys(m, keys, vals)
  {
    forall k | k in m && k != key
      ensures Emptied(m, keys + {key}, vals, k) <==> Emptied(m, keys, vals, k)
    {
    }
    assert !Emptied(m, keys, vals, key);
    assert key in m && m[key] <= vals ==> Emptied(m, keys + {key}, vals, key);
    forall v ensures v in GoneVals(m, keys + {key}, vals) <==> v in GoneVals(m, keys, vals) + Vals(m, key) * vals {
      if v in GoneVals(m, keys + {key}, vals) {
        var k :| k in keys + {key} && v in vals && v in Vals(m, k);
      }
      if v in Vals(m, key) * vals {
        assert key in keys + {key};
      }
      if v in GoneVals(m, keys, vals) {
        var k :| k in keys && v in vals && v in Vals(m, k);
        assert k in keys + {key};
      }
    }
  }

  class LocUnorderedSetMap<K(==), V(==)> {
    var mMap: map<K, set<V>>

    constructor ()
      ensures mMap == map[]
    {
      mMap := map[];
    }

    method AddOne(key: K, newVals: set<V>) returns (newEntryAdded: bool)
      modifies this
      ensures mMap == if newVals == {} then old(mMap) else old(mMap)[key := Vals(old(mMap), key) + newVals]
      ensures newEntryAdded <==> newVals != {} && key !in old(mMap)
    {
      newEntryAdded := false;
      if newVals != {} {
        if key in mMap {
          mMap := mMap[key := mMap[key] + newVals];
        } else {
          mMap := mMap[key := newVals];
          newEntryAdded := true;
          assert {} + newVals == newVals;
        }
      }
    }

    method Add(keys: set<K>, newVals: set<V>) returns (newKeys: set<K>)
      modifies this
      ensures mMap == Added(old(mMap), keys, newVals)
      ensures newKeys == if newVals == {} then {} else keys - old(mMap).Keys
    {
      newKeys := {};
      var rest := keys;
      ghost var done: set<K> := {};
      while rest != {}
        invariant done !! rest && done + rest == keys
        invariant mMap == Added(old(mMap), done, newVals)
        invariant newKeys == if newVals == {} then {} else done - old(mMap).Keys
        decreases |rest|
      {
        var key :| key in rest;
        if newVals != {} {
          AddOneMore(old(mMap), done, key, newVals);
        }
        var isNew := AddOne(key, newVals);
        if isNew {
          newKeys := newKeys + {key};
        }
        MoveOne(keys, done, rest, key);
        rest, done := rest - {key}, done + {key};
      }
      assert done == keys;
    }

    /** Trims one entry; says whether that removed it, and what was trimmed. */
    method TrimOrRemoveOne(key: K, rVals: set<V>) returns (removed: bool, trimmed: set<V>)
      requires key in mMap
      modifies this
      ensures removed <==> old(mMap)[key] <= rVals
      ensures mMap == if removed then old(mMap) - {key} else old(mMap)[key := old(mMap)[key] - rVals]
      ensures trimmed == old(mMap)[key] * rVals
    {
      var left := mMap[key] - rVals;
      trimmed := mMap[key] * rVals;
      removed := left == {};
      assert forall v | v in mMap[key] :: v in rVals || v in left;
      if removed {
        mMap := mMap - {key};
      } else {
        mMap := mMap[key := left];
      }
    }

    method TrimOrRemove(keys: set<K>, rVals: set<V>) returns (goneKeys: set<K>, goneVals: set<V>)
      modifies this
      ensures mMap == Trimmed(old(mMap), keys, rVals)
      ensures goneKeys == GoneKeys(old(mMap), keys, rVals) && goneVals == GoneVals(old(mMap), keys, rVals)
    {
      goneKeys, goneVals := {}, {};
      var rest := keys;
      ghost var done: set<K> := {};
      while rest != {}
        invariant done !! rest && done + rest == keys
        invariant mMap == Trimmed(old(mMap), done, rVals)
        invariant goneKeys == GoneKeys(old(mMap), done, rVals)
        invariant goneVals == GoneVals(old(mMap), done, rVals)
        decreases |rest|
      {
        var key :| key in rest;
        TrimOneMore(old(mMap), done, key, rVals);
        if key in mMap {
          var removed, trimmed := TrimOrRemoveOne(key, rVals);
          goneVals := goneVals + trimmed;
          if removed {
            goneKeys := goneKeys + {key};
          }
        }
        MoveOne(keys, done, rest, key);
        rest, done := rest - {key}, done + {key};
      }
      assert done == keys;
    }

    /** Returns the values that were there before and are in `newVals` too, and what is left of `newVals`. */
    method Update(key: K, newVals: set<V>) returns (common: set<V>, left: set<V>)
      modifies this
      ensures newVals != {} ==> mMap == old(mMap)[key := newVals]
      ensures newVals == {} ==> mMap == old(mMap) - {key}
      ensures common == Vals(old(mMap), key) * newVals && left == newVals - Vals(old(mMap), key)
    {
      common, left := {}, newVals;
      if newVals == {} {
        mMap := mMap - {key};
      } else {
        var current := if key in mMap then mMap[key] else {};
        mMap := mMap[key := newVals];
        common, left := current * newVals, newVals - current;
      }
    }
  }
}

/** The subscription index of gps/core/SystemStatusOsObserver.cpp: who wants which data item, kept both ways
    round, and what the framework is told. */
module OsObserver {
  import opened SetMaps
  import opened SetWalk

  type DataItemId = nat
  type Client = nat
  type Value = int

  const NO_CLIENT: Client := 0

  datatype State = State(clientItems: map<Client, set<DataItemId>>, itemClients: map<DataItemId, set<Client>>,
                         cache: map<DataItemId, Value>, attached: bool)

  /** Calls on the subscription object. */
  datatype Call =
    | Subscribe(items: set<DataItemId>)
    | Unsubscribe(items: set<DataItemId>)
    | RequestData(items: set<DataItemId>)

  /** What each client is notified of; a client is called at most once for a message. */
  type Deliveries = map<Client, map<DataItemId, Value>>

  datatype Result = Result(state: State, calls: seq<Call>, sent: Deliveries)

  /** A data item from the framework, and whether SystemStatus takes it. */
  datatype Incoming = Incoming(id: DataItemId, value: Value, accepted: bool)

  datatype Event =
    | SubscribeItems(items: set<DataItemId>, client: Client, requestData: bool)
    | UpdateSubscription(items: set<DataItemId>, client: Client)
    | UnsubscribeItems(items: set<DataItemId>, client: Client)
    | UnsubscribeAll(client: Client)
    | SetSubscriptionObj
    | Notify(incoming: seq<Incoming>)

  // ---------------------------------------------------------------- what each message does

  function Told(c: Call): seq<Call> {
    if c.items == {} then [] else [c]
  }

  function Known(cache: map<DataItemId, Value>, items: set<DataItemId>): map<DataItemId, Value> {
    map i | i in cache && i in items :: cache[i]
  }

  function Cached(cache: map<DataItemId, Value>, items: set<DataItemId>, client: Client): Deliveries {
    var known := Known(cache, items);
    if known == map[] then map[] else map[client := known]
  }

  function OnSubscribe(s: State, items: set<DataItemId>, client: Client, requestData: bool): Result {
    var unknown := items - s.itemClients.Keys;
    Result(s.(itemClients := Added(s.itemClients, items, {client}),
              clientItems := Added(s.clientItems, {client}, items)),
           if !s.attached then [] else if requestData then [RequestData(unknown)] else Told(Subscribe(unknown)),
           Cached(s.cache, items, client))
  }

  function OnUpdate(s: State, items: set<DataItemId>, client: Client): Result {
    var current := Vals(s.clientItems, client);
    var trimmed := Trimmed(s.itemClients, current * items, {client});
    Result(s.(clientItems := s.clientItems[client := items], itemClients := Added(trimmed, items - current, {client})),
           if !s.attached then []
           else Told(Subscribe(items - current - trimmed.Keys))
                + Told(Unsubscribe(GoneKeys(s.itemClients, current * items, {client}))),
           Cached(s.cache, items - current, client))
  }

  function OnUnsubscribe(s: State, items: set<DataItemId>, client: Client): Result {
    var unused := GoneVals(s.clientItems, {client}, items);
    Result(s.(clientItems := Trimmed(s.clientItems, {client}, items),
              itemClients := Trimmed(s.itemClients, unused, {client})),
           if !s.attached then [] else Told(Unsubscribe(GoneKeys(s.itemClients, unused, {client}))), map[])
  }

  function OnUnsubscribeAll(s: State, client: Client): Result {
    var items := Vals(s.clientItems, client);
    if items == {} then Result(s, [], map[])
    else Result(s.(clientItems := s.clientItems - {client}, itemClients := Trimmed(s.itemClients, items, {client})),
                if !s.attached then [] else Told(Unsubscribe(GoneKeys(s.itemClients, items, {client}))), map[])
  }

  function OnSetSubscriptionObj(s: State): Result {
    var items := s.itemClients.Keys;
    Result(s.(attached := true), if items == {} then [] else [Subscribe(items), RequestData(items)], map[])
  }

  function Recorded(cache: map<DataItemId, Value>, incoming: seq<Incoming>): map<DataItemId, Value>
    decreases |incoming|
  {
    if incoming == [] then cache
    else Recorded(if incoming[0].accepted then cache[incoming[0].id := incoming[0].value] else cache, incoming[1..])
  }

  function Changed(incoming: seq<Incoming>): set<DataItemId> {
    set n <- incoming | n.accepted :: n.id
  }

  function ClientsOf(itemClients: map<DataItemId, set<Client>>, items: set<DataItemId>): set<Client> {
    set i, c | i in items && c in Vals(itemClients, i) :: c
  }

  function Fanout(s: State, clients: set<Client>, changed: set<DataItemId>): Deliveries {
    map c | c in clients && Known(s.cache, Vals(s.clientItems, c) * changed) != map[]
        :: Known(s.cache, Vals(s.clientItems, c) * changed)
  }

  function OnNotify(s: State, incoming: seq<Incoming>): Result {
    var recorded := s.(cache := Recorded(s.cache, incoming));
    var changed := Changed(incoming);
    Result(recorded, [], Fanout(recorded, ClientsOf(s.itemClients, changed), changed))
  }

  /** A request without items or without a client is dropped. */
  predicate Dropped(e: Event) {
    match e
    case SubscribeItems(items, client, _) => items == {} || client == NO_CLIENT
    case UpdateSubscription(items, client) => items == {} || client == NO_CLIENT
    case UnsubscribeItems(items, client) => items == {} || client == NO_CLIENT
    case UnsubscribeAll(client) => client == NO_CLIENT
    case _ => false
  }

  function Step(s: State, e: Event): Result {
    if Dropped(e) then Result(s, [], map[])
    else
      match e
      case SubscribeItems(items, client, requestData) => OnSubscribe(s, items, client, requestData)
      case UpdateSubscription(items, client) => OnUpdate(s, items, client)
      case UnsubscribeItems(items, client) => OnUnsubscribe(s, items, client)
      case UnsubscribeAll(client) => OnUnsubscribeAll(s, client)
      case SetSubscriptionObj => OnSetSubscriptionObj(s)
      case Notify(incoming) => OnNotify(s, incoming)
  }

  // ---------------------------------------------------------------- the two maps are transposes

  ghost predicate Related(s: State, c: Client, i: DataItemId) {
    i in Vals(s.clientItems, c) <==> c in Vals(s.itemClients, i)
  }

  ghost predicate Transposed(s: State) {
    && NoEmpty(s.clientItems) && NoEmpty(s.itemClients)
    && forall c, i :: Related(s, c, i)
  }

  /** The one message that damages the index: a second updateSubscription of the same client, because
      LocUnorderedSetMap::update hands back the items the client keeps instead of those it drops. */
  predicate KeepsIndex(s: State, e: Event) {
    e.UpdateSubscription? && !Dropped(e) ==> Vals(s.clientItems, e.client) == {}
  }

  lemma UpdateLeavesSymmetricDifference(s: State, items: set<DataItemId>, client: Client)
    requires Transposed(s) && items != {}
    ensures var next := OnUpdate(s, items, client).state;
            && NoEmpty(next.clientItems) && NoEmpty(next.itemClients)
            && Vals(next.clientItems, client) == items
            && (forall c, i | c != client :: Related(next, c, i))
            && (forall i :: client in Vals(next.itemClients, i) <==>
                             i in (Vals(s.clientItems, client) - items) + (items - Vals(s.clientItems, client)))
  {
    var next := OnUpdate(s, items, client).state;
    var current := Vals(s.clientItems, client);
    TrimmedVals(s.itemClients, current * items, {client});
    AddedVals(Trimmed(s.itemClients, current * items, {client}), items - current, {client});
    forall c, i | c != client ensures Related(next, c, i) {
      assert Related(s, c, i);
    }
    forall i ensures client in Vals(next.itemClients, i) <==> i in (current - items) + (items - current) {
      assert Related(s, client, i);
    }
  }

  /** The two maps stay transposes of each other, without empty entries, exactly when `KeepsIndex` says. */
  lemma StepKeepsTransposedIff(s: State, e: Event)
    requires Transposed(s)
    ensures Transposed(Step(s, e).state) <==> KeepsIndex(s, e)
  {
    var next := Step(s, e).state;
    if !Dropped(e) {
      match e
      case SubscribeItems(items, client, _) =>
        AddedVals(s.itemClients, items, {client});
        AddedVals(s.clientItems, {client}, items);
        forall c, i ensures Related(next, c, i) { assert Related(s, c, i); }
      case UpdateSubscription(items, client) =>
        var current := Vals(s.clientItems, client);
        UpdateLeavesSymmetricDifference(s, items, client);
        if current == {} {
          forall c, i ensures Related(next, c, i) {}
        } else {
          var i :| i in current;
          assert !Related(next, client, i);
        }
      case UnsubscribeItems(items, client) =>
        TrimmedVals(s.clientItems, {client}, items);
        TrimmedVals(s.itemClients, GoneVals(s.clientItems, {client}, items), {client});
        forall c, i ensures Related(next, c, i) { assert Related(s, c, i); }
      case UnsubscribeAll(client) =>
        TrimmedVals(s.itemClients, Vals(s.clientItems, client), {client});
        forall c, i ensures Related(next, c, i) { assert Related(s, c, i); }
      case SetSubscriptionObj =>
        forall c, i ensures Related(next, c, i) { assert Related(s, c, i); }
      case Notify(_) =>
        forall c, i ensures Related(next, c, i) { assert Related(s, c, i); }
    }
  }

  // ---------------------------------------------------------------- the first response

  /** The client, and nobody else, is sent the cached values of the items, if there are any. */
  ghost predicate SentFromCache(sent: Deliveries, cache: map<DataItemId, Value>, items: set<DataItemId>,
                                client: Client)
  {
    && (forall c <- sent :: c == client)
    && (client in sent <==> exists i <- items :: i in cache)
    && (client in sent ==> sent[client].Keys == items * cache.Keys
                           && forall i <- sent[client] :: sent[client][i] == cache[i])
  }

  lemma CachedIsSent(cache: map<DataItemId, Value>, items: set<DataItemId>, client: Client)
    ensures SentFromCache(Cached(cache, items, client), cache, items, client)
  {
    var known := Known(cache, items);
    if i :| i in items && i in cache {
      assert i in known;
    }
  }

  /** Whoever subscribes hears at once what is cached of the items it asked for, whether or not others have
      subscribed to them before; an updateSubscription, what is cached of those that are new to the client. */
  lemma SubscriberHearsCache(s: State, items: set<DataItemId>, client: Client, requestData: bool)
    requires items != {} && client != NO_CLIENT
    ensures SentFromCache(Step(s, SubscribeItems(items, client, requestData)).sent, s.cache, items, client)
    ensures SentFromCache(Step(s, UpdateSubscription(items, client)).sent, s.cache,
                          items - Vals(s.clientItems, client), client)
  {
    CachedIsSent(s.cache, items, client);
    CachedIsSent(s.cache, items - Vals(s.clientItems, client), client);
  }

  function Requested(calls: seq<Call>): set<DataItemId> {
    if calls == [] then {}
    else (if calls[0].RequestData? then calls[0].items else {}) + Requested(calls[1..])
  }

  /** The framework is asked for data only by a requestData, for the items that nobody had subscribed to, and when
      it is set, for all items subscribed to so far. Only a subscription and a notification send anything. */
  lemma OnlyTheseRequestAndSend(s: State, e: Event)
    ensures var r := Step(s, e);
            && Requested(r.calls) ==
               (if e.SubscribeItems? && e.requestData && s.attached && e.client != 0
                then set i | i in e.items && i !in s.itemClients
                else if e.SetSubscriptionObj? then s.itemClients.Keys else {})
            && (r.sent != map[] ==> e.SubscribeItems? || e.UpdateSubscription? || e.Notify?)
            && (!s.attached && !e.SetSubscriptionObj? ==> r.calls == [])
            && (e.SetSubscriptionObj? ==>
                  r.state.attached
                  && r.calls == if s.itemClients == map[] then []
                                else [Subscribe(s.itemClients.Keys), RequestData(s.itemClients.Keys)])
            && (forall call <- r.calls :: call.items == {} ==> call.RequestData? && e.SubscribeItems?)
  {
    var calls := Step(s, e).calls;
    forall call | call in calls && !call.RequestData? ensures Requested([call]) == {} {
      assert [call][1..] == [];
    }
    if |calls| > 0 {
      assert |calls[1..]| == |calls| - 1;
      if |calls| > 1 {
        assert calls[1..][1..] == calls[2..];
      }
    }
  }

  // ---------------------------------------------------------------- the framework's set

  /** What the framework is subscribed to after the calls. */
  function Net(net: set<DataItemId>, calls: seq<Call>): set<DataItemId>
    decreases |calls|
  {
    if calls == [] then net
    else
      Net(match calls[0]
          case Subscribe(items) => net + items
          case Unsubscribe(items) => net - items
          case RequestData(_) => net, calls[1..])
  }

  /** requestData() makes new entries in the index but does not subscribe to them. */
  predicate KeepsNet(s: State, e: Event) {
    e.SubscribeItems? && e.requestData && s.attached && !Dropped(e) ==> e.items <= s.itemClients.Keys
  }

  ghost predicate InStep(s: State, net: set<DataItemId>) {
    net == if s.attached then s.itemClients.Keys else {}
  }

  lemma {:induction false} NetOfConcat(net: set<DataItemId>, a: seq<Call>, b: seq<Call>)
    ensures Net(net, a + b) == Net(Net(net, a), b)
    decreases |a|
  {
    if a == [] {
      assert a + b == b;
    } else {
      assert (a + b)[1..] == a[1..] + b;
      NetOfConcat(match a[0]
                  case Subscribe(items) => net + items
                  case Unsubscribe(items) => net - items
                  case RequestData(_) => net, a[1..], b);
    }
  }

  lemma NetOfTold(net: set<DataItemId>, sub: Call, unsub: Call)
    requires sub.Subscribe? && unsub.Unsubscribe?
    ensures Net(net, Told(sub)) == net + sub.items
    ensures Net(net, Told(unsub)) == net - unsub.items
    ensures Net(net, Told(sub) + Told(unsub)) == net + sub.items - unsub.items
  {
    assert net + {} == net && net - {} == net;
    assert [sub][1..] == [] && [unsub][1..] == [];
    assert net + sub.items - {} == net + sub.items;
    NetOfConcat(net, Told(sub), Told(unsub));
  }

  lemma SubscribeNet(s: State, net: set<DataItemId>, items: set<DataItemId>, client: Client, requestData: bool)
    requires InStep(s, net)
    ensures var r := OnSubscribe(s, items, client, requestData);
            InStep(r.state, Net(net, r.calls)) <==> (requestData && s.attached ==> items <= s.itemClients.Keys)
  {
    AddedVals(s.itemClients, items, {client});
    NetOfTold(net, Subscribe(items - s.itemClients.Keys), Unsubscribe({}));
    assert [RequestData(items - s.itemClients.Keys)][1..] == [];
  }

  lemma UpdateNet(s: State, net: set<DataItemId>, items: set<DataItemId>, client: Client)
    requires InStep(s, net)
    ensures var r := OnUpdate(s, items, client); InStep(r.state, Net(net, r.calls))
  {
    var current := Vals(s.clientItems, client);
    var trimmed := Trimmed(s.itemClients, current * items, {client});
    TrimmedVals(s.itemClients, current * items, {client});
    AddedVals(trimmed, items - current, {client});
    NetOfTold(net, Subscribe(items - current - trimmed.Keys),
              Unsubscribe(GoneKeys(s.itemClients, current * items, {client})));
  }

  lemma StepKeepsNetIff(s: State, net: set<DataItemId>, e: Event)
    requires InStep(s, net)
    ensures var r := Step(s, e); InStep(r.state, Net(net, r.calls)) <==> KeepsNet(s, e)
  {
    if !Dropped(e) {
      match e
      case SubscribeItems(items, client, requestData) => SubscribeNet(s, net, items, client, requestData);
      case UpdateSubscription(items, client) => UpdateNet(s, net, items, client);
      case UnsubscribeItems(items, client) =>
        var unused := GoneVals(s.clientItems, {client}, items);
        TrimmedVals(s.itemClients, unused, {client});
        NetOfTold(net, Subscribe({}), Unsubscribe(GoneKeys(s.itemClients, unused, {client})));
      case UnsubscribeAll(client) =>
        var items := Vals(s.clientItems, client);
        TrimmedVals(s.itemClients, items, {client});
        NetOfTold(net, Subscribe({}), Unsubscribe(GoneKeys(s.itemClients, items, {client})));
      case SetSubscriptionObj =>
        var items := s.itemClients.Keys;
        assert net + items == items;
        assert [Subscribe(items), RequestData(items)][1..] == [RequestData(items)];
        assert [RequestData(items)][1..] == [];
        assert Net(items, [RequestData(items)]) == items;
      case Notify(_) =>
    }
  }

  // ---------------------------------------------------------------- runs

  datatype World = World(state: State, net: set<DataItemId>)

  const Start := World(State(map[], map[], map[], false), {})

  function Advance(w: World, e: Event): World {
    var r := Step(w.state, e);
    World(r.state, Net(w.net, r.calls))
  }

  function Run(w: World, es: seq<Event>): World
    decreases |es|
  {
    if es == [] then w else Run(Advance(w, es[0]), es[1..])
  }

  /** No requestData brings an item that nobody subscribed to. */
  ghost predicate OnlyKnownRequests(w: World, es: seq<Event>)
    decreases |es|
  {
    es == [] || (KeepsNet(w.state, es[0]) && OnlyKnownRequests(Advance(w, es[0]), es[1..]))
  }

  lemma {:induction false} RunKeepsNet(w: World, es: seq<Event>)
    requires InStep(w.state, w.net) && OnlyKnownRequests(w, es)
    ensures InStep(Run(w, es).state, Run(w, es).net)
    decreases |es|
  {
    if es != [] {
      StepKeepsNetIff(w.state, w.net, es[0]);
      RunKeepsNet(Advance(w, es[0]), es[1..]);
    }
  }

  /** In every run of such messages, repeated updateSubscriptions included, the framework is subscribed to exactly
      the items that the index knows, however far the index has drifted from what clients want. */
  lemma FrameworkFollowsIndex(es: seq<Event>)
    requires OnlyKnownRequests(Start, es)
    ensures var w := Run(Start, es); w.net == if w.state.attached then w.state.itemClients.Keys else {}
  {
    RunKeepsNet(Start, es);
  }

  ghost predicate Harmless(w: World, es: seq<Event>)
    decreases |es|
  {
    es == [] ||
    (KeepsIndex(w.state, es[0]) && KeepsNet(w.state, es[0]) && Harmless(Advance(w, es[0]), es[1..]))
  }

  lemma {:induction false} RunKeepsBoth(w: World, es: seq<Event>)
    requires Transposed(w.state) && InStep(w.state, w.net) && Harmless(w, es)
    ensures Transposed(Run(w, es).state) && InStep(Run(w, es).state, Run(w, es).net)
    decreases |es|
  {
    if es != [] {
      StepKeepsTransposedIff(w.state, es[0]);
      StepKeepsNetIff(w.state, w.net, es[0]);
      RunKeepsBoth(Advance(w, es[0]), es[1..]);
    }
  }

  /** In every run of such messages the framework is subscribed, once it is there, to exactly the items that
      some client wants. */
  lemma FrameworkServesEveryClient(es: seq<Event>)
    requires Harmless(Start, es)
    ensures var w := Run(Start, es);
            && Transposed(w.state)
            && (w.state.attached ==> forall i :: i in w.net <==> exists c :: i in Vals(w.state.clientItems, c))
            && (!w.state.attached ==> w.net == {})
  {
    RunKeepsBoth(Start, es);
    var w := Run(Start, es);
    if w.state.attached {
      forall i ensures i in w.net <==> exists c :: i in Vals(w.state.clientItems, c) {
        if i in w.net {
          var c :| c in w.state.itemClients[i];
          assert Related(w.state, c, i);
        }
        if c :| i in Vals(w.state.clientItems, c) {
          assert Related(w.state, c, i);
        }
      }
    }
  }

  // ---------------------------------------------------------------- what the clients asked for

  /** What a client wants after a message: a subscription adds, an update replaces, an unsubscription takes away; a
      request without items, or without a client, changes nothing. */
  function Wants(before: set<DataItemId>, e: Event, c: Client): set<DataItemId> {
    match e
    case SubscribeItems(items, client, _) => if client == c && c != 0 then before + items else before
    case UpdateSubscription(items, client) => if client == c && c != 0 && items != {} then items else before
    case UnsubscribeItems(items, client) => if client == c && c != 0 then before - items else before
    case UnsubscribeAll(client) => if client == c && c != 0 then {} else before
    case _ => before
  }

  function WantsAfter(before: set<DataItemId>, es: seq<Event>, c: Client): set<DataItemId>
    decreases |es|
  {
    if es == [] then before else WantsAfter(Wants(before, es[0], c), es[1..], c)
  }

  lemma StepWants(s: State, e: Event, c: Client)
    ensures Vals(Step(s, e).state.clientItems, c) == Wants(Vals(s.clientItems, c), e, c)
  {
    match e
    case SubscribeItems(items, client, _) => AddedVals(s.clientItems, {client}, items);
    case UnsubscribeItems(items, client) => TrimmedVals(s.clientItems, {client}, items);
    case _ =>
  }

  lemma {:induction false} RunWants(w: World, es: seq<Event>, c: Client)
    ensures Vals(Run(w, es).state.clientItems, c) == WantsAfter(Vals(w.state.clientItems, c), es, c)
    decreases |es|
  {
    if es != [] {
      StepWants(w.state, es[0], c);
      RunWants(Advance(w, es[0]), es[1..], c);
    }
  }

  /** In every run the index holds for each client what it asked for; and in a run of harmless messages the framework
      is subscribed, once it is there, to an item exactly if some client asked for it and did not give it up. */
  lemma EveryWishIsSubscribed(es: seq<Event>, i: DataItemId)
    ensures forall c :: Vals(Run(Start, es).state.clientItems, c) == WantsAfter({}, es, c)
    ensures Harmless(Start, es) && Run(Start, es).state.attached ==>
              (i in Run(Start, es).net <==> exists c :: i in WantsAfter({}, es, c))
  {
    forall c ensures Vals(Run(Start, es).state.clientItems, c) == WantsAfter({}, es, c) {
      RunWants(Start, es, c);
    }
    if Harmless(Start, es) {
      FrameworkServesEveryClient(es);
    }
  }

  // ---------------------------------------------------------------- notification

  lemma {:induction false} RecordedKeys(cache: map<DataItemId, Value>, incoming: seq<Incoming>)
    ensures Recorded(cache, incoming).Keys == cache.Keys + Changed(incoming)
    ensures forall i | i in cache && i !in Changed(incoming) :: Recorded(cache, incoming)[i] == cache[i]
    ensures forall k | 0 <= k < |incoming| && incoming[k].accepted
              && (forall j | k < j < |incoming| && incoming[j].accepted :: incoming[j].id != incoming[k].id)
              :: incoming[k].id in Recorded(cache, incoming)
                 && Recorded(cache, incoming)[incoming[k].id] == incoming[k].value
    decreases |incoming|
  {
    if incoming != [] {
      var n := incoming[0];
      var next := if n.accepted then cache[n.id := n.value] else cache;
      RecordedKeys(next, incoming[1..]);
      assert Changed(incoming) == (if n.accepted then {n.id} else {}) + Changed(incoming[1..]) by {
        assert incoming == [n] + incoming[1..];
      }
      forall k | 0 <= k < |incoming| && incoming[k].accepted
          && (forall j | k < j < |incoming| && incoming[j].accepted :: incoming[j].id != incoming[k].id)
        ensures incoming[k].id in Recorded(cache, incoming)
                && Recorded(cache, incoming)[incoming[k].id] == incoming[k].value
      {
        if k == 0 {
          assert incoming[0].id !in Changed(incoming[1..]);
        } else {
          assert incoming[1..][k - 1] == incoming[k];
          assert forall j | k - 1 < j < |incoming[1..]| && incoming[1..][j].accepted ::
              incoming[1..][j].id == incoming[j + 1].id && incoming[j + 1].id != incoming[k].id;
        }
      }
    }
  }

  /** Each client hears of exactly the changed items it subscribed to, with the values just recorded, and
      the others hear nothing. */
  lemma NotifyReachesSubscribers(s: State, incoming: seq<Incoming>)
    requires Transposed(s)
    ensures var r := Step(s, Notify(incoming));
            && (forall c :: c in r.sent <==> Vals(s.clientItems, c) * Changed(incoming) != {})
            && (forall c <- r.sent :: r.sent[c].Keys == Vals(s.clientItems, c) * Changed(incoming))
            && (forall c <- r.sent, i <- r.sent[c] :: i in r.state.cache && r.sent[c][i] == r.state.cache[i])
  {
    RecordedKeys(s.cache, incoming);
    var r := OnNotify(s, incoming);
    var cache, changed := Recorded(s.cache, incoming), Changed(incoming);
    forall c ensures c in r.sent <==> Vals(s.clientItems, c) * changed != {} {
      var mine := Known(cache, Vals(s.clientItems, c) * changed);
      assert mine.Keys == Vals(s.clientItems, c) * changed;
      if i :| i in Vals(s.clientItems, c) * changed {
        assert Related(s, c, i) && i in mine;
      }
      if c in r.sent {
        assert r.sent[c] == mine;
      }
    }
  }

  /** After a second updateSubscription the client is no longer told of the items it kept. */
  lemma KeptItemGoesSilent(s: State, items: set<DataItemId>, client: Client, item: DataItemId, value: Value)
    requires Transposed(s) && item in Vals(s.clientItems, client) * items
    ensures var next := OnUpdate(s, items, client).state;
            && item in Vals(next.clientItems, client)
            && client !in Step(next, Notify([Incoming(item, value, true)])).sent
  {
    UpdateLeavesSymmetricDifference(s, items, client);
  }

  // ---------------------------------------------------------------- the observer as an object

  class SystemStatusOsObserver {
    const mClientToDataItems: LocUnorderedSetMap<Client, DataItemId>
    const mDataItemToClients: LocUnorderedSetMap<DataItemId, Client>
    var mDataItemCache: map<DataItemId, Value>
    var mSubscriptionObjSet: bool

    ghost predicate Valid() {
      mClientToDataItems != mDataItemToClients
    }

    function Current(): State
      reads this, mClientToDataItems, mDataItemToClients
    {
      State(mClientToDataItems.mMap, mDataItemToClients.mMap, mDataItemCache, mSubscriptionObjSet)
    }

    constructor ()
      ensures Valid() && fresh(mClientToDataItems) && fresh(mDataItemToClients)
      ensures Current() == Start.state
    {
      mClientToDataItems := new LocUnorderedSetMap();
      mDataItemToClients := new LocUnorderedSetMap();
      mDataItemCache, mSubscriptionObjSet := map[], false;
    }

    method SendCachedDataItems(items: set<DataItemId>, to: Client) returns (sent: Deliveries)
      ensures sent == Cached(mDataItemCache, items, to)
    {
      var known: map<DataItemId, Value> := map[];
      var rest := items;
      ghost var done: set<DataItemId> := {};
      while rest != {}
        invariant done !! rest && done + rest == items
        invariant known == Known(mDataItemCache, done)
        decreases |rest|
      {
        var item :| item in rest;
        if item in mDataItemCache {
          known := known[item := mDataItemCache[item]];
        }
        MoveOne(items, done, rest, item);
        rest, done := rest - {item}, done + {item};
      }
      assert done == items;
      if known == map[] {
        return map[];
      }
      sent := map[to := known];
    }

    method Subscribe(items: set<DataItemId>, client: Client, toRequestData: bool)
        returns (calls: seq<Call>, sent: Deliveries)
      requires Valid()
      modifies this, mClientToDataItems, mDataItemToClients
      ensures Result(Current(), calls, sent) == Step(old(Current()), SubscribeItems(items, client, toRequestData))
    {
      if items == {} || client == NO_CLIENT {
        return [], map[];
      }
      calls := [];
      AddedToOne(mClientToDataItems.mMap, client, items);
      var dataItemsToSubscribe := mDataItemToClients.Add(items, {client});
      var _ := mClientToDataItems.AddOne(client, items);
      sent := SendCachedDataItems(items, client);
      if mSubscriptionObjSet {
        if toRequestData {
          calls := [RequestData(dataItemsToSubscribe)];
        } else if dataItemsToSubscribe != {} {
          calls := [Call.Subscribe(dataItemsToSubscribe)];
        }
      }
    }

    method UpdateSubscription(items: set<DataItemId>, client: Client) returns (calls: seq<Call>, sent: Deliveries)
      requires Valid()
      modifies this, mClientToDataItems, mDataItemToClients
      ensures Result(Current(), calls, sent) == Step(old(Current()), Event.UpdateSubscription(items, client))
    {
      if items == {} || client == NO_CLIENT {
        return [], map[];
      }
      calls := [];
      var common, left := mClientToDataItems.Update(client, items);
      var dataItemsToUnsubscribe, _ := mDataItemToClients.TrimOrRemove(common, {client});
      var dataItemsToSubscribe := mDataItemToClients.Add(left, {client});
      sent := SendCachedDataItems(left, client);
      if mSubscriptionObjSet {
        if dataItemsToSubscribe != {} {
          calls := calls + [Call.Subscribe(dataItemsToSubscribe)];
        }
        if dataItemsToUnsubscribe != {} {
          calls := calls + [Call.Unsubscribe(dataItemsToUnsubscribe)];
        }
      }
    }

    method Unsubscribe(items: set<DataItemId>, client: Client) returns (calls: seq<Call>)
      requires Valid()
      modifies this, mClientToDataItems, mDataItemToClients
      ensures Result(Current(), calls, map[]) == Step(old(Current()), UnsubscribeItems(items, client))
    {
      calls := [];
      if items == {} || client == NO_CLIENT {
        return;
      }
      var _, dataItemsUnusedByClient := mClientToDataItems.TrimOrRemove({client}, items);
      var dataItemsToUnsubscribe, _ := mDataItemToClients.TrimOrRemove(dataItemsUnusedByClient, {client});
      if mSubscriptionObjSet && dataItemsToUnsubscribe != {} {
        calls := [Call.Unsubscribe(dataItemsToUnsubscribe)];
      }
    }

    method UnsubscribeAll(client: Client) returns (calls: seq<Call>)
      requires Valid()
      modifies this, mClientToDataItems, mDataItemToClients
      ensures Result(Current(), calls, map[]) == Step(old(Current()), Event.UnsubscribeAll(client))
    {
      calls := [];
      if client == NO_CLIENT {
        return;
      }
      var diByClient := Vals(mClientToDataItems.mMap, client);
      if diByClient != {} {
        mClientToDataItems.mMap := mClientToDataItems.mMap - {client};
        var dataItemsToUnsubscribe, _ := mDataItemToClients.TrimOrRemove(diByClient, {client});
        if dataItemsToUnsubscribe != {} && mSubscriptionObjSet {
          calls := [Call.Unsubscribe(dataItemsToUnsubscribe)];
        }
      }
    }

    method SetSubscriptionObj() returns (calls: seq<Call>)
      modifies this
      ensures Result(Current(), calls, map[]) == Step(old(Current()), Event.SetSubscriptionObj)
    {
      mSubscriptionObjSet := true;
      calls := [];
      if mDataItemToClients.mMap != map[] {
        var items := mDataItemToClients.mMap.Keys;
        calls := [Call.Subscribe(items), RequestData(items)];
      }
    }

    method UpdateCache(incoming: seq<Incoming>) returns (changed: set<DataItemId>)
      modifies this`mDataItemCache
      ensures mDataItemCache == Recorded(old(mDataItemCache), incoming) && changed == Changed(incoming)
    {
      changed := {};
      var k := 0;
      while k < |incoming|
        invariant 0 <= k <= |incoming|
        invariant Recorded(mDataItemCache, incoming[k..]) == Recorded(old(mDataItemCache), incoming)
        invariant changed == Changed(incoming[..k])
      {
        assert incoming[k..][0] == incoming[k] && incoming[k..][1..] == incoming[k + 1..];
        assert incoming[..k + 1] == incoming[..k] + [incoming[k]];
        if incoming[k].accepted {
          mDataItemCache := mDataItemCache[incoming[k].id := incoming[k].value];
          changed := changed + {incoming[k].id};
        }
        k := k + 1;
      }
      assert incoming[..k] == incoming;
    }

    method Notify(incoming: seq<Incoming>) returns (sent: Deliveries)
      modifies this`mDataItemCache
      ensures Result(Current(), [], sent) == Step(old(Current()), Event.Notify(incoming))
    {
      var toBeSent := UpdateCache(incoming);
      var clients := ClientsToNotify(toBeSent);
      sent := map[];
      var rest := clients;
      ghost var done: set<Client> := {};
      while rest != {}
        invariant done !! rest && done + rest == clients
        invariant mDataItemCache == Recorded(old(mDataItemCache), incoming)
        invariant sent == Fanout(Current(), done, toBeSent)
        decreases |rest|
      {
        var client :| client in rest;
        var mine := SendCachedDataItems(Vals(mClientToDataItems.mMap, client) * toBeSent, client);
        FanoutOneMore(Current(), done, client, toBeSent);
        sent := sent + mine;
        MoveOne(clients, done, rest, client);
        rest, done := rest - {client}, done + {client};
      }
      assert done == clients;
      assert Current() == old(Current()).(cache := Recorded(old(mDataItemCache), incoming));
    }

    method ClientsToNotify(toBeSent: set<DataItemId>) returns (clients: set<Client>)
      ensures clients == ClientsOf(mDataItemToClients.mMap, toBeSent)
    {
      clients := {};
      var rest := toBeSent;
      ghost var done: set<DataItemId> := {};
      while rest != {}
        invariant done !! rest && done + rest == toBeSent
        invariant clients == ClientsOf(mDataItemToClients.mMap, done)
        decreases |rest|
      {
        var item :| item in rest;
        clients := clients + Vals(mDataItemToClients.mMap, item);
        MoveOne(toBeSent, done, rest, item);
        rest, done := rest - {item}, done + {item};
      }
      assert done == toBeSent;
    }
  }

  lemma FanoutOneMore(s: State, clients: set<Client>, client: Client, changed: set<DataItemId>)
    ensures Fanout(s, clients + {client}, changed) ==
            Fanout(s, clients, changed) + Cached(s.cache, Vals(s.clientItems, client) * changed, client)
  {
  }
}
