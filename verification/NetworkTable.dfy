/** The table of network handles that SystemStatusNetworkInfo::collate (gps/core/SystemStatus.h) carries from
    one report to the next, and the bounded history of gps/core/SystemStatus.cpp that holds the reports. */
module NetworkTable {

  const MAX_NETWORK_HANDLES := 10
  const MAX_ITEM := 5
  const TYPE_MOBILE := 0
  const TYPE_UNKNOWN := 10

  type Handle = n: int | 0 <= n < 0x1_0000_0000_0000_0000
  const NETWORK_HANDLE_UNKNOWN: Handle := 0xFFFF_FFFF_FFFF_FFFF

  /** The bits of mAllTypes that are set. */
  type TypeMask = set<nat>

  datatype Slot = Slot(networkHandle: Handle, networkType: int)

  const FREE := Slot(NETWORK_HANDLE_UNKNOWN, TYPE_UNKNOWN)

  type Table = seq<Slot>

  /** SystemStatusNetworkInfo with its time of report. */
  datatype Info = Info(allTypes: TypeMask, networkType: int, connected: bool, handle: Handle, apn: string, utc: int,
                       table: Table)

  // ---------------------------------------------------------------- the table as a list

  function Used(table: Table): (n: nat)
    ensures n <= |table|
  {
    if table == [] || table[0].networkHandle == NETWORK_HANDLE_UNKNOWN then 0 else 1 + Used(table[1..])
  }

  function Insert(table: Table, handle: Handle, networkType: int): Table {
    if table == [] then []
    else if handle == table[0].networkHandle then table
    else if table[0].networkHandle == NETWORK_HANDLE_UNKNOWN then [Slot(handle, networkType)] + table[1..]
    else [table[0]] + Insert(table[1..], handle, networkType)
  }

  /** The last of the first `n` slots that holds the handle with the type, or |table|. */
  function Match(table: Table, n: nat, handle: Handle, networkType: int): nat
    requires n <= |table|
  {
    if n == 0 then |table|
    else if table[n - 1] == Slot(handle, networkType) then n - 1
    else Match(table, n - 1, handle, networkType)
  }

  /** How many of the first `n` slots have the type but another handle. */
  function OthersOfType(table: Table, n: nat, handle: Handle, networkType: int): nat
    requires n <= |table|
  {
    if n == 0 then 0
    else OthersOfType(table, n - 1, handle, networkType)
         + if table[n - 1].networkType == networkType && table[n - 1].networkHandle != handle then 1 else 0
  }

  function Remove(table: Table, handle: Handle, networkType: int): Table {
    var n := Used(table);
    var deleted := Match(table, n, handle, networkType);
    MatchBound(table, n, handle, networkType);
    if deleted == |table| then table else table[deleted := table[n - 1]][n - 1 := FREE]
  }

  lemma {:induction false} UsedBound(table: Table)
    ensures Used(table) <= |table|
    ensures forall i | 0 <= i < Used(table) :: table[i].networkHandle != NETWORK_HANDLE_UNKNOWN
    ensures Used(table) < |table| ==> table[Used(table)].networkHandle == NETWORK_HANDLE_UNKNOWN
  {
    if Used(table) > 0 {
      UsedBound(table[1..]);
      forall i | 1 <= i < Used(table) ensures table[i].networkHandle != NETWORK_HANDLE_UNKNOWN {
        assert table[i] == table[1..][i - 1];
      }
    }
  }

  lemma {:induction false} UsedIs(table: Table, n: nat)
    requires n <= |table|
    requires forall i | 0 <= i < n :: table[i].networkHandle != NETWORK_HANDLE_UNKNOWN
    requires n < |table| ==> table[n].networkHandle == NETWORK_HANDLE_UNKNOWN
    ensures Used(table) == n
  {
    if n > 0 {
      UsedIs(table[1..], n - 1);
    }
  }

  lemma {:induction false} MatchBound(table: Table, n: nat, handle: Handle, networkType: int)
    requires n <= |table|
    ensures var d := Match(table, n, handle, networkType);
            && (d < n || d == |table|)
            && (d < |table| ==> d < n && table[d] == Slot(handle, networkType))
            && (d == |table| ==> forall i | 0 <= i < n :: table[i] != Slot(handle, networkType))
  {
    if n > 0 && table[n - 1] != Slot(handle, networkType) {
      MatchBound(table, n - 1, handle, networkType);
    }
  }

  // ---------------------------------------------------------------- the table as a map

  /** No gaps: used slots first, with distinct handles. */
  predicate WellFormed(table: Table) {
    && |table| == MAX_NETWORK_HANDLES
    && (forall i | Used(table) <= i < |table| :: table[i].networkHandle == NETWORK_HANDLE_UNKNOWN)
    && (forall i, j | 0 <= i < j < Used(table) :: table[i].networkHandle != table[j].networkHandle)
  }

  type Handles = map<Handle, int>

  /** What the first `n` slots say. */
  function Meaning(table: Table, n: nat): Handles
    requires n <= |table|
  {
    if n == 0 then map[] else Meaning(table, n - 1)[table[n - 1].networkHandle := table[n - 1].networkType]
  }

  function Abstract(table: Table): Handles {
    Meaning(table, Used(table))
  }

  predicate Distinct(table: Table, n: nat)
    requires n <= |table|
  {
    forall i, j | 0 <= i < j < n :: table[i].networkHandle != table[j].networkHandle
  }

  /** Where the first `n` slots hold the handle, or n. */
  function Where(table: Table, n: nat, handle: Handle): (i: nat)
    requires n <= |table|
    ensures i < n ==> table[i].networkHandle == handle
    ensures i >= n ==> forall j | 0 <= j < n :: table[j].networkHandle != handle
  {
    if n == 0 then 0
    else if table[n - 1].networkHandle == handle then n - 1
    else
      var i := Where(table, n - 1, handle);
      if i < n - 1 then i else n
  }

  lemma {:induction false} MeaningAt(table: Table, n: nat, handle: Handle)
    requires n <= |table|
    ensures var i := Where(table, n, handle);
            && (handle in Meaning(table, n) <==> i < n)
            && (i < n ==> Meaning(table, n)[handle] == table[i].networkType)
  {
    if n > 0 && table[n - 1].networkHandle != handle {
      MeaningAt(table, n - 1, handle);
    }
  }

  lemma OneMoreKey(m: Handles, handle: Handle, networkType: int)
    requires handle !in m
    ensures |m[handle := networkType]| == |m| + 1
  {
    assert m[handle := networkType].Keys == m.Keys + {handle};
  }

  lemma {:induction false} MeaningSize(table: Table, n: nat)
    requires n <= |table| && Distinct(table, n)
    ensures |Meaning(table, n)| == n
  {
    if n > 0 {
      MeaningSize(table, n - 1);
      MeaningAt(table, n - 1, table[n - 1].networkHandle);
      OneMoreKey(Meaning(table, n - 1), table[n - 1].networkHandle, table[n - 1].networkType);
    }
  }

  lemma {:induction false} MeaningOfPrefix(a: Table, b: Table, n: nat)
    requires n <= |a| && n <= |b| && a[..n] == b[..n]
    ensures Meaning(a, n) == Meaning(b, n)
  {
    if n > 0 {
      assert a[n - 1] == a[..n][n - 1] == b[..n][n - 1] == b[n - 1];
      assert a[..n - 1] == a[..n][..n - 1] == b[..n][..n - 1] == b[..n - 1];
      MeaningOfPrefix(a, b, n - 1);
    }
  }

  /** Moving the last entry into the hole takes just the one handle out of the map. */
  lemma MoveLastIntoHole(table: Table, n: nat, d: nat)
    requires d < n <= |table| && Distinct(table, n)
    ensures Meaning(table[d := table[n - 1]], n - 1) == Meaning(table, n) - {table[d].networkHandle}
  {
    var r := table[d := table[n - 1]];
    var left, right := Meaning(r, n - 1), Meaning(table, n) - {table[d].networkHandle};
    forall h ensures h in left <==> h in right
             ensures h in left ==> left[h] == right[h]
    {
      MeaningAt(r, n - 1, h);
      MeaningAt(table, n, h);
      var i, j := Where(r, n - 1, h), Where(table, n, h);
      if i < n - 1 {
        assert table[if i == d then n - 1 else i].networkHandle == h;
      }
      if j < n && j != d {
        assert j < n - 1 ==> r[j].networkHandle == h;
        assert j == n - 1 ==> r[d].networkHandle == h;
      }
    }
  }

  // ---------------------------------------------------------------- what a report means

  function Connected(m: Handles, handle: Handle, networkType: int): Handles {
    if handle == NETWORK_HANDLE_UNKNOWN || handle in m || |m| >= MAX_NETWORK_HANDLES then m
    else m[handle := networkType]
  }

  function Disconnected(m: Handles, handle: Handle, networkType: int): Handles {
    if handle in m && m[handle] == networkType then m - {handle} else m
  }

  lemma {:induction false} InsertEffect(table: Table, handle: Handle, networkType: int)
    ensures var n := Used(table);
            var r := Insert(table, handle, networkType);
            if n < |table| && handle != NETWORK_HANDLE_UNKNOWN && Where(table, n, handle) >= n
            then r == table[n := Slot(handle, networkType)] else r == table
  {
    if table != [] && table[0].networkHandle != handle && table[0].networkHandle != NETWORK_HANDLE_UNKNOWN {
      InsertEffect(table[1..], handle, networkType);
      var n := Used(table);
      WhereInTail(table, n, handle);
      SetInTail(table, n, Slot(handle, networkType));
    } else if table != [] && table[0].networkHandle == handle != NETWORK_HANDLE_UNKNOWN {
      assert Where(table, Used(table), handle) < Used(table);
    }
  }

  lemma SetInTail(table: Table, n: nat, slot: Slot)
    requires 0 < n <= |table|
    ensures table == [table[0]] + table[1..]
    ensures n < |table| ==> table[n := slot] == [table[0]] + table[1..][n - 1 := slot]
  {
  }

  lemma WhereInTail(table: Table, n: nat, handle: Handle)
    requires 0 < n <= |table| && table[0].networkHandle != handle
    ensures Where(table, n, handle) >= n <==> Where(table[1..], n - 1, handle) >= n - 1
  {
    var i, j := Where(table, n, handle), Where(table[1..], n - 1, handle);
    if i < n {
      assert table[1..][i - 1].networkHandle == handle;
    }
    if j < n - 1 {
      assert table[j + 1] == table[1..][j];
    }
  }

  lemma InsertRefines(table: Table, handle: Handle, networkType: int)
    requires WellFormed(table)
    ensures var r := Insert(table, handle, networkType);
            WellFormed(r) && Abstract(r) == Connected(Abstract(table), handle, networkType)
  {
    var n := Used(table);
    var r := Insert(table, handle, networkType);
    UsedBound(table);
    InsertEffect(table, handle, networkType);
    MeaningAt(table, n, handle);
    MeaningSize(table, n);
    if n < |table| && handle != NETWORK_HANDLE_UNKNOWN && Where(table, n, handle) >= n {
      AddedTable(table, n, handle, networkType);
    }
  }

  lemma AddedTable(table: Table, n: nat, handle: Handle, networkType: int)
    requires WellFormed(table) && n == Used(table) < |table|
    requires handle != NETWORK_HANDLE_UNKNOWN && Where(table, n, handle) >= n
    ensures var r := table[n := Slot(handle, networkType)];
            WellFormed(r) && Abstract(r) == Abstract(table)[handle := networkType]
  {
    var r := table[n := Slot(handle, networkType)];
    UsedBound(table);
    UsedIs(r, n + 1);
    MeaningOfPrefix(table, r, n);
  }

  /** Deletion moves the last used slot into the hole, and still removes exactly the one entry. */
  lemma RemoveRefines(table: Table, handle: Handle, networkType: int)
    requires WellFormed(table)
    ensures var r := Remove(table, handle, networkType);
            WellFormed(r) && Abstract(r) == Disconnected(Abstract(table), handle, networkType)
  {
    var n := Used(table);
    UsedBound(table);
    MatchBound(table, n, handle, networkType);
    MeaningAt(table, n, handle);
    var d := Match(table, n, handle, networkType);
    if d < |table| {
      RemovedTable(table, n, d);
      assert Where(table, n, handle) == d;
      MoveLastIntoHole(table, n, d);
      MeaningOfPrefix(table[d := table[n - 1]], Remove(table, handle, networkType), n - 1);
    }
  }

  lemma RemovedTable(table: Table, n: nat, d: nat)
    requires WellFormed(table) && n == Used(table) && d < n
    ensures var r := table[d := table[n - 1]][n - 1 := FREE];
            WellFormed(r) && Used(r) == n - 1
  {
    UsedBound(table);
    UsedIs(table[d := table[n - 1]][n - 1 := FREE], n - 1);
  }

  // ---------------------------------------------------------------- collate and the history

  function Collated(item: Info, cur: Info): Info {
    var named := item.(apn := if item.networkType != TYPE_MOBILE && cur.apn != "" then cur.apn else item.apn,
                       table := cur.table);
    if item.connected then
      named.(allTypes := item.allTypes + cur.allTypes, table := Insert(cur.table, item.handle, item.networkType))
    else if item.allTypes != {} then
      named.(table := Remove(cur.table, item.handle, item.networkType),
             allTypes := if OthersOfType(cur.table, Used(cur.table), item.handle, item.networkType) == 0
                         then cur.allTypes - item.allTypes else item.allTypes)
    else named
  }

  predicate Same(a: Info, b: Info) {
    a.allTypes == b.allTypes && a.connected == b.connected && a.table == b.table && a.apn == b.apn
  }

  /** setIteminReport: the new history and whether the item was taken. */
  function Reported(report: seq<Info>, item: Info): (seq<Info>, bool) {
    var s := if report == [] then item else Collated(item, report[|report| - 1]);
    if report != [] && Same(report[|report| - 1], s) then
      (report[|report| - 1 := report[|report| - 1].(utc := s.utc)], false)
    else
      var longer := report + [s];
      (if |longer| > MAX_ITEM then longer[1..] else longer, true)
  }

  /** What an item means to the table of handles that is in force. */
  function Effect(m: Handles, item: Info): Handles {
    if item.connected then Connected(m, item.handle, item.networkType)
    else if item.allTypes != {} then Disconnected(m, item.handle, item.networkType)
    else m
  }

  /** A new item comes with its own handle in slot 0, connected or not, under `initialType`. */
  function NewItem(allTypes: TypeMask, networkType: int, connected: bool, handle: Handle, apn: string, utc: int,
                   initialType: int): Info
  {
    Info(allTypes, networkType, connected, handle, apn, utc,
         [Slot(handle, initialType)] + seq(MAX_NETWORK_HANDLES - 1, _ => FREE))
  }

  lemma NewItemTable(allTypes: TypeMask, networkType: int, connected: bool, handle: Handle, apn: string, utc: int,
                     initialType: int)
    ensures var t := NewItem(allTypes, networkType, connected, handle, apn, utc, initialType).table;
            && WellFormed(t)
            && Abstract(t) == if handle == NETWORK_HANDLE_UNKNOWN then map[] else map[handle := initialType]
  {
    var t := NewItem(allTypes, networkType, connected, handle, apn, utc, initialType).table;
    UsedIs(t, if handle == NETWORK_HANDLE_UNKNOWN then 0 else 1);
    if handle != NETWORK_HANDLE_UNKNOWN {
      assert Meaning(t, 1) == Meaning(t, 0)[handle := initialType];
    }
  }

  lemma CollateRefines(item: Info, cur: Info)
    requires WellFormed(cur.table)
    ensures WellFormed(Collated(item, cur).table)
    ensures Abstract(Collated(item, cur).table) == Effect(Abstract(cur.table), item)
  {
    InsertRefines(cur.table, item.handle, item.networkType);
    RemoveRefines(cur.table, item.handle, item.networkType);
  }

  function Reports(report: seq<Info>, items: seq<Info>): seq<Info>
    decreases |items|
  {
    if items == [] then report else Reports(Reported(report, items[0]).0, items[1..])
  }

  function Effects(m: Handles, items: seq<Info>): Handles
    decreases |items|
  {
    if items == [] then m else Effects(Effect(m, items[0]), items[1..])
  }

  /** The newest entry of the history has a well-formed table that means `m`. */
  ghost predicate Means(report: seq<Info>, m: Handles) {
    && 0 < |report| <= MAX_ITEM
    && WellFormed(report[|report| - 1].table)
    && Abstract(report[|report| - 1].table) == m
  }

  lemma ReportRefines(report: seq<Info>, m: Handles, item: Info)
    requires Means(report, m)
    ensures Means(Reported(report, item).0, Effect(m, item))
  {
    CollateRefines(item, report[|report| - 1]);
  }

  /** In every run the newest entry of the history means what the items say, whether or not the history kept
      every one of them. */
  lemma {:induction false} HistoryRefinesMap(report: seq<Info>, m: Handles, items: seq<Info>)
    requires Means(report, m)
    ensures Means(Reports(report, items), Effects(m, items))
    decreases |items|
  {
    if items != [] {
      var next, after := Reported(report, items[0]).0, Effect(m, items[0]);
      ReportRefines(report, m, items[0]);
      HistoryRefinesMap(next, after, items[1..]);
    }
  }

  /** Any run from an empty history whose first item is a new one. */
  lemma RunFromEmpty(allTypes: TypeMask, networkType: int, connected: bool, handle: Handle, apn: string, utc: int,
                     initialType: int, items: seq<Info>)
    ensures var first := NewItem(allTypes, networkType, connected, handle, apn, utc, initialType);
            var m := if handle == NETWORK_HANDLE_UNKNOWN then map[] else map[handle := initialType];
            Means(Reports(Reported([], first).0, items), Effects(m, items))
  {
    var first := NewItem(allTypes, networkType, connected, handle, apn, utc, initialType);
    NewItemTable(allTypes, networkType, connected, handle, apn, utc, initialType);
    HistoryRefinesMap(Reported([], first).0,
                      if handle == NETWORK_HANDLE_UNKNOWN then map[] else map[handle := initialType], items);
  }

  // ---------------------------------------------------------------- the type mask

  /** Some other handle of the type is connected. */
  ghost predicate OtherOfType(m: Handles, handle: Handle, networkType: int) {
    exists h <- m :: h != handle && m[h] == networkType
  }

  lemma {:induction false} OthersAre(table: Table, n: nat, handle: Handle, networkType: int)
    requires n <= |table| && Distinct(table, n)
    ensures OthersOfType(table, n, handle, networkType) > 0 <==> OtherOfType(Meaning(table, n), handle, networkType)
  {
    if n > 0 {
      var (before, after, last) := (Meaning(table, n - 1), Meaning(table, n), table[n - 1]);
      OthersAre(table, n - 1, handle, networkType);
      MeaningAt(table, n - 1, last.networkHandle);
      if h :| h in before && h != handle && before[h] == networkType {
        assert h in after && after[h] == networkType;
      }
      if h :| h in after && h != handle && after[h] == networkType {
        assert h == last.networkHandle || (h in before && before[h] == networkType);
      }
      assert last.networkHandle in after && after[last.networkHandle] == last.networkType;
    }
  }

  /** A connection adds its types to the mask. A disconnection takes its types out if no other handle of its type is
      connected; but if one is, the mask becomes the types of the item alone, whatever else was connected. */
  lemma MaskAfter(item: Info, cur: Info)
    requires WellFormed(cur.table)
    ensures var (next, m) := (Collated(item, cur), Abstract(cur.table));
            && (item.connected ==> forall t :: t in next.allTypes <==> t in item.allTypes || t in cur.allTypes)
            && (!item.connected && item.allTypes != {} && !OtherOfType(m, item.handle, item.networkType) ==>
                  forall t :: t in next.allTypes <==> t in cur.allTypes && t !in item.allTypes)
            && (!item.connected && (item.allTypes == {} || OtherOfType(m, item.handle, item.networkType)) ==>
                  next.allTypes == item.allTypes)
  {
    UsedBound(cur.table);
    OthersAre(cur.table, Used(cur.table), item.handle, item.networkType);
  }

  /** So a type stays in the mask when a handle of another one goes, exactly if no further handle of that one is
      connected: then mobile data, say, which NativeAgpsHandler reads off the mask, seems to be gone. */
  lemma OtherTypeStaysIff(item: Info, cur: Info, t: int)
    requires WellFormed(cur.table) && t in cur.allTypes && t !in item.allTypes
    requires !item.connected && item.allTypes != {}
    ensures t in Collated(item, cur).allTypes <==> !OtherOfType(Abstract(cur.table), item.handle, item.networkType)
  {
    MaskAfter(item, cur);
  }

  /** An item of another type than mobile takes over the APN that was known, if one was; any other keeps its own. The
      rest of an item is its own too. */
  lemma ApnAfter(item: Info, cur: Info)
    ensures var next := Collated(item, cur);
            && (item.networkType == 0 ==> next.apn == item.apn)
            && (item.networkType != 0 ==> next.apn == if cur.apn == "" then item.apn else cur.apn)
            && next.networkType == item.networkType && next.connected == item.connected
            && next.handle == item.handle && next.utc == item.utc
  {
  }

  // ---------------------------------------------------------------- the history

  /** An item is taken exactly if the history is empty or the item, with what it takes over from the newest entry, is
      connected differently, or has another mask, table or APN; it then becomes the newest of at most five entries,
      and the oldest goes if there were five. Otherwise only the time of the newest entry changes. */
  lemma TakenIff(report: seq<Info>, item: Info)
    requires |report| <= 5
    ensures var (next, taken) := Reported(report, item);
            var s := if report == [] then item else Collated(item, report[|report| - 1]);
            && (taken <==>
                  report == []
                  || s.connected != report[|report| - 1].connected || s.allTypes != report[|report| - 1].allTypes
                  || s.table != report[|report| - 1].table || s.apn != report[|report| - 1].apn)
            && (taken ==> next == (if |report| < 5 then report else report[1..]) + [s])
            && (!taken ==> |next| == |report| && next[..|report| - 1] == report[..|report| - 1]
                           && next[|report| - 1] == report[|report| - 1].(utc := item.utc))
  {
  }

  // ---------------------------------------------------------------- raw and normalised types

  /** getNormalizedType: the codes of the platform to the values of NetworkType. */
  function Normalized(code: int): int {
    match code
    case 100 => 1
    case 101 => 2
    case 102 => 3
    case 201 => TYPE_MOBILE
    case 202 => 6
    case 203 => 7
    case 204 => 4
    case 205 => 5
    case 220 => 8
    case _ => TYPE_UNKNOWN
  }

  /** The codes that are known, with their types: none is lost, and no two share one. */
  lemma KnownCodes(code: int)
    ensures var table := map[100 := 1, 101 := 2, 102 := 3, 201 := 0, 202 := 6, 203 := 7, 204 := 4, 205 := 5, 220 := 8];
            && Normalized(code) == (if code in table then table[code] else 10)
            && table.Values == {0, 1, 2, 3, 4, 5, 6, 7, 8}
  {
    var table := map[100 := 1, 101 := 2, 102 := 3, 201 := 0, 202 := 6, 203 := 7, 204 := 4, 205 := 5, 220 := 8];
    assert table[201] == 0 && table[100] == 1 && table[101] == 2 && table[102] == 3 && table[204] == 4;
    assert table[205] == 5 && table[202] == 6 && table[203] == 7 && table[220] == 8;
  }

  function AllTypes(networkType: int): TypeMask {
    if networkType >= TYPE_UNKNOWN || networkType < TYPE_MOBILE then {} else {networkType}
  }

  /** An item made from a platform code: the code is its type, the normalised code its mask and its slot 0. */
  function PlatformItem(code: int, connected: bool, handle: Handle, apn: string, utc: int): Info {
    NewItem(AllTypes(Normalized(code)), code, connected, handle, apn, utc, Normalized(code))
  }

  /** An item made from a NetworkType, as for eventConnectionStatus. */
  function StatusItem(networkType: int, connected: bool, handle: Handle, apn: string, utc: int): Info {
    NewItem(AllTypes(networkType), networkType, connected, handle, apn, utc, networkType)
  }

  lemma RemovedFromTable(gone: Info, cur: Info)
    requires WellFormed(cur.table) && !gone.connected && gone.handle in Abstract(cur.table)
    ensures gone.handle !in Abstract(Collated(gone, cur).table)
            <==> gone.allTypes != {} && Abstract(cur.table)[gone.handle] == gone.networkType
  {
    CollateRefines(gone, cur);
  }

  /** An item that the platform reports. */
  predicate FromPlatform(item: Info) {
    item == PlatformItem(item.networkType, item.connected, item.handle, item.apn, item.utc)
  }

  /** A code that equals a normalised type has no bit in the mask, so it removes nothing. */
  lemma {:induction false} EffectsKeepHandle(m: Handles, items: seq<Info>, handle: Handle, code: int)
    requires handle in m && m[handle] == Normalized(code) && forall item <- items :: FromPlatform(item)
    ensures handle in Effects(m, items) && Effects(m, items)[handle] == Normalized(code)
    decreases |items|
  {
    if items != [] {
      assert FromPlatform(items[0]);
      EffectsKeepHandle(Effect(m, items[0]), items[1..], handle, code);
    }
  }

  /** The handle of the first report is filed under its normalised type, and stays in the table under it for ever,
      whatever the platform reports of this handle and others. */
  lemma FirstHandleIsStuck(code: int, connected: bool, handle: Handle, apn: string, utc: int, items: seq<Info>)
    requires handle != NETWORK_HANDLE_UNKNOWN
    requires forall item <- items :: FromPlatform(item)
    ensures var report := Reports(Reported([], PlatformItem(code, connected, handle, apn, utc)).0, items);
            && report != [] && WellFormed(report[|report| - 1].table)
            && var m := Abstract(report[|report| - 1].table);
               handle in m && m[handle] == Normalized(code)
  {
    PlatformRun(code, connected, handle, apn, utc, items);
    EffectsKeepHandle(map[handle := Normalized(code)], items, handle, code);
  }

  lemma PlatformRun(code: int, connected: bool, handle: Handle, apn: string, utc: int, items: seq<Info>)
    requires handle != NETWORK_HANDLE_UNKNOWN
    ensures Means(Reports(Reported([], PlatformItem(code, connected, handle, apn, utc)).0, items),
                  Effects(map[handle := Normalized(code)], items))
  {
    RunFromEmpty(AllTypes(Normalized(code)), code, connected, handle, apn, utc, Normalized(code), items);
  }

  /** A status report removes it exactly if it names the type it was filed under, and that is a known one. */
  lemma FirstHandleRemovableIff(code: int, connected: bool, handle: Handle, apn: string, utc: int,
                                networkType: int, goneApn: string, goneUtc: int)
    requires handle != NETWORK_HANDLE_UNKNOWN
    ensures var (first, gone) := (PlatformItem(code, connected, handle, apn, utc),
                                  StatusItem(networkType, false, handle, goneApn, goneUtc));
            handle !in Abstract(Collated(gone, first).table)
            <==> networkType == Normalized(code) && Normalized(code) != TYPE_UNKNOWN
  {
    var first := PlatformItem(code, connected, handle, apn, utc);
    NewItemTable(first.allTypes, code, connected, handle, apn, utc, Normalized(code));
    RemovedFromTable(StatusItem(networkType, false, handle, goneApn, goneUtc), first);
  }

  /** A later handle is filed under the code itself, so a platform report of the same code does remove it, if the
      code is a known one. */
  lemma LaterHandleRemovableIff(cur: Info, item: Info, code: int, goneApn: string, goneUtc: int)
    requires WellFormed(cur.table) && Used(cur.table) < MAX_NETWORK_HANDLES
    requires item.connected && item.networkType == code && item.handle != NETWORK_HANDLE_UNKNOWN
    requires item.handle !in Abstract(cur.table)
    ensures var gone := PlatformItem(code, false, item.handle, goneApn, goneUtc);
            item.handle !in Abstract(Collated(gone, Collated(item, cur)).table) <==> Normalized(code) != TYPE_UNKNOWN
  {
    UsedBound(cur.table);
    MeaningSize(cur.table, Used(cur.table));
    CollateRefines(item, cur);
    RemovedFromTable(PlatformItem(code, false, item.handle, goneApn, goneUtc), Collated(item, cur));
  }

  // ---------------------------------------------------------------- the item as an object

  class NetworkInfo {
    var mAllTypes: TypeMask
    var mType: int
    var mConnected: bool
    var mNetworkHandle: Handle
    var mApn: string
    var mUtcReported: int
    const mAllNetworkHandles: array<Slot>

    ghost predicate Valid() {
      mAllNetworkHandles.Length == MAX_NETWORK_HANDLES
    }

    function Current(): Info
      reads this, mAllNetworkHandles
    {
      Info(mAllTypes, mType, mConnected, mNetworkHandle, mApn, mUtcReported, mAllNetworkHandles[..])
    }

    constructor (allTypes: TypeMask, networkType: int, connected: bool, handle: Handle, apn: string, utc: int,
                 initialType: int)
      ensures Valid() && fresh(mAllNetworkHandles)
      ensures Current() == NewItem(allTypes, networkType, connected, handle, apn, utc, initialType)
    {
      mAllTypes, mType, mConnected, mNetworkHandle, mApn := allTypes, networkType, connected, handle, apn;
      mUtcReported := utc;
      mAllNetworkHandles := new Slot[MAX_NETWORK_HANDLES](_ => FREE);
      new;
      mAllNetworkHandles[0] := Slot(handle, initialType);
      assert mAllNetworkHandles[..] == [Slot(handle, initialType)] + seq(MAX_NETWORK_HANDLES - 1, _ => FREE);
    }

    method Collate(cur: Info)
      requires Valid() && |cur.table| == MAX_NETWORK_HANDLES
      modifies this, mAllNetworkHandles
      ensures Current() == Collated(old(Current()), cur)
    {
      forall i | 0 <= i < MAX_NETWORK_HANDLES {
        mAllNetworkHandles[i] := cur.table[i];
      }
      assert mAllNetworkHandles[..] == cur.table;
      if mType != TYPE_MOBILE && cur.apn != "" {
        mApn := cur.apn;
      }
      if mConnected {
        mAllTypes := mAllTypes + cur.allTypes;
        InsertHandle();
      } else if mAllTypes != {} {
        var typeCount := RemoveHandle();
        if typeCount == 0 {
          mAllTypes := cur.allTypes - mAllTypes;
        }
      }
    }

    method InsertHandle()
      requires Valid()
      modifies mAllNetworkHandles
      ensures mAllNetworkHandles[..] == Insert(old(mAllNetworkHandles[..]), mNetworkHandle, mType)
    {
      ghost var table := mAllNetworkHandles[..];
      var i := 0;
      while i < MAX_NETWORK_HANDLES
        invariant 0 <= i <= MAX_NETWORK_HANDLES
        invariant mAllNetworkHandles[..] == table
        invariant Insert(table, mNetworkHandle, mType) == table[..i] + Insert(table[i..], mNetworkHandle, mType)
      {
        InsertStep(table, i, mNetworkHandle, mType);
        if mNetworkHandle == mAllNetworkHandles[i].networkHandle {
          break;
        }
        if mAllNetworkHandles[i].networkHandle == NETWORK_HANDLE_UNKNOWN {
          mAllNetworkHandles[i] := Slot(mNetworkHandle, mType);
          return;
        }
        i := i + 1;
      }
    }

    method RemoveHandle() returns (typeCount: nat)
      requires Valid()
      modifies mAllNetworkHandles
      ensures mAllNetworkHandles[..] == Remove(old(mAllNetworkHandles[..]), mNetworkHandle, mType)
      ensures var table := old(mAllNetworkHandles[..]);
              typeCount == OthersOfType(table, Used(table), mNetworkHandle, mType)
    {
      ghost var table := mAllNetworkHandles[..];
      var deletedIndex := MAX_NETWORK_HANDLES;
      var lastValidIndex := 0;
      typeCount := 0;
      while lastValidIndex < MAX_NETWORK_HANDLES
          && mAllNetworkHandles[lastValidIndex].networkHandle != NETWORK_HANDLE_UNKNOWN
        invariant 0 <= lastValidIndex <= MAX_NETWORK_HANDLES
        invariant forall i | 0 <= i < lastValidIndex :: table[i].networkHandle != NETWORK_HANDLE_UNKNOWN
        invariant deletedIndex == Match(table, lastValidIndex, mNetworkHandle, mType)
        invariant typeCount == OthersOfType(table, lastValidIndex, mNetworkHandle, mType)
      {
        if mType == mAllNetworkHandles[lastValidIndex].networkType {
          if mNetworkHandle == mAllNetworkHandles[lastValidIndex].networkHandle {
            deletedIndex := lastValidIndex;
          } else {
            typeCount := typeCount + 1;
          }
        }
        lastValidIndex := lastValidIndex + 1;
      }
      UsedIs(table, lastValidIndex);
      MatchBound(table, lastValidIndex, mNetworkHandle, mType);
      if lastValidIndex > 0 {
        lastValidIndex := lastValidIndex - 1;
      }
      if deletedIndex != MAX_NETWORK_HANDLES {
        mAllNetworkHandles[deletedIndex] := mAllNetworkHandles[lastValidIndex];
        mAllNetworkHandles[lastValidIndex] := FREE;
      }
    }
  }

  /** One slot of the insertion, after the first `i` were passed. */
  lemma InsertStep(table: Table, i: nat, handle: Handle, networkType: int)
    requires i < |table|
    ensures table[..i] + Insert(table[i..], handle, networkType) ==
            if handle == table[i].networkHandle then table
            else if table[i].networkHandle == NETWORK_HANDLE_UNKNOWN then table[i := Slot(handle, networkType)]
            else table[..i + 1] + Insert(table[i + 1..], handle, networkType)
  {
    assert table[i..][0] == table[i] && table[i..][1..] == table[i + 1..];
    assert table == table[..i] + table[i..];
    InsertPrefix(table, i, Insert(table[i + 1..], handle, networkType));
  }

  lemma InsertPrefix(table: Table, i: nat, rest: Table)
    requires i < |table|
    ensures table[..i] + ([table[i]] + rest) == table[..i + 1] + rest
  {
  }

  class SystemStatus {
    var mNetworkInfo: seq<Info>

    constructor ()
      ensures mNetworkInfo == []
    {
      mNetworkInfo := [];
    }

    method SetItemInReport(s: NetworkInfo) returns (taken: bool)
      requires s.Valid() && forall r <- mNetworkInfo :: |r.table| == MAX_NETWORK_HANDLES
      modifies this, s, s.mAllNetworkHandles
      ensures (mNetworkInfo, taken) == Reported(old(mNetworkInfo), old(s.Current()))
    {
      if |mNetworkInfo| > 0 {
        var back := mNetworkInfo[|mNetworkInfo| - 1];
        s.Collate(back);
        if Same(back, s.Current()) {
          mNetworkInfo := mNetworkInfo[|mNetworkInfo| - 1 := back.(utc := s.mUtcReported)];
          return false;
        }
      }
      mNetworkInfo := mNetworkInfo + [s.Current()];
      if |mNetworkInfo| > MAX_ITEM {
        mNetworkInfo := mNetworkInfo[1..];
      }
      taken := true;
    }
  }
}
