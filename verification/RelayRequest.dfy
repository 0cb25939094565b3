/** Validation and re-encoding of requests in duck-rkp/duck_rkp.cpp. */
module RelayRequest {
  import opened Wrappers
  import opened Cbor

  const MAX_REQUEST := 0x9000
  const BUFFER_SIZE := 0xa000

  /** The order in which the V1 vendor decoder consumes the fields. */
  const VENDOR_ORDER: seq<nat> := [55, 4, 56, 57, 58]

  function Decode(bytes: seq<byte>): Option<Item> {
    if bytes == [] || |bytes| > MAX_REQUEST then None
    else match Parse(bytes)
      case Malformed => None
      case Item(item, rest) => if rest == [] then Some(item) else None
  }

  // ---------------------------------------------------------------- typed views, which look through tags

  function AsInt(item: Item): Option<int> {
    match item
    case UInt(n) => Some(n)
    case NInt(n) => Some(-1 - n)
    case Tag(_, x) => AsInt(x)
    case _ => None
  }

  function AsBstr(item: Item): Option<seq<byte>> {
    match item
    case Bstr(bytes) => Some(bytes)
    case Tag(_, x) => AsBstr(x)
    case _ => None
  }

  function AsArray(item: Item): Option<seq<Item>> {
    match item
    case Array(items) => Some(items)
    case Tag(_, x) => AsArray(x)
    case _ => None
  }

  function AsMap(item: Item): Option<seq<Item>> {
    match item
    case Map(entries) => Some(entries)
    case Tag(_, x) => AsMap(x)
    case _ => None
  }

  /** The value of the first entry with the integer key. */
  function Get(entries: seq<Item>, key: int): Option<Item>
    requires |entries| % 2 == 0
  {
    if entries == [] then None
    else if AsInt(entries[0]) == Some(key) then Some(entries[1])
    else Get(entries[2..], key)
  }

  function Labels(entries: seq<Item>): (labels: seq<Option<int>>)
    requires |entries| % 2 == 0
    ensures |labels| == |entries| / 2
  {
    if entries == [] then [] else [AsInt(entries[0])] + Labels(entries[2..])
  }

  predicate UniqueIntLabels(labels: seq<Option<int>>) {
    && (forall i :: 0 <= i < |labels| ==> labels[i].Some?)
    && (forall i, j :: 0 <= i < j < |labels| ==> labels[i] != labels[j])
  }

  function LabelSet(labels: seq<Option<int>>): set<int> {
    set l <- labels | l.Some? :: l.value
  }

  predicate ByteField(entries: seq<Item>, key: int, minimum: nat, maximum: nat)
    requires |entries| % 2 == 0
  {
    var field := Get(entries, key);
    field.Some? && AsBstr(field.value).Some? && minimum <= |AsBstr(field.value).value| <= maximum
  }

  predicate IntegerField(entries: seq<Item>, key: int, expected: int)
    requires |entries| % 2 == 0
  {
    var field := Get(entries, key);
    field.Some? && AsInt(field.value) == Some(expected)
  }

  predicate ValidCertificate(cert: Item) {
    var fields := AsArray(cert);
    && fields.Some? && |fields.value| == 4
    && AsBstr(fields.value[0]).Some? && AsMap(fields.value[1]).Some?
    && AsBstr(fields.value[2]).Some? && AsBstr(fields.value[3]).Some?
  }

  predicate ValidChain(bytes: seq<byte>) {
    var item := Decode(bytes);
    && item.Some? && AsArray(item.value).Some?
    && 1 <= |AsArray(item.value).value| <= 8
    && forall cert <- AsArray(item.value).value :: ValidCertificate(cert)
  }

  predicate ValidPublicKey(key: Item) {
    var entries := AsMap(key);
    && entries.Some? && |entries.value| == 10
    && IntegerField(entries.value, 1, 2) && IntegerField(entries.value, 3, -7)
    && IntegerField(entries.value, -1, 1)
    && ByteField(entries.value, -2, 32, 32) && ByteField(entries.value, -3, 32, 32)
  }

  predicate ValidKeys(bytes: seq<byte>) {
    var item := Decode(bytes);
    && item.Some? && AsArray(item.value).Some?
    && |AsArray(item.value).value| == 1 && ValidPublicKey(AsArray(item.value).value[0])
  }

  /** The two accepted shapes: V2 with labels 4 and 57, V1 with labels 4, 55, 56, 57 and 58. */
  predicate ValidEntries(backend: nat, entries: seq<Item>)
    requires |entries| % 2 == 0
  {
    var labels := Labels(entries);
    && UniqueIntLabels(labels)
    && ByteField(entries, 4, 1, 64)
    && if backend == 2 then
         && LabelSet(labels) == {4, 57} && ByteField(entries, 57, 1, 256)
         && ValidKeys(AsBstr(Get(entries, 57).value).value)
       else
         && backend == 1 && LabelSet(labels) == {4, 55, 56, 57, 58}
         && IntegerField(entries, 55, 0) && ByteField(entries, 56, 32, 32)
         && ByteField(entries, 57, 32, 32) && ByteField(entries, 58, 1, 8192)
         && ValidChain(AsBstr(Get(entries, 58).value).value)
  }

  predicate IsValid(backend: nat, payload: seq<byte>) {
    var item := Decode(payload);
    && item.Some? && AsMap(item.value).Some? && |AsMap(item.value).value| % 2 == 0
    && ValidEntries(backend, AsMap(item.value).value)
  }

  // ---------------------------------------------------------------- re-encoding

  /** The entries with the given labels, in that order, under plain integer keys. */
  function Pick(entries: seq<Item>, labels: seq<nat>): (picked: seq<Item>)
    requires |entries| % 2 == 0 && forall k <- labels :: Get(entries, k).Some?
    ensures |picked| == 2 * |labels|
  {
    if labels == [] then []
    else [UInt(labels[0]), Get(entries, labels[0]).value] + Pick(entries, labels[1..])
  }

  lemma {:induction false} GetKnowsLabels(entries: seq<Item>, k: int)
    requires |entries| % 2 == 0
    ensures Get(entries, k).Some? <==> Some(k) in Labels(entries)
    ensures Get(entries, k).Some? ==> Get(entries, k).value in entries
  {
    if entries != [] {
      GetKnowsLabels(entries[2..], k);
      assert Labels(entries) == [AsInt(entries[0])] + Labels(entries[2..]);
    }
  }

  lemma VendorLabelsPresent(entries: seq<Item>)
    requires |entries| % 2 == 0 && LabelSet(Labels(entries)) == {4, 55, 56, 57, 58}
    ensures forall k <- VENDOR_ORDER :: Get(entries, k).Some? && Get(entries, k).value in entries
  {
    forall k | k in VENDOR_ORDER ensures Get(entries, k).Some? && Get(entries, k).value in entries {
      assert k in LabelSet(Labels(entries));
      GetKnowsLabels(entries, k);
    }
  }

  function EntriesOf(payload: seq<byte>): (entries: seq<Item>)
    requires IsValid(1, payload)
    ensures |entries| % 2 == 0
    ensures forall k <- VENDOR_ORDER :: Get(entries, k).Some? && Get(entries, k).value in entries
  {
    var entries := AsMap(Decode(payload).value).value;
    VendorLabelsPresent(entries);
    entries
  }

  function EncodeBody(payload: seq<byte>): seq<byte>
    requires IsValid(1, payload)
  {
    Encode(Map(Pick(EntriesOf(payload), VENDOR_ORDER)))
  }

  /** The vendor command, little endian in four bytes, and the body. */
  function EncodeVendorRequest(backend: nat, payload: seq<byte>): seq<byte>
    requires IsValid(backend, payload)
  {
    if backend == 1 then [0x1e, 0x31, 0, 0] + EncodeBody(payload) else [0x22, 0x31, 0, 0] + payload
  }

  // ---------------------------------------------------------------- the picked entries

  lemma {:induction false} PickKeepsValues(entries: seq<Item>, labels: seq<nat>, k: nat)
    requires |entries| % 2 == 0 && forall l <- labels :: Get(entries, l).Some?
    ensures Get(Pick(entries, labels), k) == if k in labels then Get(entries, k) else None
  {
    if labels != [] {
      PickKeepsValues(entries, labels[1..], k);
      var picked := Pick(entries, labels);
      assert picked[2..] == Pick(entries, labels[1..]);
    }
  }

  lemma {:induction false} LabelsOfPick(entries: seq<Item>, labels: seq<nat>)
    requires |entries| % 2 == 0 && forall l <- labels :: Get(entries, l).Some?
    ensures |Labels(Pick(entries, labels))| == |labels|
    ensures forall i :: 0 <= i < |labels| ==> Labels(Pick(entries, labels))[i] == Some(labels[i])
  {
    if labels != [] {
      LabelsOfPick(entries, labels[1..]);
      var picked := Pick(entries, labels);
      assert picked[2..] == Pick(entries, labels[1..]);
    }
  }

  lemma {:induction false} PickWellFormed(entries: seq<Item>, labels: seq<nat>)
    requires |entries| % 2 == 0 && forall l <- labels :: Get(entries, l).Some? && l < TWO_TO_THE_64
    requires forall l <- labels :: Get(entries, l).value in entries
    requires forall x <- entries :: WellFormed(x)
    ensures forall x <- Pick(entries, labels) :: WellFormed(x)
  {
    if labels != [] {
      PickWellFormed(entries, labels[1..]);
    }
  }

  // ---------------------------------------------------------------- the length

  lemma {:induction false} PlainKeyShortest(key: Item, k: nat)
    requires AsInt(key) == Some(k)
    ensures |Encode(UInt(k))| <= |Encode(key)|
  {
    if key.Tag? {
      PlainKeyShortest(key.item, k);
    }
  }

  /** Bytes that the entry of label `k` takes when it is picked. */
  function Share(entries: seq<Item>, k: nat): nat
    requires |entries| % 2 == 0
  {
    match Get(entries, k)
    case None => 0
    case Some(v) => |Encode(UInt(k))| + |Encode(v)|
  }

  function Shares(entries: seq<Item>, labels: seq<nat>): nat
    requires |entries| % 2 == 0
  {
    if labels == [] then 0 else Share(entries, labels[0]) + Shares(entries, labels[1..])
  }

  predicate Distinct(labels: seq<nat>) {
    forall i, j :: 0 <= i < j < |labels| ==> labels[i] != labels[j]
  }

  /** One entry in front adds its share to at most one of distinct labels. */
  lemma {:induction false} FrontEntryShare(entries: seq<Item>, labels: seq<nat>)
    requires |entries| % 2 == 0 && entries != [] && Distinct(labels)
    ensures Shares(entries, labels) <=
            |Encode(entries[0])| + |Encode(entries[1])| + Shares(entries[2..], labels)
    ensures (forall k <- labels :: AsInt(entries[0]) != Some(k)) ==>
              Shares(entries, labels) == Shares(entries[2..], labels)
  {
    if labels != [] {
      FrontEntryShare(entries, labels[1..]);
      if AsInt(entries[0]) == Some(labels[0]) {
        PlainKeyShortest(entries[0], labels[0]);
        forall k | k in labels[1..] ensures AsInt(entries[0]) != Some(k) {
          var j :| 0 <= j < |labels[1..]| && labels[1..][j] == k;
          assert labels[j + 1] == k;
        }
      }
    }
  }

  lemma {:induction false} SharesFit(entries: seq<Item>, labels: seq<nat>)
    requires |entries| % 2 == 0 && Distinct(labels)
    ensures Shares(entries, labels) <= |EncodeAll(entries)|
  {
    if entries != [] {
      FrontEntryShare(entries, labels);
      SharesFit(entries[2..], labels);
      assert entries[1..][1..] == entries[2..];
    } else {
      NothingToShare(labels);
    }
  }

  lemma {:induction false} NothingToShare(labels: seq<nat>)
    ensures Shares([], labels) == 0
  {
    if labels != [] {
      NothingToShare(labels[1..]);
    }
  }

  lemma {:induction false} LengthOfPick(entries: seq<Item>, labels: seq<nat>)
    requires |entries| % 2 == 0 && forall l <- labels :: Get(entries, l).Some?
    ensures |EncodeAll(Pick(entries, labels))| == Shares(entries, labels)
  {
    if labels != [] {
      LengthOfPick(entries, labels[1..]);
      var picked := Pick(entries, labels);
      assert picked[1..][0] == picked[1];
      assert picked[1..][1..] == Pick(entries, labels[1..]);
    }
  }

  lemma {:induction false} MapNoLongerThanItem(item: Item)
    requires AsMap(item).Some?
    ensures 1 + |EncodeAll(AsMap(item).value)| <= |Encode(item)|
    ensures WellFormed(item) ==> WellFormed(Map(AsMap(item).value))
  {
    if item.Tag? {
      MapNoLongerThanItem(item.item);
    }
  }

  // ---------------------------------------------------------------- the main results

  lemma PickedFitsItem(item: Item, entries: seq<Item>, labels: seq<nat>)
    requires AsMap(item) == Some(entries) && WellFormed(item) && |entries| % 2 == 0
    requires Distinct(labels) && |labels| < 24
    requires forall l <- labels :: Get(entries, l).Some? && Get(entries, l).value in entries && l < TWO_TO_THE_64
    ensures |Encode(Map(Pick(entries, labels)))| <= |Encode(item)|
    ensures WellFormed(Map(Pick(entries, labels)))
  {
    MapNoLongerThanItem(item);
    SharesFit(entries, labels);
    LengthOfPick(entries, labels);
    PickWellFormed(entries, labels);
  }

  lemma VendorOrderIsPlain()
    ensures Distinct(VENDOR_ORDER) && |VENDOR_ORDER| == 5
    ensures forall l <- VENDOR_ORDER :: l < TWO_TO_THE_64
  {
  }

  lemma BodyNoLonger(payload: seq<byte>)
    requires IsValid(1, payload)
    ensures |EncodeBody(payload)| <= |payload|
    ensures WellFormed(Map(Pick(EntriesOf(payload), VENDOR_ORDER)))
  {
    ReencodeNoLonger(payload);
    VendorOrderIsPlain();
    PickedFitsItem(Decode(payload).value, EntriesOf(payload), VENDOR_ORDER);
  }

  /** The re-encoded body of a valid V1 request decodes to the same values under the labels
      55, 4, 56, 57, 58 in that order, and is never longer than the payload. */
  lemma BodyDecodes(payload: seq<byte>)
    requires IsValid(1, payload)
    ensures var entries := EntriesOf(payload);
            var body := EncodeBody(payload);
            && |body| <= |payload|
            && Decode(body) == Some(Map(Pick(entries, VENDOR_ORDER)))
            && (forall i :: 0 <= i < 5 ==> Labels(Pick(entries, VENDOR_ORDER))[i] == Some(VENDOR_ORDER[i]))
            && (forall k: nat :: Get(Pick(entries, VENDOR_ORDER), k) ==
                                 if k in VENDOR_ORDER then Get(entries, k) else None)
  {
    var entries := EntriesOf(payload);
    var picked := Pick(entries, VENDOR_ORDER);
    BodyNoLonger(payload);
    ParseOfEncode(Map(picked), []);
    assert Encode(Map(picked)) + [] == Encode(Map(picked));
    LabelsOfPick(entries, VENDOR_ORDER);
    forall k: nat ensures Get(picked, k) == if k in VENDOR_ORDER then Get(entries, k) else None {
      PickKeepsValues(entries, VENDOR_ORDER, k);
    }
  }

  lemma VendorLabelSet(labels: seq<Option<int>>)
    requires |labels| == 5 && forall i :: 0 <= i < 5 ==> labels[i] == Some(VENDOR_ORDER[i])
    ensures UniqueIntLabels(labels) && LabelSet(labels) == {4, 55, 56, 57, 58}
    ensures labels == [Some(55), Some(4), Some(56), Some(57), Some(58)]
  {
    assert labels == [Some(55), Some(4), Some(56), Some(57), Some(58)];
  }

  /** The re-encoded body passes the same validation. */
  lemma BodyStaysValid(payload: seq<byte>)
    requires IsValid(1, payload)
    ensures IsValid(1, EncodeBody(payload))
  {
    BodyDecodes(payload);
    var entries := EntriesOf(payload);
    var picked := Pick(entries, VENDOR_ORDER);
    VendorLabelSet(Labels(picked));
    assert Get(picked, 4) == Get(entries, 4) && Get(picked, 55) == Get(entries, 55);
    assert Get(picked, 56) == Get(entries, 56) && Get(picked, 57) == Get(entries, 57);
    assert Get(picked, 58) == Get(entries, 58);
  }

  /** Re-encoding a body that is already in vendor order changes nothing. */
  lemma ReencodingIsStable(payload: seq<byte>)
    requires IsValid(1, payload)
    ensures IsValid(1, EncodeBody(payload)) && EncodeBody(EncodeBody(payload)) == EncodeBody(payload)
  {
    BodyDecodes(payload);
    BodyStaysValid(payload);
    var entries := EntriesOf(payload);
    PickAgain(entries, EntriesOf(EncodeBody(payload)), VENDOR_ORDER);
  }

  /** For every valid request: the vendor command in four bytes, then a body that is valid for the same backend
      and fits where the payload did; a V1 body opens as a map of five entries with label 55. */
  lemma VendorRequestKeepsItsPromise(backend: nat, payload: seq<byte>)
    requires IsValid(backend, payload)
    ensures var request := EncodeVendorRequest(backend, payload);
            && 4 <= |request| <= 4 + |payload|
            && request[..4] == [if backend == 2 then 0x22 else 0x1e, 0x31, 0, 0]
            && IsValid(backend, request[4..])
            && (backend == 1 ==> 7 <= |request| && request[4..7] == [0xa5, 0x18, 0x37])
            && (backend == 2 ==> request[4..] == payload)
  {
    if backend == 1 {
      var body := EncodeBody(payload);
      BodyNoLonger(payload);
      BodyStaysValid(payload);
      BodyOpening(EntriesOf(payload));
      AfterCommand([0x1e, 0x31, 0, 0], body);
    } else {
      AfterCommand([0x22, 0x31, 0, 0], payload);
    }
  }

  /** What a decoder finds that reads the V1 request behind its command from front to back: five plain integer labels in
      the order 55, 4, 56, 57, 58, and behind each label the value that the payload has under it. */
  lemma VendorReadsFieldsInOrder(payload: seq<byte>)
    requires IsValid(1, payload)
    ensures var (item, fields) := (Decode(EncodeVendorRequest(1, payload)[4..]), AsMap(Decode(payload).value).value);
            && item.Some? && item.value.Map? && |item.value.entries| == 10
            && var e := item.value.entries;
               && e[0] == UInt(55) && Get(fields, 55) == Some(e[1])
               && e[2] == UInt(4) && Get(fields, 4) == Some(e[3])
               && e[4] == UInt(56) && Get(fields, 56) == Some(e[5])
               && e[6] == UInt(57) && Get(fields, 57) == Some(e[7])
               && e[8] == UInt(58) && Get(fields, 58) == Some(e[9])
               && Labels(e) == [Some(55), Some(4), Some(56), Some(57), Some(58)]
  {
    var entries := EntriesOf(payload);
    BodyBehindCommand(payload);
    BodyDecodes(payload);
    PickInVendorOrder(entries);
  }

  lemma BodyBehindCommand(payload: seq<byte>)
    requires IsValid(1, payload)
    ensures EncodeVendorRequest(1, payload)[4..] == EncodeBody(payload)
  {
    AfterCommand([0x1e, 0x31, 0, 0], EncodeBody(payload));
  }

  lemma PickInVendorOrder(entries: seq<Item>)
    requires |entries| % 2 == 0 && forall k <- VENDOR_ORDER :: Get(entries, k).Some?
    ensures var e := Pick(entries, VENDOR_ORDER);
            && |e| == 10
            && e[0] == UInt(55) && Get(entries, 55) == Some(e[1])
            && e[2] == UInt(4) && Get(entries, 4) == Some(e[3])
            && e[4] == UInt(56) && Get(entries, 56) == Some(e[5])
            && e[6] == UInt(57) && Get(entries, 57) == Some(e[7])
            && e[8] == UInt(58) && Get(entries, 58) == Some(e[9])
            && Labels(e) == [Some(55), Some(4), Some(56), Some(57), Some(58)]
  {
    var e := Pick(entries, VENDOR_ORDER);
    PickAt(entries, VENDOR_ORDER);
    LabelsOfPick(entries, VENDOR_ORDER);
    VendorLabelSet(Labels(e));
    assert e[2 * 0] == UInt(VENDOR_ORDER[0]) && e[2 * 1] == UInt(VENDOR_ORDER[1]) && e[2 * 2] == UInt(VENDOR_ORDER[2]);
    assert e[2 * 3] == UInt(VENDOR_ORDER[3]) && e[2 * 4] == UInt(VENDOR_ORDER[4]);
  }

  lemma {:induction false} PickAt(entries: seq<Item>, labels: seq<nat>)
    requires |entries| % 2 == 0 && forall l <- labels :: Get(entries, l).Some?
    ensures forall i | 0 <= i < |labels| ::
              && Pick(entries, labels)[2 * i] == UInt(labels[i])
              && Some(Pick(entries, labels)[2 * i + 1]) == Get(entries, labels[i])
  {
    if labels != [] {
      PickAt(entries, labels[1..]);
      var picked, rest := Pick(entries, labels), Pick(entries, labels[1..]);
      forall i | 0 <= i < |labels|
        ensures picked[2 * i] == UInt(labels[i]) && Some(picked[2 * i + 1]) == Get(entries, labels[i])
      {
        if i > 0 {
          assert picked[2 * i] == rest[2 * (i - 1)] && picked[2 * i + 1] == rest[2 * (i - 1) + 1];
          assert labels[1..][i - 1] == labels[i];
        }
      }
    }
  }

  lemma AfterCommand(command: seq<byte>, body: seq<byte>)
    requires |command| == 4
    ensures (command + body)[..4] == command && (command + body)[4..] == body
    ensures |body| >= 3 ==> (command + body)[4..7] == body[..3]
  {
  }

  lemma BodyOpening(entries: seq<Item>)
    requires |entries| % 2 == 0 && forall k <- VENDOR_ORDER :: Get(entries, k).Some?
    requires WellFormed(Map(Pick(entries, VENDOR_ORDER)))
    ensures var body := Encode(Map(Pick(entries, VENDOR_ORDER)));
            |body| >= 3 && body[..3] == [0xa5, 0x18, 0x37]
  {
    var picked := Pick(entries, VENDOR_ORDER);
    var rest := EncodeAll(picked[1..]);
    assert EncodeAll(picked) == [0x18, 0x37] + rest;
    assert Encode(Map(picked)) == [0xa5] + ([0x18, 0x37] + rest);
  }

  lemma {:induction false} PickAgain(entries: seq<Item>, others: seq<Item>, labels: seq<nat>)
    requires |entries| % 2 == 0 && |others| % 2 == 0
    requires forall l <- labels :: Get(entries, l).Some? && Get(others, l) == Get(entries, l)
    ensures Pick(others, labels) == Pick(entries, labels)
  {
    if labels != [] {
      PickAgain(entries, others, labels[1..]);
    }
  }

  // ---------------------------------------------------------------- which requests are valid

  lemma DecodeOfEncode(item: Item)
    requires WellFormed(item)
    ensures Decode(Encode(item)) == if 1 <= |Encode(item)| <= MAX_REQUEST then Some(item) else None
  {
    ParseOfEncode(item, []);
    assert Encode(item) + [] == Encode(item);
  }

  function Field(key: Item, value: Item, rest: seq<Item>): seq<Item> {
    [key, value] + rest
  }

  lemma FieldIs(key: Item, value: Item, rest: seq<Item>)
    requires |rest| % 2 == 0
    ensures var e := Field(key, value, rest);
            && |e| % 2 == 0 && Labels(e) == [AsInt(key)] + Labels(rest)
            && forall k :: Get(e, k) == if AsInt(key) == Some(k) then Some(value) else Get(rest, k)
  {
    assert Field(key, value, rest)[2..] == rest;
  }

  /** The fields of a V1 request, in the order in which the self test writes them. */
  function V1Entries(challenge: seq<byte>, mode: Item, mac: seq<byte>, keys: seq<byte>, eek: seq<byte>): seq<Item> {
    Field(UInt(4), Bstr(challenge), Field(UInt(55), mode, Field(UInt(56), Bstr(mac),
      Field(UInt(57), Bstr(keys), Field(UInt(58), Bstr(eek), [])))))
  }

  lemma V1Fields(challenge: seq<byte>, mode: Item, mac: seq<byte>, keys: seq<byte>, eek: seq<byte>)
    ensures var e := V1Entries(challenge, mode, mac, keys, eek);
            && |e| % 2 == 0
            && Get(e, 4) == Some(Bstr(challenge)) && Get(e, 55) == Some(mode) && Get(e, 56) == Some(Bstr(mac))
            && Get(e, 57) == Some(Bstr(keys)) && Get(e, 58) == Some(Bstr(eek))
            && Labels(e) == [Some(4), Some(55), Some(56), Some(57), Some(58)]
  {
    var e5 := Field(UInt(58), Bstr(eek), []);
    var e4 := Field(UInt(57), Bstr(keys), e5);
    var e3 := Field(UInt(56), Bstr(mac), e4);
    var e2 := Field(UInt(55), mode, e3);
    FieldIs(UInt(58), Bstr(eek), []);
    FieldIs(UInt(57), Bstr(keys), e5);
    FieldIs(UInt(56), Bstr(mac), e4);
    FieldIs(UInt(55), mode, e3);
    FieldIs(UInt(4), Bstr(challenge), e2);
  }

  lemma V1Labels(labels: seq<Option<int>>)
    requires labels == [Some(4), Some(55), Some(56), Some(57), Some(58)]
    ensures UniqueIntLabels(labels) && LabelSet(labels) == {4, 55, 56, 57, 58} && LabelSet(labels) != {4, 57}
  {
    assert 55 in LabelSet(labels);
  }

  /** What the self test tries on single requests, for all: such a request is valid exactly for backend 1, mode 0, a
      challenge of 1 to 64 bytes, MAC and keys of 32 bytes, and a chain of at most 8192. */
  lemma V1ValidIff(backend: nat, challenge: seq<byte>, mode: Item, mac: seq<byte>, keys: seq<byte>, eek: seq<byte>)
    requires var item := Map(V1Entries(challenge, mode, mac, keys, eek));
             WellFormed(item) && 1 <= |Encode(item)| <= MAX_REQUEST
    ensures IsValid(backend, Encode(Map(V1Entries(challenge, mode, mac, keys, eek)))) <==>
            && backend == 1 && AsInt(mode) == Some(0) && 1 <= |challenge| <= 64 && |mac| == 32 && |keys| == 32
            && 1 <= |eek| <= 8192 && ValidChain(eek)
  {
    var e := V1Entries(challenge, mode, mac, keys, eek);
    DecodeOfEncode(Map(e));
    V1EntriesValidIff(backend, challenge, mode, mac, keys, eek);
    ValidIsOfEntries(backend, Encode(Map(e)), e);
  }

  lemma V1EntriesValidIff(backend: nat, challenge: seq<byte>, mode: Item, mac: seq<byte>, keys: seq<byte>,
                          eek: seq<byte>)
    ensures |V1Entries(challenge, mode, mac, keys, eek)| % 2 == 0
    ensures ValidEntries(backend, V1Entries(challenge, mode, mac, keys, eek)) <==>
            && backend == 1 && AsInt(mode) == Some(0) && 1 <= |challenge| <= 64 && |mac| == 32 && |keys| == 32
            && 1 <= |eek| <= 8192 && ValidChain(eek)
  {
    V1Fields(challenge, mode, mac, keys, eek);
    V1Labels(Labels(V1Entries(challenge, mode, mac, keys, eek)));
  }

  lemma ValidIsOfEntries(backend: nat, payload: seq<byte>, e: seq<Item>)
    requires Decode(payload) == Some(Map(e)) && |e| % 2 == 0
    ensures IsValid(backend, payload) <==> ValidEntries(backend, e)
  {
  }

  lemma V2ValidIff(backend: nat, challenge: seq<byte>, keys: seq<byte>)
    requires var item := Map(Field(UInt(4), Bstr(challenge), Field(UInt(57), Bstr(keys), [])));
             WellFormed(item) && 1 <= |Encode(item)| <= MAX_REQUEST
    ensures IsValid(backend, Encode(Map(Field(UInt(4), Bstr(challenge), Field(UInt(57), Bstr(keys), []))))) <==>
            backend == 2 && 1 <= |challenge| <= 64 && 1 <= |keys| <= 256 && ValidKeys(keys)
  {
    var e := Field(UInt(4), Bstr(challenge), Field(UInt(57), Bstr(keys), []));
    DecodeOfEncode(Map(e));
    V2EntriesValidIff(backend, challenge, keys);
    ValidIsOfEntries(backend, Encode(Map(e)), e);
  }

  lemma V2EntriesValidIff(backend: nat, challenge: seq<byte>, keys: seq<byte>)
    ensures var e := Field(UInt(4), Bstr(challenge), Field(UInt(57), Bstr(keys), []));
            && |e| % 2 == 0
            && (ValidEntries(backend, e) <==>
                  backend == 2 && 1 <= |challenge| <= 64 && 1 <= |keys| <= 256 && ValidKeys(keys))
  {
    var e2 := Field(UInt(57), Bstr(keys), []);
    FieldIs(UInt(57), Bstr(keys), []);
    FieldIs(UInt(4), Bstr(challenge), e2);
    V2Labels(Labels(Field(UInt(4), Bstr(challenge), e2)));
  }

  lemma V2Labels(labels: seq<Option<int>>)
    requires labels == [Some(4), Some(57)]
    ensures UniqueIntLabels(labels) && LabelSet(labels) == {4, 57} && LabelSet(labels) != {4, 55, 56, 57, 58}
  {
    assert 55 !in LabelSet(labels);
  }

  /** A chain is valid exactly with one to eight certificates of four parts, the second a map, the others byte
      strings, all of them perhaps tagged. */
  lemma ChainValidIff(certs: seq<Item>)
    requires WellFormed(Array(certs)) && 1 <= |Encode(Array(certs))| <= MAX_REQUEST
    ensures ValidChain(Encode(Array(certs))) <==>
            && 1 <= |certs| <= 8
            && forall c <- certs :: AsArray(c).Some? && var f := AsArray(c).value;
                 |f| == 4 && AsBstr(f[0]).Some? && AsMap(f[1]).Some? && AsBstr(f[2]).Some? && AsBstr(f[3]).Some?
  {
    DecodeOfEncode(Array(certs));
  }

  function KeyEntries(kty: Item, alg: Item, curve: Item, x: seq<byte>, y: seq<byte>): seq<Item> {
    Field(UInt(1), kty, Field(UInt(3), alg, Field(NInt(0), curve,
      Field(NInt(1), Bstr(x), Field(NInt(2), Bstr(y), [])))))
  }

  lemma KeyFields(kty: Item, alg: Item, curve: Item, x: seq<byte>, y: seq<byte>)
    ensures var e := KeyEntries(kty, alg, curve, x, y);
            && |e| == 10 && Get(e, 1) == Some(kty) && Get(e, 3) == Some(alg) && Get(e, -1) == Some(curve)
            && Get(e, -2) == Some(Bstr(x)) && Get(e, -3) == Some(Bstr(y))
  {
    var e5 := Field(NInt(2), Bstr(y), []);
    var e4 := Field(NInt(1), Bstr(x), e5);
    var e3 := Field(NInt(0), curve, e4);
    var e2 := Field(UInt(3), alg, e3);
    FieldIs(NInt(2), Bstr(y), []);
    FieldIs(NInt(1), Bstr(x), e5);
    FieldIs(NInt(0), curve, e4);
    FieldIs(UInt(3), alg, e3);
    FieldIs(UInt(1), kty, e2);
  }

  /** An EC public key on P-256 for ES256 is valid exactly with two coordinates of 32 bytes. */
  lemma KeysValidIff(kty: Item, alg: Item, curve: Item, x: seq<byte>, y: seq<byte>)
    requires var keys := Array([Map(KeyEntries(kty, alg, curve, x, y))]);
             WellFormed(keys) && 1 <= |Encode(keys)| <= MAX_REQUEST
    ensures ValidKeys(Encode(Array([Map(KeyEntries(kty, alg, curve, x, y))]))) <==>
            AsInt(kty) == Some(2) && AsInt(alg) == Some(-7) && AsInt(curve) == Some(1) && |x| == 32 && |y| == 32
  {
    DecodeOfEncode(Array([Map(KeyEntries(kty, alg, curve, x, y))]));
    KeyFields(kty, alg, curve, x, y);
  }

  /** What every valid request has: 1 to 36864 bytes, and labels that are different integers, perhaps tagged. */
  lemma ValidHas(backend: nat, payload: seq<byte>)
    requires IsValid(backend, payload)
    ensures (backend == 1 || backend == 2) && 1 <= |payload| <= 36864
    ensures var e := AsMap(Decode(payload).value).value;
            && |e| % 2 == 0 && (forall i | 0 <= i < |e| / 2 :: AsInt(e[2 * i]).Some?)
            && forall i, j | 0 <= i < j < |e| / 2 :: AsInt(e[2 * i]) != AsInt(e[2 * j])
  {
    var e := AsMap(Decode(payload).value).value;
    LabelsAt(e);
    assert UniqueIntLabels(Labels(e));
    forall i, j | 0 <= i < j < |e| / 2 ensures AsInt(e[2 * i]) != AsInt(e[2 * j]) {
      assert Labels(e)[i] != Labels(e)[j];
    }
  }

  /** Nothing may follow the item, and a tag in front of it changes nothing. */
  lemma TrailingBytesAndTags(backend: nat, item: Item, more: seq<byte>, tag: nat)
    requires WellFormed(item) && more != []
    ensures !IsValid(backend, Encode(item) + more)
    ensures AsInt(Tag(tag, item)) == AsInt(item) && AsBstr(Tag(tag, item)) == AsBstr(item)
    ensures AsArray(Tag(tag, item)) == AsArray(item) && AsMap(Tag(tag, item)) == AsMap(item)
  {
    ParseOfEncode(item, more);
  }

  // ---------------------------------------------------------------- validation as it runs

  method CollectLabels(entries: seq<Item>) returns (ok: bool, labels: set<int>)
    requires |entries| % 2 == 0
    ensures ok <==> UniqueIntLabels(Labels(entries))
    ensures ok ==> labels == LabelSet(Labels(entries))
  {
    labels := {};
    ghost var all := Labels(entries);
    LabelsAt(entries);
    var i := 0;
    while i < |entries| / 2
      invariant 0 <= i <= |entries| / 2
      invariant UniqueIntLabels(all[..i]) && labels == LabelSet(all[..i])
    {
      var key := AsInt(entries[2 * i]);
      assert all[..i + 1] == all[..i] + [key];
      if key.None? || key.value in labels {
        if key.Some? {
          ghost var j :| 0 <= j < i && all[..i][j] == key;
          assert all[j] == all[i];
        }
        return false, {};
      }
      forall j | 0 <= j < i ensures all[..i][j] != key {
        assert all[..i][j] in all[..i];
      }
      labels := labels + {key.value};
      i := i + 1;
    }
    assert all[..i] == all;
    ok := true;
  }

  lemma {:induction false} LabelsAt(entries: seq<Item>)
    requires |entries| % 2 == 0
    ensures forall i :: 0 <= i < |entries| / 2 ==> Labels(entries)[i] == AsInt(entries[2 * i])
  {
    if entries != [] {
      LabelsAt(entries[2..]);
      forall i | 1 <= i < |entries| / 2 ensures Labels(entries)[i] == AsInt(entries[2 * i]) {
        assert entries[2..][2 * (i - 1)] == entries[2 * i];
      }
    }
  }

  method CheckChain(bytes: seq<byte>) returns (ok: bool)
    ensures ok <==> ValidChain(bytes)
  {
    var chain := Decode(bytes);
    if chain.None? || AsArray(chain.value).None? {
      return false;
    }
    var certs := AsArray(chain.value).value;
    if |certs| < 1 || |certs| > 8 {
      return false;
    }
    for i := 0 to |certs|
      invariant forall j :: 0 <= j < i ==> ValidCertificate(certs[j])
    {
      if !ValidCertificate(certs[i]) {
        assert certs[i] in certs;
        return false;
      }
    }
    ok := true;
  }

  /** validRequest, in the order of its tests. */
  method ValidRequest(backend: nat, payload: seq<byte>) returns (ok: bool)
    ensures ok <==> IsValid(backend, payload)
  {
    var item := Decode(payload);
    if item.None? || AsMap(item.value).None? {
      return false;
    }
    var entries := AsMap(item.value).value;
    assert |entries| % 2 == 0 by {
      ReencodeNoLonger(payload);
      MapNoLongerThanItem(item.value);
    }
    var unique, labels := CollectLabels(entries);
    if !unique || !ByteField(entries, 4, 1, 64) {
      return false;
    }
    if backend == 2 {
      if labels != {4, 57} || !ByteField(entries, 57, 1, 256) {
        return false;
      }
      return ValidKeys(AsBstr(Get(entries, 57).value).value);
    }
    if backend != 1 || labels != {4, 55, 56, 57, 58} || !IntegerField(entries, 55, 0)
       || !ByteField(entries, 56, 32, 32) || !ByteField(entries, 57, 32, 32)
       || !ByteField(entries, 58, 1, 8192) {
      return false;
    }
    ok := CheckChain(AsBstr(Get(entries, 58).value).value);
  }
}
