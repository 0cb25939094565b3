/** The satellite blacklist of gps/gnss/GnssAdapter.cpp: lists of satellite ids to and from the six 64-bit
    masks of GnssSvIdConfig. The operators on uint64_t are written out: `m & 1` is m % 2, `m >>= 1` is m / 2,
    and `m |= 1ULL << k` is SetBit(m, k). */
module SvBlacklist {

  const ALL_BITS_ENABLED := 0xFFFF_FFFF_FFFF_FFFF
  const SBAS_INITIAL := 120
  const SBAS_INITIAL_LENGTH := 39
  const SBAS_INITIAL2 := 183

  type uint64 = m: int | 0 <= m <= 0xFFFF_FFFF_FFFF_FFFF

  datatype Constellation = Glonass | Beidou | Qzss | Galileo | Sbas | Navic | Other

  datatype Source = Source(constellation: Constellation, svId: nat)

  datatype Config = Config(glo: uint64, bds: uint64, qzss: uint64, gal: uint64, sbas: uint64, navic: uint64)

  const Zeroed := Config(0, 0, 0, 0, 0, 0)

  function Mask(c: Config, t: Constellation): uint64 {
    match t
    case Glonass => c.glo
    case Beidou => c.bds
    case Qzss => c.qzss
    case Galileo => c.gal
    case Sbas => c.sbas
    case Navic => c.navic
    case Other => 0
  }

  function WithMask(c: Config, t: Constellation, m: uint64): Config {
    match t
    case Glonass => c.(glo := m)
    case Beidou => c.(bds := m)
    case Qzss => c.(qzss := m)
    case Galileo => c.(gal := m)
    case Sbas => c.(sbas := m)
    case Navic => c.(navic := m)
    case Other => c
  }

  /** The satellite id that maps to bit 0. */
  function Initial(t: Constellation): nat {
    match t
    case Glonass => 65
    case Beidou => 201
    case Qzss => 193
    case Galileo => 301
    case Sbas => SBAS_INITIAL
    case Navic => 401
    case Other => 0
  }

  // ---------------------------------------------------------------- bits

  function Pow2(n: nat): (p: nat)
    ensures p > 0
  {
    if n == 0 then 1 else 2 * Pow2(n - 1)
  }

  predicate Bit(m: nat, k: nat) {
    if k == 0 then m % 2 == 1 else Bit(m / 2, k - 1)
  }

  function SetBit(m: nat, k: nat): nat {
    if k == 0 then (if m % 2 == 1 then m else m + 1) else 2 * SetBit(m / 2, k - 1) + m % 2
  }

  lemma {:induction false} BitOfSetBit(m: nat, k: nat, j: nat)
    ensures Bit(SetBit(m, k), j) <==> j == k || Bit(m, j)
  {
    if k == 0 {
      assert SetBit(m, 0) / 2 == m / 2 && SetBit(m, 0) % 2 == 1;
    } else {
      assert SetBit(m, k) / 2 == SetBit(m / 2, k - 1) && SetBit(m, k) % 2 == m % 2;
      if j > 0 {
        BitOfSetBit(m / 2, k - 1, j - 1);
      }
    }
  }

  lemma {:induction false} SetBitInRange(m: nat, k: nat, n: nat)
    requires k < n && m < Pow2(n)
    ensures SetBit(m, k) < Pow2(n)
  {
    var p := Pow2(n - 1);
    assert Pow2(n) == 2 * p;
    assert m / 2 < p;
    if k > 0 {
      SetBitInRange(m / 2, k - 1, n - 1);
    }
  }

  lemma {:induction false} HighBitsClear(m: nat, n: nat, k: nat)
    requires m < Pow2(n) && n <= k
    ensures !Bit(m, k)
  {
    if n > 0 {
      HighBitsClear(m / 2, n - 1, k - 1);
    } else if k > 0 {
      HighBitsClear(m / 2, 0, k - 1);
    }
  }

  lemma {:induction false} SameBitsSameNumber(a: nat, b: nat, n: nat)
    requires a < Pow2(n) && b < Pow2(n) && forall k: nat :: k < n ==> (Bit(a, k) <==> Bit(b, k))
    ensures a == b
  {
    if n > 0 {
      assert Bit(a, 0) <==> Bit(b, 0);
      forall k: nat | k < n - 1 ensures Bit(a / 2, k) <==> Bit(b / 2, k) {
        assert Bit(a, k + 1) <==> Bit(b, k + 1);
      }
      SameBitsSameNumber(a / 2, b / 2, n - 1);
    }
  }

  lemma {:induction false} AllOnes(n: nat, k: nat)
    requires k < n
    ensures Bit(Pow2(n) - 1, k)
  {
    if k > 0 {
      AllOnes(n - 1, k - 1);
      assert (Pow2(n) - 1) / 2 == Pow2(n - 1) - 1;
    }
  }

  lemma {:induction false} ClearTopBit(m: nat, n: nat, k: nat)
    requires Pow2(n) <= m < Pow2(n + 1)
    ensures Bit(m - Pow2(n), k) <==> k < n && Bit(m, k)
  {
    if n == 0 {
      HighBitsClear(0, 0, k);
    } else {
      assert (m - Pow2(n)) / 2 == m / 2 - Pow2(n - 1) && (m - Pow2(n)) % 2 == m % 2;
      if k > 0 {
        ClearTopBit(m / 2, n - 1, k - 1);
      }
    }
  }

  lemma {:induction false} Pow2Square(n: nat, k: nat)
    ensures Pow2(n + k) == Pow2(n) * Pow2(k)
  {
    if k > 0 {
      Pow2Square(n, k - 1);
    }
  }

  lemma Width()
    ensures Pow2(63) == 0x8000_0000_0000_0000 && Pow2(64) == 0x1_0000_0000_0000_0000
  {
    assert Pow2(8) == 0x100;
    Pow2Square(8, 8);
    assert Pow2(16) == 0x1_0000;
    Pow2Square(16, 16);
    assert Pow2(32) == 0x1_0000_0000;
    Pow2Square(32, 32);
  }

  /** One step of `m <<= 1` on 64 bits. */
  function Doubled(m: uint64): uint64 {
    (2 * m) % 0x1_0000_0000_0000_0000
  }

  function ShiftLeft(m: uint64, n: nat): uint64
    decreases n
  {
    if n == 0 then m else ShiftLeft(Doubled(m), n - 1)
  }

  function ShiftRight(m: uint64, n: nat): uint64
    decreases n
  {
    if n == 0 then m else ShiftRight(m / 2, n - 1)
  }

  lemma BitOfDoubled(m: uint64, k: nat)
    ensures Bit(Doubled(m), k) <==> 0 < k < 64 && Bit(m, k - 1)
  {
    Width();
    var low := if m >= Pow2(63) then m - Pow2(63) else m;
    assert Doubled(m) == 2 * low;
    if k > 0 {
      assert (2 * low) / 2 == low;
      if m >= Pow2(63) {
        ClearTopBit(m, 63, k - 1);
      } else if k >= 64 {
        HighBitsClear(m, 63, k - 1);
      }
    }
  }

  lemma {:induction false} BitOfShiftLeft(m: uint64, n: nat, k: nat)
    ensures Bit(ShiftLeft(m, n), k) <==> n <= k && Bit(m, k - n) && (n == 0 || k < 64)
    decreases n
  {
    if n > 0 {
      BitOfShiftLeft(Doubled(m), n - 1, k);
      if n - 1 <= k {
        BitOfDoubled(m, k - (n - 1));
      }
    }
  }

  lemma {:induction false} BitOfShiftRight(m: uint64, n: nat, k: nat)
    ensures Bit(ShiftRight(m, n), k) <==> Bit(m, k + n)
    decreases n
  {
    if n > 0 {
      BitOfShiftRight(m / 2, n - 1, k);
    }
  }

  // ---------------------------------------------------------------- list to masks

  /** Where convertToGnssSvIdConfig() puts one list entry. C++ does not define a shift of 64 or more. */
  datatype Place = Nowhere | AllBits | OneBit(shift: nat)

  function PlaceOf(s: Source): Place {
    if s.constellation == Other then Nowhere
    else if s.svId == 0 then AllBits
    else if s.constellation == Sbas && s.svId >= SBAS_INITIAL2 then
      if s.svId >= SBAS_INITIAL2 + 64 then Nowhere
      else OneBit(s.svId + SBAS_INITIAL_LENGTH - SBAS_INITIAL2)
    else
      var initial := Initial(s.constellation);
      var length := if s.constellation == Sbas then SBAS_INITIAL_LENGTH else 64;
      if s.svId < initial || s.svId >= initial + length then Nowhere else OneBit(s.svId - initial)
  }

  /** The documented ranges: no SBAS id that would be shifted past bit 63. */
  predicate Defined(s: Source) {
    PlaceOf(s).OneBit? ==> PlaceOf(s).shift < 64
  }

  lemma UndefinedShiftIff(s: Source)
    ensures !Defined(s) <==> s.constellation == Sbas && 208 <= s.svId < 247
  {
  }

  function Apply(c: Config, s: Source): Config
    requires Defined(s)
  {
    match PlaceOf(s)
    case Nowhere => c
    case AllBits => WithMask(c, s.constellation, ALL_BITS_ENABLED)
    case OneBit(k) =>
      Width();
      SetBitInRange(Mask(c, s.constellation), k, 64);
      WithMask(c, s.constellation, SetBit(Mask(c, s.constellation), k))
  }

  function ApplyAll(c: Config, list: seq<Source>): Config
    requires forall s <- list :: Defined(s)
    decreases |list|
  {
    if list == [] then c else ApplyAll(Apply(c, list[0]), list[1..])
  }

  function ToConfig(list: seq<Source>, c: Config): Config
    requires forall s <- list :: Defined(s)
  {
    if list == [] then Zeroed else ApplyAll(c, list)
  }

  predicate Covers(s: Source, t: Constellation, k: nat) {
    s.constellation == t && (PlaceOf(s) == AllBits || PlaceOf(s) == OneBit(k))
  }

  ghost predicate ListCovers(list: seq<Source>, t: Constellation, k: nat) {
    exists i :: 0 <= i < |list| && Covers(list[i], t, k)
  }

  /** The satellites of each bit: the first id of the constellation and its 63 successors; for SBAS 39 from 120 on, then
      25 from 183 on. The id 0 stands for all of them. */
  lemma SatellitesOfBits(s: Source, t: Constellation, k: nat)
    requires k < 64 && t != Other
    ensures Covers(s, t, k) <==> s.constellation == t && (s.svId == 0 || s.svId == k + match t
              case Glonass => 65
              case Beidou => 201
              case Qzss => 193
              case Galileo => 301
              case Navic => 401
              case Sbas => if k < 39 then 120 else 183 - 39)
  {
  }

  /** An empty list clears every mask. */
  lemma EmptyListClears(c: Config, t: Constellation)
    requires t != Other
    ensures Mask(ToConfig([], c), t) == 0
  {
  }

  lemma MaskAfter(c: Config, t: Constellation, u: Constellation, m: uint64)
    requires t != Other
    ensures Mask(WithMask(c, u, m), t) == if t == u then m else Mask(c, t)
  {
  }

  lemma BitOfApply(c: Config, s: Source, t: Constellation, k: nat)
    requires Defined(s) && k < 64 && t != Other
    ensures Bit(Mask(Apply(c, s), t), k) <==> Bit(Mask(c, t), k) || Covers(s, t, k)
  {
    Width();
    var u := s.constellation;
    match PlaceOf(s)
    case Nowhere =>
    case AllBits =>
      AllOnes(64, k);
      MaskAfter(c, t, u, ALL_BITS_ENABLED);
    case OneBit(j) =>
      var m := Mask(c, u);
      SetBitInRange(m, j, 64);
      BitOfSetBit(m, j, k);
      MaskAfter(c, t, u, SetBit(m, j));
  }

  /** Bit `k` of a mask ends up set iff it was set or some entry of the list stands for it. */
  lemma {:induction false} BitOfApplyAll(c: Config, list: seq<Source>, t: Constellation, k: nat)
    requires (forall s <- list :: Defined(s)) && k < 64 && t != Other
    ensures Bit(Mask(ApplyAll(c, list), t), k) <==> Bit(Mask(c, t), k) || ListCovers(list, t, k)
    decreases |list|
  {
    if list != [] {
      BitOfApply(c, list[0], t, k);
      BitOfApplyAll(Apply(c, list[0]), list[1..], t, k);
      CoversSplit([list[0]], list[1..], t, k);
      assert [list[0]] + list[1..] == list;
      assert ListCovers([list[0]], t, k) <==> Covers(list[0], t, k) by {
        assert [list[0]][0] == list[0];
      }
    }
  }

  lemma CoversSplit(a: seq<Source>, b: seq<Source>, t: Constellation, k: nat)
    ensures ListCovers(a + b, t, k) <==> ListCovers(a, t, k) || ListCovers(b, t, k)
  {
    if i :| 0 <= i < |a + b| && Covers((a + b)[i], t, k) {
      assert if i < |a| then Covers(a[i], t, k) else Covers(b[i - |a|], t, k);
    }
    if i :| 0 <= i < |a| && Covers(a[i], t, k) {
      assert Covers((a + b)[i], t, k);
    }
    if i :| 0 <= i < |b| && Covers(b[i], t, k) {
      assert Covers((a + b)[|a| + i], t, k);
    }
  }

  // ---------------------------------------------------------------- masks to list

  /** The satellite id of bit `bit` of a mask whose bit 0 is `initial`. */
  function IdOfBit(t: Constellation, bit: nat, initial: nat): nat {
    if t == Sbas && bit >= SBAS_INITIAL_LENGTH then bit - SBAS_INITIAL_LENGTH + SBAS_INITIAL2
    else bit + initial
  }

  function BitList(m: uint64, bit: nat, initial: nat, t: Constellation): seq<Source>
    decreases m
  {
    if m == 0 then []
    else (if m % 2 == 1 then [Source(t, IdOfBit(t, bit, initial))] else [])
         + BitList(m / 2, bit + 1, initial, t)
  }

  function MaskList(m: uint64, initial: nat, t: Constellation): seq<Source> {
    if m == ALL_BITS_ENABLED then [Source(t, 0)] else BitList(m, 0, initial, t)
  }

  /** Bits 0 to 38 of the SBAS mask: shifted up to the top and back down. */
  function SbasLow(m: uint64): uint64 {
    ShiftRight(ShiftLeft(m, 64 - SBAS_INITIAL_LENGTH), 64 - SBAS_INITIAL_LENGTH)
  }

  function SbasHigh(m: uint64): uint64 {
    ShiftRight(m, SBAS_INITIAL_LENGTH)
  }

  function SbasList(m: uint64): seq<Source> {
    MaskList(SbasLow(m), SBAS_INITIAL, Sbas) + MaskList(SbasHigh(m), SBAS_INITIAL2, Sbas)
  }

  function ListOf(c: Config, t: Constellation): seq<Source> {
    var m := Mask(c, t);
    if m == 0 then [] else if t == Sbas then SbasList(m) else MaskList(m, Initial(t), t)
  }

  function FromConfig(c: Config): seq<Source> {
    ListOf(c, Beidou) + ListOf(c, Galileo) + ListOf(c, Glonass) + ListOf(c, Qzss)
    + ListOf(c, Sbas) + ListOf(c, Navic)
  }

  ghost predicate AllIn(list: seq<Source>, t: Constellation) {
    forall s <- list :: s.constellation == t && Defined(s)
  }

  lemma NotCovered(list: seq<Source>, t: Constellation, other: Constellation, k: nat)
    requires AllIn(list, t) && other != t
    ensures !ListCovers(list, other, k)
  {
    forall i | 0 <= i < |list| ensures !Covers(list[i], other, k) {
      assert list[i] in list;
    }
  }

  /** Bit `j` of `m` has the place `base + j` in the mask of the config. */
  ghost predicate Places(m: uint64, bit: nat, initial: nat, base: nat, t: Constellation) {
    && t != Other
    && forall j: nat :: Bit(m, j) ==>
         && base + j < 64
         && PlaceOf(Source(t, IdOfBit(t, bit + j, initial))) == OneBit(base + j)
  }

  lemma PlacesOfRest(m: uint64, bit: nat, initial: nat, base: nat, t: Constellation)
    requires Places(m, bit, initial, base, t) && m != 0
    ensures Places(m / 2, bit + 1, initial, base + 1, t)
  {
    forall j: nat | Bit(m / 2, j)
      ensures base + 1 + j < 64
              && PlaceOf(Source(t, IdOfBit(t, bit + 1 + j, initial))) == OneBit(base + 1 + j)
    {
      assert Bit(m, j + 1);
      assert bit + 1 + j == bit + (j + 1) && base + 1 + j == base + (j + 1);
    }
  }

  lemma FirstBitCovers(m: uint64, bit: nat, initial: nat, base: nat, t: Constellation, k: nat)
    requires Places(m, bit, initial, base, t) && m % 2 == 1
    ensures ListCovers([Source(t, IdOfBit(t, bit, initial))], t, k) <==> k == base
    ensures Defined(Source(t, IdOfBit(t, bit, initial)))
  {
    var first := [Source(t, IdOfBit(t, bit, initial))];
    assert Bit(m, 0);
    assert bit + 0 == bit && base + 0 == base;
    assert PlaceOf(first[0]) == OneBit(base);
    assert ListCovers(first, t, k) <==> Covers(first[0], t, k);
  }

  /** The list names exactly the set bits, each once shifted to its place. */
  lemma {:induction false} BitListCovers(
      m: uint64, bit: nat, initial: nat, base: nat, t: Constellation, k: nat)
    requires Places(m, bit, initial, base, t)
    ensures ListCovers(BitList(m, bit, initial, t), t, k) <==> base <= k && Bit(m, k - base)
    ensures AllIn(BitList(m, bit, initial, t), t)
    decreases m
  {
    if m == 0 {
      if base <= k {
        HighBitsClear(0, 0, k - base);
      }
    } else {
      PlacesOfRest(m, bit, initial, base, t);
      BitListCovers(m / 2, bit + 1, initial, base + 1, t, k);
      var tail := BitList(m / 2, bit + 1, initial, t);
      if m % 2 == 1 {
        var first := [Source(t, IdOfBit(t, bit, initial))];
        FirstBitCovers(m, bit, initial, base, t, k);
        CoversSplit(first, tail, t, k);
        assert BitList(m, bit, initial, t) == first + tail;
      } else {
        assert [] + tail == tail;
      }
    }
  }

  lemma PlainPlaces(m: uint64, t: Constellation)
    requires t != Sbas && t != Other
    ensures Places(m, 0, Initial(t), 0, t)
  {
    Width();
    forall j: nat | Bit(m, j) ensures j < 64 {
      if j >= 64 {
        HighBitsClear(m, 64, j);
      }
    }
  }

  lemma AllEnabled(width: nat, k: nat)
    requires width == 64 && k < width
    ensures Bit(ALL_BITS_ENABLED, k)
  {
    Width();
    AllOnes(width, k);
  }

  lemma MaskListCovers(m: uint64, t: Constellation, k: nat)
    requires t != Sbas && t != Other && k < 64
    ensures ListCovers(MaskList(m, Initial(t), t), t, k) <==> Bit(m, k)
    ensures AllIn(MaskList(m, Initial(t), t), t)
  {
    if m == ALL_BITS_ENABLED {
      AllEnabled(64, k);
      assert Covers(MaskList(m, Initial(t), t)[0], t, k);
    } else {
      PlainPlaces(m, t);
      BitListCovers(m, 0, Initial(t), 0, t, k);
    }
  }

  lemma LowPart(m: uint64, k: nat)
    ensures Bit(SbasLow(m), k) <==> k < 39 && Bit(m, k)
  {
    Width();
    BitOfShiftRight(ShiftLeft(m, 64 - SBAS_INITIAL_LENGTH), 64 - SBAS_INITIAL_LENGTH, k);
    BitOfShiftLeft(m, 64 - SBAS_INITIAL_LENGTH, k + 25);
  }

  lemma HighPart(m: uint64, k: nat)
    ensures Bit(SbasHigh(m), k) <==> Bit(m, k + 39)
    ensures Bit(SbasHigh(m), k) ==> k < 25
  {
    Width();
    BitOfShiftRight(m, SBAS_INITIAL_LENGTH, k);
    if k >= 25 {
      HighBitsClear(m, 64, k + 39);
    }
  }

  lemma NotAllOnes(m: uint64, width: nat)
    requires width < 64 && forall j: nat :: Bit(m, j) ==> j < width
    ensures m != ALL_BITS_ENABLED
  {
    Width();
    AllOnes(64, width);
  }

  lemma SbasPlaces(low: uint64, high: uint64)
    requires forall j: nat :: (Bit(low, j) ==> j < 39) && (Bit(high, j) ==> j < 25)
    ensures Places(low, 0, SBAS_INITIAL, 0, Sbas)
    ensures Places(high, 0, SBAS_INITIAL2, 39, Sbas)
  {
    Width();
  }

  lemma SbasPartsCover(m: uint64, low: uint64, high: uint64, k: nat)
    requires k < 64
    requires forall j: nat :: (Bit(low, j) ==> j < 39) && (Bit(high, j) ==> j < 25)
    requires k < 39 ==> (Bit(low, k) <==> Bit(m, k))
    requires k >= 39 ==> (Bit(high, k - 39) <==> Bit(m, k))
    ensures var list := MaskList(low, SBAS_INITIAL, Sbas) + MaskList(high, SBAS_INITIAL2, Sbas);
            AllIn(list, Sbas) && (ListCovers(list, Sbas, k) <==> Bit(m, k))
  {
    NotAllOnes(low, 39);
    NotAllOnes(high, 25);
    SbasPlaces(low, high);
    BitListCovers(low, 0, SBAS_INITIAL, 0, Sbas, k);
    BitListCovers(high, 0, SBAS_INITIAL2, 39, Sbas, k);
    CoversSplit(MaskList(low, SBAS_INITIAL, Sbas), MaskList(high, SBAS_INITIAL2, Sbas), Sbas, k);
  }

  /** The split at bit 39 loses nothing, the all-ones mask included. */
  lemma SbasListCovers(m: uint64, k: nat)
    requires k < 64
    ensures ListCovers(SbasList(m), Sbas, k) <==> Bit(m, k)
    ensures AllIn(SbasList(m), Sbas)
  {
    forall j: nat ensures (Bit(SbasLow(m), j) ==> j < 39) && (Bit(SbasHigh(m), j) ==> j < 25) {
      LowPart(m, j);
      HighPart(m, j);
    }
    LowPart(m, k);
    HighPart(m, if k >= 39 then k - 39 else 0);
    SbasPartsCover(m, SbasLow(m), SbasHigh(m), k);
  }

  lemma ListOfCovers(c: Config, t: Constellation, k: nat)
    requires t != Other && k < 64
    ensures ListCovers(ListOf(c, t), t, k) <==> Bit(Mask(c, t), k)
    ensures AllIn(ListOf(c, t), t)
  {
    if Mask(c, t) == 0 {
      HighBitsClear(0, 0, k);
    } else if t == Sbas {
      SbasListCovers(c.sbas, k);
    } else {
      MaskListCovers(Mask(c, t), t, k);
    }
  }

  lemma OneListOf(c: Config, u: Constellation, t: Constellation, k: nat)
    requires t != Other && u != Other && k < 64
    ensures ListCovers(ListOf(c, u), t, k) <==> t == u && Bit(Mask(c, t), k)
    ensures AllIn(ListOf(c, u), u)
  {
    ListOfCovers(c, u, k);
    if t != u {
      NotCovered(ListOf(c, u), u, t, k);
    }
  }

  /** The list stands for exactly the bits of the config. */
  lemma FromConfigCovers(c: Config, t: Constellation, k: nat)
    requires t != Other && k < 64
    ensures ListCovers(FromConfig(c), t, k) <==> Bit(Mask(c, t), k)
    ensures forall s <- FromConfig(c) :: Defined(s)
  {
    var b, g, l, q, s, n := ListOf(c, Beidou), ListOf(c, Galileo), ListOf(c, Glonass),
                            ListOf(c, Qzss), ListOf(c, Sbas), ListOf(c, Navic);
    CoversSplit(b, g, t, k);
    CoversSplit(b + g, l, t, k);
    CoversSplit(b + g + l, q, t, k);
    CoversSplit(b + g + l + q, s, t, k);
    CoversSplit(b + g + l + q + s, n, t, k);
    OneListOf(c, Beidou, t, k);
    OneListOf(c, Galileo, t, k);
    OneListOf(c, Glonass, t, k);
    OneListOf(c, Qzss, t, k);
    OneListOf(c, Sbas, t, k);
    OneListOf(c, Navic, t, k);
  }

  lemma SameMask(a: uint64, b: uint64)
    requires forall k: nat :: k < 64 ==> (Bit(a, k) <==> Bit(b, k))
    ensures a == b
  {
    Width();
    SameBitsSameNumber(a, b, 64);
  }

  /** For every config, whatever its masks: its list, converted back into a zeroed config, is the config. */
  lemma RoundTrip(c: Config)
    ensures (forall s <- FromConfig(c) :: Defined(s)) && ToConfig(FromConfig(c), Zeroed) == c
  {
    FromConfigCovers(c, Glonass, 0);
    var list := FromConfig(c);
    var back := ApplyAll(Zeroed, list);
    forall t: Constellation | t != Other ensures Mask(back, t) == Mask(c, t) {
      forall k: nat | k < 64 ensures Bit(Mask(back, t), k) <==> Bit(Mask(c, t), k) {
        BitOfApplyAll(Zeroed, list, t, k);
        FromConfigCovers(c, t, k);
        HighBitsClear(0, 0, k);
      }
      SameMask(Mask(back, t), Mask(c, t));
    }
    assert Mask(back, Glonass) == back.glo && Mask(back, Beidou) == back.bds && Mask(back, Qzss) == back.qzss;
    assert Mask(back, Galileo) == back.gal && Mask(back, Sbas) == back.sbas && Mask(back, Navic) == back.navic;
    assert back == c;
  }

  /** Converting a list and listing the result names the same satellites, for lists in the documented ranges. */
  lemma NormalisedListMeansTheSame(list: seq<Source>, t: Constellation, k: nat)
    requires (forall s <- list :: Defined(s)) && t != Other && k < 64
    ensures ListCovers(FromConfig(ToConfig(list, Zeroed)), t, k) <==> ListCovers(list, t, k)
  {
    FromConfigCovers(ToConfig(list, Zeroed), t, k);
    BitOfApplyAll(Zeroed, list, t, k);
    HighBitsClear(0, 0, k);
  }

  // ---------------------------------------------------------------- the loops

  lemma Assoc(a: seq<Source>, b: seq<Source>, c: seq<Source>)
    ensures (a + b) + c == a + (b + c)
    ensures a + [] == a
  {
  }

  method ConvertGnssSvIdMaskToList(mask: uint64, svIds: seq<Source>, initial: nat, t: Constellation)
      returns (list: seq<Source>)
    ensures list == svIds + MaskList(mask, initial, t)
  {
    list := svIds;
    if mask == ALL_BITS_ENABLED {
      return list + [Source(t, 0)];
    }
    var m: uint64, bit: nat := mask, 0;
    while m > 0
      invariant list + BitList(m, bit, initial, t) == svIds + BitList(mask, 0, initial, t)
      decreases m
    {
      ghost var rest := BitList(m / 2, bit + 1, initial, t);
      if m % 2 == 1 {
        var source := Source(t, IdOfBit(t, bit, initial));
        Assoc(list, [source], rest);
        list := list + [source];
      } else {
        assert [] + rest == rest;
      }
      bit := bit + 1;
      m := m / 2;
    }
  }

  method ConvertFromGnssSvIdConfig(c: Config, svIds: seq<Source>) returns (list: seq<Source>)
    ensures list == svIds + FromConfig(c)
  {
    list := svIds;
    if c.bds != 0 {
      list := ConvertGnssSvIdMaskToList(c.bds, list, Initial(Beidou), Beidou);
    }
    ghost var listed := ListOf(c, Beidou);
    assert list == svIds + listed;
    if c.gal != 0 {
      list := ConvertGnssSvIdMaskToList(c.gal, list, Initial(Galileo), Galileo);
    }
    Assoc(svIds, listed, ListOf(c, Galileo));
    listed := listed + ListOf(c, Galileo);
    assert list == svIds + listed;
    if c.glo != 0 {
      list := ConvertGnssSvIdMaskToList(c.glo, list, Initial(Glonass), Glonass);
    }
    Assoc(svIds, listed, ListOf(c, Glonass));
    listed := listed + ListOf(c, Glonass);
    assert list == svIds + listed;
    if c.qzss != 0 {
      list := ConvertGnssSvIdMaskToList(c.qzss, list, Initial(Qzss), Qzss);
    }
    Assoc(svIds, listed, ListOf(c, Qzss));
    listed := listed + ListOf(c, Qzss);
    assert list == svIds + listed;
    if c.sbas != 0 {
      list := ConvertSbas(c.sbas, list);
    }
    Assoc(svIds, listed, ListOf(c, Sbas));
    listed := listed + ListOf(c, Sbas);
    assert list == svIds + listed;
    if c.navic != 0 {
      list := ConvertGnssSvIdMaskToList(c.navic, list, Initial(Navic), Navic);
    }
    Assoc(svIds, listed, ListOf(c, Navic));
  }

  method ConvertSbas(mask: uint64, svIds: seq<Source>) returns (list: seq<Source>)
    ensures list == svIds + SbasList(mask)
  {
    var m := ShiftLeft(mask, 64 - SBAS_INITIAL_LENGTH);
    m := ShiftRight(m, 64 - SBAS_INITIAL_LENGTH);
    list := ConvertGnssSvIdMaskToList(m, svIds, SBAS_INITIAL, Sbas);
    var n := ShiftRight(mask, SBAS_INITIAL_LENGTH);
    list := ConvertGnssSvIdMaskToList(n, list, SBAS_INITIAL2, Sbas);
    Assoc(svIds, MaskList(m, SBAS_INITIAL, Sbas), MaskList(n, SBAS_INITIAL2, Sbas));
  }

  method ConvertToGnssSvIdConfig(svIds: seq<Source>, config: Config) returns (valid: bool, c: Config)
    requires forall s <- svIds :: Defined(s)
    ensures c == ToConfig(svIds, config)
    ensures valid <==> svIds == [] || c != Zeroed
  {
    c := config;
    if |svIds| == 0 {
      return true, Zeroed;
    }
    for i := 0 to |svIds|
      invariant ApplyAll(c, svIds[i..]) == ApplyAll(config, svIds)
    {
      assert svIds[i..][1..] == svIds[i + 1..];
      c := Apply(c, svIds[i]);
    }
    valid := c.glo != 0 || c.bds != 0 || c.gal != 0 || c.qzss != 0 || c.sbas != 0 || c.navic != 0;
  }
}
