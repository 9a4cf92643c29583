/**
  The layout of the static thread-local-storage block: the mask arithmetic of
  utility/utility.h and the two passes of initTlsStaticBlock in core/runtime/runtimeLinker.cpp,
  in 64-bit words as the code computes them.
 */
module TlsSpec {
  import opened Words

  // ---- 64-bit words ----

  /** The value an integer has after conversion to `uint64_t`. */
  function ToU64(x: int): nat {
    x % U64
  }

  /** The value a `uint64_t` has after conversion to `int64_t`. */
  function ToI64(u: nat): int {
    if u < U64 / 2 then u else u - U64
  }

  /** Bitwise and. */
  function And(x: nat, y: nat): nat
    decreases x
  {
    if x == 0 then 0 else (if x % 2 == 1 && y % 2 == 1 then 1 else 0) + 2 * And(x / 2, y / 2)
  }

  /** Bitwise complement of a 64-bit word. */
  function Not(y: nat): nat
    requires y < U64
  {
    U64 - 1 - y
  }

  function AlignUp(value: nat, alignment: nat): nat
    requires alignment < U64
  {
    if alignment == 0 then value else And(ToU64(value + (alignment - 1)), Not(alignment - 1))
  }

  function AlignDown(value: nat, alignment: nat): nat
    requires alignment < U64
  {
    if alignment == 0 then value else And(value, Not(alignment - 1))
  }

  function Pow2(k: nat): nat
    ensures Pow2(k) > 0
  {
    if k == 0 then 1 else 2 * Pow2(k - 1)
  }

  predicate PowerOfTwo(a: nat) {
    exists k: nat :: k < 32 && a == Pow2(k)
  }

  /** The largest multiple of `a` that is not above `x`; `x` itself when `a` is 0. */
  function Floor(x: int, a: nat): int {
    if a == 0 then x else x - x % a
  }

  lemma {:induction false} Pow2Mono(j: nat, k: nat)
    requires j <= k
    ensures Pow2(j) <= Pow2(k)
    decreases k
  {
    if j < k {
      Pow2Mono(j, k - 1);
    }
  }

  lemma {:induction false} Pow2Divides(j: nat, k: nat)
    requires j <= k
    ensures Pow2(k) % Pow2(j) == 0
    decreases k
  {
    if j < k {
      Pow2Divides(j, k - 1);
      DoubleMultiple(Pow2(k - 1), Pow2(j));
    } else {
      MultipleMod(1, Pow2(j));
    }
  }

  lemma MultipleMod(q: int, a: nat)
    requires a > 0
    ensures (q * a) % a == 0
  {
    ModUnique(q * a, a, q, 0);
  }

  lemma DoubleMultiple(x: int, a: nat)
    requires a > 0 && x % a == 0
    ensures (2 * x) % a == 0
  {
    assert x == a * (x / a);
    assert 2 * x == (2 * (x / a)) * a;
    MultipleMod(2 * (x / a), a);
  }

  lemma SumMultiple(x: int, y: int, a: nat)
    requires a > 0 && y % a == 0
    ensures (x + y) % a == x % a
  {
    var q := y / a;
    assert y == q * a;
    assert x == a * (x / a) + x % a;
    assert x + y == (x / a + q) * a + x % a;
    ModUnique(x + y, a, x / a + q, x % a);
  }

  lemma {:induction false} AndOnes(v: nat, w: nat)
    requires v < Pow2(w)
    ensures And(v, Pow2(w) - 1) == v
    decreases w
  {
    if v > 0 {
      var m := Pow2(w - 1);
      assert Pow2(w) - 1 == 2 * (m - 1) + 1;
      AndOnes(v / 2, w - 1);
      AndOdd(v, m - 1);
    }
  }

  lemma AndOdd(v: nat, z: nat)
    requires v > 0 && And(v / 2, z) == v / 2
    ensures And(v, 2 * z + 1) == v
  {
    assert (2 * z + 1) % 2 == 1 && (2 * z + 1) / 2 == z;
  }

  lemma HalfMod(v: nat, m: nat)
    requires m > 0
    ensures v % (2 * m) == 2 * ((v / 2) % m) + v % 2
  {
    var h := v / 2;
    assert h == m * (h / m) + h % m;
    assert v == 2 * h + v % 2;
    assert v == (h / m) * (2 * m) + (2 * (h % m) + v % 2);
    ModUnique(v, 2 * m, h / m, 2 * (h % m) + v % 2);
  }

  /** Masking with the high bits of a word rounds down to a multiple of the power of two. */
  lemma {:induction false} AndHighBits(v: nat, w: nat, k: nat, y: nat)
    requires v < Pow2(w) && k <= w && y + Pow2(k) == Pow2(w)
    ensures And(v, y) == v - v % Pow2(k)
    decreases k
  {
    if k == 0 {
      AndOnes(v, w);
      ModUnique(v, 1, v, 0);
    } else if v == 0 {
      ModUnique(0, Pow2(k), 0, 0);
    } else {
      var m, half := Pow2(k - 1), Pow2(w - 1);
      assert Pow2(k) == 2 * m && Pow2(w) == 2 * half;
      var z := half - m;
      assert y == 2 * z;
      AndHighBits(v / 2, w - 1, k - 1, z);
      AndHighBitsStep(v, z, m);
    }
  }

  lemma AndHighBitsStep(v: nat, y: nat, m: nat)
    requires m > 0 && And(v / 2, y) == v / 2 - (v / 2) % m
    ensures And(v, 2 * y) == v - v % (2 * m)
  {
    assert (2 * y) % 2 == 0 && (2 * y) / 2 == y;
    assert And(v, 2 * y) == 2 * And(v / 2, y);
    HalfMod(v, m);
  }

  lemma {:induction false} Pow2Add(j: nat, k: nat)
    ensures Pow2(j + k) == Pow2(j) * Pow2(k)
    decreases k
  {
    if k > 0 {
      Pow2Add(j, k - 1);
    }
  }

  lemma Pow2Square(k: nat, x: nat)
    requires Pow2(k) == x
    ensures Pow2(2 * k) == x * x
  {
    Pow2Add(k, k);
  }

  /** A word has enough bits for every power of two below it. */
  lemma WordBits(k: nat) returns (w: nat)
    requires k < 64
    ensures Pow2(w) == U64 && k < w
  {
    w := 8;
    assert Pow2(w) == 0x100;
    Pow2Square(w, 0x100);
    Pow2Square(2 * w, 0x1_0000);
    Pow2Square(4 * w, U32);
    w := 8 * w;
  }

  /** The mask of a power of two rounds a word down. */
  lemma MaskFloors(v: nat, k: nat, a: nat)
    requires v < U64 && k < 64 && 0 < a < U64 && a == Pow2(k)
    ensures And(v, Not(a - 1)) == v - v % a
  {
    var w := WordBits(k);
    AndHighBits(v, w, k, Not(a - 1));
  }

  lemma AlignUpMasks(v: nat, a: nat)
    requires 0 < a < U64 && v + a <= U64
    ensures AlignUp(v, a) == And(v + a - 1, Not(a - 1))
  {
    SmallWord(v + a - 1);
  }

  lemma SmallWord(x: nat)
    requires x < U64
    ensures ToU64(x) == x
  {
  }

  lemma AlignDownFloors(v: nat, k: nat)
    requires v < U64 && k < 64 && Pow2(k) < U64
    ensures AlignDown(v, Pow2(k)) == Floor(v, Pow2(k))
  {
    MaskFloors(v, k, Pow2(k));
  }

  lemma AlignUpCeils(v: nat, k: nat)
    requires k < 64 && Pow2(k) < U64 && v + Pow2(k) <= U64
    ensures AlignUp(v, Pow2(k)) == Floor(v + Pow2(k) - 1, Pow2(k))
  {
    AlignUpMasks(v, Pow2(k));
    MaskFloors(v + Pow2(k) - 1, k, Pow2(k));
  }

  // ---- the two passes ----

  /** The part of a program's thread-local storage that the layout looks at. */
  datatype Module = Module(size: nat, alignment: nat)

  predicate ModulesFit(ms: seq<Module>) {
    forall i :: 0 <= i < |ms| ==> ms[i].size < U64 && ms[i].alignment < U32
  }

  /** One step of either pass: `offset` is an `int64_t`, the size a `uint64_t`. */
  function Place(offset: int, m: Module): int
    requires m.alignment < U32
  {
    ToI64(AlignDown(ToU64(offset - m.size), m.alignment))
  }

  /** The offsets a pass assigns when it starts from `start`. */
  function Offsets(start: int, ms: seq<Module>): (os: seq<int>)
    requires ModulesFit(ms)
    ensures |os| == |ms|
    decreases |ms|
  {
    if ms == [] then []
    else
      var front := Offsets(start, ms[..|ms| - 1]);
      front + [Place(if front == [] then start else front[|front| - 1], ms[|ms| - 1])]
  }

  function Last(start: int, os: seq<int>): int {
    if os == [] then start else os[|os| - 1]
  }

  function Abs(x: int): nat {
    if x < 0 then -x else x
  }

  /** The size of the static block, from the result of the first pass. */
  function BlockSize(ms: seq<Module>): nat
    requires ModulesFit(ms)
  {
    AlignUp(Abs(Last(0, Offsets(0, ms))), 32)
  }

  /** How far down a pass can get. */
  function Extent(ms: seq<Module>): nat {
    if ms == [] then 0 else Extent(ms[..|ms| - 1]) + ms[|ms| - 1].size + ms[|ms| - 1].alignment
  }

  predicate PowerAlignments(ms: seq<Module>) {
    forall i :: 0 <= i < |ms| ==> ms[i].alignment == 0 || PowerOfTwo(ms[i].alignment)
  }

  /** Modules the two passes handle without leaving `int64_t`. */
  predicate Layable(ms: seq<Module>) {
    ModulesFit(ms) && PowerAlignments(ms) && Extent(ms) < 0x2000_0000_0000_0000
  }

  /** One step of a pass rounds down in the integers, whatever happens to the words in between. */
  lemma PlaceFloors(offset: int, m: Module)
    requires m.size < U64 && (m.alignment == 0 || PowerOfTwo(m.alignment)) && m.alignment < U32
    requires -0x4000_0000_0000_0000 <= offset - m.size && offset < 0x4000_0000_0000_0000
    ensures Place(offset, m) == Floor(offset - m.size, m.alignment)
  {
    var x, a := offset - m.size, m.alignment;
    var u := ToU64(x);
    assert u == if x < 0 then x + U64 else x;
    if a != 0 {
      var k: nat :| k < 32 && a == Pow2(k);
      AlignDownFloors(u, k);
      var w := WordBits(k);
      Pow2Divides(k, w);
      SumMultiple(x, U64, a);
      assert u % a == x % a;
    }
  }

  lemma FloorBounds(x: int, a: nat)
    ensures x - a <= Floor(x, a) <= x
    ensures a > 0 ==> Floor(x, a) % a == 0
  {
    if a > 0 {
      assert x == (x / a) * a + x % a;
      MultipleMod(x / a, a);
    }
  }

  /** Rounding down commutes with adding `b` exactly when `b` is a multiple. */
  lemma FloorShift(x: int, b: int, a: nat)
    requires a > 0
    ensures Floor(b + x, a) == b + Floor(x, a) <==> b % a == 0
  {
    if b % a == 0 {
      SumMultiple(x, b, a);
    } else if Floor(b + x, a) == b + Floor(x, a) {
      FloorBounds(b + x, a);
      FloorBounds(x, a);
      Difference(Floor(b + x, a), Floor(x, a), a);
    }
  }

  lemma Difference(x: int, y: int, a: nat)
    requires a > 0 && x % a == 0 && y % a == 0
    ensures (x - y) % a == 0
  {
    assert x == (x / a) * a && y == (y / a) * a;
    assert x - y == (x / a - y / a) * a;
    MultipleMod(x / a - y / a, a);
  }

  function Before(start: int, os: seq<int>, i: nat): int
    requires i <= |os|
  {
    if i == 0 then start else os[i - 1]
  }

  lemma OffsetsStep(start: int, ms: seq<Module>, n: nat)
    requires ModulesFit(ms) && n < |ms|
    ensures Offsets(start, ms[..n + 1]) ==
            Offsets(start, ms[..n]) + [Place(Last(start, Offsets(start, ms[..n])), ms[n])]
  {
    assert ms[..n + 1][..n] == ms[..n];
  }

  lemma {:induction false} OffsetAt(start: int, ms: seq<Module>, i: nat)
    requires ModulesFit(ms) && i < |ms|
    ensures Offsets(start, ms)[i] == Place(Before(start, Offsets(start, ms), i), ms[i])
    decreases |ms|
  {
    if i < |ms| - 1 {
      OffsetAt(start, ms[..|ms| - 1], i);
    }
  }

  lemma {:induction false} OffsetBounds(start: int, ms: seq<Module>)
    requires Layable(ms) && 0 <= start < 0x4000_0000_0000_0000
    ensures start - Extent(ms) <= Last(start, Offsets(start, ms)) <= start
    decreases |ms|
  {
    if ms != [] {
      var front := ms[..|ms| - 1];
      OffsetBounds(start, front);
      LastFloors(start, Last(start, Offsets(start, front)), ms[|ms| - 1]);
    }
  }

  /** Every assigned offset, from the one before it: no module reaches above its predecessor. */
  lemma {:induction false} OffsetFloors(start: int, ms: seq<Module>, i: nat)
    requires Layable(ms) && 0 <= start < 0x4000_0000_0000_0000 && i < |ms|
    ensures var os := Offsets(start, ms);
      && os[i] == Floor(Before(start, os, i) - ms[i].size, ms[i].alignment)
      && start - Extent(ms) <= os[i] && os[i] + ms[i].size <= Before(start, os, i) <= start
    decreases |ms|
  {
    if i < |ms| - 1 {
      OffsetFloors(start, ms[..|ms| - 1], i);
    } else {
      LastOffsetFloors(start, ms);
    }
  }

  lemma LastOffsetFloors(start: int, ms: seq<Module>)
    requires Layable(ms) && 0 <= start < 0x4000_0000_0000_0000 && ms != []
    ensures var os, n := Offsets(start, ms), |ms| - 1;
      && os[n] == Floor(Before(start, os, n) - ms[n].size, ms[n].alignment)
      && start - Extent(ms) <= os[n] && os[n] + ms[n].size <= Before(start, os, n) <= start
  {
    var front, m := ms[..|ms| - 1], ms[|ms| - 1];
    OffsetBounds(start, front);
    LastFloors(start, Last(start, Offsets(start, front)), m);
  }

  lemma LastFloors(start: int, before: int, m: Module)
    requires 0 <= start < 0x4000_0000_0000_0000 && before <= start
    requires m.alignment < U32 && (m.alignment == 0 || PowerOfTwo(m.alignment))
    requires start - before + m.size + m.alignment < 0x2000_0000_0000_0000
    ensures Place(before, m) == Floor(before - m.size, m.alignment)
    ensures before - m.size - m.alignment <= Place(before, m) <= before - m.size
  {
    PlaceFloors(before, m);
    FloorBounds(before - m.size, m.alignment);
  }

  lemma OffsetAligned(start: int, ms: seq<Module>, i: nat)
    requires Layable(ms) && 0 <= start < 0x4000_0000_0000_0000 && i < |ms| && ms[i].alignment != 0
    ensures Offsets(start, ms)[i] % ms[i].alignment == 0
  {
    OffsetFloors(start, ms, i);
    FloorBounds(Before(start, Offsets(start, ms), i) - ms[i].size, ms[i].alignment);
  }

  lemma BlockSizeIs(ms: seq<Module>)
    requires Layable(ms)
    ensures BlockSize(ms) % 32 == 0 && BlockSize(ms) < 0x4000_0000_0000_0000
    ensures 0 <= BlockSize(ms) + Last(0, Offsets(0, ms)) < 32
  {
    OffsetBounds(0, ms);
    var x := Abs(Last(0, Offsets(0, ms)));
    assert Pow2(5) == 32;
    AlignUpCeils(x, 5);
    FloorBounds(x + 31, 32);
  }

  predicate PassesAgree(ms: seq<Module>)
    requires ModulesFit(ms)
  {
    forall i :: 0 <= i < |ms| ==> Offsets(BlockSize(ms), ms)[i] == BlockSize(ms) + Offsets(0, ms)[i]
  }

  /**
    The second pass reproduces the first one, shifted by the size of the block, if and only if
    the size of the block is a multiple of every alignment.
   */
  lemma PassesAgreeIff(ms: seq<Module>)
    requires Layable(ms)
    ensures PassesAgree(ms) <==>
            forall i :: 0 <= i < |ms| && ms[i].alignment != 0 ==> BlockSize(ms) % ms[i].alignment == 0
  {
    var b := BlockSize(ms);
    BlockSizeIs(ms);
    if PassesAgree(ms) {
      forall i | 0 <= i < |ms| && ms[i].alignment != 0 ensures b % ms[i].alignment == 0 {
        ShiftedAligned(ms, b, i);
      }
    } else if forall i :: 0 <= i < |ms| && ms[i].alignment != 0 ==> b % ms[i].alignment == 0 {
      AgreeUpTo(ms, b, |ms|);
    }
  }

  lemma ShiftedAligned(ms: seq<Module>, b: nat, i: nat)
    requires Layable(ms) && b < 0x4000_0000_0000_0000 && i < |ms| && ms[i].alignment != 0
    requires Offsets(b, ms)[i] == b + Offsets(0, ms)[i]
    ensures b % ms[i].alignment == 0
  {
    OffsetAligned(0, ms, i);
    OffsetAligned(b, ms, i);
    Difference(Offsets(b, ms)[i], Offsets(0, ms)[i], ms[i].alignment);
  }

  lemma {:induction false} AgreeUpTo(ms: seq<Module>, b: nat, n: nat)
    requires Layable(ms) && b < 0x4000_0000_0000_0000 && n <= |ms|
    requires forall i :: 0 <= i < |ms| && ms[i].alignment != 0 ==> b % ms[i].alignment == 0
    ensures forall i :: 0 <= i < n ==> Offsets(b, ms)[i] == b + Offsets(0, ms)[i]
    decreases n
  {
    if n > 0 {
      AgreeUpTo(ms, b, n - 1);
      AgreeAt(ms, b, n - 1);
    }
  }

  lemma AgreeAt(ms: seq<Module>, b: nat, i: nat)
    requires Layable(ms) && b < 0x4000_0000_0000_0000 && i < |ms|
    requires ms[i].alignment == 0 || b % ms[i].alignment == 0
    requires Before(b, Offsets(b, ms), i) == b + Before(0, Offsets(0, ms), i)
    ensures Offsets(b, ms)[i] == b + Offsets(0, ms)[i]
  {
    var before, shifted := Before(0, Offsets(0, ms), i), Before(b, Offsets(b, ms), i);
    var x := FloorOf(0, ms, i, before);
    var y := FloorOf(b, ms, i, shifted);
    ModuleShifts(before, shifted, b, ms[i]);
  }

  lemma FloorOf(start: int, ms: seq<Module>, i: nat, before: int) returns (x: int)
    requires Layable(ms) && 0 <= start < 0x4000_0000_0000_0000 && i < |ms| && before == Before(start, Offsets(start, ms), i)
    ensures x == Offsets(start, ms)[i] == Floor(before - ms[i].size, ms[i].alignment)
  {
    OffsetFloors(start, ms, i);
    x := Offsets(start, ms)[i];
  }

  lemma ModuleShifts(before: int, shifted: int, b: nat, m: Module)
    requires shifted == b + before && (m.alignment == 0 || b % m.alignment == 0)
    ensures Floor(shifted - m.size, m.alignment) == b + Floor(before - m.size, m.alignment)
  {
    if m.alignment != 0 {
      FloorShift(before - m.size, b, m.alignment);
    }
  }

  /** The promise of the layout: aligned blocks, inside the static block, that do not overlap. */
  predicate GoodLayout(ms: seq<Module>, os: seq<int>, size: nat)
    requires |os| == |ms|
  {
    && (forall i :: 0 <= i < |ms| ==> 0 <= os[i] && os[i] + ms[i].size <= size)
    && (forall i :: 0 <= i < |ms| && ms[i].alignment != 0 ==> os[i] % ms[i].alignment == 0)
    && (forall i, j :: 0 <= i < j < |ms| ==> os[j] + ms[j].size <= os[i])
  }

  lemma {:induction false} OffsetsDescend(start: int, ms: seq<Module>, i: nat, j: nat)
    requires Layable(ms) && 0 <= start < 0x4000_0000_0000_0000 && i <= j <= |ms|
    ensures Before(start, Offsets(start, ms), j) <= Before(start, Offsets(start, ms), i)
    decreases j
  {
    if i < j {
      OffsetsDescend(start, ms, i, j - 1);
      OffsetFloors(start, ms, j - 1);
    }
  }

  lemma LaterIsBelow(start: int, ms: seq<Module>, i: nat, j: nat)
    requires Layable(ms) && 0 <= start < 0x4000_0000_0000_0000 && i < j < |ms|
    ensures var os := Offsets(start, ms); os[j] + ms[j].size <= os[i]
  {
    OffsetFloors(start, ms, j);
    OffsetsDescend(start, ms, i + 1, j);
  }

  lemma AboveLast(start: int, ms: seq<Module>, i: nat)
    requires Layable(ms) && 0 <= start < 0x4000_0000_0000_0000 && i < |ms|
    ensures var os := Offsets(start, ms); Last(start, os) <= os[i] && os[i] + ms[i].size <= start
  {
    OffsetFloors(start, ms, i);
    OffsetsDescend(start, ms, i + 1, |ms|);
  }

  /** When the passes agree the layout is good. */
  lemma AgreementIsGood(ms: seq<Module>)
    requires Layable(ms) && PassesAgree(ms)
    ensures GoodLayout(ms, Offsets(BlockSize(ms), ms), BlockSize(ms))
  {
    var b := BlockSize(ms);
    var os := Offsets(b, ms);
    BlockSizeIs(ms);
    forall i | 0 <= i < |ms| ensures 0 <= os[i] && os[i] + ms[i].size <= b {
      AboveLast(b, ms, i);
      assert os[|ms| - 1] == b + Offsets(0, ms)[|ms| - 1];
    }
    forall i | 0 <= i < |ms| && ms[i].alignment != 0 ensures os[i] % ms[i].alignment == 0 {
      OffsetAligned(b, ms, i);
    }
    forall i, j | 0 <= i < j < |ms| ensures os[j] + ms[j].size <= os[i] {
      LaterIsBelow(b, ms, i, j);
    }
  }

  /** Alignments that divide 32 always give a good layout, and both passes agree. */
  lemma SmallAlignmentsAreGood(ms: seq<Module>)
    requires Layable(ms)
    requires forall i :: 0 <= i < |ms| && ms[i].alignment != 0 ==> 32 % ms[i].alignment == 0
    ensures PassesAgree(ms) && GoodLayout(ms, Offsets(BlockSize(ms), ms), BlockSize(ms))
  {
    BlockSizeIs(ms);
    forall i | 0 <= i < |ms| && ms[i].alignment != 0 ensures BlockSize(ms) % ms[i].alignment == 0 {
      MultipleOfMultiple(BlockSize(ms), 32, ms[i].alignment);
    }
    PassesAgreeIff(ms);
    AgreementIsGood(ms);
  }

  lemma MultipleOfMultiple(x: int, y: nat, a: nat)
    requires y > 0 && a > 0 && x % y == 0 && y % a == 0
    ensures x % a == 0
  {
    var p, q := x / y, y / a;
    assert x == p * y && y == q * a;
    Associate(p, q, a);
    MultipleMod(p * q, a);
  }

  lemma Associate(p: int, q: int, a: int)
    ensures p * (q * a) == (p * q) * a
  {
  }

  // ---- which alignments are safe ----

  predicate UsesOnly(ms: seq<Module>, a: nat) {
    forall i :: 0 <= i < |ms| ==> ms[i].alignment in {0, 1, a}
  }

  /** Two modules, the first one aligned to `a`. */
  function Pair(a: nat): seq<Module> {
    [Module(40, a), Module(32, 1)]
  }

  lemma PowersFrom64(k: nat)
    requires 6 <= k < 32
    ensures 64 <= Pow2(k) <= 0x8000_0000 && Pow2(k) % 32 == 0 && PowerOfTwo(Pow2(k)) && PowerOfTwo(1)
  {
    assert Pow2(6) == 64 && Pow2(5) == 32 && Pow2(0) == 1;
    Pow2Mono(6, k);
    Pow2Below32(k);
    Pow2Divides(5, k);
  }

  lemma Pow2Below32(k: nat)
    requires k < 32
    ensures Pow2(k) <= 0x8000_0000
  {
    var w := 8;
    assert Pow2(w) == 0x100;
    Pow2Square(w, 0x100);
    Pow2Square(2 * w, 0x1_0000);
    Pow2Mono(k, 4 * w - 1);
  }

  lemma PowersTo32(k: nat)
    requires k <= 5
    ensures 32 % Pow2(k) == 0
  {
    assert Pow2(5) == 32;
    Pow2Divides(k, 5);
  }

  lemma PairLayable(a: nat)
    requires PowerOfTwo(a) && PowerOfTwo(1) && 64 <= a <= 0x8000_0000
    ensures Layable(Pair(a))
  {
    var ms := Pair(a);
    assert ms[..1] == [Module(40, a)] && ms[..1][..0] == [];
    assert Extent(ms[..1]) == 40 + a;
  }

  lemma PairBlock(a: nat)
    requires PowerOfTwo(a) && 64 <= a <= 0x8000_0000 && a % 32 == 0 && Layable(Pair(a))
    ensures BlockSize(Pair(a)) == a + 32
  {
    FloorUnique(0 - 40, a, -1);
    PairOffsets(0, a, 0 - a);
    var last := Last(0, Offsets(0, Pair(a)));
    assert last == 0 - a - 32;
    BlockSizeIs(Pair(a));
    SameMultiple(BlockSize(Pair(a)), a);
  }

  lemma SameMultiple(b: nat, a: nat)
    requires b % 32 == 0 && a % 32 == 0 && 0 <= b - a - 32 < 32
    ensures b == a + 32
  {
  }

  /** From 64 on, an alignment pushes the second module of the pair to -32, below the block. */
  lemma LargeAlignmentsFail(k: nat)
    requires 6 <= k < 32
    ensures Layable(Pair(Pow2(k))) && BlockSize(Pair(Pow2(k))) == Pow2(k) + 32
    ensures Offsets(BlockSize(Pair(Pow2(k))), Pair(Pow2(k))) == [0, -32]
  {
    PowersFrom64(k);
    PairLayable(Pow2(k));
    PairBlock(Pow2(k));
    PairFails(Pow2(k));
  }

  lemma PairFails(a: nat)
    requires PowerOfTwo(a) && 64 <= a <= 0x8000_0000
    ensures Offsets(a + 32, Pair(a)) == [0, -32]
  {
    FloorUnique(a - 8, a, 0);
    PairOffsets(a + 32, a, 0);
  }

  lemma FloorUnique(x: int, a: nat, q: int)
    requires a > 0 && q * a <= x < q * a + a
    ensures Floor(x, a) == q * a
  {
    ModUnique(x, a, q, x - q * a);
  }

  lemma PairOffsets(start: int, a: nat, first: int)
    requires PowerOfTwo(a) && 64 <= a <= 0x8000_0000 && 0 <= start <= 0x1_0000_0000 && first == Floor(start - 40, a)
    ensures Offsets(start, Pair(a)) == [first, first - 32]
  {
    var ms := Pair(a);
    assert ms[..1] == [Module(40, a)] && ms[..1][..0] == [];
    assert Pow2(0) == 1;
    assert PowerOfTwo(1);
    PlaceFloors(start, ms[0]);
    FloorBounds(start - 40, a);
    PlaceFloors(first, ms[1]);
    assert Offsets(start, ms[..1]) == [first];
  }

  /**
    A power of two is safe as an alignment, in every list of modules that also uses 0, 1 or it
    only, if and only if it divides 32.
   */
  lemma AlignmentIsSafeIff(k: nat)
    requires k < 32
    ensures 32 % Pow2(k) == 0 <==>
            forall ms :: UsesOnly(ms, Pow2(k)) && Layable(ms) ==> GoodLayout(ms, Offsets(BlockSize(ms), ms), BlockSize(ms))
  {
    if k <= 5 {
      PowersTo32(k);
    }
    if 32 % Pow2(k) == 0 {
      forall ms | UsesOnly(ms, Pow2(k)) && Layable(ms) ensures GoodLayout(ms, Offsets(BlockSize(ms), ms), BlockSize(ms)) {
        SmallAlignmentsAreGood(ms);
      }
    } else {
      LargeAlignmentsFail(k);
      var ms := Pair(Pow2(k));
      assert UsesOnly(ms, Pow2(k)) && Layable(ms);
      assert Offsets(BlockSize(ms), ms)[1] < 0;
    }
  }
}
