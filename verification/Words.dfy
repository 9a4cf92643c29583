/** Machine words and the small result types shared by the other modules. */
module Words {

  /** One more than the largest `uint32_t`. */
  const U32: nat := 0x1_0000_0000

  /** One more than the largest `uint64_t`. */
  const U64: nat := 0x1_0000_0000_0000_0000

  type Int32 = x: int | -0x8000_0000 <= x < 0x8000_0000

  type Uint32 = x: nat | x < U32

  /** The value an integer has after conversion to `uint32_t`: it wraps until it fits. */
  function ToU32(x: int): Uint32
    decreases if x < 0 then U32 - x else x
  {
    if x < 0 then ToU32(x + U32) else if x < U32 then x else ToU32(x - U32)
  }

  /** A multiple of 2^32 makes no difference. */
  lemma {:induction false} AddMultiple(x: int, k: int)
    ensures ToU32(x + U32 * k) == ToU32(x)
    decreases if k < 0 then -k else k
  {
    if k > 0 {
      AddMultiple(x, k - 1);
      AddOne(x + U32 * (k - 1));
    } else if k < 0 {
      AddMultiple(x, k + 1);
      AddOne(x + U32 * k);
    }
  }

  lemma AddOne(x: int)
    ensures ToU32(x + U32) == ToU32(x)
  {
  }

  lemma {:induction false} Wraps(x: int) returns (k: int)
    ensures x == ToU32(x) + U32 * k
    decreases if x < 0 then U32 - x else x
  {
    if x < 0 {
      k := Wraps(x + U32);
      k := k - 1;
    } else if x < U32 {
      k := 0;
    } else {
      k := Wraps(x - U32);
      k := k + 1;
    }
  }

  /** The conversion is the remainder modulo 2^32. */
  lemma ToU32IsRemainder(x: int)
    ensures ToU32(x) == x % U32
  {
    var k := Wraps(x);
  }

  /** Wrapping early makes no difference. */
  lemma ShiftU32(x: int, d: int)
    ensures ToU32(ToU32(x) + d) == ToU32(x + d)
  {
    var k := Wraps(x);
    AddMultiple(ToU32(x) + d, k);
  }

  /** The value an integer has after conversion to `int`. */
  function ToI32(x: int): (r: Int32)
    ensures ToU32(r) == ToU32(x)
  {
    var u := ToU32(x);
    if u < 0x8000_0000 then u else u - U32
  }

  /** The `uint32_t` sum of two. */
  function Add32(x: Uint32, y: Uint32): (r: Uint32)
    ensures r == x + y || r == x + y - U32
  {
    if x + y < U32 then x + y else x + y - U32
  }

  /** The `uint64_t` an `int` becomes: a negative one is sign-extended. */
  function Widen(x: Int32): (r: nat)
    ensures r < U64 && (r == x || r == x + U64)
  {
    if x < 0 then U64 + x else x
  }

  /** Quotient and remainder are unique. */
  lemma ModUnique(x: int, a: nat, q: int, r: int)
    requires a > 0 && 0 <= r < a && x == q * a + r
    ensures x % a == r && x / a == q
  {
    var d := x / a - q;
    assert x == a * (x / a) + x % a;
    assert d * a == r - x % a;
    if d != 0 {
      NonZeroMultiple(d, a);
    }
  }

  lemma NonZeroMultiple(d: int, a: nat)
    requires d != 0 && a > 0
    ensures d * a >= a || d * a <= 0 - a
  {
    if d < 0 {
      ProductNonNegative(-1 - d, a);
      assert (-1 - d) * a == 0 - a - d * a;
    } else {
      ProductNonNegative(d - 1, a);
      assert (d - 1) * a == d * a - a;
    }
  }

  lemma ProductNonNegative(x: nat, y: nat)
    ensures x * y >= 0
  {
  }

  datatype Option<+T> = None | Some(value: T)
}
