/** Unsigned numbers as bytes, lowest first. */
module LittleEndian {
  import opened Words

  type Byte = b: nat | b < 256

  type Uint16 = x: nat | x < 0x1_0000

  /** The `n` lowest bytes of `x`. */
  function Bytes(x: nat, n: nat): (b: seq<Byte>)
    ensures |b| == n
  {
    if n == 0 then [] else [x % 256] + Bytes(x / 256, n - 1)
  }

  function Half(b: seq<Byte>): Uint16
    requires |b| == 2
  {
    (b[0] as int) + 256 * (b[1] as int)
  }

  /** The `uint32_t` at a position. */
  function WordAt(b: seq<Byte>, i: nat): Uint32
    requires i + 4 <= |b|
  {
    (b[i] as int) + 256 * (b[i + 1] as int) + 65536 * (b[i + 2] as int) + 16777216 * (b[i + 3] as int)
  }

  function Word(b: seq<Byte>): Uint32
    requires |b| == 4
  {
    WordAt(b, 0)
  }

  lemma HalfOfBytes(x: Uint16)
    ensures Half(Bytes(x, 2)) == x
  {
    assert Bytes(x, 2) == [x % 256, x / 256 % 256];
  }

  lemma WordOfBytes(x: Uint32)
    ensures Word(Bytes(x, 4)) == x
  {
    var x1 := x / 256;
    var x2 := x1 / 256;
    assert Bytes(x2, 2) == [x2 % 256, x2 / 256 % 256];
    assert Bytes(x, 4) == [x % 256, x1 % 256] + Bytes(x2, 2);
  }
}
