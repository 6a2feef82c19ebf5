/** Fixed-width machine integers of the x64 target and their little-endian
    byte encoding (what `memcpy` of an integer into memory produces). */
module Words {

  datatype Option<+T> = None | Some(value: T)

  type byte = b: int | 0 <= b < 0x100
  type u32 = x: int | 0 <= x < 0x1_0000_0000
  type u64 = x: int | 0 <= x < 0x1_0000_0000_0000_0000
  type i32 = x: int | -0x8000_0000 <= x < 0x8000_0000

  /** 256 to the power n: the number of values n bytes can hold. */
  function Pow256(n: nat): (r: nat)
    ensures r > 0
  {
    if n == 0 then 1 else 256 * Pow256(n - 1)
  }

  /** C's conversion of an integer to `uint32_t` (reduction modulo 2^32). */
  function U32(x: int): (r: u32)
    ensures 0 <= x < 0x1_0000_0000 ==> r == x
    ensures (r - x) % 0x1_0000_0000 == 0
  {
    x % 0x1_0000_0000
  }

  /** Addition on `uintptr_t`, which wraps at 2^64. */
  function AddPtr(p: u64, k: nat): (r: u64)
    ensures p + k < 0x1_0000_0000_0000_0000 ==> r == p + k
    ensures (r - (p + k)) % 0x1_0000_0000_0000_0000 == 0
  {
    (p + k) % 0x1_0000_0000_0000_0000
  }

  /** The n low-order bytes of v, least significant first. */
  function LE(v: nat, n: nat): (r: seq<byte>)
    ensures |r| == n
  {
    if n == 0 then [] else [v % 256] + LE(v / 256, n - 1)
  }

  /** The value of a little-endian byte string. */
  function FromLE(s: seq<byte>): (v: nat)
    ensures v < Pow256(|s|)
  {
    if s == [] then 0
    else
      var rest := FromLE(s[1..]);
      assert rest <= Pow256(|s| - 1) - 1;
      assert 256 * rest <= 256 * Pow256(|s| - 1) - 256;
      s[0] + 256 * rest
  }

  lemma {:induction false} FromLEOfLE(v: nat, n: nat)
    requires v < Pow256(n)
    ensures FromLE(LE(v, n)) == v
  {
    if n > 0 {
      assert v / 256 < Pow256(n - 1);
      FromLEOfLE(v / 256, n - 1);
      assert LE(v, n)[1..] == LE(v / 256, n - 1);
    }
  }

  lemma {:induction false} LEOfFromLE(s: seq<byte>)
    ensures LE(FromLE(s), |s|) == s
  {
    if s != [] {
      LEOfFromLE(s[1..]);
      var v := FromLE(s);
      assert v % 256 == s[0];
      assert v / 256 == FromLE(s[1..]);
    }
  }

  lemma Pow256Widths()
    ensures Pow256(4) == 0x1_0000_0000
    ensures Pow256(8) == 0x1_0000_0000_0000_0000
  {
  }

  /** 4-byte and 8-byte stores of a word. */
  function LE32(v: u32): (r: seq<byte>)
    ensures |r| == 4 && FromLE(r) == v
  {
    Pow256Widths();
    FromLEOfLE(v, 4);
    LE(v, 4)
  }

  function LE64(v: u64): (r: seq<byte>)
    ensures |r| == 8 && FromLE(r) == v
  {
    Pow256Widths();
    FromLEOfLE(v, 8);
    LE(v, 8)
  }
}
