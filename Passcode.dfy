/** The password field of the quest session: the decimal text of the passcode
    (or "0" when passwords are off) printed with `snprintf` into a zeroed
    32-byte buffer, copied with `strncpy(dst, buf, 31)` and terminated at
    byte 31. The game's builder reads the field back with `atoi`; `Atoi`
    below is that reading, restricted to what the field can hold. */
module Passcode {
  import opened Words

  const Minus: byte := 0x2D

  predicate IsDigit(b: byte)
  {
    0x30 <= b <= 0x39
  }

  /** Decimal digits of n, most significant first, no leading zeros. */
  function Digits(n: nat): (s: seq<byte>)
    ensures 1 <= |s|
    ensures forall i :: 0 <= i < |s| ==> IsDigit(s[i])
  {
    if n < 10 then [0x30 + n] else Digits(n / 10) + [0x30 + n % 10]
  }

  /** `snprintf(buf, size, "%d", v)` before truncation. */
  function FormatDecimal(v: int): (s: seq<byte>)
    ensures 1 <= |s|
    ensures s[0] == Minus <==> v < 0
    ensures forall i :: 0 < i < |s| ==> IsDigit(s[i])
  {
    if v < 0 then [Minus] + Digits(-v) else Digits(v)
  }

  function Pow10(k: nat): (r: nat)
  {
    if k == 0 then 1 else 10 * Pow10(k - 1)
  }

  lemma {:induction false} DigitsLength(n: nat, k: nat)
    requires 1 <= k && n < Pow10(k)
    ensures |Digits(n)| <= k
  {
    if n >= 10 {
      assert k != 1;
      assert n / 10 < Pow10(k - 1);
      DigitsLength(n / 10, k - 1);
    }
  }

  /** The text of any 32-bit `int` has at most 11 bytes and no NUL. */
  lemma FormatDecimalBounds(v: i32)
    ensures 1 <= |FormatDecimal(v)| <= 11
    ensures forall i :: 0 <= i < |FormatDecimal(v)| ==> FormatDecimal(v)[i] != 0
  {
    assert Pow10(10) == 10_000_000_000;
    DigitsLength(if v < 0 then -(v as int) else v, 10);
  }

  function Zeros(n: nat): (z: seq<byte>)
    ensures |z| == n && forall i :: 0 <= i < n ==> z[i] == 0
  {
    seq(n, i => 0)
  }

  /** The content of a zero-initialised buffer of `size` bytes after
      `snprintf` wrote `text` into it: at most size - 1 bytes of text, then NULs. */
  function Snprintf(text: seq<byte>, size: nat): (buf: seq<byte>)
    requires 1 <= size
    ensures |buf| == size
    ensures |text| < size ==> buf == text + Zeros(size - |text|)
  {
    var k := if |text| < size then |text| else size - 1;
    text[..k] + Zeros(size - k)
  }

  /** `strncpy(dst, src, n)`: the n bytes written to dst, which copy src up to
      its first NUL and pad the rest with NULs. */
  function Strncpy(src: seq<byte>, n: nat): (d: seq<byte>)
    ensures |d| == n
  {
    if n == 0 then []
    else if src == [] || src[0] == 0 then Zeros(n)
    else [src[0]] + Strncpy(src[1..], n - 1)
  }

  lemma {:induction false} StrncpyText(t: seq<byte>, j: nat, n: nat)
    requires |t| <= n && 1 <= j
    requires forall i :: 0 <= i < |t| ==> t[i] != 0
    ensures Strncpy(t + Zeros(j), n) == t + Zeros(n - |t|)
  {
    if t == [] {
      assert (t + Zeros(j))[0] == 0;
      if n > 0 {
        assert Strncpy(t + Zeros(j), n) == Zeros(n);
      }
    } else {
      StrncpyText(t[1..], j, n - 1);
      assert (t + Zeros(j))[1..] == t[1..] + Zeros(j);
      assert t == [t[0]] + t[1..];
    }
  }

  /** The text the password field receives: the passcode's decimal when
      passwords are on, "0" otherwise; it fits the field with room for NULs. */
  function PassText(passEnabled: i32, passcode: i32): (t: seq<byte>)
    ensures 1 <= |t| <= 11
    ensures forall i :: 0 <= i < |t| ==> t[i] != 0
    ensures passEnabled == 0 ==> t == [0x30]
  {
    if passEnabled != 0 then
      FormatDecimalBounds(passcode);
      FormatDecimal(passcode)
    else [0x30]
  }

  /** The 32 bytes written at the session's password offset. */
  function PassField(passEnabled: i32, passcode: i32): (f: seq<byte>)
    ensures |f| == 32 && f[31] == 0
  {
    Strncpy(Snprintf(PassText(passEnabled, passcode), 32), 31) + [0]
  }

  /** The field holds the text, then NULs through byte 31: nothing is
      truncated and the string is always terminated. */
  lemma PassFieldLayout(passEnabled: i32, passcode: i32)
    ensures |PassText(passEnabled, passcode)| <= 11
    ensures PassField(passEnabled, passcode)
         == PassText(passEnabled, passcode) + Zeros(32 - |PassText(passEnabled, passcode)|)
  {
    var t := PassText(passEnabled, passcode);
    if passEnabled != 0 {
      FormatDecimalBounds(passcode);
    }
    assert Snprintf(t, 32) == t + Zeros(32 - |t|);
    StrncpyText(t, 32 - |t|, 31);
    assert Zeros(31 - |t|) + [0] == Zeros(32 - |t|);
  }

  // ---- the reading of the field by the game's builder ----

  /** The longest prefix of decimal digits. */
  function DigitRun(s: seq<byte>): (r: seq<byte>)
    ensures forall i :: 0 <= i < |r| ==> IsDigit(r[i])
  {
    if s != [] && IsDigit(s[0]) then [s[0]] + DigitRun(s[1..]) else []
  }

  /** The value of a string of decimal digits, most significant first. */
  function DecimalValue(ds: seq<byte>): (v: nat)
    requires forall i :: 0 <= i < |ds| ==> IsDigit(ds[i])
  {
    if ds == [] then 0
    else
      assert IsDigit(ds[|ds| - 1]);
      DecimalValue(ds[..|ds| - 1]) * 10 + (ds[|ds| - 1] - 0x30)
  }

  /** `atoi` on text that starts with an optional minus and digits. */
  function Atoi(s: seq<byte>): (v: int)
  {
    if s != [] && s[0] == Minus then -(DecimalValue(DigitRun(s[1..])) as int) else DecimalValue(DigitRun(s))
  }

  lemma {:induction false} DigitRunStops(t: seq<byte>, z: seq<byte>)
    requires forall i :: 0 <= i < |t| ==> IsDigit(t[i])
    requires z == [] || !IsDigit(z[0])
    ensures DigitRun(t + z) == t
  {
    if t != [] {
      DigitRunStops(t[1..], z);
      assert (t + z)[1..] == t[1..] + z;
      assert t == [t[0]] + t[1..];
    } else {
      assert t + z == z;
    }
  }

  lemma {:induction false} DigitsValue(n: nat)
    ensures DecimalValue(Digits(n)) == n
  {
    if n >= 10 {
      DigitsValue(n / 10);
      var d := Digits(n);
      assert d[..|d| - 1] == Digits(n / 10);
    }
  }

  /** The builder's `atoi` reads back exactly the passcode (0 when passwords
      are off): formatting and copying lose nothing for any 32-bit value. */
  lemma PassFieldRoundTrip(passEnabled: i32, passcode: i32)
    ensures Atoi(PassField(passEnabled, passcode)) == if passEnabled != 0 then passcode else 0
  {
    PassFieldLayout(passEnabled, passcode);
    var t := PassText(passEnabled, passcode);
    var z := Zeros(32 - |t|);
    assert z != [] && !IsDigit(z[0]);
    if passEnabled != 0 && passcode < 0 {
      var m: nat := -(passcode as int);
      var ds := Digits(m);
      assert t == [Minus] + ds;
      assert (t + z)[1..] == ds + z;
      DigitRunStops(ds, z);
      DigitsValue(m);
    } else {
      var n: nat := if passEnabled != 0 then passcode else 0;
      assert t == Digits(n);
      assert (t + z)[0] == t[0] && IsDigit(t[0]);
      DigitRunStops(t, z);
      DigitsValue(n);
    }
  }
}
