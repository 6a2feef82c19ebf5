/** The plugin's configuration: the `Config` record with its built-in
    defaults, `LoadConfig` with the player-count clamp, the hexadecimal INI
    reader `ReadIniHex`, and `DllDir`, the directory part of the plugin's path.
    The INI file and the module path are inputs here: the values the Win32
    profile and module-name calls would return. */
module Configuration {
  import opened Words

  datatype Config = Config(
    questId: i32,
    players: i32,
    passEnabled: i32,
    passcode: i32,
    verbose: i32,
    rvaBuildPost: u32,
    rvaSendPost: u32,
    rvaGlobalBase: u32)

  /** The defaults of the `Config` struct. */
  const Defaults: Config := Config(0, 1, 0, 0, 1, 0x1146BA0, 0, 0)

  /** What the INI file holds: the integer keys of section [QuestPost], as the
      profile reader returns them (None when missing), and the raw text of the
      hexadecimal keys of section [Addresses] ("" when missing). */
  datatype Ini = Ini(
    questId: Option<i32>,
    players: Option<i32>,
    passEnabled: Option<i32>,
    passcode: Option<i32>,
    verbose: Option<i32>,
    buildPostRva: string,
    sendPostRva: string,
    globalBaseRva: string)

  /** A profile integer, or the default when the key is missing. */
  function IntOr(v: Option<i32>, def: i32): (r: i32)
    ensures v.Some? ==> r == v.value
    ensures v.None? ==> r == def
  {
    match v
    case Some(x) => x
    case None => def
  }

  /** The clamp of `LoadConfig`: raise to 1, then lower to 4. */
  function ClampPlayers(n: i32): (r: i32)
    ensures 1 <= r <= 4
    ensures 1 <= n <= 4 ==> r == n
    ensures n < 1 ==> r == 1
    ensures n > 4 ==> r == 4
  {
    var raised := if n < 1 then 1 else n;
    if raised > 4 then 4 else raised
  }

  /** `LoadConfig`: every key falls back to the default, players is clamped. */
  function LoadConfig(ini: Ini): (c: Config)
    ensures 1 <= c.players <= 4
    ensures ini.players.Some? ==> c.players == ClampPlayers(ini.players.value)
    ensures ini.players.None? ==> c.players == Defaults.players
    ensures ini.questId.Some? ==> c.questId == ini.questId.value
    ensures ini.questId.None? ==> c.questId == Defaults.questId
    ensures ini.passEnabled.Some? ==> c.passEnabled == ini.passEnabled.value
    ensures ini.passEnabled.None? ==> c.passEnabled == Defaults.passEnabled
    ensures ini.passcode.Some? ==> c.passcode == ini.passcode.value
    ensures ini.passcode.None? ==> c.passcode == Defaults.passcode
    ensures ini.verbose.Some? ==> c.verbose == ini.verbose.value
    ensures ini.verbose.None? ==> c.verbose == Defaults.verbose
    ensures c.rvaBuildPost == ReadIniHex(ini.buildPostRva, Defaults.rvaBuildPost)
    ensures c.rvaSendPost == ReadIniHex(ini.sendPostRva, Defaults.rvaSendPost)
    ensures c.rvaGlobalBase == ReadIniHex(ini.globalBaseRva, Defaults.rvaGlobalBase)
    ensures ini.buildPostRva == "" ==> c.rvaBuildPost == Defaults.rvaBuildPost
    ensures ini.sendPostRva == "" ==> c.rvaSendPost == Defaults.rvaSendPost
    ensures ini.globalBaseRva == "" ==> c.rvaGlobalBase == Defaults.rvaGlobalBase
  {
    Config(
      IntOr(ini.questId, Defaults.questId),
      ClampPlayers(IntOr(ini.players, Defaults.players)),
      IntOr(ini.passEnabled, Defaults.passEnabled),
      IntOr(ini.passcode, Defaults.passcode),
      IntOr(ini.verbose, Defaults.verbose),
      ReadIniHex(ini.buildPostRva, Defaults.rvaBuildPost),
      ReadIniHex(ini.sendPostRva, Defaults.rvaSendPost),
      ReadIniHex(ini.globalBaseRva, Defaults.rvaGlobalBase))
  }

  lemma LoadConfigClampExamples(ini: Ini)
    ensures ini.players == Some(0) ==> LoadConfig(ini).players == 1
    ensures ini.players == Some(5) ==> LoadConfig(ini).players == 4
    ensures ini.players == Some(-7) ==> LoadConfig(ini).players == 1
  {
  }

  // ---- ReadIniHex: "%x", then "0x%x", else the default ----

  predicate IsSpace(c: char)
  {
    c == ' ' || c == '\t' || c == '\n' || c == '\r' || c == '\U{0B}' || c == '\U{0C}'
  }

  predicate IsHexDigit(c: char)
  {
    ('0' <= c <= '9') || ('a' <= c <= 'f') || ('A' <= c <= 'F')
  }

  function HexDigitValue(c: char): (d: nat)
    requires IsHexDigit(c)
    ensures d < 16
  {
    if '0' <= c <= '9' then c as int - '0' as int
    else if 'a' <= c <= 'f' then c as int - 'a' as int + 10
    else c as int - 'A' as int + 10
  }

  function SkipSpace(s: string): (r: string)
    ensures |r| <= |s| && r == s[|s| - |r|..]
    ensures r == [] || !IsSpace(r[0])
  {
    if s != [] && IsSpace(s[0]) then SkipSpace(s[1..]) else s
  }

  /** The longest prefix of hexadecimal digits. */
  function HexRun(s: string): (r: string)
    ensures |r| <= |s| && r == s[..|r|]
    ensures forall i :: 0 <= i < |r| ==> IsHexDigit(r[i])
    ensures |r| < |s| ==> !IsHexDigit(s[|r|])
  {
    if s != [] && IsHexDigit(s[0]) then [s[0]] + HexRun(s[1..]) else []
  }

  /** The value of a string of hexadecimal digits, most significant first. */
  function HexValue(ds: string): (v: nat)
    requires forall i :: 0 <= i < |ds| ==> IsHexDigit(ds[i])
  {
    if ds == [] then 0 else HexValue(ds[..|ds| - 1]) * 16 + HexDigitValue(ds[|ds| - 1])
  }

  /** `sscanf(s, "%x", &v) == 1`: optional white space, an optional sign and
      an optional "0x"/"0X" prefix (taken only when a hex digit follows it),
      then at least one hex digit; the value is reduced to 32 bits and negated
      modulo 2^32 after a minus sign. */
  function ScanHex(s: string): (r: Option<u32>)
    ensures r.Some? <==> var u := Unsigned(SkipSpace(s)); u != [] && IsHexDigit(u[0])
  {
    var t := SkipSpace(s);
    var ds := HexRun(Unprefixed(Unsigned(t)));
    if ds == [] then None
    else
      var v := U32(HexValue(ds));
      Some(if t != [] && t[0] == '-' then U32(-(v as int)) else v)
  }

  function Unsigned(t: string): (u: string)
  {
    if t != [] && (t[0] == '-' || t[0] == '+') then t[1..] else t
  }

  function Unprefixed(u: string): (w: string)
  {
    if |u| >= 3 && u[0] == '0' && (u[1] == 'x' || u[1] == 'X') && IsHexDigit(u[2]) then u[2..] else u
  }

  /** `sscanf(s, "0x%x", &v) == 1`: the literal "0x", then "%x" on the rest. */
  function ScanLiteralHex(s: string): (r: Option<u32>)
    ensures r.Some? ==> |s| >= 2 && s[0] == '0' && s[1] == 'x'
  {
    if |s| >= 2 && s[0] == '0' && s[1] == 'x' then ScanHex(s[2..]) else None
  }

  /** `ReadIniHex`: the profile string is read into a 64-byte buffer (at most
      63 characters); an empty one gives the default. */
  function ReadIniHex(text: string, defVal: u32): (v: u32)
    ensures text == [] ==> v == defVal
    ensures ScanHex(text).Some? && |text| <= 63 ==> v == ScanHex(text).value
    ensures ScanHex(text).None? && |text| <= 63 ==> v == defVal
    ensures |text| > 63 && ScanHex(text[..63]).Some? ==> v == ScanHex(text[..63]).value
    ensures |text| > 63 && ScanHex(text[..63]).None? ==> v == defVal
  {
    var tmp := if |text| <= 63 then text else text[..63];
    if tmp == [] then defVal
    else match ScanHex(tmp)
      case Some(x) => x
      case None =>
        LiteralHexFallbackIsDead(tmp);
        match ScanLiteralHex(tmp)
        case Some(x) => x
        case None => defVal
  }

  /** Under the `%x` modelled here the second `sscanf` of `ReadIniHex` never
      succeeds where the first failed: any text starting with "0x" starts with
      a hex digit, and "0x" with no hex digit after it reads as 0. */
  lemma {:induction false} LiteralHexFallbackIsDead(s: string)
    ensures ScanHex(s).None? ==> ScanLiteralHex(s).None?
  {
    if |s| >= 2 && s[0] == '0' && s[1] == 'x' {
      assert SkipSpace(s) == s;
      assert Unsigned(s) == s;
      var w := Unprefixed(s);
      assert IsHexDigit(w[0]);
      assert HexRun(w) != [];
    }
  }

  /** Upper-case hexadecimal digits of n without leading zeros ("%X"). */
  function HexText(n: nat): (r: string)
    ensures 1 <= |r|
    ensures forall i :: 0 <= i < |r| ==> IsHexDigit(r[i])
    ensures IsHexDigit(r[0])
  {
    if n < 16 then [HexChar(n)] else HexText(n / 16) + [HexChar(n % 16)]
  }

  function HexChar(d: nat): (c: char)
    requires d < 16
    ensures IsHexDigit(c) && HexDigitValue(c) == d && c != 'x' && c != 'X'
  {
    if d < 10 then ('0' as int + d) as char else ('A' as int + d - 10) as char
  }

  lemma {:induction false} HexTextValue(n: nat)
    ensures HexValue(HexText(n)) == n
  {
    if n >= 16 {
      HexTextValue(n / 16);
      var t := HexText(n);
      assert t[..|t| - 1] == HexText(n / 16);
    }
  }

  lemma {:induction false} HexTextLength(n: nat, k: nat)
    requires 1 <= k && n < Pow16(k)
    ensures |HexText(n)| <= k
  {
    if n >= 16 {
      assert k != 1;
      assert n / 16 < Pow16(k - 1);
      HexTextLength(n / 16, k - 1);
    }
  }

  function Pow16(k: nat): (r: nat)
  {
    if k == 0 then 1 else 16 * Pow16(k - 1)
  }

  lemma HexRunAll(s: string)
    requires forall i :: 0 <= i < |s| ==> IsHexDigit(s[i])
    ensures HexRun(s) == s
  {
  }

  /** Text that starts with a hex digit has no white space to skip, */
  lemma NoSpaceToSkip(t: string)
    requires 1 <= |t| && IsHexDigit(t[0])
    ensures SkipSpace(t) == t
  {
  }

  /** no sign, */
  lemma NoSignToSkip(t: string)
    requires 1 <= |t| && IsHexDigit(t[0])
    ensures Unsigned(t) == t
  {
  }

  /** and, when its second character is a hex digit too, no "0x" prefix. */
  lemma NoPrefixToSkip(t: string)
    requires 1 <= |t| && (|t| >= 2 ==> IsHexDigit(t[1]))
    ensures Unprefixed(t) == t
  {
  }

  /** A bare run of hex digits scans as its value. */
  lemma ScanHexOfDigits(t: string)
    requires 1 <= |t| && forall i :: 0 <= i < |t| ==> IsHexDigit(t[i])
    ensures ScanHex(t) == Some(U32(HexValue(t)))
  {
    NoSpaceToSkip(t);
    NoSignToSkip(t);
    NoPrefixToSkip(t);
    HexRunAll(t);
    assert t[0] != '-';
  }

  /** "0x" followed by a run of hex digits scans as the digits' value. */
  lemma ScanHexOfPrefixedDigits(t: string)
    requires 1 <= |t| && forall i :: 0 <= i < |t| ==> IsHexDigit(t[i])
    ensures ScanHex("0x" + t) == Some(U32(HexValue(t)))
  {
    var p := "0x" + t;
    PrefixToSkip(p, t);
    HexRunAll(t);
  }

  lemma PrefixToSkip(p: string, t: string)
    requires 1 <= |t| && IsHexDigit(t[0]) && p == "0x" + t
    ensures SkipSpace(p) == p && Unsigned(p) == p && Unprefixed(p) == t
  {
    assert p[0] == '0' && p[1] == 'x' && p[2] == t[0] && p[2..] == t;
  }

  /** A value written into the INI as "%X" or "0x%X" (the form the
      configuration log line prints) is read back unchanged. */
  lemma ReadIniHexRoundTrip(v: u32, defVal: u32)
    ensures ReadIniHex(HexText(v), defVal) == v
    ensures ReadIniHex("0x" + HexText(v), defVal) == v
  {
    assert Pow16(8) == 0x1_0000_0000;
    HexTextLength(v, 8);
    HexTextValue(v);
    ScanHexOfDigits(HexText(v));
    ScanHexOfPrefixedDigits(HexText(v));
  }

  // ---- DllDir ----

  predicate IsSeparator(c: char)
  {
    c == '\\' || c == '/'
  }

  /** `find_last_of("\\/")`: the index of the last separator, -1 for npos. */
  function LastSeparator(s: string): (k: int)
    ensures -1 <= k < |s|
    ensures k >= 0 ==> IsSeparator(s[k])
    ensures forall i :: k < i < |s| ==> !IsSeparator(s[i])
  {
    if s == [] then -1
    else if IsSeparator(s[|s| - 1]) then |s| - 1
    else LastSeparator(s[..|s| - 1])
  }

  /** `DllDir`: the module path cut at its last separator, unchanged when it
      has none. */
  function DllDir(path: string): (dir: string)
    ensures dir <= path
    ensures |dir| < |path| <==> exists i :: 0 <= i < |path| && IsSeparator(path[i])
    ensures |dir| < |path| ==> IsSeparator(path[|dir|])
    ensures forall i :: |dir| < i < |path| ==> !IsSeparator(path[i])
  {
    var k := LastSeparator(path);
    if k >= 0 then path[..k] else path
  }
}
