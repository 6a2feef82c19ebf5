# QuestPostBeta, modelled in Dafny

QuestPostBeta is a plugin for the x64 build of Monster Hunter: World. It
patches a 15-byte mid-function hook at `MHW.exe+0x1AFBA2C`. Each time the
game runs that code, the trampoline hands the `QuestSession*` held in `rbp`
to `OnCaptureGameThread`. Pressing F10 on an input thread only *arms* a
request. The next live capture on the game thread takes the request and
posts a quest: the executor checks its preconditions, writes quest id,
player count and password into the session, and calls the game's own
`Build` and `Send` routines.

The model covers these pieces:

- **Words**: fixed-width integers (`u32`, `u64`, `i32`), 32- and 64-bit
  wrap-around, and little-endian encoding with both round trips.
- **VirtualMemory**: the process memory as a map from address to byte, where
  a missing key is an uncommitted page. It also holds `IsCanonicalUserPtr`,
  loads and stores that fail on uncommitted memory, and the `Process` class
  whose `WriteMem` copies all bytes or changes nothing. Calls into the game
  are recorded as `Build`/`Send` events in a trace.
- **Configuration**: the `Config` defaults, `LoadConfig` with the
  player-count clamp, `ReadIniHex` with the two `sscanf` attempts, and
  `DllDir`.
- **Passcode**: the 32-byte password field: `snprintf("%d")` into a zeroed
  buffer, `strncpy(..., 31)`, then the terminator. `atoi` reads it back.
- **ArmFire**: the pair of shared globals (`gQuestSession`, `gPendingPost`)
  as a state machine over traces of arm and capture events, with its trace
  properties.
- **QuestPost**: the executor (`TryPostNowOnGameThread`, `WriteQuestFields`)
  as the pure function `Post`. The `QuestPost` class holds the two globals,
  and its methods `Arm`, `Capture`, `TryPostNow` and `WriteQuestFields` are
  proved against `Step` and `Post`. `QuestPostReplay.Replay` runs a whole
  event trace through the class.
- **MidHook**: the expected signature, the 56-byte trampoline stub and the
  15-byte redirect patch as byte layouts. Both are filled in place the way
  the plugin does it. The `gMid` record is a class whose `Install` and
  `Remove` methods model `InstallMidHook` and `RemoveMidHook`.

All paths below are relative to the plugin's source tree.

## Model

| member | source | states |
|---|---|---|
| VirtualMemory.IsCanonicalUserPtr | QuestPostBeta_fixed.cpp:75-79 | the two early returns accept a pointer exactly when 0x10000 <= p <= 0x00007FFFFFFFFFFF |
| VirtualMemory.Load | QuestPostBeta_fixed.cpp:112 | a read succeeds exactly when every byte is committed, and then returns those bytes |
| VirtualMemory.LoadPtr | QuestPostBeta_fixed.cpp:112 | an 8-byte pointer read succeeds exactly when its bytes are committed; its value is their little-endian decoding |
| VirtualMemory.Store | QuestPostBeta_fixed.cpp:110 | a store succeeds exactly when its target is committed; its memory is `Overwrite` of the old one (so every address outside the stored range keeps its byte), it keeps the set of committed addresses, and the stored bytes read back |
| VirtualMemory.Overwrite | QuestPostBeta_fixed.cpp:176 | memcpy's effect: the copied range holds the source bytes, and every other address keeps its byte |
| VirtualMemory.LoadOverwrite | QuestPostBeta_fixed.cpp:176 | bytes just written read back |
| VirtualMemory.LoadOverwriteDisjoint | QuestPostBeta_fixed.cpp:110-126 | a write does not disturb a read of a range it does not overlap |
| VirtualMemory.OverwriteRestores | QuestPostBeta_fixed.cpp:273 | writing back the bytes a range held before a patch gives back exactly the original memory |
| VirtualMemory.Process.WriteMem | QuestPostBeta_fixed.cpp:173-181 | succeeds exactly when protection is granted and the range is committed; then all bytes are copied, otherwise memory is unchanged |
| VirtualMemory.Process.StoreBytes | QuestPostBeta_fixed.cpp:117 | a store through a raw pointer: the new memory is that of `Store` when the target is committed, and nothing changes otherwise |
| VirtualMemory.Process.Invoke | QuestPostBeta_fixed.cpp:159-160 | the call is appended to the trace, and nothing else changes |
| Words.AddPtr | QuestPostBeta_fixed.cpp:110 | pointer plus offset: exact when it fits in 64 bits, wrapped modulo 2^64 otherwise |
| Words.FromLEOfLE | QuestPostBeta_fixed.cpp:224-226 | decoding the little-endian bytes of a value that fits gives the value back |
| Words.LEOfFromLE | QuestPostBeta_fixed.cpp:112 | encoding the value of n bytes gives the same n bytes back |
| Words.LE64 | QuestPostBeta_fixed.cpp:254-255 | a 64-bit value encodes to 8 bytes that decode back to it |
| Words.U32 | QuestPostBeta_fixed.cpp:110 | the cast to uint32_t: the value modulo 2^32 |
| Configuration.ClampPlayers | QuestPostBeta_fixed.cpp:93-94 | the result is in 1..4; values below 1 become 1, values above 4 become 4, values in range are kept |
| Configuration.IntOr | QuestPostBeta_fixed.cpp:83-87 | a key that is present gives its value, a missing key gives the default passed in |
| Configuration.LoadConfig | QuestPostBeta_fixed.cpp:81-98 | players always ends in 1..4 and is the clamp of a present value; players is 1 when missing; QuestId, PassEnabled, Passcode and Verbose take their INI value when present and their default (0, 0, 0, 1) when missing; each address is `ReadIniHex` of its text with its default (0x1146BA0, 0, 0), so empty text keeps the default |
| Configuration.LoadConfigClampExamples | QuestPostBeta_fixed.cpp:93-94 | an INI value of 0 or -7 gives 1 player, and 5 gives 4 |
| Configuration.ScanHex | QuestPostBeta_fixed.cpp:70 | `%x` matches exactly when, after white space and an optional sign, the text starts with a hex digit |
| Configuration.ScanHexOfDigits | QuestPostBeta_fixed.cpp:70 | a run of hex digits scans as its value modulo 2^32 |
| Configuration.ScanHexOfPrefixedDigits | QuestPostBeta_fixed.cpp:70 | "0x" followed by a run of hex digits scans as the digits' value modulo 2^32 |
| Configuration.ScanLiteralHex | QuestPostBeta_fixed.cpp:71 | `0x%x` matches only text that starts with the literal "0x" (and, by `LiteralHexFallbackIsDead`, under the modelled `%x` only where `%x` already matched) |
| Configuration.ReadIniHex | QuestPostBeta_fixed.cpp:65-73 | only the first 63 characters are read; empty text gives the default; when those characters scan as hex the result is their scanned value, and otherwise the default |
| Configuration.LiteralHexFallbackIsDead | QuestPostBeta_fixed.cpp:70-71 | under the modelled `%x`, the `0x%x` attempt never succeeds where `%x` failed |
| Configuration.ReadIniHexRoundTrip | QuestPostBeta_fixed.cpp:65-73 | a 32-bit value written as `%X` or `0x%X` reads back unchanged |
| Configuration.DllDir | QuestPostBeta_fixed.cpp:53-60 | the result is a prefix of the path; it is shorter exactly when the path has a separator; it ends just before the last separator |
| Configuration.LastSeparator | QuestPostBeta_fixed.cpp:57 | `find_last_of`: the index of a separator with none after it, or -1 when there is none |
| Passcode.FormatDecimal | QuestPostBeta_fixed.cpp:121 | the `%d` text is non-empty, starts with a minus exactly for negative values, and is decimal digits after that |
| Passcode.PassText | QuestPostBeta_fixed.cpp:120-124 | the text is 1..11 NUL-free bytes, and "0" when passwords are off (its value is fixed by `PassFieldRoundTrip`) |
| Passcode.Digits | QuestPostBeta_fixed.cpp:121 | the `%d` digits are non-empty and all decimal |
| Passcode.FormatDecimalBounds | QuestPostBeta_fixed.cpp:121 | the text of any 32-bit int is 1..11 bytes with no NUL |
| Passcode.Snprintf | QuestPostBeta_fixed.cpp:119-123 | the buffer keeps its size; short text is followed by NULs |
| Passcode.Strncpy | QuestPostBeta_fixed.cpp:125 | exactly n bytes are written |
| Passcode.StrncpyText | QuestPostBeta_fixed.cpp:125 | copying NUL-free text followed by NULs writes the text and pads with NULs |
| Passcode.PassField | QuestPostBeta_fixed.cpp:119-126 | the field is 32 bytes and byte 31 is NUL |
| Passcode.PassFieldLayout | QuestPostBeta_fixed.cpp:119-126 | the field is the whole text (the passcode's decimal, or "0" when passwords are off) followed by NULs: nothing is truncated |
| Passcode.PassFieldRoundTrip | QuestPostBeta_fixed.cpp:119-126 | `atoi` on the field gives the passcode when passwords are on and 0 otherwise, for every 32-bit value |
| ArmFire.Step | QuestPostBeta_fixed.cpp:183-194 | after one event the flag is set exactly when the event is an arm, or the flag was set and the event is not a live capture; the session becomes p exactly on a live capture |
| ArmFire.StepProperties | QuestPostBeta_fixed.cpp:183-194 | arm sets pending and is idempotent; a non-canonical capture changes nothing and fires nothing; a canonical capture stores p, clears pending and fires exactly when pending was set |
| ArmFire.PendingIffOutstanding | QuestPostBeta_fixed.cpp:186-192 | after any trace, the flag is set exactly when some arm has not yet been followed by a live capture (or the flag was set at the start and no live capture came) |
| ArmFire.FiresAtIff | QuestPostBeta_fixed.cpp:191-192 | event i posts exactly when it is a live capture and a request is outstanding just before it |
| ArmFire.AtMostOnePostPerArm | QuestPostBeta_fixed.cpp:282 | posts plus the request still pending never exceed the arms plus the request pending at the start |
| ArmFire.PostsBoundedByArms | QuestPostBeta_fixed.cpp:282 | from the initial state, a trace never posts more often than it arms |
| ArmFire.ArmThenCaptures | QuestPostBeta_fixed.cpp:186-192 | an arm followed by captures posts once if one of them is live, and otherwise stays pending |
| QuestPost.QuestFields | QuestPostBeta_fixed.cpp:109-128 | no write commits new memory; a committed quest-id field and a null selector pointer give `NullSelector`, and then only the quest id has been stored; on success the password field reads back |
| QuestPost.QuestIdMissesSelectorPtr | QuestPostBeta_fixed.cpp:101-102 | the quest-id field never overlaps the selector pointer, wrap-around included |
| QuestPost.Post | QuestPostBeta_fixed.cpp:130-163 | the first failing check gives its own outcome with memory and trace untouched, in the order pointer, quest id, addresses, gate; with the checks passed, gate 0, the quest-id field committed and a null selector pointer the outcome is `SelectorNull`, which leaves only the quest-id write; a post appends exactly Build(sess) then Send(sess); every other outcome calls nothing |
| QuestPost.CanonicalOffsets | QuestPostBeta_fixed.cpp:101-103 | for a canonical session, the field addresses do not wrap around |
| QuestPost.QuestFieldsWritten | QuestPostBeta_fixed.cpp:109-128 | all three field writes go through exactly when their targets are committed and the selector pointer is non-null |
| QuestPost.QuestFieldsStores | QuestPostBeta_fixed.cpp:110-126 | in that case the field writes are exactly three stores in order: quest id, selector, password |
| QuestPost.ThreeWrites | QuestPostBeta_fixed.cpp:110-126 | the last of three writes reads back, and an earlier one does too when no later write overlaps it |
| QuestPost.QuestFieldsReadBack | QuestPostBeta_fixed.cpp:117-126 | after the writes, the password field, the selector value (when the password write misses it) and the quest id (when the selector write misses it) read back |
| QuestPost.PostSucceeds | QuestPostBeta_fixed.cpp:130-160 | a post happens exactly when the checks pass, the gate is 0 and memory allows the writes; then the fields read back their values |
| QuestPost.ExampleBytes | QuestPostBeta_fixed.cpp:110-126 | quest 7, 3 players, passwords off encode as 07 00 00 00, 02 00 00 00 and "0" followed by 31 NULs |
| QuestPost.PostExample | QuestPostBeta_fixed.cpp:130-163 | in that configuration, with gate 0, a post writes those bytes and calls Build then Send once |
| QuestPost.QuestPost.constructor | QuestPostBeta_fixed.cpp:23-24 | both globals start zeroed |
| QuestPost.QuestPost.Arm | QuestPostBeta_fixed.cpp:282 | the new state is one arm step of the state machine |
| QuestPost.QuestPost.WriteQuestFields | QuestPostBeta_fixed.cpp:109-128 | status and new memory are exactly `QuestFields` of the old memory |
| QuestPost.QuestPost.TryPostNow | QuestPostBeta_fixed.cpp:130-163 | outcome, new memory and appended calls are exactly those of `Post` |
| QuestPost.QuestPost.Capture | QuestPostBeta_fixed.cpp:183-194 | the state takes one capture step; memory and trace change by one `Post` with p exactly when the capture fires, and not at all otherwise |
| QuestPostReplay.Replay | QuestPostBeta_fixed.cpp:278-288 | after replaying a trace the state is `Run` of it; the game sees at most one Build/Send pair per post, so from the initial state at most one per arm |
| MidHook.StubImage | QuestPostBeta_fixed.cpp:215-249 | the stub is 56 bytes; where each part sits is stated by `StubLayout` |
| MidHook.RedirectPatch | QuestPostBeta_fixed.cpp:251-259 | the patch is exactly the 15 bytes it replaces; its contents are stated by `PatchLayout` |
| MidHook.StubLayout | QuestPostBeta_fixed.cpp:215-249 | the stub has 56 bytes (at most 256): the callback at bytes 12..19, the signature at 29..43, target+15 at 46..53, `FF E0` at 54..55 |
| MidHook.PatchLayout | QuestPostBeta_fixed.cpp:251-259 | the patch has the signature's 15 bytes: `48 B8`, the stub address little-endian, then `FF E0 90 90 90` |
| MidHook.Emit | QuestPostBeta_fixed.cpp:218-246 | `*p++` over a chunk: the buffer holds the old prefix followed by the chunk, and every byte after it is untouched |
| MidHook.EmitStub | QuestPostBeta_fixed.cpp:215-249 | the stub buffer's first 56 bytes are the stub image, and the rest of the buffer is untouched |
| MidHook.BuildPatch | QuestPostBeta_fixed.cpp:251-259 | the fresh 15-byte patch array holds exactly the redirect patch |
| MidHook.MidHook.constructor | QuestPostBeta_fixed.cpp:166-171 | the hook record starts empty and not installed |
| MidHook.MidHook.Install | QuestPostBeta_fixed.cpp:196-269 | when installed, succeeds with nothing touched; otherwise snapshots the target first; succeeds exactly when the snapshot matches the signature, the allocation succeeds and WriteMem succeeds; the target is patched on success and untouched on every failure; the stub is allocated only after a match and then holds the stub image |
| MidHook.MidHook.Remove | QuestPostBeta_fixed.cpp:271-276 | a no-op when not installed; otherwise writes the snapshot back (all or nothing) and clears installed whatever the write returns |
| MidHook.PatchThenRestore | QuestPostBeta_fixed.cpp:196-276 | patching bytes equal to the signature and writing the signature back restores the whole memory: an install followed by a removal whose writes both go through leaves memory as it was |
| MidHook.InstallThenRemove | QuestPostBeta_fixed.cpp:196-276 | through the class: an install over the expected bytes followed by a removal, with protection granted, gives back every byte committed before the install, the 15 target bytes included, and leaves the hook not installed, whether or not the allocation succeeded |

## Left out

- The Win32 calls are reduced to values. `VirtualProtect` is a success
  flag that also fails on uncommitted pages. `VirtualAlloc` is the address
  it returns, with 0 meaning failure. `GetModuleHandleA(nullptr)` is the
  fixed image base 0x140000000. `GetModuleFileNameA` is the path given to
  `DllDir`. `FlushInstructionCache` and the protection restore are not
  modelled.
- What the trampoline does when it runs is not modelled (registers, stack
  alignment, the `rbp` argument). Only its bytes are.
- Threads and memory ordering are not modelled: `CreateThread`, the
  `acq_rel`/`release` atomics, and the `GetAsyncKeyState`/`Sleep` polling
  loop. Arm and capture are interleaved one event at a time.
- `Log`, the log file and the verbose "session changed" message are file
  output and are not modelled.
- `GetPrivateProfileIntA` and `GetPrivateProfileStringA` are reduced to their
  results: an optional integer, or the key's text, where "" means missing.
- Configuration.ScanHex: models `%x` for plain inputs. It reduces values
  wider than 32 bits modulo 2^32 and ignores locale. A "0x" not followed by
  a hex digit reads as 0 here; ISO C's `%x` (C11 7.21.6.2) fails on it, and
  the plugin's `0x%x` fallback then reads text such as "0x 5" as 5, which
  the model does not capture.
- MidHook.MidHook.Install: the stub is the record's own 256-byte array; the
  region `VirtualAlloc` commits at `alloc` is not added to `Process.mem`, so
  the redirect's destination is not modelled memory.
- `IniPath`, `LogPath`, `plugin_init`, `plugin_fini` and `DllMain` only
  orchestrate the modelled operations, and are not modelled.
- The effects of the game's `Build` and `Send` routines are unknown. The
  model records them as trace events.
- plugin.h only declares exports, and is not part of this model.
- QuestPost.Post: an access violation (a read or write of uncommitted
  memory, which crashes the host) is an outcome of its own. The model does
  not describe the bytes already written when that happens, and no such
  fault is assumed away.
- MidHook.MidHook.Install: requires the 15 target bytes to be committed.
  The plugin reads them without checking, since they lie inside the loaded
  game image.
- MidHook.MidHook.Install: on a failed WriteMem the allocated stub stays
  allocated, as in the plugin. The model does not track it beyond the
  record's fields.

## Notes

- `ReadIniHex` tries `sscanf("%x")` and then `sscanf("0x%x")`. Under the
  `%x` modelled here the second attempt is unreachable: any text that starts
  with "0x" satisfies `%x`, which reads at least its leading "0" (see
  `LiteralHexFallbackIsDead`). Under ISO C's `%x`, a "0x" with no hex digit
  after it fails the first attempt, and the fallback can then succeed.
- The stub copies the `expected` constant rather than the snapshot. The two
  are equal whenever the stub is built, because it is built only after they
  matched.
- `OnCaptureGameThread` (QuestPostBeta_fixed.cpp:184) returns before the
  exchange when the captured pointer is not canonical, so the last-known
  session pointer is not updated for such a capture and `Step` leaves the
  state unchanged.
- `RemoveMidHook` (QuestPostBeta_fixed.cpp:271-276) restores the bytes and
  clears the flag but never frees the stub, so `Remove` changes only memory
  and `installed`.
- `InstallMidHook` copies the target's bytes into the snapshot
  (QuestPostBeta_fixed.cpp:206) before it compares them with the signature
  (line 207), so after a mismatch `Install` leaves `original` holding the
  mismatching bytes.
- `WriteQuestFields` writes the quest id (QuestPostBeta_fixed.cpp:110)
  before it tests the player-selector pointer for null (line 113), so a
  null selector leaves that one write in place; `Post` states it (outcome
  `SelectorNull`).
