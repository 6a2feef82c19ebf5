/** The quest-post executor (`WriteQuestFields`, `TryPostNowOnGameThread`)
    and the object holding the two shared globals with its entry points
    `Arm` (the hot-key store of the input thread) and `Capture`
    (`OnCaptureGameThread`). The executor is specified by the pure function
    `Post`; the methods apply it to a `Process`. */
module QuestPost {
  import opened Words
  import opened VirtualMemory
  import opened Configuration
  import opened Passcode
  import opened ArmFire

  // Session layout and the gate offset in the game's global data.
  const OffQuestId: nat := 0x292C
  const OffPlayerSelPtr: nat := 0x3588
  const OffSelector: nat := 0x240
  const OffPassStr: nat := 0x36B8
  const OffGateInExpedition: nat := 0xAE3B

  datatype Outcome =
    | InvalidSession    // the session pointer is not canonical
    | InvalidQuestId    // questId <= 0
    | MissingAddress    // one of the three RVAs is zero
    | NotInHub          // the gate byte is non-zero
    | SelectorNull      // the player-selector pointer in the session is null
    | AccessViolation   // a load or store hit memory that is not committed
    | Posted            // fields written, Build and Send called

  datatype FieldStatus = Written | NullSelector | Faulted

  datatype Fields = Fields(status: FieldStatus, mem: Memory)

  datatype Effect = Effect(outcome: Outcome, mem: Memory, calls: seq<NativeCall>)

  function QuestIdAddr(sess: u64): (a: u64) { AddPtr(sess, OffQuestId) }
  function SelectorPtrAddr(sess: u64): (a: u64) { AddPtr(sess, OffPlayerSelPtr) }
  function SelectorAddr(sel: u64): (a: u64) { AddPtr(sel, OffSelector) }
  function PassAddr(sess: u64): (a: u64) { AddPtr(sess, OffPassStr) }
  function GateAddr(cfg: Config): (a: nat) { ImageBase + cfg.rvaGlobalBase + OffGateInExpedition }
  function BuildEntry(cfg: Config): (a: nat) { ImageBase + cfg.rvaBuildPost }
  function SendEntry(cfg: Config): (a: nat) { ImageBase + cfg.rvaSendPost }

  function QuestIdBytes(cfg: Config): (b: seq<byte>) { LE32(U32(cfg.questId)) }
  function SelectorBytes(cfg: Config): (b: seq<byte>) { LE32(U32(cfg.players - 1)) }
  function PassBytes(cfg: Config): (b: seq<byte>) { PassField(cfg.passEnabled, cfg.passcode) }

  predicate AddressesConfigured(cfg: Config)
  {
    cfg.rvaBuildPost != 0 && cfg.rvaSendPost != 0 && cfg.rvaGlobalBase != 0
  }

  /** The checks of `TryPostNowOnGameThread` before the gate is read. */
  predicate Prechecks(cfg: Config, sess: u64)
  {
    IsCanonicalUserPtr(sess) && cfg.questId > 0 && AddressesConfigured(cfg)
  }

  /** The quest-id field and the selector pointer lie 0xC5C bytes apart, so
      the quest-id store never touches the pointer, wrap-around included. */
  lemma QuestIdMissesSelectorPtr(sess: u64)
    ensures Disjoint(QuestIdAddr(sess), 4, SelectorPtrAddr(sess), 8)
  {
  }

  /** `WriteQuestFields`: questId, then the selector pointer is read (stop if
      null), players - 1 through it, then the password field. */
  function QuestFields(cfg: Config, m: Memory, sess: u64): (f: Fields)
    ensures f.mem.Keys == m.Keys
    ensures f.status == NullSelector ==>
      Store(m, QuestIdAddr(sess), QuestIdBytes(cfg)) == Some(f.mem)
    ensures Mapped(m, QuestIdAddr(sess), 4) && LoadPtr(m, SelectorPtrAddr(sess)) == Some(0) ==>
      f.status == NullSelector
    ensures f.status == Written ==>
      Load(f.mem, PassAddr(sess), 32) == Some(PassBytes(cfg))
  {
    match Store(m, QuestIdAddr(sess), QuestIdBytes(cfg))
    case None => Fields(Faulted, m)
    case Some(m1) =>
      QuestIdMissesSelectorPtr(sess);
      LoadOverwriteDisjoint(m, QuestIdAddr(sess), QuestIdBytes(cfg), SelectorPtrAddr(sess), 8);
      match LoadPtr(m1, SelectorPtrAddr(sess))
      case None => Fields(Faulted, m1)
      case Some(sel) =>
        if sel == 0 then Fields(NullSelector, m1)
        else
          match Store(m1, SelectorAddr(sel), SelectorBytes(cfg))
          case None => Fields(Faulted, m1)
          case Some(m2) =>
            match Store(m2, PassAddr(sess), PassBytes(cfg))
            case None => Fields(Faulted, m2)
            case Some(m3) => Fields(Written, m3)
  }

  /** `TryPostNowOnGameThread`: the ordered checks, the field writes, then
      Build(sess) and Send(sess). */
  function Post(cfg: Config, m: Memory, sess: u64): (r: Effect)
    ensures r.mem.Keys == m.Keys
    ensures r.outcome == InvalidSession <==> !IsCanonicalUserPtr(sess)
    ensures r.outcome == InvalidQuestId <==> IsCanonicalUserPtr(sess) && cfg.questId <= 0
    ensures r.outcome == MissingAddress <==>
      IsCanonicalUserPtr(sess) && cfg.questId > 0 && !AddressesConfigured(cfg)
    ensures r.outcome == NotInHub <==>
      Prechecks(cfg, sess) && Load(m, GateAddr(cfg), 1).Some? && Load(m, GateAddr(cfg), 1).value != [0]
    ensures r.outcome in {InvalidSession, InvalidQuestId, MissingAddress, NotInHub} ==> r.mem == m && r.calls == []
    ensures r.outcome == SelectorNull ==> Store(m, QuestIdAddr(sess), QuestIdBytes(cfg)) == Some(r.mem) && r.calls == []
    ensures
      && Prechecks(cfg, sess) && Load(m, GateAddr(cfg), 1) == Some([0])
      && Mapped(m, QuestIdAddr(sess), 4) && LoadPtr(m, SelectorPtrAddr(sess)) == Some(0)
      ==> r.outcome == SelectorNull
    ensures r.outcome == Posted ==> r.calls == [Build(BuildEntry(cfg), sess), Send(SendEntry(cfg), sess)]
    ensures r.outcome != Posted ==> r.calls == []
  {
    if !IsCanonicalUserPtr(sess) then Effect(InvalidSession, m, [])
    else if cfg.questId <= 0 then Effect(InvalidQuestId, m, [])
    else if !AddressesConfigured(cfg) then Effect(MissingAddress, m, [])
    else
      match Load(m, GateAddr(cfg), 1)
      case None => Effect(AccessViolation, m, [])
      case Some(gate) =>
        if gate[0] != 0 then Effect(NotInHub, m, [])
        else
          var f := QuestFields(cfg, m, sess);
          match f.status
          case Faulted => Effect(AccessViolation, f.mem, [])
          case NullSelector => Effect(SelectorNull, f.mem, [])
          case Written => Effect(Posted, f.mem, [Build(BuildEntry(cfg), sess), Send(SendEntry(cfg), sess)])
  }

  /** What the field writes need from memory: the session fields are
      committed and the selector pointer is non-null and points at committed
      memory. */
  predicate FieldsReady(m: Memory, sess: u64)
  {
    && Mapped(m, QuestIdAddr(sess), 4)
    && Mapped(m, PassAddr(sess), 32)
    && LoadPtr(m, SelectorPtrAddr(sess)).Some?
    && LoadPtr(m, SelectorPtrAddr(sess)).value != 0
    && Mapped(m, SelectorAddr(LoadPtr(m, SelectorPtrAddr(sess)).value), 4)
  }

  /** Everything the post needs from memory: the gate byte is 0 and the
      field writes can go through. */
  predicate Postable(cfg: Config, m: Memory, sess: u64)
  {
    Load(m, GateAddr(cfg), 1) == Some([0]) && FieldsReady(m, sess)
  }

  lemma CanonicalOffsets(sess: u64)
    requires IsCanonicalUserPtr(sess)
    ensures QuestIdAddr(sess) == sess + OffQuestId
    ensures SelectorPtrAddr(sess) == sess + OffPlayerSelPtr
    ensures PassAddr(sess) == sess + OffPassStr
  {
  }

  /** The three field writes all go through exactly when memory allows it:
      the quest-id store does not disturb the selector pointer, and no store
      adds or removes committed memory. */
  lemma QuestFieldsWritten(cfg: Config, m: Memory, sess: u64)
    requires IsCanonicalUserPtr(sess)
    ensures QuestFields(cfg, m, sess).status == Written <==> FieldsReady(m, sess)
  {
    CanonicalOffsets(sess);
    var qa, pa := QuestIdAddr(sess), PassAddr(sess);
    if Mapped(m, qa, 4) {
      var m1 := Overwrite(m, qa, QuestIdBytes(cfg));
      LoadOverwriteDisjoint(m, qa, QuestIdBytes(cfg), SelectorPtrAddr(sess), 8);
      assert LoadPtr(m1, SelectorPtrAddr(sess)) == LoadPtr(m, SelectorPtrAddr(sess));
      assert Mapped(m1, pa, 32) == Mapped(m, pa, 32);
      if LoadPtr(m, SelectorPtrAddr(sess)).Some? && LoadPtr(m, SelectorPtrAddr(sess)).value != 0 {
        var sa := SelectorAddr(LoadPtr(m, SelectorPtrAddr(sess)).value);
        assert Mapped(m1, sa, 4) == Mapped(m, sa, 4);
        if Mapped(m, sa, 4) {
          var m2 := Overwrite(m1, sa, SelectorBytes(cfg));
          assert Mapped(m2, pa, 32) == Mapped(m, pa, 32);
        }
      }
    }
  }

  /** Three successive overwrites: the last always reads back; an earlier
      one reads back when the later ones miss it. */
  lemma ThreeWrites(m: Memory, qa: nat, q: seq<byte>, sa: nat, sv: seq<byte>, pa: nat, p: seq<byte>)
    requires Disjoint(qa, |q|, pa, |p|)
    ensures
      var m3 := Overwrite(Overwrite(Overwrite(m, qa, q), sa, sv), pa, p);
      && Load(m3, pa, |p|) == Some(p)
      && (Disjoint(sa, |sv|, pa, |p|) ==> Load(m3, sa, |sv|) == Some(sv))
      && (Disjoint(qa, |q|, sa, |sv|) ==> Load(m3, qa, |q|) == Some(q))
  {
    var m1 := Overwrite(m, qa, q);
    var m2 := Overwrite(m1, sa, sv);
    LoadOverwrite(m2, pa, p);
    if Disjoint(sa, |sv|, pa, |p|) {
      LoadOverwrite(m1, sa, sv);
      LoadOverwriteDisjoint(m2, pa, p, sa, |sv|);
    }
    if Disjoint(qa, |q|, sa, |sv|) {
      LoadOverwrite(m, qa, q);
      LoadOverwriteDisjoint(m1, sa, sv, qa, |q|);
      LoadOverwriteDisjoint(m2, pa, p, qa, |q|);
    }
  }

  /** When memory allows the writes, `QuestFields` is exactly the three
      stores in order, at the addresses computed from the session. */
  lemma QuestFieldsStores(cfg: Config, m: Memory, sess: u64)
    requires IsCanonicalUserPtr(sess) && FieldsReady(m, sess)
    ensures
      var sa := SelectorAddr(LoadPtr(m, SelectorPtrAddr(sess)).value);
      QuestFields(cfg, m, sess) == Fields(Written,
        Overwrite(Overwrite(Overwrite(m, QuestIdAddr(sess), QuestIdBytes(cfg)), sa, SelectorBytes(cfg)),
                  PassAddr(sess), PassBytes(cfg)))
  {
    CanonicalOffsets(sess);
    var qa, pa := QuestIdAddr(sess), PassAddr(sess);
    var sa := SelectorAddr(LoadPtr(m, SelectorPtrAddr(sess)).value);
    var m1 := Overwrite(m, qa, QuestIdBytes(cfg));
    assert Store(m, qa, QuestIdBytes(cfg)) == Some(m1);
    LoadOverwriteDisjoint(m, qa, QuestIdBytes(cfg), SelectorPtrAddr(sess), 8);
    assert LoadPtr(m1, SelectorPtrAddr(sess)) == LoadPtr(m, SelectorPtrAddr(sess));
    assert Mapped(m1, sa, 4);
    var m2 := Overwrite(m1, sa, SelectorBytes(cfg));
    assert Store(m1, sa, SelectorBytes(cfg)) == Some(m2);
    assert Mapped(m2, pa, 32);
    assert Store(m2, pa, PassBytes(cfg)) == Some(Overwrite(m2, pa, PassBytes(cfg)));
  }

  /** After the three writes every field reads back its value. The selector
      write and the password write go through pointers the code does not
      relate, so each read-back is stated for the case that no later write
      overlaps it. */
  lemma QuestFieldsReadBack(cfg: Config, m: Memory, sess: u64)
    requires IsCanonicalUserPtr(sess) && FieldsReady(m, sess)
    ensures
      var f := QuestFields(cfg, m, sess);
      var sel := LoadPtr(m, SelectorPtrAddr(sess)).value;
      && Load(f.mem, PassAddr(sess), 32) == Some(PassBytes(cfg))
      && (Disjoint(SelectorAddr(sel), 4, PassAddr(sess), 32) ==>
            Load(f.mem, SelectorAddr(sel), 4) == Some(SelectorBytes(cfg)))
      && (Disjoint(QuestIdAddr(sess), 4, SelectorAddr(sel), 4) ==>
            Load(f.mem, QuestIdAddr(sess), 4) == Some(QuestIdBytes(cfg)))
  {
    CanonicalOffsets(sess);
    QuestFieldsStores(cfg, m, sess);
    var sa := SelectorAddr(LoadPtr(m, SelectorPtrAddr(sess)).value);
    ThreeWrites(m, QuestIdAddr(sess), QuestIdBytes(cfg), sa, SelectorBytes(cfg), PassAddr(sess), PassBytes(cfg));
  }

  /** The post goes through exactly when the checks pass and memory allows
      it; then every field holds its value (for the overlapping pointers, as
      in `QuestFieldsReadBack`). */
  lemma PostSucceeds(cfg: Config, m: Memory, sess: u64)
    ensures Post(cfg, m, sess).outcome == Posted <==> Prechecks(cfg, sess) && Postable(cfg, m, sess)
    ensures Post(cfg, m, sess).outcome == Posted ==>
      var r := Post(cfg, m, sess);
      var sel := LoadPtr(m, SelectorPtrAddr(sess)).value;
      && Load(r.mem, PassAddr(sess), 32) == Some(PassBytes(cfg))
      && (Disjoint(SelectorAddr(sel), 4, PassAddr(sess), 32) ==>
            Load(r.mem, SelectorAddr(sel), 4) == Some(SelectorBytes(cfg)))
      && (Disjoint(QuestIdAddr(sess), 4, SelectorAddr(sel), 4) ==>
            Load(r.mem, QuestIdAddr(sess), 4) == Some(QuestIdBytes(cfg)))
  {
    if Prechecks(cfg, sess) {
      QuestFieldsWritten(cfg, m, sess);
      if FieldsReady(m, sess) {
        QuestFieldsReadBack(cfg, m, sess);
      }
    }
  }

  /** A worked example: quest 7, three players, password off,
      gate 0, all addresses configured: quest id 7 and selector value 2 are
      written, the password field holds "0", and Build then Send run once. */
  lemma {:induction false} PostExample(m: Memory, sess: u64, rest: Config)
    requires AddressesConfigured(rest) && IsCanonicalUserPtr(sess)
    requires Postable(rest.(questId := 7, players := 3, passEnabled := 0), m, sess)
    requires var sel := LoadPtr(m, SelectorPtrAddr(sess)).value;
      Disjoint(SelectorAddr(sel), 4, PassAddr(sess), 32) && Disjoint(QuestIdAddr(sess), 4, SelectorAddr(sel), 4)
    ensures
      var cfg := rest.(questId := 7, players := 3, passEnabled := 0);
      var r := Post(cfg, m, sess);
      var sel := LoadPtr(m, SelectorPtrAddr(sess)).value;
      && r.outcome == Posted
      && Load(r.mem, QuestIdAddr(sess), 4) == Some([7, 0, 0, 0])
      && Load(r.mem, SelectorAddr(sel), 4) == Some([2, 0, 0, 0])
      && Load(r.mem, PassAddr(sess), 32) == Some([0x30] + Zeros(31))
      && r.calls == [Build(BuildEntry(cfg), sess), Send(SendEntry(cfg), sess)]
  {
    var cfg := rest.(questId := 7, players := 3, passEnabled := 0);
    ExampleBytes(cfg);
    PostSucceeds(cfg, m, sess);
  }

  lemma ExampleBytes(cfg: Config)
    requires cfg.questId == 7 && cfg.players == 3 && cfg.passEnabled == 0
    ensures QuestIdBytes(cfg) == [7, 0, 0, 0]
    ensures SelectorBytes(cfg) == [2, 0, 0, 0]
    ensures PassBytes(cfg) == [0x30] + Zeros(31)
  {
    PassFieldLayout(cfg.passEnabled, cfg.passcode);
    assert PassText(0, cfg.passcode) == [0x30];
    assert LE(7, 4) == [7, 0, 0, 0];
    assert LE(2, 4) == [2, 0, 0, 0];
  }

  /** The process-wide state of the plugin: the configuration loaded at start
      and the two globals shared by the input thread and the game thread. */
  class QuestPost {
    const cfg: Config
    var session: u64
    var pending: bool

    constructor (cfg: Config)
      ensures this.cfg == cfg && Shared() == Initial
    {
      this.cfg := cfg;
      session := 0;
      pending := false;
    }

    function Shared(): (s: Signal)
      reads this
    {
      Signal(session, pending)
    }

    /** The input thread on a fresh F10 press: `gPendingPost.store(true)`. */
    method Arm()
      modifies this`pending
      ensures Shared() == Step(old(Shared()), Event.Arm)
    {
      pending := true;
    }

    method WriteQuestFields(proc: Process, sess: u64) returns (status: FieldStatus)
      modifies proc`mem
      ensures Fields(status, proc.mem) == QuestFields(cfg, old(proc.mem), sess)
    {
      var ok := proc.StoreBytes(QuestIdAddr(sess), QuestIdBytes(cfg));
      if !ok {
        return Faulted;
      }
      var playerSel := LoadPtr(proc.mem, SelectorPtrAddr(sess));
      if playerSel.None? {
        return Faulted;
      }
      if playerSel.value == 0 {
        return NullSelector;
      }
      ok := proc.StoreBytes(SelectorAddr(playerSel.value), SelectorBytes(cfg));
      if !ok {
        return Faulted;
      }
      ok := proc.StoreBytes(PassAddr(sess), PassBytes(cfg));
      if !ok {
        return Faulted;
      }
      return Written;
    }

    method TryPostNow(proc: Process, sess: u64) returns (outcome: Outcome)
      modifies proc
      ensures outcome == Post(cfg, old(proc.mem), sess).outcome
      ensures proc.mem == Post(cfg, old(proc.mem), sess).mem
      ensures proc.trace == old(proc.trace) + Post(cfg, old(proc.mem), sess).calls
    {
      if !IsCanonicalUserPtr(sess) {
        return InvalidSession;
      }
      if cfg.questId <= 0 {
        return InvalidQuestId;
      }
      if cfg.rvaBuildPost == 0 || cfg.rvaSendPost == 0 || cfg.rvaGlobalBase == 0 {
        return MissingAddress;
      }
      var gate := Load(proc.mem, GateAddr(cfg), 1);
      if gate.None? {
        return AccessViolation;
      }
      if gate.value[0] != 0 {
        return NotInHub;
      }
      var status := WriteQuestFields(proc, sess);
      if status == Faulted {
        return AccessViolation;
      }
      if status == NullSelector {
        return SelectorNull;
      }
      proc.Invoke(Build(BuildEntry(cfg), sess));
      proc.Invoke(Send(SendEntry(cfg), sess));
      return Posted;
    }

    /** `OnCaptureGameThread(p)`: ignore a non-canonical p; otherwise record
        it, consume the request and, if there was one, post with p now. */
    method Capture(proc: Process, p: u64)
      modifies this, proc
      ensures Shared() == Step(old(Shared()), Event.Capture(p))
      ensures proc.mem == if Fires(old(Shared()), Event.Capture(p)) then Post(cfg, old(proc.mem), p).mem else old(proc.mem)
      ensures proc.trace == old(proc.trace) + if Fires(old(Shared()), Event.Capture(p)) then Post(cfg, old(proc.mem), p).calls else []
    {
      if !IsCanonicalUserPtr(p) {
        return;
      }
      session := p;
      var wasPending := pending;
      pending := false;
      if wasPending {
        var _ := TryPostNow(proc, p);
      }
    }
  }
}

/** The two threads' calls into the shared state, replayed one event at a
    time: the state follows the trace model, and the game sees at most one
    Build/Send pair per arm. */
module QuestPostReplay {
  import opened VirtualMemory
  import opened ArmFire
  import opened QuestPost

  method Replay(q: QuestPost, proc: Process, es: seq<Event>)
    modifies q, proc
    ensures q.Shared() == Run(old(q.Shared()), es)
    ensures |proc.trace| <= |old(proc.trace)| + 2 * FireCount(old(q.Shared()), es)
    ensures old(q.Shared()) == Initial ==> |proc.trace| <= |old(proc.trace)| + 2 * ArmCount(es)
  {
    ghost var s0 := q.Shared();
    ghost var t0 := |proc.trace|;
    var i := 0;
    while i < |es|
      invariant 0 <= i <= |es|
      invariant q.Shared() == Run(s0, es[..i])
      invariant |proc.trace| <= t0 + 2 * FireCount(s0, es[..i])
    {
      assert es[..i + 1][..i] == es[..i];
      match es[i] {
        case Arm => q.Arm();
        case Capture(p) => q.Capture(proc, p);
      }
      i := i + 1;
    }
    assert es[..|es|] == es;
    PostsBoundedByArms(es);
  }
}
