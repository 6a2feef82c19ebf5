/** The mid-function hook at image offset 0x1AFBA2C: the expected 15-byte
    signature, the trampoline stub and the 15-byte redirect patch as byte
    layouts, and the hook record `gMid` with `InstallMidHook` and
    `RemoveMidHook`. The stub's instructions are modelled only as bytes. */
module MidHook {
  import opened Words
  import opened VirtualMemory

  const HookRva: nat := 0x1AFBA2C
  const HookTarget: u64 := ImageBase + HookRva
  const HookLen: nat := 15
  const StubCapacity: nat := 256
  const StubLen: nat := 56

  /** The instructions the patch overwrites, as the known game build has them. */
  const Signature: seq<byte> := [
    0x48, 0x89, 0xAC, 0xC7, 0x48, 0x40, 0x00, 0x00,
    0x49, 0x8D, 0x81, 0x05, 0x04, 0x00, 0x00]

  /** The stub's first 12 bytes, up to the callback immediate. */
  const StubPrologue: seq<byte> := [
    0x49, 0x89, 0xC2,              // mov r10, rax
    0x48, 0x83, 0xEC, 0x28,        // sub rsp, 0x28
    0x48, 0x89, 0xE9,              // mov rcx, rbp
    0x48, 0xB8]                    // mov rax, imm64 (the callback)

  /** The 26 bytes between the two immediates. */
  const StubMiddle: seq<byte> := [
    0xFF, 0xD0,                    // call rax
    0x48, 0x83, 0xC4, 0x28,        // add rsp, 0x28
    0x4C, 0x89, 0xD0]              // mov rax, r10
    + Signature                    // the original instructions
    + [0x48, 0xB8]                 // mov rax, imm64 (the resume address)

  const StubEpilogue: seq<byte> := [0xFF, 0xE0]   // jmp rax

  /** The stub: save rax in r10, reserve shadow space, pass rbp in rcx, call
      the callback through rax, undo both, run the excised signature bytes,
      jump back to `resume` through rax. */
  function StubImage(callback: u64, resume: u64): (stub: seq<byte>)
    ensures |stub| == StubLen
  {
    StubPrologue + LE64(callback) + StubMiddle + LE64(resume) + StubEpilogue
  }

  /** The patch: mov rax, stub; jmp rax; three nops. */
  function RedirectPatch(stub: u64): (patch: seq<byte>)
    ensures |patch| == HookLen
  {
    [0x48, 0xB8] + LE64(stub) + [0xFF, 0xE0, 0x90, 0x90, 0x90]
  }

  /** Where the stub keeps what it needs: it fits its 256-byte buffer, the
      callback and the resume address decode from their immediates, the
      signature sits there verbatim, and it ends in `jmp rax`. */
  lemma StubLayout(callback: u64, resume: u64)
    ensures |StubImage(callback, resume)| == StubLen <= StubCapacity
    ensures StubImage(callback, resume)[10..12] == [0x48, 0xB8]
    ensures FromLE(StubImage(callback, resume)[12..20]) == callback
    ensures StubImage(callback, resume)[29..44] == Signature
    ensures StubImage(callback, resume)[44..46] == [0x48, 0xB8]
    ensures FromLE(StubImage(callback, resume)[46..54]) == resume
    ensures StubImage(callback, resume)[54..56] == [0xFF, 0xE0]
  {
    var s := StubImage(callback, resume);
    assert s[..12] == StubPrologue;
    assert s[10..12] == StubPrologue[10..12];
    assert s[12..20] == LE64(callback);
    assert s[20..46] == StubMiddle;
    assert s[29..44] == StubMiddle[9..24];
    assert s[44..46] == StubMiddle[24..26];
    assert s[46..54] == LE64(resume);
    assert s[54..56] == StubEpilogue;
  }

  /** The patch is exactly the signature's length and jumps to the stub. */
  lemma PatchLayout(stub: u64)
    ensures |RedirectPatch(stub)| == HookLen == |Signature|
    ensures RedirectPatch(stub)[..2] == [0x48, 0xB8]
    ensures FromLE(RedirectPatch(stub)[2..10]) == stub
    ensures RedirectPatch(stub)[10..] == [0xFF, 0xE0, 0x90, 0x90, 0x90]
  {
    assert RedirectPatch(stub)[2..10] == LE64(stub);
  }

  /** `*p++ = b` for each byte of chunk (or `memcpy(p, ...); p += n`). */
  method Emit(buf: array<byte>, p: nat, chunk: seq<byte>) returns (q: nat)
    requires p + |chunk| <= buf.Length
    modifies buf
    ensures q == p + |chunk|
    ensures buf[..q] == old(buf[..p]) + chunk
    ensures forall i :: q <= i < buf.Length ==> buf[i] == old(buf[i])
  {
    q := p;
    while q < p + |chunk|
      invariant p <= q <= p + |chunk|
      invariant buf[..q] == old(buf[..p]) + chunk[..q - p]
      invariant forall i :: q <= i < buf.Length ==> buf[i] == old(buf[i])
    {
      buf[q] := chunk[q - p];
      assert chunk[..q + 1 - p] == chunk[..q - p] + [chunk[q - p]];
      q := q + 1;
    }
    assert chunk[..q - p] == chunk;
  }

  /** Fill a fresh stub buffer, instruction by instruction. */
  method EmitStub(buf: array<byte>, callback: u64, resume: u64)
    requires buf.Length == StubCapacity
    modifies buf
    ensures buf[..StubLen] == StubImage(callback, resume)
    ensures forall i :: StubLen <= i < buf.Length ==> buf[i] == old(buf[i])
  {
    var p := 0;
    assert buf[..0] == [];
    p := Emit(buf, p, StubPrologue);
    ghost var s := StubPrologue;
    p := Emit(buf, p, LE64(callback));
    s := s + LE64(callback);
    assert buf[..p] == s;
    p := Emit(buf, p, StubMiddle);
    s := s + StubMiddle;
    assert buf[..p] == s;
    p := Emit(buf, p, LE64(resume));
    s := s + LE64(resume);
    assert buf[..p] == s;
    p := Emit(buf, p, StubEpilogue);
    s := s + StubEpilogue;
    assert buf[..p] == s;
  }

  /** `uint8_t patch[15]`, filled in place. */
  method BuildPatch(stub: u64) returns (patch: array<byte>)
    ensures fresh(patch) && patch[..] == RedirectPatch(stub)
  {
    patch := new byte[HookLen];
    patch[0], patch[1] := 0x48, 0xB8;
    assert patch[..2] == [0x48, 0xB8];
    var _ := Emit(patch, 2, LE64(stub));
    ghost var head := patch[..10];
    assert head == [0x48, 0xB8] + LE64(stub);
    patch[10], patch[11] := 0xFF, 0xE0;
    patch[12], patch[13], patch[14] := 0x90, 0x90, 0x90;
    assert patch[..10] == head;
    assert patch[..] == head + [0xFF, 0xE0, 0x90, 0x90, 0x90];
  }

  /** `gMid`: where the hook is, what it overwrote, the stub, installed. */
  class MidHook {
    var target: u64
    var original: seq<byte>
    var stub: array?<byte>
    var stubAddr: u64
    var installed: bool

    ghost predicate Valid()
      reads this
    {
      && |original| == HookLen
      && (installed ==> target == HookTarget && original == Signature
                        && stub != null && stub.Length == StubCapacity && stubAddr != 0)
    }

    constructor ()
      ensures Valid() && !installed && stub == null
      ensures target == 0 && original == Zeros15() && stubAddr == 0
    {
      target := 0;
      original := Zeros15();
      stub := null;
      stubAddr := 0;
      installed := false;
    }

    /** `InstallMidHook`. `callback` is the address of the capture callback,
        `alloc` what `VirtualAlloc` returns (0 on failure), `protectOk`
        whether `VirtualProtect` grants write access. The target region must
        be committed: it lies inside the loaded game image. */
    method Install(proc: Process, callback: u64, alloc: u64, protectOk: bool) returns (ok: bool)
      requires Valid()
      requires Mapped(proc.mem, HookTarget, HookLen)
      modifies this, proc`mem
      ensures Valid()
      // already installed: success, nothing touched
      ensures old(installed) ==> ok && proc.mem == old(proc.mem)
      ensures old(installed) ==> unchanged(this)
      // otherwise the snapshot is taken first, whatever follows
      ensures !old(installed) ==> target == HookTarget && Load(old(proc.mem), HookTarget, HookLen) == Some(original)
      ensures !old(installed) ==> (ok <==> original == Signature && alloc != 0 && protectOk)
      ensures installed == (old(installed) || ok)
      // the target is patched on success and untouched on every failure
      ensures !old(installed) ==>
        proc.mem == if ok then Overwrite(old(proc.mem), HookTarget, RedirectPatch(alloc)) else old(proc.mem)
      // the stub is allocated only after the signature matched
      ensures !old(installed) && original != Signature ==> stub == old(stub) && stubAddr == old(stubAddr)
      ensures !old(installed) && original == Signature ==> stubAddr == alloc && (stub == null <==> alloc == 0)
      ensures !old(installed) && original == Signature && alloc != 0 ==>
        fresh(stub) && stub.Length == StubCapacity && stub[..StubLen] == StubImage(callback, HookTarget + HookLen)
    {
      if installed {
        return true;
      }
      target := HookTarget;
      original := Load(proc.mem, target, HookLen).value;
      if original != Signature {
        return false;
      }
      stubAddr := alloc;
      if alloc == 0 {
        stub := null;
        return false;
      }
      var buf := new byte[StubCapacity];
      stub := buf;
      EmitStub(buf, callback, target + HookLen);
      var patch := BuildPatch(alloc);
      ok := proc.WriteMem(target, patch[..], protectOk);
      if !ok {
        return false;
      }
      installed := true;
    }

    /** `RemoveMidHook`: write the snapshot back (its result is ignored) and
        mark the hook removed. */
    method Remove(proc: Process, protectOk: bool)
      requires Valid()
      modifies this`installed, proc`mem
      ensures Valid() && !installed
      ensures !old(installed) ==> proc.mem == old(proc.mem)
      ensures old(installed) ==>
        proc.mem == if protectOk && Mapped(old(proc.mem), target, HookLen)
                    then Overwrite(old(proc.mem), target, original) else old(proc.mem)
    {
      if !installed {
        return;
      }
      var _ := proc.WriteMem(target, original, protectOk);
      installed := false;
    }
  }

  function Zeros15(): (z: seq<byte>)
    ensures |z| == HookLen
  {
    [0, 0, 0, 0, 0, 0, 0, 0, 0, 0, 0, 0, 0, 0, 0]
  }

  /** Install followed by Remove: Install writes the redirect patch over
      bytes it found equal to the signature and snapshots them; Remove writes
      that snapshot back. When both writes go through, the whole memory, the
      hooked bytes included, is what it was before Install. */
  lemma PatchThenRestore(m: Memory, stub: u64)
    requires Load(m, HookTarget, HookLen) == Some(Signature)
    ensures Mapped(Overwrite(m, HookTarget, RedirectPatch(stub)), HookTarget, HookLen)
    ensures Overwrite(Overwrite(m, HookTarget, RedirectPatch(stub)), HookTarget, Signature) == m
  {
    PatchLayout(stub);
    OverwriteRestores(m, HookTarget, RedirectPatch(stub), Signature);
  }

  /** The hook's lifecycle through the class: an install over the expected
      bytes followed by a removal, with every protection change granted,
      gives back every byte that was committed before the install, the 15
      target bytes included, whether or not the allocation succeeded. */
  method InstallThenRemove(hook: MidHook, proc: Process, callback: u64, alloc: u64)
    requires hook.Valid() && !hook.installed
    requires Load(proc.mem, HookTarget, HookLen) == Some(Signature)
    modifies hook, proc`mem
    ensures hook.Valid() && !hook.installed
    ensures proc.mem == old(proc.mem)
  {
    var _ := hook.Install(proc, callback, alloc, true);
    PatchThenRestore(old(proc.mem), alloc);
    hook.Remove(proc, true);
  }
}
