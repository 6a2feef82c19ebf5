/** The host process's own address space as seen by the plugin: a partial map
    from address to byte (an address outside the map is not committed, and
    touching it is an access violation), the canonical user-pointer check,
    the image base, and the protected write `WriteMem`. */
module VirtualMemory {
  import opened Words

  type Memory = map<nat, byte>

  /** `ExeBase()`: the load address of the game executable, fixed in this model. */
  const ImageBase: u64 := 0x1_4000_0000

  /** `IsCanonicalUserPtr`: rejects the null page region and kernel or
      non-canonical addresses; exactly the user half of the address space
      above the first 64 KiB is accepted. */
  function IsCanonicalUserPtr(p: u64): (ok: bool)
    ensures ok <==> 0x10000 <= p <= 0x0000_7FFF_FFFF_FFFF
  {
    if p < 0x10000 then false
    else if p > 0x0000_7FFF_FFFF_FFFF then false
    else true
  }

  /** Every byte of [a, a + n) is committed. */
  predicate Mapped(m: Memory, a: nat, n: nat)
  {
    forall i :: a <= i < a + n ==> i in m
  }

  /** Read n bytes at a; None when some byte is not committed. */
  function Load(m: Memory, a: nat, n: nat): (r: Option<seq<byte>>)
    ensures r.Some? <==> Mapped(m, a, n)
    ensures r.Some? ==> |r.value| == n && forall i :: 0 <= i < n ==> r.value[i] == m[a + i]
  {
    if Mapped(m, a, n) then Some(seq(n, i requires 0 <= i < n => m[a + i])) else None
  }

  /** Read a pointer (8 bytes, little-endian) at a. */
  function LoadPtr(m: Memory, a: nat): (r: Option<u64>)
    ensures r.Some? <==> Mapped(m, a, 8)
    ensures r.Some? ==> Load(m, a, 8) == Some(LE64(r.value))
  {
    match Load(m, a, 8)
    case None => None
    case Some(bs) =>
      Pow256Widths();
      LEOfFromLE(bs);
      Some(FromLE(bs))
  }

  /** m with the bytes of s placed at a, a + 1, ... */
  function Overwrite(m: Memory, a: nat, s: seq<byte>): (r: Memory)
    ensures forall i :: i in r <==> i in m || a <= i < a + |s|
    ensures forall i :: a <= i < a + |s| ==> r[i] == s[i - a]
    ensures forall i :: i in m && !(a <= i < a + |s|) ==> r[i] == m[i]
    decreases |s|
  {
    if s == [] then m else Overwrite(m[a := s[0]], a + 1, s[1..])
  }

  /** A plain store through a pointer: all bytes, or an access violation. */
  function Store(m: Memory, a: nat, s: seq<byte>): (r: Option<Memory>)
    ensures r.Some? <==> Mapped(m, a, |s|)
    ensures r.Some? ==> r.value.Keys == m.Keys && Load(r.value, a, |s|) == Some(s)
    ensures r.Some? ==> r.value == Overwrite(m, a, s)
  {
    if Mapped(m, a, |s|) then
      var m' := Overwrite(m, a, s);
      assert m'.Keys == m.Keys;
      LoadOverwrite(m, a, s);
      Some(m')
    else None
  }

  /** Two byte ranges that share no address. */
  predicate Disjoint(a: nat, n: nat, b: nat, k: nat)
  {
    a + n <= b || b + k <= a
  }

  lemma LoadOverwrite(m: Memory, a: nat, s: seq<byte>)
    ensures Load(Overwrite(m, a, s), a, |s|) == Some(s)
  {
    var r := Load(Overwrite(m, a, s), a, |s|);
    assert r.Some?;
    assert r.value == s;
  }

  lemma LoadOverwriteDisjoint(m: Memory, a: nat, s: seq<byte>, b: nat, k: nat)
    requires Disjoint(a, |s|, b, k)
    ensures Load(Overwrite(m, a, s), b, k) == Load(m, b, k)
  {
    var m' := Overwrite(m, a, s);
    assert Mapped(m', b, k) <==> Mapped(m, b, k);
    if Mapped(m, b, k) {
      assert Load(m', b, k).value == Load(m, b, k).value;
    }
  }

  /** Writing back the bytes a region held before it was overwritten gives
      back exactly the memory it was: the basis of the hook's exact restore. */
  lemma {:induction false} OverwriteRestores(m: Memory, a: nat, patch: seq<byte>, original: seq<byte>)
    requires |patch| == |original|
    requires Load(m, a, |original|) == Some(original)
    ensures Overwrite(Overwrite(m, a, patch), a, original) == m
  {
    var r := Overwrite(Overwrite(m, a, patch), a, original);
    assert r.Keys == m.Keys;
    forall i | i in m ensures r[i] == m[i] {
      if a <= i < a + |original| {
        assert r[i] == original[i - a];
        assert Load(m, a, |original|).value[i - a] == m[a + (i - a)];
      }
    }
  }

  /** A call into one of the game's own routines, recorded instead of executed. */
  datatype NativeCall = Build(entry: nat, sess: u64) | Send(entry: nat, sess: u64)

  /** The host process: its committed memory and the native calls made into it. */
  class Process {
    var mem: Memory
    var trace: seq<NativeCall>

    constructor (mem: Memory)
      ensures this.mem == mem && trace == []
    {
      this.mem := mem;
      trace := [];
    }

    /** `WriteMem`: elevate protection of [dst, dst + |src|) (which fails when
        the environment refuses it or some page is not committed), copy every
        byte, restore protection. Either all bytes are copied or nothing changes. */
    method WriteMem(dst: nat, src: seq<byte>, protectOk: bool) returns (ok: bool)
      modifies this`mem
      ensures ok == (protectOk && Mapped(old(mem), dst, |src|))
      ensures mem == if ok then Overwrite(old(mem), dst, src) else old(mem)
    {
      if !protectOk || !Mapped(mem, dst, |src|) {
        return false;
      }
      var i := 0;
      while i < |src|
        invariant 0 <= i <= |src|
        invariant mem == Overwrite(old(mem), dst, src[..i])
      {
        OverwriteExtend(old(mem), dst, src, i);
        mem := mem[dst + i := src[i]];
        i := i + 1;
      }
      assert src[..|src|] == src;
      return true;
    }

    /** `*reinterpret_cast<T*>(a) = v`: an access violation when unmapped. */
    method StoreBytes(a: nat, s: seq<byte>) returns (ok: bool)
      modifies this`mem
      ensures ok == Store(old(mem), a, s).Some?
      ensures mem == if ok then Store(old(mem), a, s).value else old(mem)
    {
      ok := Mapped(mem, a, |s|);
      if ok {
        mem := Overwrite(mem, a, s);
      }
    }

    /** Call a native routine of the game (its effects are not modelled). */
    method Invoke(call: NativeCall)
      modifies this`trace
      ensures trace == old(trace) + [call]
    {
      trace := trace + [call];
    }
  }

  lemma OverwriteExtend(m: Memory, a: nat, s: seq<byte>, i: nat)
    requires i < |s|
    ensures Overwrite(m, a, s[..i + 1]) == Overwrite(m, a, s[..i])[a + i := s[i]]
  {
    var l := Overwrite(m, a, s[..i + 1]);
    var r := Overwrite(m, a, s[..i])[a + i := s[i]];
    assert l.Keys == r.Keys;
    forall j | j in l ensures l[j] == r[j] {
      if a <= j < a + i {
        assert s[..i + 1][j - a] == s[..i][j - a];
      }
    }
  }
}
