/**
  The aligned write engine of the Alif MRAM flash map: reads, writes and erases of a flash area
  at a region-relative offset, turned into 16-byte block writes on the MRAM.

  The memory is the byte-addressed view the CPU has of the address space the MRAM is mapped in:
  `mem[a]` is the byte at absolute address `a`. The only way the engine changes it is
  `MramWrite128`, which writes one aligned 16-byte block and appends it to the ghost `log`.
 */
module MramDevice {
  import opened FlashMapBackend
  import opened FlashMapMram

  /** One physical write: a 16-byte block at an absolute address. */
  datatype BlockWrite = BlockWrite(addr: nat, data: seq<uint8>)

  /** `s` with the bytes `d` put in place starting at index `at`; every other byte kept. */
  function Overwrite(s: seq<uint8>, at: nat, d: seq<uint8>): (r: seq<uint8>)
    requires at + |d| <= |s|
    ensures |r| == |s|
  {
    seq(|s|, i requires 0 <= i < |s| => if at <= i < at + |d| then d[i - at] else s[i])
  }

  /** Byte by byte: inside the range the new bytes, outside it the old ones. */
  lemma OverwriteAt(s: seq<uint8>, at: nat, d: seq<uint8>)
    requires at + |d| <= |s|
    ensures forall i :: 0 <= i < |s| ==>
      Overwrite(s, at, d)[i] == if at <= i < at + |d| then d[i - at] else s[i]
  {
  }

  /** `n` bytes of the erased value. */
  function Erased(n: nat): (r: seq<uint8>)
    ensures |r| == n && forall i :: 0 <= i < n ==> r[i] == MRAM_ERASE_VALUE
  {
    seq(n, _ => MRAM_ERASE_VALUE)
  }

  /** `fa->fa_off + off` computed in `uint32_t`, so wrapping modulo 2^32. */
  function Addr(fa: FlashArea, off: uint32): (r: uint32)
    ensures fa.faOff + off < UINT32_LIMIT ==> r == fa.faOff + off
    ensures fa.faOff + off >= UINT32_LIMIT ==> r == fa.faOff + off - UINT32_LIMIT
  {
    (fa.faOff + off) % 0x1_0000_0000
  }

  /**
    The number of block writes `flash_area_write` issues for `len` bytes at `addr`: one per block
    overlapping `[addr, addr + len)`, and, for an empty write at an unaligned address, one
    rewrite of the block holding `addr`.
   */
  function WriteBlockCount(addr: nat, len: nat): nat {
    (AlignUp(addr + len) - AlignDown(addr)) / 16
  }

  /**
    20 bytes at block offset 3 touch two blocks: the leading read-modify-write takes
    min(16 - 3, 20) = 13 bytes and leaves the address on the next boundary; the 7 bytes left are
    fewer than 16, so the whole-block loop does not run; the trailing read-modify-write patches
    those 7 bytes at the start of the second block.
   */
  lemma TwentyBytesAtOffsetThree(base: nat)
    requires base % 16 == 0
    ensures var offset := (base + 3) - AlignDown(base + 3);
      var lead := if 16 - offset > 20 then 20 else 16 - offset;
      offset == 3 && lead == 13 && (base + 3 + lead) % 16 == 0 &&
      (20 - lead) / 16 == 0 && 20 - lead == 7
    ensures WriteBlockCount(base + 3, 20) == 2
    ensures AlignDown(base + 3) == base && AlignUp(base + 23) == base + 32
  {
    assert (base + 3) % 16 == 3 && (base + 23) % 16 == 7;
  }

  // ---------------------------------------------------------------- lemmas on Overwrite

  /** Reading back the overwritten range yields exactly the bytes put there. */
  lemma OverwriteReadBack(s: seq<uint8>, at: nat, d: seq<uint8>)
    requires at + |d| <= |s|
    ensures Overwrite(s, at, d)[at..at + |d|] == d
  {
    var r := Overwrite(s, at, d);
    OverwriteAt(s, at, d);
    forall i | 0 <= i < |d| ensures r[at..at + |d|][i] == d[i] {
      assert r[at..at + |d|][i] == r[at + i];
    }
  }

  /** Two adjacent overwrites are one overwrite of the concatenation. */
  lemma OverwriteAdjacent(s: seq<uint8>, at: nat, d1: seq<uint8>, d2: seq<uint8>)
    requires at + |d1| + |d2| <= |s|
    ensures Overwrite(Overwrite(s, at, d1), at + |d1|, d2) == Overwrite(s, at, d1 + d2)
  {
    var lhs := Overwrite(Overwrite(s, at, d1), at + |d1|, d2);
    var rhs := Overwrite(s, at, d1 + d2);
    OverwriteAt(s, at, d1);
    OverwriteAt(Overwrite(s, at, d1), at + |d1|, d2);
    OverwriteAt(s, at, d1 + d2);
    forall i | 0 <= i < |s| ensures lhs[i] == rhs[i] {
      if at + |d1| <= i < at + |d1| + |d2| {
        assert (d1 + d2)[i - at] == d2[i - at - |d1|];
      } else if at <= i < at + |d1| {
        assert (d1 + d2)[i - at] == d1[i - at];
      }
    }
  }

  /**
    Read-modify-write of one block: writing back the block at `p` after patching `d` into it at
    in-block offset `at - p` changes the memory exactly as putting `d` at `at` does.
   */
  lemma ReadModifyWrite(s: seq<uint8>, p: nat, at: nat, d: seq<uint8>)
    requires p + 16 <= |s| && p <= at && at + |d| <= p + 16
    ensures Overwrite(s, p, Overwrite(s[p..p + 16], at - p, d)) == Overwrite(s, at, d)
  {
    var block := Overwrite(s[p..p + 16], at - p, d);
    var lhs := Overwrite(s, p, block);
    var rhs := Overwrite(s, at, d);
    OverwriteAt(s[p..p + 16], at - p, d);
    OverwriteAt(s, p, block);
    OverwriteAt(s, at, d);
    forall i | 0 <= i < |s| ensures lhs[i] == rhs[i] {
      if p <= i < p + 16 {
        assert lhs[i] == block[i - p];
        assert s[p..p + 16][i - p] == s[i];
      }
    }
  }

  /** Overwriting the same bytes twice is the same as once; in particular erasing twice is erasing once. */
  lemma OverwriteIdempotent(s: seq<uint8>, at: nat, d: seq<uint8>)
    requires at + |d| <= |s|
    ensures Overwrite(Overwrite(s, at, d), at, d) == Overwrite(s, at, d)
  {
    var once := Overwrite(s, at, d);
    var twice := Overwrite(once, at, d);
    OverwriteAt(s, at, d);
    OverwriteAt(once, at, d);
    forall i | 0 <= i < |s| ensures twice[i] == once[i] {
    }
  }

  /** For a block-aligned area, the absolute address erase checks is aligned exactly when the area offset is. */
  lemma EraseAlignmentRelative(fa: FlashArea, off: uint32)
    requires fa.faOff % 16 == 0 && fa.faOff + off < UINT32_LIMIT
    ensures Addr(fa, off) % 16 == 0 <==> off % 16 == 0
  {
  }

  /** The block count of a write: the blocks overlapping its range, at least one when the start is unaligned. */
  lemma WriteBlockCountBounds(addr: nat, len: nat)
    ensures len == 0 && addr % 16 == 0 ==> WriteBlockCount(addr, len) == 0
    ensures (len > 0 || addr % 16 != 0) ==> WriteBlockCount(addr, len) >= 1
    ensures WriteBlockCount(addr, len) * 16 <= len + 30
    ensures addr % 16 == 0 && len % 16 == 0 ==> WriteBlockCount(addr, len) == len / 16
  {
    var d, u := AlignDown(addr), AlignUp(addr + len);
    assert d <= addr && addr + len <= u < addr + len + 16;
    assert u - d == 16 * WriteBlockCount(addr, len);
    if addr % 16 == 0 && len % 16 == 0 {
      assert (addr + len) % 16 == 0;
    }
  }

  /**
    The leading fragment of an unaligned write, `min(16 - addr % 16, len)` bytes, stays inside
    the first block; after it either the address is on a block boundary or nothing is left, and
    the first block boundary at or above the new address is the end of that first block.
   */
  lemma LeadingFragment(addr: nat, len: nat)
    requires addr % 16 != 0
    ensures var n := if 16 - addr % 16 > len then len else 16 - addr % 16;
      n <= len && addr % 16 + n <= 16 && AlignDown(addr) + addr % 16 == addr &&
      ((addr + n) % 16 == 0 || n == len) && AlignUp(addr + n) == AlignDown(addr) + 16
  {
    var n := if 16 - addr % 16 > len then len else 16 - addr % 16;
    var p := addr - addr % 16;
    assert p % 16 == 0;
    assert p < addr + n <= p + 16;
    if addr + n < p + 16 {
      assert (addr + n) % 16 == addr + n - p;
    } else {
      assert (addr + n) % 16 == 0;
    }
  }

  /** A whole-block step from a block boundary lands on the next block boundary. */
  lemma AlignedStep(addr: nat, len: nat)
    requires addr % 16 == 0 && len <= 16
    ensures AlignUp(addr) == addr
    ensures len == 16 ==> (addr + len) % 16 == 0 && AlignUp(addr + len) == addr + 16
    ensures 0 < len ==> AlignUp(addr + len) == addr + 16
  {
    if 0 < len < 16 {
      assert (addr + len) % 16 == len;
    }
  }

  lemma SplitAt(s: seq<uint8>, n: nat)
    requires n <= |s|
    ensures s[..n] + s[n..] == s && s[..|s|] == s
  {
  }

  /** Putting the next `m` bytes of `src` right after the first `n` extends the overwritten prefix. */
  lemma AppendChunk(mem: seq<uint8>, start: nat, src: seq<uint8>, n: nat, m: nat)
    requires n + m <= |src| && start + |src| <= |mem|
    ensures Overwrite(Overwrite(mem, start, src[..n]), start + n, src[n..n + m]) == Overwrite(mem, start, src[..n + m])
  {
    OverwriteAdjacent(mem, start, src[..n], src[n..n + m]);
    assert src[..n] + src[n..n + m] == src[..n + m];
  }

  /** Putting the first `n` bytes of `src`, then the rest right after them, puts all of `src`. */
  lemma AppendRest(mem: seq<uint8>, start: nat, src: seq<uint8>, n: nat)
    requires n <= |src| && start + |src| <= |mem|
    ensures Overwrite(Overwrite(mem, start, src[..n]), start + n, src[n..]) == Overwrite(mem, start, src)
  {
    OverwriteAdjacent(mem, start, src[..n], src[n..]);
    assert src[..n] + src[n..] == src;
  }

  lemma OverwriteNothing(s: seq<uint8>, at: nat)
    requires at <= |s|
    ensures Overwrite(s, at, []) == s
  {
  }

  /** A memory of whole blocks that holds a byte range holds every block the range touches. */
  lemma AlignUpWithin(x: nat, size: nat)
    requires size % 16 == 0 && x <= size
    ensures AlignUp(x) <= size
  {
  }

  /**
    The block count of a write splits at the end of its leading fragment: the `k` blocks already
    written up to the boundary at or above `addr`, then one block per started 16 bytes of the
    remaining `len`.
   */
  lemma BlockCountAfterLead(start: nat, n: nat, k: nat, addr: nat, len: nat)
    requires start + n == addr + len && (addr % 16 == 0 || len == 0)
    requires AlignDown(start) + 16 * k == AlignUp(addr)
    ensures WriteBlockCount(start, n) == k + (len + 15) / 16
  {
    var c := (len + 15) / 16;
    if len != 0 {
      AlignedCeil(addr, len);
    }
    assert AlignUp(start + n) - AlignDown(start) == 16 * (k + c);
  }

  /** From a block boundary, `len` bytes end at the boundary `ceil(len / 16)` blocks on. */
  lemma AlignedCeil(addr: nat, len: nat)
    requires addr % 16 == 0
    ensures AlignUp(addr + len) == addr + 16 * ((len + 15) / 16)
  {
    var q, r := len / 16, len % 16;
    assert len == 16 * q + r;
    assert (addr + len) % 16 == r;
    if r == 0 {
      assert (len + 15) / 16 == q;
    } else {
      assert (len + 15) / 16 == q + 1;
      assert AlignDown(addr + len) == addr + 16 * q;
    }
  }

  /** `log` is `l0` followed by `k` writes of 16 bytes each, to consecutive blocks from `first` on. */
  ghost predicate WroteBlocks(log: seq<BlockWrite>, l0: seq<BlockWrite>, first: nat, k: nat) {
    |log| == |l0| + k && log[..|l0|] == l0 &&
    forall j :: |l0| <= j < |log| ==> log[j].addr == first + 16 * (j - |l0|) && |log[j].data| == 16
  }

  lemma WroteNextBlock(log: seq<BlockWrite>, l0: seq<BlockWrite>, first: nat, k: nat, w: BlockWrite)
    requires WroteBlocks(log, l0, first, k)
    requires w.addr == first + 16 * k && |w.data| == 16
    ensures WroteBlocks(log + [w], l0, first, k + 1)
  {
    assert (log + [w])[..|l0|] == log[..|l0|];
  }

  /** `k` blocks from `first` on, then `m` more from where they stopped, are `k + m` blocks from `first` on. */
  lemma WroteBlocksAppend(log: seq<BlockWrite>, l1: seq<BlockWrite>, l0: seq<BlockWrite>,
                          first: nat, k: nat, next: nat, m: nat)
    requires WroteBlocks(l1, l0, first, k) && WroteBlocks(log, l1, next, m)
    requires m > 0 ==> next == first + 16 * k
    ensures WroteBlocks(log, l0, first, k + m)
  {
    assert log[..|l0|] == log[..|l1|][..|l0|];
    forall j | |l1| <= j < |log|
      ensures log[j].addr == first + 16 * (j - |l0|)
    {
    }
    forall j | |l0| <= j < |l1|
      ensures log[j] == l1[j]
    {
      assert log[..|l1|][j] == log[j];
    }
  }

  // ---------------------------------------------------------------- the device

  class Mram {
    /** The bytes of the address space, indexed by absolute address. */
    const mem: array<uint8>
    /** Every block write issued so far, in order. */
    ghost var log: seq<BlockWrite>

    /** The memory is a whole number of blocks and lies inside the 32-bit address space. */
    ghost predicate Valid()
      reads this
    {
      mem.Length % 16 == 0 && mem.Length <= UINT32_LIMIT
    }

    constructor (size: nat)
      requires size % 16 == 0 && size <= UINT32_LIMIT
      ensures Valid() && fresh(mem) && mem.Length == size && log == []
    {
      mem := new uint8[size];
      log := [];
    }

    /**
      `mram_write_128bit`: copies the 16 source bytes to the block at `dst`. Whether the source
      is 8-byte aligned only decides whether the copy goes through a local buffer; the
      effect is the same.
     */
    method MramWrite128(dst: nat, src: seq<uint8>)
      requires Valid() && |src| == 16 && dst % 16 == 0 && dst + 16 <= mem.Length
      modifies this, mem
      ensures Valid()
      ensures mem[..] == Overwrite(old(mem[..]), dst, src)
      ensures log == old(log) + [BlockWrite(dst, src)]
    {
      forall i | 0 <= i < 16 {
        mem[dst + i] := src[i];
      }
      log := log + [BlockWrite(dst, src)];
      OverwriteAt(old(mem[..]), dst, src);
      assert forall i :: 0 <= i < mem.Length ==> mem[..][i] == Overwrite(old(mem[..]), dst, src)[i];
    }

    /**
      The read-modify-write both ends of `flash_area_write` do: read the block at `ptr` into a
      buffer (the two 64-bit loads), copy `chunk` into it at `offset`, write the buffer back.
     */
    method PatchBlock(ptr: nat, offset: nat, chunk: seq<uint8>)
      requires Valid() && ptr % 16 == 0 && ptr + 16 <= mem.Length && offset + |chunk| <= 16
      modifies this, mem
      ensures Valid()
      ensures mem[..] == Overwrite(old(mem[..]), ptr + offset, chunk)
      ensures log == old(log) + [BlockWrite(ptr, Overwrite(old(mem[ptr..ptr + 16]), offset, chunk))]
    {
      var tempBuf := mem[ptr..ptr + 16];
      tempBuf := Overwrite(tempBuf, offset, chunk);
      MramWrite128(ptr, tempBuf);
      ReadModifyWrite(old(mem[..]), ptr, ptr + offset, chunk);
    }

    /** `flash_area_read`: copies `len` bytes from `fa_off + off`; no alignment is needed. */
    method Read(fa: FlashArea, off: uint32, len: uint32) returns (rc: int, dst: seq<uint8>)
      requires Valid() && Addr(fa, off) + len <= mem.Length
      ensures rc == 0
      ensures |dst| == len && forall i :: 0 <= i < len ==> dst[i] == mem[Addr(fa, off) + i]
    {
      var addr := Addr(fa, off);
      dst := mem[addr..addr + len];
      rc := 0;
    }

    /**
      `flash_area_write`: a leading read-modify-write when the start is unaligned, then whole
      blocks straight from `src`, then a trailing read-modify-write of a partial block. The
      memory afterwards holds `src` at `fa_off + off` and is unchanged elsewhere, and the
      device saw one aligned 16-byte write per block touched, in ascending order.
     */
    method Write(fa: FlashArea, off: uint32, src: seq<uint8>) returns (rc: int)
      requires Valid() && |src| < UINT32_LIMIT && Addr(fa, off) + |src| <= mem.Length
      modifies this, mem
      ensures Valid()
      ensures rc == 0
      ensures mem[..] == Overwrite(old(mem[..]), Addr(fa, off), src)
      ensures |log| == |old(log)| + WriteBlockCount(Addr(fa, off), |src|)
      ensures log[..|old(log)|] == old(log)
      ensures forall j :: |old(log)| <= j < |log| ==>
        log[j].addr == AlignDown(Addr(fa, off)) + 16 * (j - |old(log)|) && |log[j].data| == Align(fa)
    {
      var addr := Addr(fa, off);
      ghost var m0, l0 := mem[..], log;
      var data := WriteLeading(addr, src);  // how far the C pointer `data` has advanced
      ghost var l1 := log;
      ghost var k := if addr % 16 == 0 then 0 else 1;
      WriteFromBoundary(addr + data, src[data..]);
      AppendRest(m0, addr, src, data);
      WroteBlocksAppend(log, l1, l0, AlignDown(addr), k, addr + data, (|src| - data + 15) / 16);
      BlockCountAfterLead(addr, |src|, k, addr + data, |src| - data);
      rc := 0;
    }

    /**
      The first step of `flash_area_write`: when `addr` is not on a block boundary, the first
      `min(16 - addr % 16, len)` bytes of `src` are patched into their block by read-modify-write.
      Returns how far `data` advanced: afterwards the address is on a boundary or nothing is left.
     */
    method WriteLeading(addr: nat, src: seq<uint8>) returns (data: nat)
      requires Valid() && addr + |src| <= mem.Length
      modifies this, mem
      ensures Valid()
      ensures data <= |src| && ((addr + data) % 16 == 0 || data == |src|)
      ensures mem[..] == Overwrite(old(mem[..]), addr, src[..data])
      ensures var k := if addr % 16 == 0 then 0 else 1;
        WroteBlocks(log, old(log), AlignDown(addr), k) && AlignDown(addr) + 16 * k == AlignUp(addr + data)
    {
      data := 0;
      if addr % 16 != 0 {
        var ptr := AlignDown(addr);
        var offset := addr - ptr;
        var unalignedBytes := 16 - offset;
        LeadingFragment(addr, |src|);
        AlignUpWithin(addr, mem.Length);
        if unalignedBytes > |src| {
          unalignedBytes := |src|;
        }
        ghost var l0 := log;
        PatchBlock(ptr, offset, src[..unalignedBytes]);
        WroteNextBlock(l0, l0, ptr, 0, log[|l0|]);
        data := unalignedBytes;
      } else {
        OverwriteNothing(mem[..], addr);
      }
    }

    /**
      The rest of `flash_area_write` once `addr` is on a block boundary (or nothing is left): the
      whole 16-byte blocks straight from `src`, then the read-modify-write of the trailing
      partial block. `src` is what the advanced C pointer `data` points at.
     */
    method WriteFromBoundary(addr0: nat, src: seq<uint8>)
      requires Valid() && (addr0 % 16 == 0 || |src| == 0) && addr0 + |src| <= mem.Length
      modifies this, mem
      ensures Valid()
      ensures mem[..] == Overwrite(old(mem[..]), addr0, src)
      ensures WroteBlocks(log, old(log), addr0, (|src| + 15) / 16)
    {
      ghost var m0, l0 := mem[..], log;
      var data := WriteWholeBlocks(addr0, src);
      var len := |src| - data;
      var addr := addr0 + data;
      if len != 0 {
        // partial last block: patch its first len bytes
        AlignedStep(addr, len);
        AlignUpWithin(addr + len, mem.Length);
        ghost var l1 := log;
        PatchBlock(addr, 0, src[data..data + len]);
        WroteNextBlock(l1, l0, addr0, data / 16, log[|l1|]);
        AppendChunk(m0, addr0, src, data, len);
      }
      SplitAt(src, |src|);
    }

    /**
      The loop of `flash_area_write`: while at least 16 bytes are left, one block goes straight
      from `src` to the aligned `addr0 + data`. Returns how far `data` advanced: every whole
      block of `src`, leaving fewer than 16 bytes.
     */
    method WriteWholeBlocks(addr0: nat, src: seq<uint8>) returns (data: nat)
      requires Valid() && (addr0 % 16 == 0 || |src| < 16) && addr0 + |src| <= mem.Length
      modifies this, mem
      ensures Valid()
      ensures data <= |src| < data + 16 && data % 16 == 0
      ensures mem[..] == Overwrite(old(mem[..]), addr0, src[..data])
      ensures WroteBlocks(log, old(log), addr0, data / 16)
    {
      var addr, len := addr0, |src|;
      data := 0;
      ghost var m0, l0 := mem[..], log;
      ghost var k := 0;  // blocks written so far
      OverwriteNothing(m0, addr0);

      while len / 16 != 0
        invariant 0 <= len && data + len == |src| && addr == addr0 + data && data == 16 * k
        invariant |m0| == mem.Length && addr0 + |src| <= mem.Length
        invariant addr % 16 == 0 || len < 16
        invariant mem[..] == Overwrite(m0, addr0, src[..data])
        invariant WroteBlocks(log, l0, addr0, k)
        decreases len
      {
        ghost var l1 := log;
        MramWrite128(addr, src[data..data + 16]);
        WroteNextBlock(l1, l0, addr0, k, log[|l1|]);
        AppendChunk(m0, addr0, src, data, 16);
        len := len - 16;
        data := data + 16;
        addr := addr + 16;
        k := k + 1;
      }
    }

    /**
      `flash_area_erase`: refuses with -1, writing nothing, unless both the absolute address
      `fa_off + off` and `len` are multiples of 16; otherwise writes one all-zero block per 16
      bytes, in ascending order, so that every byte of the range reads as the erased value.
     */
    method Erase(fa: FlashArea, off: uint32, len: uint32) returns (rc: int)
      requires Valid()
      requires Addr(fa, off) % 16 == 0 && len % 16 == 0 ==> Addr(fa, off) + len <= mem.Length
      modifies this, mem
      ensures Valid()
      ensures Addr(fa, off) % 16 != 0 || len % 16 != 0 ==>
        rc == -1 && mem[..] == old(mem[..]) && log == old(log)
      ensures Addr(fa, off) % 16 == 0 && len % 16 == 0 ==>
        rc == 0 && mem[..] == Overwrite(old(mem[..]), Addr(fa, off), Erased(len)) &&
        |log| == |old(log)| + len / 16 && log[..|old(log)|] == old(log) &&
        forall j :: |old(log)| <= j < |log| ==>
          log[j] == BlockWrite(Addr(fa, off) + 16 * (j - |old(log)|), Erased(16))
    {
      var addr := Addr(fa, off);
      var src := Erased(16);  // memset(src, MRAM_ERASE_VALUE, 16)
      if addr % 16 != 0 || len % 16 != 0 {
        return -1;
      }
      ghost var m0, l0 := mem[..], log;
      var i := 0;
      while i < len
        invariant i % 16 == 0 && i <= len
        invariant mem[..] == Overwrite(m0, addr, Erased(i))
        invariant |log| == |l0| + i / 16 && log[..|l0|] == l0
        invariant forall j :: |l0| <= j < |log| ==> log[j] == BlockWrite(addr + 16 * (j - |l0|), Erased(16))
      {
        MramWrite128(addr + i, src);
        OverwriteAdjacent(m0, addr, Erased(i), src);
        assert Erased(i) + src == Erased(i + 16);
        i := i + MRAM_WRITE_SIZE;
      }
      assert Overwrite(m0, addr, Erased(0)) == m0;
      return 0;
    }

    /**
      A write followed by a read of the same range returns the written bytes, and the bytes
      outside the range keep their earlier values.
     */
    method WriteThenRead(fa: FlashArea, off: uint32, src: seq<uint8>) returns (back: seq<uint8>)
      requires Valid() && |src| < UINT32_LIMIT && Addr(fa, off) + |src| <= mem.Length
      modifies this, mem
      ensures back == src
      ensures forall i :: 0 <= i < mem.Length && !(Addr(fa, off) <= i < Addr(fa, off) + |src|) ==>
        mem[i] == old(mem[i])
    {
      var rc := Write(fa, off, src);
      rc, back := Read(fa, off, |src|);
      assert mem[..][Addr(fa, off)..Addr(fa, off) + |src|] == back;
      OverwriteReadBack(old(mem[..]), Addr(fa, off), src);
    }
  }
}
