/**
 Files as flat byte sequences over direct and indirect blocks: what growing a file and
 storing in one of its blocks does to the bytes of every file.
 */
module FsFiles {
  import opened Blocks
  import opened FsSpec

  function SlotFor(ino: nat, bn: nat): Slot
    requires bn < MAXFILE
  {
    if bn < NDIRECT then Direct(ino, bn) else Indirect(ino, bn - NDIRECT)
  }

  /** The disk block of the `bn`th block of a file, 0 if there is none. */
  function BlockNo(sb: Super, fs: Fs, ino: nat, bn: nat): nat
    requires Shape(sb, fs) && ino < sb.ninodes && bn < MAXFILE
  {
    SlotVal(sb, fs, SlotFor(ino, bn))
  }

  lemma BlockNoIsData(sb: Super, fs: Fs, bits: seq<bool>, owner: map<nat, Slot>, ino: nat, bn: nat)
    requires Owned(sb, fs, bits, owner, {}) && ino < sb.ninodes && bn < MAXFILE
    requires BlockNo(sb, fs, ino, bn) != 0
    ensures var a := BlockNo(sb, fs, ino, bn); sb.IsData(a) && a in owner && owner[a] == SlotFor(ino, bn)
  {
  }

  /** The blocks that a file lacks to have block `bn`. */
  ghost function Missing(sb: Super, fs: Fs, ino: nat, bn: nat): nat
    requires Shape(sb, fs) && ino < sb.ninodes && bn < MAXFILE
  {
    (if BlockNo(sb, fs, ino, bn) == 0 then 1 else 0) +
    (if bn >= NDIRECT && fs.inodes[ino].addrs[NDIRECT] == 0 then 1 else 0)
  }

  /** Every block below the size of a file is there. */
  ghost predicate NoHoles(sb: Super, fs: Fs)
    requires Shape(sb, fs)
  {
    && (forall ino :: 0 <= ino < sb.ninodes ==> fs.inodes[ino].size <= MAXFILE * BSIZE)
    && (forall ino, bn :: 0 <= ino < sb.ninodes && 0 <= bn < MAXFILE && bn * BSIZE < fs.inodes[ino].size ==>
          BlockNo(sb, fs, ino, bn) != 0)
  }

  /** Byte `k` of a file; bytes of absent blocks read as 0. */
  function FileByte(sb: Super, fs: Fs, ino: nat, k: nat): Byte
    requires Shape(sb, fs) && ino < sb.ninodes && k / BSIZE < MAXFILE
  {
    var a := BlockNo(sb, fs, ino, k / BSIZE);
    if 0 < a < sb.size then fs.data[a][k % BSIZE] else 0
  }

  /** The contents of a file as a flat sequence of bytes. */
  function Content(sb: Super, fs: Fs, ino: nat): (c: seq<Byte>)
    requires Shape(sb, fs) && ino < sb.ninodes && fs.inodes[ino].size <= MAXFILE * BSIZE
  {
    seq(fs.inodes[ino].size, k requires 0 <= k < fs.inodes[ino].size => FileByte(sb, fs, ino, k))
  }

  /** Blocks may have been added to files, all zero; sizes and all present blocks are as before. */
  ghost predicate Grown(sb: Super, fs: Fs, fs': Fs) {
    && Shape(sb, fs) && Shape(sb, fs')
    && (forall ino :: 0 <= ino < sb.ninodes ==> fs'.inodes[ino].size == fs.inodes[ino].size)
    && (forall ino, bn :: 0 <= ino < sb.ninodes && 0 <= bn < MAXFILE && BlockNo(sb, fs, ino, bn) != 0 ==>
          BlockNo(sb, fs', ino, bn) == BlockNo(sb, fs, ino, bn))
    && (forall ino, k :: 0 <= ino < sb.ninodes && 0 <= k < MAXFILE * BSIZE ==>
          FileByte(sb, fs', ino, k) == FileByte(sb, fs, ino, k))
  }

  /** Growth, slot by slot: a data slot keeps its block and contents or gets a zeroed block. */
  lemma Grows(sb: Super, fs: Fs, fs': Fs)
    requires Shape(sb, fs) && Shape(sb, fs')
    requires forall ino :: 0 <= ino < sb.ninodes ==> fs'.inodes[ino].size == fs.inodes[ino].size
    requires forall s :: IsSlot(sb, s) && s.(ino := 0) != Direct(0, NDIRECT) ==>
      var v, v' := SlotVal(sb, fs, s), SlotVal(sb, fs', s);
      if v == 0 then v' == 0 || (v' < sb.size && fs'.data[v'] == ZeroBlock())
      else v' == v < sb.size && fs'.data[v] == fs.data[v]
    ensures Grown(sb, fs, fs')
  {
    forall ino, bn | 0 <= ino < sb.ninodes && 0 <= bn < MAXFILE && BlockNo(sb, fs, ino, bn) != 0
      ensures BlockNo(sb, fs', ino, bn) == BlockNo(sb, fs, ino, bn)
    {
      assert IsSlot(sb, SlotFor(ino, bn));
    }
    forall ino, k | 0 <= ino < sb.ninodes && 0 <= k < MAXFILE * BSIZE
      ensures FileByte(sb, fs', ino, k) == FileByte(sb, fs, ino, k)
    {
      assert IsSlot(sb, SlotFor(ino, k / BSIZE));
    }
  }

  lemma GrownTransitive(sb: Super, fs: Fs, gs: Fs, hs: Fs)
    requires Grown(sb, fs, gs) && Grown(sb, gs, hs)
    ensures Grown(sb, fs, hs)
  {
    forall ino, k | 0 <= ino < sb.ninodes && 0 <= k < MAXFILE * BSIZE
      ensures FileByte(sb, hs, ino, k) == FileByte(sb, fs, ino, k)
    {
      assert FileByte(sb, gs, ino, k) == FileByte(sb, fs, ino, k);
    }
  }

  /** A free block is taken: no slot sees a difference. */
  lemma AllocKeeps(sb: Super, fs: Fs, data: Data, bits: seq<bool>, owner: map<nat, Slot>, b: nat)
    requires Owned(sb, fs, bits, owner, {}) && |data| == sb.size
    requires b < sb.size && !bits[b]
    requires forall a :: 0 <= a < sb.size && sb.IsData(a) && a != b ==> data[a] == fs.data[a]
    ensures sb.IsData(b) && Owned(sb, Fs(data, fs.inodes), bits[b := true], owner, {b})
    ensures Grown(sb, fs, Fs(data, fs.inodes))
  {
    SlotsKeep(sb, fs, data, bits, owner, {});
    Grows(sb, fs, Fs(data, fs.inodes));
  }

  /** A loose block goes into an empty direct slot; as indirect block it must hold no numbers. */
  lemma AttachDirect(sb: Super, fs: Fs, bits: seq<bool>, owner: map<nat, Slot>, ino: nat, i: nat, b: nat)
    requires Owned(sb, fs, bits, owner, {b}) && sb.IsData(b)
    requires ino < sb.ninodes && i <= NDIRECT && fs.inodes[ino].addrs[i] == 0
    requires i == NDIRECT ==> forall j :: 0 <= j < NINDIRECT ==> Word(fs.data[b], j) == 0
    requires i < NDIRECT ==> fs.data[b] == ZeroBlock()
    ensures Owned(sb, SetAddr(fs, ino, i, b), bits, owner[b := Direct(ino, i)], {})
    ensures Grown(sb, fs, SetAddr(fs, ino, i, b))
  {
    var fs' := SetAddr(fs, ino, i, b);
    forall s | IsSlot(sb, s)
      ensures SlotVal(sb, fs', s) == if s == Direct(ino, i) then b else SlotVal(sb, fs, s)
    {
    }
    Attached(sb, fs, fs', bits, owner, Direct(ino, i), b);
    Grows(sb, fs, fs');
  }

  /** A loose block goes into an empty entry of an indirect block. */
  lemma AttachIndirect(sb: Super, fs: Fs, bits: seq<bool>, owner: map<nat, Slot>, ino: nat, j: nat, b: nat)
    requires Owned(sb, fs, bits, owner, {b}) && sb.IsData(b)
    requires ino < sb.ninodes && j < NINDIRECT
    requires SlotVal(sb, fs, Direct(ino, NDIRECT)) != 0 && SlotVal(sb, fs, Indirect(ino, j)) == 0
    requires fs.data[b] == ZeroBlock()
    ensures fs.inodes[ino].addrs[NDIRECT] < sb.size
    ensures Grown(sb, fs, SetEntry(fs, fs.inodes[ino].addrs[NDIRECT], j, b))
    ensures Owned(sb, SetEntry(fs, fs.inodes[ino].addrs[NDIRECT], j, b), bits, owner[b := Indirect(ino, j)], {})
  {
    var a := fs.inodes[ino].addrs[NDIRECT];
    assert owner[a] == Direct(ino, NDIRECT);
    var fs' := SetEntry(fs, a, j, b);
    forall s | IsSlot(sb, s)
      ensures SlotVal(sb, fs', s) == if s == Indirect(ino, j) then b else SlotVal(sb, fs, s)
    {
      if s.Indirect? {
        if s.ino == ino {
          WordSetWord(fs.data[a], j, b, s.j);
        } else {
          assert IsSlot(sb, Direct(s.ino, NDIRECT));
          assert SlotVal(sb, fs, Direct(s.ino, NDIRECT)) != a;
        }
      }
    }
    Attached(sb, fs, fs', bits, owner, Indirect(ino, j), b);
    Grows(sb, fs, fs');
  }

  function Splice(b: Block, o: nat, chunk: seq<Byte>): Block
    requires o + |chunk| <= BSIZE
  {
    b[..o] + chunk + b[o + |chunk|..]
  }

  function PutBlock(fs: Fs, a: nat, b: Block): Fs
    requires a < |fs.data|
  {
    fs.(data := fs.data[a := b])
  }

  /** Changing a file's data block changes no slot. */
  lemma PutBlockKeeps(sb: Super, fs: Fs, bits: seq<bool>, owner: map<nat, Slot>, ino: nat, bn: nat, b: Block)
    requires Owned(sb, fs, bits, owner, {}) && ino < sb.ninodes && bn < MAXFILE && BlockNo(sb, fs, ino, bn) != 0
    ensures var a := BlockNo(sb, fs, ino, bn);
      && a < sb.size && Owned(sb, PutBlock(fs, a, b), bits, owner, {})
      && forall s :: IsSlot(sb, s) ==> SlotVal(sb, PutBlock(fs, a, b), s) == SlotVal(sb, fs, s)
  {
    var a := BlockNo(sb, fs, ino, bn);
    var fs' := PutBlock(fs, a, b);
    BlockNoIsData(sb, fs, bits, owner, ino, bn);
    forall s | IsSlot(sb, s) ensures SlotVal(sb, fs', s) == SlotVal(sb, fs, s) {
      if s.Indirect? {
        assert IsSlot(sb, Direct(s.ino, NDIRECT));
        assert SlotVal(sb, fs, Direct(s.ino, NDIRECT)) != a;
      }
    }
  }

  lemma SameBlock(off: nat, n: nat, k: nat)
    requires off % BSIZE + n <= BSIZE
    ensures off <= k < off + n ==> k / BSIZE == off / BSIZE
  {
  }

  lemma SpliceByte(b: Block, off: nat, chunk: seq<Byte>, k: nat)
    requires off % BSIZE + |chunk| <= BSIZE && k / BSIZE == off / BSIZE
    ensures Splice(b, off % BSIZE, chunk)[k % BSIZE] == if off <= k < off + |chunk| then chunk[k - off] else b[k % BSIZE]
  {
    assert k - off == k % BSIZE - off % BSIZE;
  }

  /** Storing bytes of a file in the block that holds offset `off`. */
  function PutBytes(sb: Super, fs: Fs, ino: nat, off: nat, chunk: seq<Byte>): Fs
    requires Shape(sb, fs) && ino < sb.ninodes && off / BSIZE < MAXFILE && off % BSIZE + |chunk| <= BSIZE
    requires BlockNo(sb, fs, ino, off / BSIZE) < sb.size
  {
    var a := BlockNo(sb, fs, ino, off / BSIZE);
    PutBlock(fs, a, Splice(fs.data[a], off % BSIZE, chunk))
  }

  /** It changes exactly those bytes of that file and no byte of any other. */
  lemma PutBytesByte(sb: Super, fs: Fs, bits: seq<bool>, owner: map<nat, Slot>, ino: nat, off: nat, chunk: seq<Byte>,
                     i: nat, k: nat)
    requires Owned(sb, fs, bits, owner, {}) && ino < sb.ninodes && off / BSIZE < MAXFILE
    requires BlockNo(sb, fs, ino, off / BSIZE) != 0 && off % BSIZE + |chunk| <= BSIZE
    requires i < sb.ninodes && k / BSIZE < MAXFILE
    ensures BlockNo(sb, fs, ino, off / BSIZE) < sb.size
    ensures FileByte(sb, PutBytes(sb, fs, ino, off, chunk), i, k) ==
      if i == ino && off <= k < off + |chunk| then chunk[k - off] else FileByte(sb, fs, i, k)
  {
    var bn, bk := off / BSIZE, k / BSIZE;
    var a, c := BlockNo(sb, fs, ino, bn), BlockNo(sb, fs, i, bk);
    BlockNoIsData(sb, fs, bits, owner, ino, bn);
    var fs' := PutBytes(sb, fs, ino, off, chunk);
    PutBlockKeeps(sb, fs, bits, owner, ino, bn, Splice(fs.data[a], off % BSIZE, chunk));
    assert BlockNo(sb, fs', i, bk) == c;
    if c == a {
      BlockNoIsData(sb, fs, bits, owner, i, bk);
      assert i == ino && bk == bn;
      SpliceByte(fs.data[a], off, chunk, k);
    } else {
      SameBlock(off, |chunk|, k);
    }
  }

  /**
   `fs'` is `fs` with `bytes` written at `pos` of a file: those bytes are there and in present
   blocks, every other byte of every file is as before, and no file lost a block. Sizes are
   as before.
   */
  ghost predicate Written(sb: Super, fs: Fs, fs': Fs, ino: nat, pos: nat, bytes: seq<Byte>) {
    && Shape(sb, fs) && Shape(sb, fs') && ino < sb.ninodes && pos + |bytes| <= MAXFILE * BSIZE
    && (forall i :: 0 <= i < sb.ninodes ==> fs'.inodes[i].size == fs.inodes[i].size)
    && (forall i, bn :: 0 <= i < sb.ninodes && 0 <= bn < MAXFILE && BlockNo(sb, fs, i, bn) != 0 ==>
          BlockNo(sb, fs', i, bn) != 0)
    && (forall bn :: 0 <= bn < MAXFILE && pos <= bn * BSIZE < pos + |bytes| ==> BlockNo(sb, fs', ino, bn) != 0)
    && (forall i, k :: 0 <= i < sb.ninodes && 0 <= k < MAXFILE * BSIZE ==>
          FileByte(sb, fs', i, k) ==
          if i == ino && pos <= k < pos + |bytes| then bytes[k - pos] else FileByte(sb, fs, i, k))
  }

  lemma WrittenTransitive(sb: Super, fs: Fs, gs: Fs, hs: Fs, ino: nat, pos: nat, a: seq<Byte>, b: seq<Byte>)
    requires Written(sb, fs, gs, ino, pos, a) && Written(sb, gs, hs, ino, pos + |a|, b)
    ensures Written(sb, fs, hs, ino, pos, a + b)
  {
    forall i, k | 0 <= i < sb.ninodes && 0 <= k < MAXFILE * BSIZE
      ensures FileByte(sb, hs, i, k) ==
        if i == ino && pos <= k < pos + |a + b| then (a + b)[k - pos] else FileByte(sb, fs, i, k)
    {
      assert FileByte(sb, gs, i, k) == if i == ino && pos <= k < pos + |a| then a[k - pos] else FileByte(sb, fs, i, k);
    }
  }

  /** Growing a file and then storing bytes in the block at `pos` writes those bytes. */
  lemma GrownPut(sb: Super, fs: Fs, gs: Fs, bits: seq<bool>, owner: map<nat, Slot>, ino: nat, pos: nat,
                 chunk: seq<Byte>)
    requires Grown(sb, fs, gs) && Owned(sb, gs, bits, owner, {}) && ino < sb.ninodes
    requires pos + |chunk| <= MAXFILE * BSIZE && pos / BSIZE < MAXFILE
    requires BlockNo(sb, gs, ino, pos / BSIZE) != 0 && pos % BSIZE + |chunk| <= BSIZE
    ensures BlockNo(sb, gs, ino, pos / BSIZE) < sb.size
    ensures Owned(sb, PutBytes(sb, gs, ino, pos, chunk), bits, owner, {})
    ensures Written(sb, fs, PutBytes(sb, gs, ino, pos, chunk), ino, pos, chunk)
  {
    var a := BlockNo(sb, gs, ino, pos / BSIZE);
    BlockNoIsData(sb, gs, bits, owner, ino, pos / BSIZE);
    PutBlockKeeps(sb, gs, bits, owner, ino, pos / BSIZE, Splice(gs.data[a], pos % BSIZE, chunk));
    var hs := PutBytes(sb, gs, ino, pos, chunk);
    forall i, k | 0 <= i < sb.ninodes && 0 <= k < MAXFILE * BSIZE
      ensures FileByte(sb, hs, i, k) ==
        if i == ino && pos <= k < pos + |chunk| then chunk[k - pos] else FileByte(sb, fs, i, k)
    {
      PutBytesByte(sb, gs, bits, owner, ino, pos, chunk, i, k);
      assert FileByte(sb, gs, i, k) == FileByte(sb, fs, i, k);
    }
    forall bn | 0 <= bn < MAXFILE && pos <= bn * BSIZE < pos + |chunk| ensures BlockNo(sb, hs, ino, bn) != 0 {
      SameBlock(pos, |chunk|, bn * BSIZE);
      assert bn == pos / BSIZE;
    }
  }

  lemma GrownWritesNothing(sb: Super, fs: Fs, gs: Fs, ino: nat, pos: nat)
    requires Grown(sb, fs, gs) && ino < sb.ninodes && pos <= MAXFILE * BSIZE
    ensures Written(sb, fs, gs, ino, pos, [])
  {
  }
}
