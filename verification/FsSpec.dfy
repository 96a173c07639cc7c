/**
 The block layer of kernel/fs.c on values: the free bitmap, inodes with direct and indirect
 block numbers, and who owns which block.
 */
module FsSpec {
  import opened Blocks

  const NDIRECT := 12
  const NINDIRECT := WORDS
  const MAXFILE := NDIRECT + NINDIRECT
  const BPB := BSIZE * 8
  const IPB := 16

  /** Block counts and starts from the superblock; data blocks are [dstart, size). */
  datatype Super = Super(size: nat, ninodes: nat, inodestart: nat, bmapstart: nat, dstart: nat) {
    ghost predicate Valid() {
      && inodestart + ninodes / IPB < bmapstart
      && bmapstart + size / BPB < dstart <= size < WORD_LIMIT
    }

    function BBlock(b: nat): nat { b / BPB + bmapstart }

    function IBlock(ino: nat): nat { ino / IPB + inodestart }

    predicate IsData(b: nat) { dstart <= b < size }
  }

  type Data = seq<Block>

  // -------------------------------------------------------------------- bitmap

  /** Bit `k` of a number. */
  predicate BitOf(x: nat, k: nat) {
    if k == 0 then x % 2 == 1 else BitOf(x / 2, k - 1)
  }

  /** `x | 1 << k` and `x & ~(1 << k)`. */
  function SetBitOf(x: nat, k: nat, on: bool): (y: nat)
    ensures BitOf(y, k) == on
  {
    if k == 0 then x / 2 * 2 + (if on then 1 else 0) else SetBitOf(x / 2, k - 1, on) * 2 + x % 2
  }

  lemma {:induction false} SetBitOfOther(x: nat, k: nat, on: bool, j: nat)
    requires j != k
    ensures BitOf(SetBitOf(x, k, on), j) == BitOf(x, j)
  {
    if k > 0 && j > 0 { SetBitOfOther(x / 2, k - 1, on, j - 1); }
  }

  function Pow2(n: nat): nat {
    if n == 0 then 1 else 2 * Pow2(n - 1)
  }

  lemma {:induction false} SetBitOfFits(x: nat, k: nat, on: bool, n: nat)
    requires x < Pow2(n) && k < n
    ensures SetBitOf(x, k, on) < Pow2(n)
  {
    if k > 0 { SetBitOfFits(x / 2, k - 1, on, n - 1); }
  }

  function SetByteBit(x: Byte, k: nat, on: bool): (y: Byte)
    requires k < 8
  {
    assert Pow2(8) == 256 by { assert Pow2(4) == 16; }
    SetBitOfFits(x, k, on, 8);
    SetBitOf(x, k, on)
  }

  /** Bit `k` of byte `i` of block `q`. */
  predicate DiskBit(data: Data, q: nat, i: nat, k: nat)
    requires q < |data| && i < BSIZE
  {
    BitOf(data[q][i], k)
  }

  function SetDiskBit(data: Data, q: nat, i: nat, k: nat, on: bool): Data
    requires q < |data| && i < BSIZE && k < 8
  {
    data[q := data[q][i := SetByteBit(data[q][i], k, on)]]
  }

  lemma DiskBitSet(data: Data, q: nat, i: nat, k: nat, on: bool, q': nat, i': nat, k': nat)
    requires q < |data| && i < BSIZE && k < 8 && q' < |data| && i' < BSIZE
    ensures DiskBit(SetDiskBit(data, q, i, k, on), q', i', k') ==
            if q == q' && i == i' && k == k' then on else DiskBit(data, q', i', k')
  {
    if q == q' && i == i' && k != k' {
      SetBitOfOther(data[q][i], k, on, k');
    }
  }

  /** Is block `b` marked in use? */
  predicate Bit(sb: Super, data: Data, b: nat)
    requires sb.Valid() && |data| == sb.size && b < sb.size
  {
    DiskBit(data, sb.BBlock(b), b % BPB / 8, b % 8)
  }

  function SetBit(sb: Super, data: Data, b: nat, on: bool): (d: Data)
    requires sb.Valid() && |data| == sb.size && b < sb.size
    ensures |d| == sb.size
    ensures forall a :: 0 <= a < sb.size && a != sb.BBlock(b) ==> d[a] == data[a]
  {
    SetDiskBit(data, sb.BBlock(b), b % BPB / 8, b % 8, on)
  }

  lemma PlaceOfBit(b: nat, c: nat)
    requires b / BPB == c / BPB && b % BPB / 8 == c % BPB / 8 && b % 8 == c % 8
    ensures b == c
  {
    BitInByte(b);
    BitInByte(c);
  }

  lemma BitInByte(b: nat)
    ensures b == b / BPB * BPB + b % BPB / 8 * 8 + b % 8
  {
    var q, r := b / BPB, b % BPB;
    assert b == q * BPB + r && r == r / 8 * 8 + r % 8;
    LastBits(q * 1024, r);
  }

  lemma LastBits(x: nat, r: nat)
    ensures (x * 8 + r) % 8 == r % 8
  {
  }

  /** Marking a block changes that block's bit and no other bit of the map. */
  lemma BitSetBit(sb: Super, data: Data, b: nat, on: bool, c: nat)
    requires sb.Valid() && |data| == sb.size && b < sb.size && c < sb.size
    ensures Bit(sb, SetBit(sb, data, b, on), c) == if b == c then on else Bit(sb, data, c)
  {
    DiskBitSet(data, sb.BBlock(b), b % BPB / 8, b % 8, on, sb.BBlock(c), c % BPB / 8, c % 8);
    if sb.BBlock(b) == sb.BBlock(c) && b % BPB / 8 == c % BPB / 8 && b % 8 == c % 8 {
      PlaceOfBit(b, c);
    }
  }

  /** The bitmap is one array of bits, one for each block in order, between the inodes and the data. */
  lemma BitPlace(sb: Super, b: nat)
    requires sb.Valid() && b < sb.size
    ensures (sb.BBlock(b) - sb.bmapstart) * 1024 * 8 + b % BPB / 8 * 8 + b % 8 == b
    ensures sb.inodestart + sb.ninodes / IPB < sb.BBlock(b) < sb.dstart
  {
    BitInByte(b);
    assert b / BPB <= sb.size / BPB;
  }

  /** The inodes on disk are one array of 64-byte records, 16 a block, before the bitmap. */
  lemma InodePlace(sb: Super, i: nat, j: nat)
    requires sb.Valid() && i < sb.ninodes && j < sb.ninodes
    ensures sb.IBlock(i) * BSIZE + i % IPB * 64 == sb.inodestart * BSIZE + i * 64
    ensures sb.IBlock(i) < sb.bmapstart && (sb.IBlock(i) == sb.IBlock(j) <==> i / 16 == j / 16)
  {
    assert i == i / IPB * IPB + i % IPB;
    assert i / IPB <= sb.ninodes / IPB;
  }

  // ----------------------------------------------------------------- ownership

  /** An inode's size in bytes and block numbers: NDIRECT direct ones, then the indirect block. */
  datatype Inode = Inode(size: nat, addrs: seq<nat>)

  /** A place that can hold a block number; Direct(ino, NDIRECT) holds the indirect block's. */
  datatype Slot = Direct(ino: nat, i: nat) | Indirect(ino: nat, j: nat)

  /** The file system: block contents as the cache has them, and inodes as memory has them. */
  datatype Fs = Fs(data: Data, inodes: seq<Inode>)

  ghost predicate Shape(sb: Super, fs: Fs) {
    && sb.Valid() && |fs.data| == sb.size && |fs.inodes| == sb.ninodes
    && (forall ino :: 0 <= ino < sb.ninodes ==> |fs.inodes[ino].addrs| == NDIRECT + 1)
  }

  predicate IsSlot(sb: Super, s: Slot) {
    match s
    case Direct(ino, i) => ino < sb.ninodes && i <= NDIRECT
    case Indirect(ino, j) => ino < sb.ninodes && j < NINDIRECT
  }

  function SlotVal(sb: Super, fs: Fs, s: Slot): nat
    requires Shape(sb, fs) && IsSlot(sb, s)
  {
    match s
    case Direct(ino, i) => fs.inodes[ino].addrs[i]
    case Indirect(ino, j) =>
      var a := fs.inodes[ino].addrs[NDIRECT];
      if 0 < a < sb.size then Word(fs.data[a], j) else 0
  }

  /**
   Every block number in a slot is a data block whose bit is set and whose owner is that slot,
   and every data block whose bit is set has an owner or is in `loose`, the blocks just
   allocated and not yet stored in a slot. Bits below the data area are always set.
   */
  ghost predicate Owned(sb: Super, fs: Fs, bits: seq<bool>, owner: map<nat, Slot>, loose: set<nat>) {
    && Shape(sb, fs) && |bits| == sb.size
    && (forall s :: IsSlot(sb, s) && SlotVal(sb, fs, s) != 0 ==>
          SlotVal(sb, fs, s) in owner && owner[SlotVal(sb, fs, s)] == s)
    && (forall b :: b in owner ==>
          sb.IsData(b) && b !in loose && IsSlot(sb, owner[b]) && SlotVal(sb, fs, owner[b]) == b)
    && (forall b :: 0 <= b < sb.size ==> bits[b] == (!sb.IsData(b) || b in owner || b in loose))
  }

  /** Slots keep their values when the inodes and the owned blocks are unchanged. */
  lemma SlotsKeep(sb: Super, fs: Fs, data: Data, bits: seq<bool>, owner: map<nat, Slot>, loose: set<nat>)
    requires Owned(sb, fs, bits, owner, loose) && |data| == sb.size
    requires forall a :: a in owner ==> data[a] == fs.data[a]
    ensures forall s :: IsSlot(sb, s) ==> SlotVal(sb, Fs(data, fs.inodes), s) == SlotVal(sb, fs, s)
  {
    var fs' := Fs(data, fs.inodes);
    forall s | IsSlot(sb, s) ensures SlotVal(sb, fs', s) == SlotVal(sb, fs, s) {
      if s.Indirect? {
        var d := Direct(s.ino, NDIRECT);
        assert IsSlot(sb, d) && SlotVal(sb, fs, d) == fs.inodes[s.ino].addrs[NDIRECT];
      }
    }
  }

  function SetAddr(fs: Fs, ino: nat, i: nat, b: nat): Fs
    requires ino < |fs.inodes| && i < |fs.inodes[ino].addrs|
  {
    var ip := fs.inodes[ino];
    fs.(inodes := fs.inodes[ino := ip.(addrs := ip.addrs[i := b])])
  }

  /** A loose block goes into an empty slot `t`; no other slot changes. */
  lemma Attached(sb: Super, fs: Fs, fs': Fs, bits: seq<bool>, owner: map<nat, Slot>, t: Slot, b: nat)
    requires Owned(sb, fs, bits, owner, {b}) && sb.IsData(b) && Shape(sb, fs')
    requires IsSlot(sb, t) && SlotVal(sb, fs, t) == 0
    requires forall s :: IsSlot(sb, s) ==> SlotVal(sb, fs', s) == if s == t then b else SlotVal(sb, fs, s)
    ensures Owned(sb, fs', bits, owner[b := t], {})
  {
    hide SlotVal, IsSlot;
    var owner' := owner[b := t];
    forall s | IsSlot(sb, s) && SlotVal(sb, fs', s) != 0
      ensures SlotVal(sb, fs', s) in owner' && owner'[SlotVal(sb, fs', s)] == s
    {
      if s != t {
        assert SlotVal(sb, fs', s) == SlotVal(sb, fs, s);
      }
    }
    forall a | a in owner' ensures sb.IsData(a) && IsSlot(sb, owner'[a]) && SlotVal(sb, fs', owner'[a]) == a {
      if a != b {
        assert a in owner && SlotVal(sb, fs, owner[a]) == a > 0;
      }
    }
  }

  function SetEntry(fs: Fs, a: nat, j: nat, b: nat): Fs
    requires a < |fs.data| && j < NINDIRECT && b < WORD_LIMIT
  {
    fs.(data := fs.data[a := SetWord(fs.data[a], j, b)])
  }

  ghost function Without(owner: map<nat, Slot>, ino: nat): map<nat, Slot> {
    map b | b in owner && owner[b].ino != ino :: owner[b]
  }

  const EMPTY_INODE := Inode(0, [0, 0, 0, 0, 0, 0, 0, 0, 0, 0, 0, 0, 0])

  /** An inode lets go of everything it owned, and exactly those blocks become free. */
  lemma TruncateKeeps(sb: Super, fs: Fs, data: Data, bits: seq<bool>, bits': seq<bool>, owner: map<nat, Slot>, ino: nat)
    requires Owned(sb, fs, bits, owner, {}) && ino < sb.ninodes && |data| == |bits'| == sb.size
    requires forall a :: 0 <= a < sb.size && sb.IsData(a) ==> data[a] == fs.data[a]
    requires forall b :: 0 <= b < sb.size ==> bits'[b] == (bits[b] && !(b in owner && owner[b].ino == ino))
    ensures Owned(sb, Fs(data, fs.inodes[ino := EMPTY_INODE]), bits', Without(owner, ino), {})
  {
    var fs' := Fs(data, fs.inodes[ino := EMPTY_INODE]);
    SlotsKeep(sb, fs, data, bits, owner, {});
    forall s | IsSlot(sb, s)
      ensures SlotVal(sb, fs', s) == if s.ino == ino then 0 else SlotVal(sb, fs, s)
    {
      assert SlotVal(sb, Fs(data, fs.inodes), s) == SlotVal(sb, fs, s);
    }
  }
}
