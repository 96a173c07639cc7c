/**
 The root directory that mkfs writes byte by byte is the one that the directory invariants speak
 about: its bytes, read as `dirlookup` and `dirlink` read them, are the entries of `Links.Image`.
 */
module MkfsLinks {
  import opened Blocks
  import FsSpec
  import FsFiles
  import LinkSpec
  import Links
  import Mkfs

  /** The characters up to the first NUL. */
  function UpToNul(b: seq<Byte>): string {
    if b == [] || b[0] == 0 then "" else [b[0] as char] + UpToNul(b[1..])
  }

  /** A 16-byte entry: a little-endian number and a name that ends at a NUL or at DIRSIZ. */
  function EntryOf(b: seq<Byte>): LinkSpec.Entry
    requires |b| == Mkfs.DIRENT
  {
    var lo: nat, hi: nat := b[0], b[1];
    LinkSpec.Entry(lo + 0x100 * hi, UpToNul(b[2..]))
  }

  /** The bytes of a directory as entries. */
  function Entries(bytes: seq<Byte>): (r: seq<LinkSpec.Entry>)
    requires |bytes| % Mkfs.DIRENT == 0
    ensures |r| == |bytes| / Mkfs.DIRENT
    ensures forall k :: 0 <= k < |r| ==> r[k] == EntryOf(bytes[k * Mkfs.DIRENT..(k + 1) * Mkfs.DIRENT])
  {
    seq(|bytes| / Mkfs.DIRENT, k requires 0 <= k < |bytes| / Mkfs.DIRENT =>
      EntryOf(bytes[k * Mkfs.DIRENT..(k + 1) * Mkfs.DIRENT]))
  }

  function Text(name: seq<Byte>): (t: string)
    ensures |t| == |name| && forall k :: 0 <= k < |t| ==> t[k] == name[k] as char
  {
    seq(|name|, k requires 0 <= k < |name| => name[k] as char)
  }

  function Names(files: seq<Mkfs.File>): (r: seq<string>)
    ensures |r| == |files| && forall k :: 0 <= k < |r| ==> r[k] == Text(files[k].name)
  {
    seq(|files|, k requires 0 <= k < |files| => Text(files[k].name))
  }

  /** File names are C strings. */
  ghost predicate NoNul(name: seq<Byte>) {
    forall k :: 0 <= k < |name| ==> name[k] != 0
  }

  lemma {:induction false} Padded(name: seq<Byte>, n: nat)
    requires NoNul(name)
    ensures UpToNul(name + Mkfs.Zeros(n)) == Text(name)
  {
    if name != [] {
      Padded(name[1..], n);
      assert (name + Mkfs.Zeros(n))[1..] == name[1..] + Mkfs.Zeros(n);
      assert Text(name) == [name[0] as char] + Text(name[1..]);
    }
  }

  /** The name is cut to DIRSIZ or filled with NULs, and reads back as what `namecmp` sees of it. */
  lemma DirentDecodes(inum: nat, name: seq<Byte>)
    requires inum < 0x10000 && NoNul(name)
    ensures EntryOf(Mkfs.Dirent(inum, name)) == LinkSpec.Entry(inum, LinkSpec.Short(Text(name)))
  {
    var d := Mkfs.Dirent(inum, name);
    var short := if |name| <= Mkfs.DIRSIZ then name else name[..Mkfs.DIRSIZ];
    assert d[2..] == short + Mkfs.Zeros(Mkfs.DIRSIZ - |short|);
    Padded(short, Mkfs.DIRSIZ - |short|);
    assert Text(short) == LinkSpec.Short(Text(name));
    assert inum == inum % 0x100 + 0x100 * (inum / 0x100 % 0x100);
  }

  lemma ZerosDecode()
    ensures EntryOf(Mkfs.Zeros(Mkfs.DIRENT)) == LinkSpec.EMPTY
  {
  }

  lemma {:induction false} DotsFirst(files: seq<Mkfs.File>)
    ensures Mkfs.Root(files)[..2 * Mkfs.DIRENT] == Mkfs.Dirent(1, [0x2e]) + Mkfs.Dirent(1, [0x2e, 0x2e])
  {
    hide Mkfs.Dirent;
    if files != [] {
      DotsFirst(files[..|files| - 1]);
      var a, b := Mkfs.Root(files[..|files| - 1]), Mkfs.Root(files);
      assert b[..2 * Mkfs.DIRENT] == a[..2 * Mkfs.DIRENT];
    }
  }

  ghost function Slice(b: seq<Byte>, k: nat): seq<Byte>
    requires (k + 1) * Mkfs.DIRENT <= |b|
  {
    b[k * Mkfs.DIRENT..(k + 1) * Mkfs.DIRENT]
  }

  lemma DotSlot(files: seq<Mkfs.File>, k: nat)
    requires k < 2
    ensures EntryOf(Slice(Mkfs.Root(files), k)) == LinkSpec.Entry(1, if k == 0 then "." else "..")
  {
    hide Mkfs.Dirent, Mkfs.Root, EntryOf;
    DotsFirst(files);
    var r, one, two := Mkfs.Root(files), Mkfs.Dirent(1, [0x2e]), Mkfs.Dirent(1, [0x2e, 0x2e]);
    assert Slice(r, k) == (one + two)[k * Mkfs.DIRENT..(k + 1) * Mkfs.DIRENT];
    assert Slice(r, k) == if k == 0 then one else two;
    DirentDecodes(1, [0x2e]);
    DirentDecodes(1, [0x2e, 0x2e]);
    assert Text([0x2e]) == "." && Text([0x2e, 0x2e]) == "..";
  }

  lemma FileSlot(files: seq<Mkfs.File>, k: nat)
    requires |files| + 2 <= 0x10000 && 2 <= k < |files| + 2 && NoNul(files[k - 2].name)
    ensures EntryOf(Slice(Mkfs.Root(files), k)) == LinkSpec.Entry(k, LinkSpec.Short(Text(files[k - 2].name)))
  {
    hide Mkfs.Dirent, Mkfs.Root, EntryOf;
    Mkfs.RootEntry(files, k - 2);
    DirentDecodes(k, files[k - 2].name);
  }

  lemma EarlySlice(a: seq<Byte>, b: seq<Byte>, k: nat)
    requires (k + 1) * Mkfs.DIRENT <= |a|
    ensures Slice(a + b, k) == Slice(a, k)
  {
  }

  lemma LateSlice(a: seq<Byte>, n: nat, pad: nat, k: nat)
    requires |a| == n * Mkfs.DIRENT && n <= k < n + pad
    ensures (k + 1) * Mkfs.DIRENT <= |a + Mkfs.Zeros(pad * Mkfs.DIRENT)|
    ensures Slice(a + Mkfs.Zeros(pad * Mkfs.DIRENT), k) == Mkfs.Zeros(Mkfs.DIRENT)
  {
  }

  /** One entry of the root directory. */
  lemma RootSlot(files: seq<Mkfs.File>, pad: nat, k: nat)
    requires |files| + 2 <= 0x10000 && k < |files| + 2 + pad && forall j :: 0 <= j < |files| ==> NoNul(files[j].name)
    ensures (k + 1) * Mkfs.DIRENT <= |Mkfs.Root(files) + Mkfs.Zeros(pad * Mkfs.DIRENT)|
    ensures k < |Links.RootEntries(Names(files), pad)|
    ensures EntryOf(Slice(Mkfs.Root(files) + Mkfs.Zeros(pad * Mkfs.DIRENT), k)) == Links.RootEntries(Names(files), pad)[k]
  {
    hide Mkfs.Dirent, Mkfs.Root, EntryOf, Links.RootEntries, Slice, LinkSpec.Short;
    Links.RootSlots(Names(files), pad);
    var r, z := Mkfs.Root(files), Mkfs.Zeros(pad * Mkfs.DIRENT);
    if k < |files| + 2 {
      EarlySlice(r, z, k);
      if k < 2 {
        DotSlot(files, k);
      } else {
        FileSlot(files, k);
      }
    } else {
      LateSlice(r, |files| + 2, pad, k);
      ZerosDecode();
    }
  }

  /** The root directory of the image is `Links.Image`'s. */
  lemma {:induction false} RootDecodes(files: seq<Mkfs.File>, pad: nat)
    requires |files| + 2 <= 0x10000 && forall j :: 0 <= j < |files| ==> NoNul(files[j].name)
    ensures Entries(Mkfs.Root(files) + Mkfs.Zeros(pad * Mkfs.DIRENT)) == Links.RootEntries(Names(files), pad)
  {
    hide Mkfs.Root, EntryOf, Links.RootEntries;
    var r := Links.RootEntries(Names(files), pad);
    var e := Entries(Mkfs.Root(files) + Mkfs.Zeros(pad * Mkfs.DIRENT));
    Links.RootSlots(Names(files), pad);
    forall k | 0 <= k < |r| ensures e[k] == r[k] { RootSlot(files, pad, k); }
  }

  lemma PadSlots(n: nat)
    ensures BSIZE - n * Mkfs.DIRENT % BSIZE == (BSIZE / Mkfs.DIRENT - n % (BSIZE / Mkfs.DIRENT)) * Mkfs.DIRENT
  {
  }

  lemma RootBytes(sb: FsSpec.Super, fs: FsSpec.Fs, files: seq<Mkfs.File>, pad: nat)
    requires Mkfs.Finished(sb, fs, files) && FsFiles.NoHoles(sb, fs)
    requires pad == BSIZE / Mkfs.DIRENT - (|files| + 2) % (BSIZE / Mkfs.DIRENT)
    ensures Mkfs.HasBytes(sb, fs, Mkfs.ROOTINO, Mkfs.Root(files) + Mkfs.Zeros(pad * Mkfs.DIRENT))
  {
    hide FsFiles.NoHoles, Mkfs.Root, Mkfs.HasBytes;
    PadSlots(|files| + 2);
  }

  lemma ImageRoot(names: seq<string>, pad: nat, ninodes: nat)
    requires |names| + 2 <= ninodes
    ensures var s := Links.Image(names, pad, ninodes);
      LinkSpec.ROOTINO in s.ino && s.ino[LinkSpec.ROOTINO].ents == Links.RootEntries(names, pad)
  {
  }

  /**
   A finished image without missing blocks: what its root directory's bytes say satisfies the
   directory invariants exactly if the names are distinct once cut and none is "." or "..".
   */
  lemma {:induction false} ImageDecodes(sb: FsSpec.Super, fs: FsSpec.Fs, files: seq<Mkfs.File>, pad: nat)
    requires Mkfs.Finished(sb, fs, files) && FsFiles.NoHoles(sb, fs) && |files| + 2 <= sb.ninodes <= 0x10000
    requires forall j :: 0 <= j < |files| ==> NoNul(files[j].name)
    requires pad == BSIZE / Mkfs.DIRENT - (|files| + 2) % (BSIZE / Mkfs.DIRENT)
    ensures var c, s := FsFiles.Content(sb, fs, Mkfs.ROOTINO), Links.Image(Names(files), pad, sb.ninodes);
      && |c| % Mkfs.DIRENT == 0 && LinkSpec.ROOTINO in s.ino && Entries(c) == s.ino[LinkSpec.ROOTINO].ents
      && (LinkSpec.Inv(s) <==> Links.GoodNames(Names(files)))
  {
    hide FsSpec.Shape, FsFiles.NoHoles, FsFiles.Content, Mkfs.Finished, Mkfs.Root, LinkSpec.Inv, Links.Image;
    RootBytes(sb, fs, files, pad);
    ImageRoot(Names(files), pad, sb.ninodes);
    RootDecodes(files, pad);
    Links.MkfsImage(Names(files), pad, sb.ninodes);
  }
}
