/** kernel/sysfile.c: `create`, `link` and `unlink` over directories and inodes. */
module Links {
  import opened LinkSpec

  /** `Panics` is the panic of `ilock` on an inode without type. */
  datatype Result = Failed | Existing(i: nat) | Made(i: nat) | Panics

  class Tree {
    const ninodes: nat
    var s: State

    ghost predicate Valid()
      reads this
    {
      Inv(s) && Numbered()
    }

    ghost predicate Numbered()
      reads this
    {
      forall i :: i in s.ino <==> 1 <= i < ninodes
    }

    /** An image as `mkfs` makes it. */
    constructor (names: seq<string>, pad: nat, ninodes: nat)
      requires |names| + 2 <= ninodes && GoodNames(names)
      ensures Valid() && s == Image(names, pad, ninodes) && this.ninodes == ninodes
    {
      hide Inv, GoodNames, RootEntries;
      MkfsImage(names, pad, ninodes);
      this.ninodes := ninodes;
      s := Image(names, pad, ninodes);
    }

    /** `dirlookup`: the slot of a name, compared by its first DIRSIZ characters. */
    method Dirlookup(d: nat, name: string) returns (found: bool, k: nat)
      requires d in s.ino
      ensures found ==> k < |s.ino[d].ents| && s.ino[d].ents[k].inum != 0 && s.ino[d].ents[k].name == Short(name)
      ensures !found ==> NotIn(s.ino[d].ents, Short(name))
    {
      k := 0;
      var ents := s.ino[d].ents;
      while k < |ents|
        invariant 0 <= k <= |ents|
        invariant forall j :: 0 <= j < k && ents[j].inum != 0 ==> ents[j].name != Short(name)
      {
        if ents[k].inum != 0 && Short(name) == ents[k].name {
          return true, k;
        }
        k := k + 1;
      }
      return false, 0;
    }

    /** The second loop of `dirlink`: the first empty slot, or the end. */
    method FindEmpty(d: nat) returns (k: nat)
      requires d in s.ino
      ensures FirstEmpty(s.ino[d].ents, k)
    {
      k := 0;
      while k < |s.ino[d].ents|
        invariant 0 <= k <= |s.ino[d].ents| && forall j :: 0 <= j < k ==> s.ino[d].ents[j].inum != 0
      {
        if s.ino[d].ents[k].inum == 0 {
          break;
        }
        k := k + 1;
      }
    }

    /** `dirlink`; `grow` says whether a directory without an empty slot can get one more. */
    method Dirlink(d: nat, name: string, i: nat, grow: bool) returns (ok: bool, k: nat)
      requires d in s.ino
      modifies this
      ensures !ok ==> s == old(s)
      ensures ok ==>
        FirstEmpty(old(s).ino[d].ents, k) && s == PutIn(old(s), d, k, Entry(i, Short(name)))
      ensures ok <==> NotIn(old(s).ino[d].ents, Short(name)) && (grow || !Full(old(s).ino[d].ents))
    {
      var found;
      found, k := Dirlookup(d, name);
      if found {
        return false, 0;
      }
      k := FindEmpty(d);
      if k == |s.ino[d].ents| && !grow {
        return false, 0;
      }
      s := s.(ino := s.ino[d := s.ino[d].(ents := Put(s.ino[d].ents, k, Entry(i, Short(name))))]);
      return true, k;
    }

    /** `ialloc`: the first free inode, 0 if there is none. */
    method Ialloc() returns (i: nat)
      requires Numbered()
      ensures i == 0 ==> forall j :: j in s.ino ==> s.ino[j].kind != Free
      ensures i != 0 ==> i in s.ino && s.ino[i].kind == Free && forall j :: 1 <= j < i ==> s.ino[j].kind != Free
    {
      i := 1;
      while i < ninodes
        invariant 1 <= i && forall j :: 1 <= j < i && j < ninodes ==> s.ino[j].kind != Free
      {
        if s.ino[i].kind == Free {
          return i;
        }
        i := i + 1;
      }
      return 0;
    }

    /** The first half of `sys_link`: refused for directories, else the count goes up, exactly as far as 16 bits go. */
    method LinkBegin(i: nat) returns (ok: bool)
      requires Valid() && i in s.ino && s.ino[i].kind != Free
      modifies this
      ensures ok <==> old(s).ino[i].kind != Dir
      ensures !ok ==> s == old(s)
      ensures ok ==>
        s.pending == old(s).pending + multiset{i} && Numbered() && (Inv(s) <==> old(s).ino[i].nlink < MAXLINK)
      ensures ok ==> s.ino == old(s).ino[i := old(s).ino[i].(nlink := Inc16(old(s).ino[i].nlink))]
    {
      hide Counted, DirShape, EntryOk, Anchored, Rooted;
      if s.ino[i].kind == Dir {
        return false;
      }
      ghost var s0 := s;
      s := State(s.ino[i := s.ino[i].(nlink := Inc16(s.ino[i].nlink))], s.pending + multiset{i});
      if s0.ino[i].nlink < MAXLINK {
        CountIs(s0, i);
        OnlyFileKeeps(s0, i, s);
      }
      return true;
    }

    /**
     The second half of `sys_link`: a new entry in `d`, or the count goes down again. `last` says if
     nobody else refers to `i`. Counts stay right exactly if no entry goes into an unlinked directory.
     */
    method LinkEnd(d: nat, name: string, i: nat, grow: bool, last: bool) returns (ok: bool, ghost k: nat)
      requires Valid() && i in s.pending && d in s.ino && s.ino[d].kind == Dir
      modifies this
      ensures Numbered() && s.pending == old(s).pending - multiset{i}
      ensures ok <==> NotIn(old(s).ino[d].ents, Short(name)) && (grow || !Full(old(s).ino[d].ents))
      ensures ok ==> FirstEmpty(old(s).ino[d].ents, k) && s == Attached(old(s), d, k, Short(name), i)
      ensures !ok ==> s.ino == old(s).ino[i := Lowered(old(s).ino[i], last)]
      ensures Inv(s) <==> !ok || Live(old(s), d)
    {
      hide Inv, Put;
      ghost var s0 := s;
      PendingIsFile(s, i);
      var slot;
      ok, slot := Dirlink(d, name, i, grow);
      k := slot;
      if ok {
        RoomFound(s0, d, k, name);
        LinkNeedsLive(s0, d, k, Short(name), i);
        s := s.(pending := s.pending - multiset{i});
        return;
      }
      DropLink(i, last);
    }

    /** `nlink--` and `iunlockput` of a file that has one link pending. */
    method DropLink(i: nat, last: bool)
      requires Valid() && i in s.pending
      modifies this
      ensures Valid() && s.pending == old(s).pending - multiset{i}
      ensures s.ino == old(s).ino[i := Lowered(old(s).ino[i], last)]
      ensures s.ino[i].kind == Free <==> old(s).ino[i].nlink == 1 && last
      ensures s.ino[i].nlink == old(s).ino[i].nlink - 1
    {
      hide Inv, Refs;
      ghost var s0 := s;
      PendingIsFile(s, i);
      LowerKeeps(s, i);
      s := State(s.ino[i := s.ino[i].(nlink := s.ino[i].nlink - 1)], s.pending - multiset{i});
      if s.ino[i].nlink == 0 && last {
        FreeKeeps(s, i);
        s := s.(ino := s.ino[i := FREED]);
      }
    }

    /** `isdirempty`: nothing in it but "." and "..". */
    method IsDirEmpty(d: nat) returns (r: bool)
      requires d in s.ino
      ensures r <==> Hollow(s.ino[d].ents)
    {
      var k := 2;
      while k < |s.ino[d].ents|
        invariant 2 <= k && forall m :: 2 <= m < k && m < |s.ino[d].ents| ==> s.ino[d].ents[m].inum == 0
      {
        if s.ino[d].ents[k].inum != 0 {
          return false;
        }
        k := k + 1;
      }
      return true;
    }

    /**
     `create` of a file, device or directory. A name that is taken gives the file there, or fails;
     a failure leaves no trace but a cleared free inode. `grow` is for the new directory, `growd`
     for the one it goes into. Counts stay right exactly if that has not been unlinked and, for a
     new directory, its own count has not reached its limit.
     */
    method Create(d: nat, name: string, kind: Kind, grow: bool, growd: bool) returns (r: Result, ghost k: nat)
      requires Valid() && d in s.ino && s.ino[d].kind == Dir && kind != Free
      modifies this
      ensures Numbered() && s.pending == old(s).pending
      ensures NotIn(old(s).ino[d].ents, Short(name)) ==>
        (r.Failed? || r.Made?) && (r.Failed? <==> CannotMake(old(s), d, kind, grow, growd))
      ensures !NotIn(old(s).ino[d].ents, Short(name)) ==>
        && s == old(s) && k < |s.ino[d].ents| && s.ino[d].ents[k].inum != 0 && s.ino[d].ents[k].name == Short(name)
        && var i := s.ino[d].ents[k].inum;
        && (r.Panics? <==> i !in s.ino || s.ino[i].kind == Free)
        && (r.Existing? <==> i in s.ino && s.ino[i].kind in {File, Device} && kind == File)
        && (r.Existing? ==> r.i == i) && !r.Made?
      ensures r.Panics? ==> !Live(s, d) && Short(name) == ".."
      ensures r.Failed? ==>
        s == old(s) || exists i :: i in old(s).ino && old(s).ino[i].kind == Free && s == WithFreed(old(s), i)
      ensures r.Made? ==>
        && r.i in old(s).ino && old(s).ino[r.i].kind == Free && FirstEmpty(old(s).ino[d].ents, k)
        && s == if kind == Dir then WithDir(old(s), d, k, Short(name), r.i) else MadeFile(old(s), d, k, Short(name), r.i, kind)
      ensures Inv(s) <==> !r.Made? || (Live(old(s), d) && (kind == Dir ==> old(s).ino[d].nlink < MAXLINK))
    {
      hide Inv, Refs, Put;
      ghost var s0 := s;
      var found, slot := Dirlookup(d, name);
      k := slot;
      if found {
        var i := s.ino[d].ents[slot].inum;
        if i !in s.ino || s.ino[i].kind == Free {
          OnlyUnlinkedDangle(s, d, slot);
          return Panics, k;
        }
        if kind == File && (s.ino[i].kind == File || s.ino[i].kind == Device) {
          return Existing(i), k;
        }
        return Failed, k;
      }
      var i := Ialloc();
      if i == 0 {
        return Failed, k;
      }
      if kind == Dir {
        r, k := MakeDir(d, name, i, grow, growd);
      } else {
        r, k := MakeFile(d, name, kind, i, growd);
      }
    }

    /** The rest of `create` for a file or device. */
    method MakeFile(d: nat, name: string, kind: Kind, i: nat, growd: bool) returns (r: Result, ghost k: nat)
      requires Valid() && d in s.ino && s.ino[d].kind == Dir && (kind == File || kind == Device)
      requires i in s.ino && s.ino[i].kind == Free && NotIn(s.ino[d].ents, Short(name))
      modifies this
      ensures Numbered() && s.pending == old(s).pending && r == if Full(old(s).ino[d].ents) && !growd then Failed else Made(i)
      ensures r.Failed? ==> s == WithFreed(old(s), i)
      ensures r.Made? ==> FirstEmpty(old(s).ino[d].ents, k) && s == MadeFile(old(s), d, k, Short(name), i, kind)
      ensures Inv(s) <==> r.Failed? || Live(old(s), d)
    {
      hide Inv, Put;
      ghost var s0 := s;
      s := s.(ino := s.ino[i := Inode(kind, 1, [])]);
      var ok, slot := Dirlink(d, name, i, growd);
      k := slot;
      if !ok {
        s := s.(ino := s.ino[i := FREED]);
        ClearKeeps(s0, i);
        assert s == WithFreed(s0, i);
        return Failed, k;
      }
      RoomFound(s0, d, k, name);
      CreateNeedsLive(s0, d, k, Short(name), i, kind);
      assert s == MadeFile(s0, d, k, Short(name), i, kind);
      return Made(i), k;
    }

    /** The rest of `create` for a directory. */
    method MakeDir(d: nat, name: string, i: nat, grow: bool, growd: bool) returns (r: Result, ghost k: nat)
      requires Valid() && d in s.ino && s.ino[d].kind == Dir
      requires i in s.ino && s.ino[i].kind == Free && NotIn(s.ino[d].ents, Short(name))
      modifies this
      ensures Numbered() && s.pending == old(s).pending
      ensures r == if !grow || (Full(old(s).ino[d].ents) && !growd) then Failed else Made(i)
      ensures r.Failed? ==> s == WithFreed(old(s), i)
      ensures r.Made? ==> FirstEmpty(old(s).ino[d].ents, k) && s == WithDir(old(s), d, k, Short(name), i)
      ensures Inv(s) <==> r.Failed? || (Live(old(s), d) && old(s).ino[d].nlink < MAXLINK)
    {
      hide Inv, Put;
      ghost var s0 := s;
      ClearKeeps(s, i);
      s := s.(ino := s.ino[i := Inode(Dir, 1, [])]);
      var ok := DotEntries(i, d, grow);
      var slot := 0;
      if ok {
        ok, slot := Dirlink(d, name, i, growd);
      }
      k := slot;
      if !ok {
        s := s.(ino := s.ino[i := FREED]);
        assert s == WithFreed(s0, i);
        return Failed, k;
      }
      s := s.(ino := s.ino[d := s.ino[d].(nlink := Inc16(s.ino[d].nlink))]);
      RoomFound(s0, d, k, name);
      MkdirNeedsLive(s0, d, k, Short(name), i);
      assert s == WithDir(s0, d, k, Short(name), i);
      return Made(i), k;
    }

    /** "." and ".." of a new directory; if there is room for the first, there is for the second in the same block. */
    method DotEntries(i: nat, d: nat, grow: bool) returns (ok: bool)
      requires i in s.ino && s.ino[i].ents == [] && i != 0
      modifies this
      ensures ok == grow && (!ok ==> s == old(s))
      ensures ok ==> s == old(s).(ino := old(s).ino[i := old(s).ino[i].(ents := [Entry(i, "."), Entry(d, "..")])])
    {
      var k;
      ok, k := Dirlink(i, ".", i, grow);
      if ok {
        assert s.ino[i].ents == [Entry(i, ".")];
        ok, k := Dirlink(i, "..", d, true);
        assert s.ino[i].ents == [Entry(i, "."), Entry(d, "..")];
      }
    }

    /** `unlink`: clears the entry of a file or of an empty directory and lowers the counts; it never meets a count below 1. */
    method Unlink(d: nat, name: string, last: bool) returns (ok: bool, panic: bool, ghost k: nat)
      requires Valid() && d in s.ino && s.ino[d].kind == Dir
      modifies this
      ensures Valid() && !panic && s.pending == old(s).pending
      ensures !ok ==> s == old(s)
      ensures ok ==> Live(old(s), d) && 2 <= k < |old(s).ino[d].ents| && old(s).ino[d].ents[k].name == Short(name)
      ensures ok ==> old(s).ino[d].ents[k].inum in old(s).ino && s.ino == Unlinked(old(s), d, k, last).ino
      ensures ok ==>
        && var i := old(s).ino[d].ents[k].inum;
        && i in s.ino && s.ino[i].nlink == old(s).ino[i].nlink - 1 && NotIn(s.ino[d].ents, Short(name))
        && (s.ino[i].kind == Free <==> s.ino[i].nlink == 0 && last)
      ensures !ok <==> Short(name) in {".", ".."} || NotIn(old(s).ino[d].ents, Short(name)) || Occupied(old(s), d, Short(name))
    {
      hide Counted, DirShape, EntryOk, Anchored, Refs, Put, Rooted;
      ghost var s0 := s;
      if Short(name) == "." || Short(name) == ".." {
        return false, false, 0;
      }
      var found, slot := Dirlookup(d, name);
      k := slot;
      if !found {
        return false, false, k;
      }
      EntryFacts(s, d, slot);
      var i := s.ino[d].ents[slot].inum;
      if s.ino[i].nlink < 1 {
        return false, true, k;
      }
      if s.ino[i].kind == Dir {
        var empty := IsDirEmpty(i);
        if !empty {
          return false, false, k;
        }
        RemoveDir(d, slot, i, last);
      } else {
        RemoveFile(d, slot, i, last);
      }
      return true, false, k;
    }

    method RemoveFile(d: nat, k: nat, i: nat, last: bool)
      requires Valid() && FileEntry(s, d, k) && i == s.ino[d].ents[k].inum && i != d
      modifies this
      ensures Valid() && s.pending == old(s).pending && s.ino == Unlinked(old(s), d, k, last).ino
    {
      hide Counted, DirShape, EntryOk, Anchored, Refs, Put, Rooted;
      DetachKeeps(s, d, k);
      s := s.(ino := s.ino[d := s.ino[d].(ents := Put(s.ino[d].ents, k, EMPTY))], pending := s.pending + multiset{i});
      DropLink(i, last);
    }

    method RemoveDir(d: nat, k: nat, i: nat, last: bool)
      requires Valid() && CanRmdir(s, d, k) && i == s.ino[d].ents[k].inum && i != d
      modifies this
      ensures Valid() && s.pending == old(s).pending && s.ino == Unlinked(old(s), d, k, last).ino
    {
      hide Inv, Refs, Put;
      SoleLink(s, d, k);
      WithoutDirKeeps(s, d, k);
      s := s.(ino := s.ino[d := s.ino[d].(ents := Put(s.ino[d].ents, k, EMPTY))]);
      s := s.(ino := s.ino[d := s.ino[d].(nlink := s.ino[d].nlink - 1)]);
      s := s.(ino := s.ino[i := s.ino[i].(nlink := s.ino[i].nlink - 1)]);
      assert s == WithoutDir(old(s), d, k);
      if last {
        FreeKeeps(s, i);
        s := s.(ino := s.ino[i := FREED]);
      }
    }

    /** `iput` of the last reference: an inode without links is freed. */
    method Iput(i: nat)
      requires Valid() && i in s.ino
      modifies this
      ensures Valid() && s == (if old(s).ino[i].nlink == 0 then WithFreed(old(s), i) else old(s))
      ensures old(s).ino[i].nlink == 0 ==> s.ino[i].kind == Free
    {
      hide Counted, DirShape, EntryOk, Anchored, Refs, Rooted;
      if s.ino[i].nlink == 0 {
        FreeKeeps(s, i);
        s := s.(ino := s.ino[i := FREED]);
      }
    }
  }

  ghost predicate NotIn(ents: seq<Entry>, name: string) {
    forall j :: 0 <= j < |ents| && ents[j].inum != 0 ==> ents[j].name != name
  }

  /** Slot `k` is the first empty one, or the end if there is none. */
  ghost predicate FirstEmpty(ents: seq<Entry>, k: nat) {
    && k <= |ents| && (k < |ents| ==> ents[k].inum == 0)
    && forall j :: 0 <= j < k ==> ents[j].inum != 0
  }

  /** No slot is empty. */
  ghost predicate Full(ents: seq<Entry>) {
    forall j :: 0 <= j < |ents| ==> ents[j].inum != 0
  }

  /** Why `create` cannot make a new file under a new name: no inode, no block, or no slot. */
  ghost predicate CannotMake(s: State, d: nat, kind: Kind, grow: bool, growd: bool)
    requires d in s.ino
  {
    (forall j :: j in s.ino ==> s.ino[j].kind != Free) || (kind == Dir && !grow) || (Full(s.ino[d].ents) && !growd)
  }

  /** Only ".." of an unlinked directory can name an inode that is not in use. */
  lemma OnlyUnlinkedDangle(s: State, d: nat, k: nat)
    requires Inv(s) && d in s.ino && s.ino[d].kind == Dir && k < |s.ino[d].ents| && s.ino[d].ents[k].inum != 0
    requires s.ino[d].ents[k].inum !in s.ino || s.ino[s.ino[d].ents[k].inum].kind == Free
    ensures !Live(s, d) && s.ino[d].ents[k].name == ".."
  {
    hide Counted, Anchored, Rooted;
    assert DirShape(s, d);
    assert Live(s, d) ==> EntryOk(s, d, k);
  }

  lemma PendingIsFile(s: State, i: nat)
    requires Inv(s) && i in s.pending
    ensures i in s.ino && (s.ino[i].kind == File || s.ino[i].kind == Device)
  {
    hide Counted, DirShape, EntryOk, Anchored, Rooted;
  }

  /** The name is that of a directory with something in it. */
  ghost predicate Occupied(s: State, d: nat, name: string)
    requires d in s.ino
  {
    exists k :: 0 <= k < |s.ino[d].ents| && s.ino[d].ents[k].inum in s.ino && s.ino[d].ents[k].name == name
      && s.ino[s.ino[d].ents[k].inum].kind == Dir && !Hollow(s.ino[s.ino[d].ents[k].inum].ents)
  }

  /** What `unlink` of slot `k` does. */
  ghost function Unlinked(s: State, d: nat, k: nat, last: bool): State
    requires d in s.ino && k < |s.ino[d].ents| && s.ino[d].ents[k].inum in s.ino
  {
    var i := s.ino[d].ents[k].inum;
    var down := if s.ino[i].kind == Dir then 1 else 0;
    s.(ino := s.ino[d := s.ino[d].(nlink := s.ino[d].nlink - down, ents := Put(s.ino[d].ents, k, EMPTY))]
                   [i := Lowered(s.ino[i], last)])
  }

  /** An entry found under another name than "." and "..": it counts as a link, and its directory is live. */
  lemma EntryFacts(s: State, d: nat, k: nat)
    requires Inv(s) && d in s.ino && s.ino[d].kind == Dir && k < |s.ino[d].ents| && s.ino[d].ents[k].inum != 0
    requires s.ino[d].ents[k].name != "." && s.ino[d].ents[k].name != ".."
    ensures Live(s, d) && k >= 2 && s.ino[d].ents[k].inum in s.ino && s.ino[s.ino[d].ents[k].inum].kind != Free
    ensures s.ino[d].ents[k].inum != d && s.ino[s.ino[d].ents[k].inum].nlink >= 1
    ensures forall j :: 0 <= j < |s.ino[d].ents| && s.ino[d].ents[j].inum != 0 && s.ino[d].ents[j].name == s.ino[d].ents[k].name ==>
      j == k
  {
    hide Inv, Refs;
    EntryPlace(s, d, k);
    TargetInUse(s, d, k);
    EntryElse(s, d, k);
    RefsAre(s, s.ino[d].ents[k].inum, d, k);
    CountIs(s, s.ino[d].ents[k].inum);
  }

  lemma EntryPlace(s: State, d: nat, k: nat)
    requires Inv(s) && d in s.ino && s.ino[d].kind == Dir && k < |s.ino[d].ents| && s.ino[d].ents[k].inum != 0
    requires s.ino[d].ents[k].name != "." && s.ino[d].ents[k].name != ".."
    ensures Live(s, d) && k >= 2
    ensures forall j :: 0 <= j < |s.ino[d].ents| && s.ino[d].ents[j].inum != 0 && s.ino[d].ents[j].name == s.ino[d].ents[k].name ==>
      j == k
  {
    hide Counted, EntryOk, Anchored, Rooted;
    assert DirShape(s, d);
  }

  lemma EntryElse(s: State, d: nat, k: nat)
    requires Inv(s) && Live(s, d) && 2 <= k < |s.ino[d].ents| && s.ino[d].ents[k].inum != 0
    ensures s.ino[d].ents[k].inum != d
  {
    hide Counted, DirShape, Anchored, Rooted;
    assert EntryOk(s, d, k);
  }

  /** What `dirlink` found is room for a new entry. */
  lemma RoomFound(s: State, d: nat, k: nat, name: string)
    requires Inv(s) && d in s.ino && s.ino[d].kind == Dir
    requires k <= |s.ino[d].ents| && (k < |s.ino[d].ents| ==> s.ino[d].ents[k].inum == 0)
    requires NotIn(s.ino[d].ents, Short(name))
    ensures RoomIn(s, d, k, Short(name)) && Short(name) != ".."
  {
    hide Counted, EntryOk, Anchored, Rooted;
    assert DirShape(s, d);
  }

  /** A file `i` made and entered in slot `k` of `d`. */
  ghost function MadeFile(s: State, d: nat, k: nat, name: string, i: nat, kind: Kind): State
    requires d in s.ino && k <= |s.ino[d].ents|
  {
    s.(ino := s.ino[i := Inode(kind, 1, [])][d := s.ino[d].(ents := Put(s.ino[d].ents, k, Entry(i, name)))])
  }

  lemma FileMade(s: State, d: nat, k: nat, name: string, i: nat, kind: Kind)
    requires Inv(s) && Room(s, d, k, name) && i in s.ino && s.ino[i].kind == Free && (kind == File || kind == Device)
    ensures Inv(MadeFile(s, d, k, name, i, kind))
  {
    hide Inv, Put;
    BornKeeps(s, i, kind);
    var b := Born(s, i, kind);
    AttachKeeps(b, d, k, name, i);
    assert MadeFile(s, d, k, name, i, kind) == Attached(b, d, k, name, i);
  }

  /** A free inode cleared. */
  lemma ClearKeeps(s: State, i: nat)
    requires Inv(s) && i in s.ino && s.ino[i].kind == Free
    ensures Inv(WithFreed(s, i))
  {
    hide Counted, DirShape, EntryOk, Anchored, Refs, Rooted;
    FreeFacts(s, i);
    OnlyFileKeeps(s, i, WithFreed(s, i));
  }

  /** An inode whose count went down, freed if that was the last link and the last reference. */
  function Lowered(n: Inode, last: bool): Inode {
    if n.nlink == 1 && last then FREED else n.(nlink := n.nlink - 1)
  }

  /** A pending link given up: the count goes down by one. */
  lemma LowerKeeps(s: State, i: nat)
    requires Inv(s) && i in s.pending
    ensures i in s.ino && Inv(State(s.ino[i := s.ino[i].(nlink := s.ino[i].nlink - 1)], s.pending - multiset{i}))
  {
    hide Counted, DirShape, EntryOk, Anchored, Refs, Rooted;
    CountIs(s, i);
    OnlyFileKeeps(s, i, State(s.ino[i := s.ino[i].(nlink := s.ino[i].nlink - 1)], s.pending - multiset{i}));
  }

  lemma CountIs(s: State, i: nat)
    requires Inv(s) && i in s.ino && s.ino[i].kind != Free
    ensures s.ino[i].nlink == |Refs(s, i)| + s.pending[i]
  {
    hide DirShape, EntryOk, Anchored, Refs, Rooted;
    assert Counted(s, i);
  }

  lemma TargetInUse(s: State, d: nat, k: nat)
    requires Inv(s) && Live(s, d) && k < |s.ino[d].ents| && s.ino[d].ents[k].inum != 0
    ensures s.ino[d].ents[k].inum in s.ino && s.ino[s.ino[d].ents[k].inum].kind != Free
  {
    hide Counted, DirShape, Anchored, Rooted;
    assert EntryOk(s, d, k);
  }

  /** A free inode as `ialloc` and `create` set it up for a file, its entry still to come. */
  ghost function Born(s: State, i: nat, kind: Kind): State {
    State(s.ino[i := Inode(kind, 1, [])], s.pending + multiset{i})
  }

  lemma FreeFacts(s: State, i: nat)
    requires Inv(s) && i in s.ino && s.ino[i].kind == Free
    ensures i !in s.pending && Refs(s, i) == {}
  {
    hide Counted, DirShape, EntryOk, Anchored, Refs, Rooted;
    FreeUnnamed(s, i);
  }

  lemma BornKeeps(s: State, i: nat, kind: Kind)
    requires Inv(s) && i in s.ino && s.ino[i].kind == Free && (kind == File || kind == Device)
    ensures Inv(Born(s, i, kind))
  {
    hide Counted, DirShape, EntryOk, Anchored, Refs, Rooted;
    FreeFacts(s, i);
    OnlyFileKeeps(s, i, Born(s, i, kind));
  }

  // ------------------------------------------------------------ where it ends

  /** A directory has an empty slot `k` for this name, or grows by one; it may be unlinked already. */
  ghost predicate RoomIn(s: State, d: nat, k: nat, name: string) {
    && d in s.ino && s.ino[d].kind == Dir && 2 <= k <= |s.ino[d].ents|
    && (k < |s.ino[d].ents| ==> s.ino[d].ents[k].inum == 0)
    && |name| <= DIRSIZ && name != "." && NotIn(s.ino[d].ents, name)
  }

  /** Counts stay right exactly if the directory that gets a new file has not been unlinked. */
  lemma CreateNeedsLive(s: State, d: nat, k: nat, name: string, i: nat, kind: Kind)
    requires Inv(s) && RoomIn(s, d, k, name) && i in s.ino && s.ino[i].kind == Free && (kind == File || kind == Device)
    ensures Inv(MadeFile(s, d, k, name, i, kind)) <==> Live(s, d)
  {
    hide Inv, Put;
    if Live(s, d) {
      FileMade(s, d, k, name, i, kind);
    } else {
      LeftInside(s, d, MadeFile(s, d, k, name, i, kind), k);
    }
  }

  /** The same for another link to a file. */
  lemma LinkNeedsLive(s: State, d: nat, k: nat, name: string, i: nat)
    requires Inv(s) && RoomIn(s, d, k, name) && i in s.pending
    ensures Inv(Attached(s, d, k, name, i)) <==> Live(s, d)
  {
    hide Inv, Put;
    PendingIsFile(s, i);
    if Live(s, d) {
      AttachKeeps(s, d, k, name, i);
    } else {
      LeftInside(s, d, Attached(s, d, k, name, i), k);
    }
  }

  lemma LeftInside(s: State, d: nat, s': State, k: nat)
    requires Inv(s) && d in s.ino && s.ino[d].kind == Dir && !Live(s, d)
    requires d in s'.ino && s'.ino[d].kind == Dir && s'.ino[d].nlink == s.ino[d].nlink
    requires 2 <= k < |s'.ino[d].ents| && s'.ino[d].ents[k].inum in s.ino
    ensures !Inv(s')
  {
    hide Counted, EntryOk, Anchored, Rooted;
    assert s.ino[d].nlink == 0;
    assert !DirShape(s', d);
  }

  /** A new directory also needs room for its ".." in the 16-bit count. */
  lemma MkdirNeedsLive(s: State, d: nat, k: nat, name: string, i: nat)
    requires Inv(s) && RoomIn(s, d, k, name) && name != ".." && i in s.ino && s.ino[i].kind == Free
    ensures Inv(WithDir(s, d, k, name, i)) <==> Live(s, d) && s.ino[d].nlink < MAXLINK
  {
    hide Inv, Put;
    if Live(s, d) && s.ino[d].nlink < MAXLINK {
      FreeFacts(s, i);
      WithDirKeeps(s, d, k, name, i);
    } else if Live(s, d) {
      Overflown(s, d, k, name, i);
    } else {
      Unanchored(s, d, k, name, i);
    }
  }

  lemma Overflown(s: State, d: nat, k: nat, name: string, i: nat)
    requires Inv(s) && RoomIn(s, d, k, name) && i in s.ino && s.ino[i].kind == Free && s.ino[d].nlink >= MAXLINK
    ensures !Inv(WithDir(s, d, k, name, i))
  {
    hide Counted, DirShape, EntryOk, Anchored, Put, Rooted;
    var s' := WithDir(s, d, k, name, i);
    assert i != d && s'.ino[d].nlink < 0;
  }

  /** An unlinked directory that gets a subdirectory has a link again, but no place in the tree. */
  lemma Unanchored(s: State, d: nat, k: nat, name: string, i: nat)
    requires Inv(s) && RoomIn(s, d, k, name) && !Live(s, d) && i in s.ino && s.ino[i].kind == Free
    ensures !Inv(WithDir(s, d, k, name, i))
  {
    hide Counted, EntryOk, Refs, Put, Rooted;
    var s' := WithDir(s, d, k, name, i);
    assert s.ino[d].nlink == 0 && d != ROOTINO && Live(s', d);
    var up := s.ino[d].ents[1].inum;
    NamedNowhere(s, d);
    assert !Holds(s', up, d);
  }

  lemma NamedNowhere(s: State, d: nat)
    requires Inv(s) && d in s.ino && s.ino[d].kind == Dir && s.ino[d].nlink == 0
    ensures forall e: nat, m: nat :: Live(s, e) && 2 <= m < |s.ino[e].ents| ==> s.ino[e].ents[m].inum != d
  {
    hide EntryOk, Anchored, Rooted;
    assert Counted(s, d);
    forall e: nat, m: nat | Live(s, e) && 2 <= m < |s.ino[e].ents| ensures s.ino[e].ents[m].inum != d {
      assert DirShape(s, e);
      RefsAre(s, d, e, m);
    }
  }

  lemma SmallImage()
    ensures GoodNames(["f"])
    ensures var s := Image(["f"], 0, 5);
      && s.pending == multiset{} && (forall i :: i in s.ino <==> 1 <= i < 5)
      && s.ino[1] == Inode(Dir, 1, [Entry(1, "."), Entry(1, ".."), Entry(2, "f")])
      && s.ino[2] == Inode(File, 1, []) && s.ino[3] == s.ino[4] == FREED
  {
    assert RootEntries(["f"], 0) == [Entry(1, "."), Entry(1, ".."), Entry(2, "f")];
  }

  /** An image with one file "f", a new directory "a" and a free inode. */
  method MadeDirectory() returns (t: Tree, d: nat)
    ensures fresh(t) && t.Valid() && t.ninodes == 5 && t.s.pending == multiset{} && (d == 3 || d == 4)
    ensures 1 in t.s.ino && t.s.ino[1] == Inode(Dir, 2, [Entry(1, "."), Entry(1, ".."), Entry(2, "f"), Entry(d, "a")])
    ensures d in t.s.ino && t.s.ino[d] == Inode(Dir, 1, [Entry(d, "."), Entry(1, "..")])
    ensures 2 in t.s.ino && t.s.ino[2] == Inode(File, 1, []) && 7 - d in t.s.ino && t.s.ino[7 - d].kind == Free
  {
    hide Inv, Put, Image, WithFreed;
    SmallImage();
    t := new Tree(["f"], 0, 5);
    assert t.s.ino[3].kind == Free;
    var a, k := t.Create(ROOTINO, "a", Dir, true, true);
    d := a.i;
    assert t.s.ino[1].ents == [Entry(1, "."), Entry(1, ".."), Entry(2, "f"), Entry(d, "a")];
  }

  /**
   What was made under a name is found by the next call: a file or device is opened as it is by a call
   that asks for a file, and every other call fails. Nothing changes then.
   */
  method CreateAgain(t: Tree, d: nat, name: string, kind: Kind, again: Kind, grow: bool, growd: bool)
    returns (i: nat, r: Result)
    requires t.Valid() && Live(t.s, d) && (kind == Dir ==> t.s.ino[d].nlink < MAXLINK) && kind != Free && again != Free
    requires NotIn(t.s.ino[d].ents, Short(name)) && !CannotMake(t.s, d, kind, grow, growd)
    modifies t
    ensures t.Valid() && i in old(t.s.ino) && old(t.s.ino[i].kind) == Free && i in t.s.ino && t.s.ino[i].kind == kind
    ensures t.s.ino[i].nlink == 1 && Holds(t.s, d, i)
    ensures r == if again == File && kind != Dir then Existing(i) else Failed
  {
    hide Inv, Put;
    ghost var k, s0 := 0, t.s;
    r, k := t.Create(d, name, kind, grow, growd);
    i := r.i;
    RoomFound(s0, d, k, name);
    ghost var s1 := t.s;
    assert s1.ino[d].ents[k] == Entry(i, Short(name));
    OnlySlot(s1, d, k);
    r, k := t.Create(d, name, again, grow, growd);
    assert t.s == s1;
  }

  /** A name is in one slot only. */
  lemma OnlySlot(s: State, d: nat, k: nat)
    requires Inv(s) && d in s.ino && s.ino[d].kind == Dir && k < |s.ino[d].ents| && s.ino[d].ents[k].inum != 0
    ensures forall j :: 0 <= j < |s.ino[d].ents| && j != k && s.ino[d].ents[j].inum != 0 ==>
      s.ino[d].ents[j].name != s.ino[d].ents[k].name
  {
    hide Counted, EntryOk, Anchored, Rooted;
    assert DirShape(s, d);
  }

  /** The directory has been unlinked, but somebody still refers to it. */
  method UnlinkedDirectory() returns (t: Tree, d: nat)
    ensures fresh(t) && t.Valid() && t.s.pending == multiset{}
    ensures d in t.s.ino && t.s.ino[d] == Inode(Dir, 0, [Entry(d, "."), Entry(ROOTINO, "..")])
    ensures 2 in t.s.ino && t.s.ino[2] == Inode(File, 1, []) && exists i :: i in t.s.ino && t.s.ino[i].kind == Free
  {
    hide Inv, Put;
    t, d := MadeDirectory();
    ghost var s := t.s;
    assert s.ino[1].ents[3] == Entry(d, "a") && Hollow(s.ino[d].ents);
    var ok, panic, k := t.Unlink(ROOTINO, "a", false);
    assert t.s.ino[7 - d].kind == Free;
  }

  /** It gets a new file, device or directory: the invariants are gone. */
  method UnlinkedGetsNew(kind: Kind) returns (t: Tree, r: Result)
    requires kind != Free
    ensures r.Made? && !Inv(t.s)
  {
    hide Inv, Put;
    var d;
    ghost var k;
    t, d := UnlinkedDirectory();
    r, k := t.Create(d, "b", kind, true, true);
  }

  /** It gets another link to a file: the same. */
  method UnlinkedGetsLink() returns (t: Tree, ok: bool)
    ensures ok && !Inv(t.s)
  {
    hide Inv, Put;
    var d;
    ghost var k;
    t, d := UnlinkedDirectory();
    ok := t.LinkBegin(2);
    ok, k := t.LinkEnd(d, "b", 2, true, false);
  }

  /** A directory "a" with a directory "b". */
  method NestedDirectories() returns (t: Tree, d: nat, e: nat)
    ensures fresh(t) && t.Valid() && {1, d, e} <= t.s.ino.Keys && d != 1 && e != 1 && e != d
    ensures t.s.ino[1] == Inode(Dir, 2, [Entry(1, "."), Entry(1, ".."), Entry(2, "f"), Entry(d, "a")])
    ensures t.s.ino[d] == Inode(Dir, 2, [Entry(d, "."), Entry(1, ".."), Entry(e, "b")])
    ensures t.s.ino[e] == Inode(Dir, 1, [Entry(e, "."), Entry(d, "..")])
  {
    hide Inv, Put, WithFreed;
    t, d := MadeDirectory();
    e := 7 - d;
    var r, k := t.Create(d, "b", Dir, true, true);
    assert r == Made(e) && k == 2;
    assert t.s.ino[d].ents == [Entry(d, "."), Entry(1, ".."), Entry(e, "b")];
  }

  /** Both have been unlinked; somebody still refers to "a/b", nobody to "a". */
  method UnlinkedPair() returns (t: Tree, d: nat, e: nat)
    ensures fresh(t) && t.Valid() && {d, e} <= t.s.ino.Keys
    ensures t.s.ino[d] == FREED && t.s.ino[e] == Inode(Dir, 0, [Entry(e, "."), Entry(d, "..")])
  {
    hide Inv, Put, WithFreed;
    t, d, e := NestedDirectories();
    var ok, panic;
    ghost var k;
    assert t.s.ino[d].ents[2] == Entry(e, "b");
    ok, panic, k := t.Unlink(d, "b", false);
    assert ok && k == 2;
    assert Hollow(t.s.ino[d].ents);
    assert t.s.ino[1].ents[3] == Entry(d, "a");
    ok, panic, k := t.Unlink(ROOTINO, "a", true);
    assert ok && k == 3;
  }

  /** A process that stayed in "a/b" creates "..": the kernel panics. */
  method UnlinkedPanics(kind: Kind) returns (t: Tree, r: Result)
    requires kind != Free
    ensures r.Panics?
  {
    hide Inv, Put;
    var d, e;
    ghost var k;
    t, d, e := UnlinkedPair();
    assert t.s.ino[e].ents[1].name == "..";
    r, k := t.Create(e, "..", kind, true, true);
  }

  // ------------------------------------------------------ a count at its limit

  /** A name for every number below 2^16. */
  function NameOf(k: nat): (r: string)
    requires k < 0x10000
    ensures |r| == 4 && r[0] == 'f'
  {
    var c := 0x100;
    ['f', (k / c + c) as char, (k % c + c) as char, 'x']
  }

  lemma NamesDiffer(j: nat, k: nat)
    requires j < k < 0x10000
    ensures NameOf(j) != NameOf(k)
  {
    assert j == j / 0x100 * 0x100 + j % 0x100 && k == k / 0x100 * 0x100 + k % 0x100;
    assert NameOf(j)[1] == NameOf(k)[1] ==> j / 0x100 == k / 0x100;
    assert NameOf(j)[2] == NameOf(k)[2] ==> j % 0x100 == k % 0x100;
  }

  /** Slot `j` of a directory that has `n` entries for inode 2 after its first `from` ones. */
  function Copies(from: seq<Entry>, n: nat): (r: seq<Entry>)
    requires |from| + n < 0x10000
    ensures |r| == |from| + n && forall j :: 0 <= j < |r| ==>
      r[j] == if j < |from| then from[j] else Entry(2, NameOf(j))
  {
    from + seq(n, k requires 0 <= k < n => Entry(2, NameOf(k + |from|)))
  }

  /** A file with `m + n` links, `m` in the root directory and `n` in a directory "d". */
  function ManyLinks(m: nat, n: nat): State
    requires m + n <= MAXLINK
  {
    var root := Copies([Entry(1, "."), Entry(1, ".."), Entry(3, "d")], m);
    State(map[1 := Inode(Dir, 2, root), 2 := Inode(File, m + n, []),
              3 := Inode(Dir, 1, Copies([Entry(3, "."), Entry(1, "..")], n))], multiset{})
  }

  lemma ManyLinksInv(m: nat, n: nat)
    requires m + n <= MAXLINK
    ensures Inv(ManyLinks(m, n))
  {
    hide Counted, DirShape, EntryOk, Copies, NameOf;
    var s := ManyLinks(m, n);
    assert forall d :: Live(s, d) <==> d == 1 || d == 3;
    forall i | i in s.ino ensures Counted(s, i) { ManyCounted(m, n, i); }
    forall d | d in s.ino && s.ino[d].kind == Dir ensures DirShape(s, d) { ManyShape(m, n, d); }
    forall d, k | Live(s, d) && 0 <= k < |s.ino[d].ents| ensures EntryOk(s, d, k) { ManyEntry(m, n, d, k); }
    assert s.ino[1].ents[2].inum == 3;
    assert Rooted(s) by { assert Above(s, 1, 0) == 1 && Above(s, Up(s, 3), 0) == 1 && Above(s, 3, 1) == 1; }
  }

  lemma ManyShape(m: nat, n: nat, d: nat)
    requires m + n <= MAXLINK && (d == 1 || d == 3)
    ensures DirShape(ManyLinks(m, n), d)
  {
    hide Copies, NameOf;
    var ents := ManyLinks(m, n).ino[d].ents;
    forall j, k | 0 <= j < k < |ents| && ents[j].inum != 0 && ents[k].inum != 0 ensures ents[j].name != ents[k].name {
      if j >= (if d == 1 then 3 else 2) { NamesDiffer(j, k); }
    }
  }

  lemma ManyEntry(m: nat, n: nat, d: nat, k: nat)
    requires m + n <= MAXLINK && (d == 1 || d == 3) && k < |ManyLinks(m, n).ino[d].ents|
    ensures EntryOk(ManyLinks(m, n), d, k)
  {
    hide Copies, NameOf;
  }

  /** Who names inode `i`. */
  ghost function ManyRefs(m: nat, n: nat, i: nat): set<(nat, nat)> {
    if i == 1 then {(1, 1), (3, 1)} else if i == 2 then Pairs(1, 3, m) + Pairs(3, 2, n) else {(1, 2)}
  }

  lemma ManyRefers(m: nat, n: nat, i: nat, d: nat, k: nat)
    requires m + n <= MAXLINK && 1 <= i <= 3
    ensures Refers(ManyLinks(m, n), d, k, i) <==> (d, k) in ManyRefs(m, n, i)
  {
    hide Copies, NameOf;
    assert (d, k) in Pairs(1, 3, m) <==> d == 1 && 3 <= k < m + 3;
    assert (d, k) in Pairs(3, 2, n) <==> d == 3 && 2 <= k < n + 2;
  }

  lemma ManyCounted(m: nat, n: nat, i: nat)
    requires m + n <= MAXLINK && 1 <= i <= 3
    ensures Counted(ManyLinks(m, n), i)
  {
    hide Copies, NameOf, Refers, Refs, Pairs;
    var s := ManyLinks(m, n);
    assert Refs(s, i) == ManyRefs(m, n, i) by {
      forall x ensures x in Refs(s, i) <==> x in ManyRefs(m, n, i) {
        RefsAre(s, i, x.0, x.1);
        ManyRefers(m, n, i, x.0, x.1);
      }
    }
    PairsCount(1, 3, m);
    PairsCount(3, 2, n);
    PairsApart(1, 3, m, 3, 2, n);
  }

  lemma PairsApart(d: nat, from: nat, m: nat, e: nat, from': nat, n: nat)
    requires d != e
    ensures Pairs(d, from, m) !! Pairs(e, from', n)
  {
  }

  ghost function Pairs(d: nat, from: nat, n: nat): set<(nat, nat)> {
    set k | from <= k < from + n :: (d, k)
  }

  lemma {:induction false} PairsCount(d: nat, from: nat, n: nat)
    ensures |Pairs(d, from, n)| == n
  {
    if n > 0 {
      PairsCount(d, from, n - 1);
      assert Pairs(d, from, n) == Pairs(d, from, n - 1) + {(d, from + n - 1)};
    } else {
      assert Pairs(d, from, n) == {};
    }
  }

  /** A file whose count is at its limit, in two directories that fit the file system, gets one more link. */
  lemma LinkLimit()
    ensures var s := ManyLinks(16383, 16384);
      && Inv(s) && s.ino[2].nlink == MAXLINK && |s.ino[1].ents| * 16 <= 268 * 1024 && |s.ino[3].ents| * 16 <= 268 * 1024
      && !Inv(State(s.ino[2 := s.ino[2].(nlink := Inc16(s.ino[2].nlink))], s.pending + multiset{2}))
  {
    hide Counted, DirShape, EntryOk, Anchored, Copies, NameOf, Rooted;
    ManyLinksInv(16383, 16384);
    var s := ManyLinks(16383, 16384);
    var s' := State(s.ino[2 := s.ino[2].(nlink := Inc16(s.ino[2].nlink))], s.pending + multiset{2});
    assert 2 in s'.ino && s'.ino[2].nlink < 0;
  }

  // ---------------------------------------------------------------------- mkfs

  function Shorts(names: seq<string>): (r: seq<Entry>)
    ensures |r| == |names| && forall k :: 0 <= k < |names| ==> r[k] == Entry(k + 2, Short(names[k]))
  {
    seq(|names|, k requires 0 <= k < |names| => Entry(k + 2, Short(names[k])))
  }

  /** The root directory of a new image: ".", "..", one entry per file, and empty slots to the end of its last block. */
  function RootEntries(names: seq<string>, pad: nat): seq<Entry> {
    [Entry(ROOTINO, "."), Entry(ROOTINO, "..")] + Shorts(names) + seq(pad, _ => EMPTY)
  }

  function Inums(n: nat): (r: set<nat>)
    ensures forall i :: i in r <==> 1 <= i < n
  {
    if n <= 1 then {} else Inums(n - 1) + {n - 1}
  }

  function Image(names: seq<string>, pad: nat, ninodes: nat): State {
    State(map i | i in Inums(ninodes) :: if i == ROOTINO then Inode(Dir, 1, RootEntries(names, pad))
                                      else if i < |names| + 2 then Inode(File, 1, []) else FREED, multiset{})
  }

  lemma RootSlots(names: seq<string>, pad: nat)
    ensures var r := RootEntries(names, pad);
      && |r| == 2 + |names| + pad && r[0] == Entry(ROOTINO, ".") && r[1] == Entry(ROOTINO, "..")
      && (forall k :: 2 <= k < |names| + 2 ==> r[k] == Entry(k, Short(names[k - 2])))
      && (forall k :: |names| + 2 <= k < |r| ==> r[k] == EMPTY)
  {
  }

  /** No two names agree in their first DIRSIZ characters, and none is "." or "..". */
  ghost predicate GoodNames(names: seq<string>) {
    && (forall k :: 0 <= k < |names| ==> Short(names[k]) != "." && Short(names[k]) != "..")
    && (forall j, k :: 0 <= j < k < |names| ==> Short(names[j]) != Short(names[k]))
  }

  /** The image that `mkfs` makes satisfies all this exactly if the names it is given are distinct once cut. */
  lemma MkfsImage(names: seq<string>, pad: nat, ninodes: nat)
    requires |names| + 2 <= ninodes
    ensures Inv(Image(names, pad, ninodes)) <==> GoodNames(names)
  {
    hide Inv, RootEntries;
    if GoodNames(names) {
      MkfsGood(names, pad, ninodes);
    } else if Inv(Image(names, pad, ninodes)) {
      MkfsOnly(names, pad, ninodes);
    }
  }

  lemma MkfsOnly(names: seq<string>, pad: nat, ninodes: nat)
    requires |names| + 2 <= ninodes && Inv(Image(names, pad, ninodes))
    ensures GoodNames(names)
  {
    hide Counted, EntryOk, Anchored, RootEntries, Rooted;
    var s := Image(names, pad, ninodes);
    RootSlots(names, pad);
    assert DirShape(s, ROOTINO);
    var r := s.ino[ROOTINO].ents;
    forall k | 0 <= k < |names| ensures Short(names[k]) != "." && Short(names[k]) != ".." {
      assert r[k + 2] == Entry(k + 2, Short(names[k]));
    }
    forall j, k | 0 <= j < k < |names| ensures Short(names[j]) != Short(names[k]) {
      assert r[j + 2] == Entry(j + 2, Short(names[j])) && r[k + 2] == Entry(k + 2, Short(names[k]));
    }
  }

  lemma MkfsGood(names: seq<string>, pad: nat, ninodes: nat)
    requires |names| + 2 <= ninodes && GoodNames(names)
    ensures Inv(Image(names, pad, ninodes))
  {
    hide Counted, DirShape, EntryOk, RootEntries;
    var s := Image(names, pad, ninodes);
    RootSlots(names, pad);
    assert forall d :: Live(s, d) <==> d == ROOTINO;
    forall i | i in s.ino ensures Counted(s, i) { MkfsCounted(names, pad, ninodes, i); }
    assert DirShape(s, ROOTINO) by { MkfsShape(names, pad, ninodes); }
    forall k | 0 <= k < |s.ino[ROOTINO].ents| ensures EntryOk(s, ROOTINO, k) { MkfsEntry(names, pad, ninodes, k); }
    assert Above(s, ROOTINO, 0) == ROOTINO;
  }

  lemma MkfsCounted(names: seq<string>, pad: nat, ninodes: nat, i: nat)
    requires |names| + 2 <= ninodes && GoodNames(names) && 1 <= i < ninodes
    ensures Counted(Image(names, pad, ninodes), i)
  {
    hide RootEntries;
    var s := Image(names, pad, ninodes);
    RootSlots(names, pad);
    var slot := if i == ROOTINO then 1 else i;
    if i < |names| + 2 {
      assert Refs(s, i) == {(ROOTINO, slot)} by {
        forall x ensures x in Refs(s, i) <==> x == (ROOTINO, slot) { RefsAre(s, i, x.0, x.1); }
      }
    }
  }

  lemma MkfsShape(names: seq<string>, pad: nat, ninodes: nat)
    requires |names| + 2 <= ninodes && GoodNames(names)
    ensures DirShape(Image(names, pad, ninodes), ROOTINO)
  {
    hide RootEntries;
    RootSlots(names, pad);
  }

  lemma MkfsEntry(names: seq<string>, pad: nat, ninodes: nat, k: nat)
    requires |names| + 2 <= ninodes && GoodNames(names) && k < |RootEntries(names, pad)|
    ensures EntryOk(Image(names, pad, ninodes), ROOTINO, k)
  {
    hide RootEntries;
    RootSlots(names, pad);
  }
}
