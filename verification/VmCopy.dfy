/**
 Copies between kernel and user memory (kernel/vm.c) as byte-by-byte access through a page
 table: what the kernel may touch at a user address, and what one page's worth of copying does.
 */
module VmCopy {
  import opened Blocks
  import opened VmSpec
  import opened VmMem

  const MAXVA := MAXVPN * PGSIZE

  /** May the user touch this virtual page: is it valid and marked with PTE_U? */
  predicate UserPage(m: Mem, root: nat, vpn: nat) {
    vpn < MAXVPN && PteValid(Leaf(m.tables, root, vpn)) && PteUser(Leaf(m.tables, root, vpn))
  }

  /** The byte at a user address, -1 where the user has no access. */
  ghost function UserByte(m: Mem, root: nat, va: nat): int {
    if UserPage(m, root, va / PGSIZE) && FrameOf(m, VPage(root, va / PGSIZE)) in m.frames
    then DataOf(m, VPage(root, va / PGSIZE))[va % PGSIZE]
    else -1
  }

  /** The trapframe and trampoline pages are not for the user. */
  ghost predicate TopHidden(m: Mem, f: Forest) {
    forall r, v :: f.IsRoot(r) && USERTOP <= v < MAXVPN ==> !UserPage(m, r, v)
  }

  /** What does not change the pages above the user's does not open them. */
  lemma TopKept(m: Mem, f: Forest, m': Mem, f': Forest)
    requires TopHidden(m, f) && forall r :: f'.IsRoot(r) ==> f.IsRoot(r)
    requires forall r, v :: f'.IsRoot(r) && USERTOP <= v < MAXVPN ==> Leaf(m'.tables, r, v) == Leaf(m.tables, r, v)
    ensures TopHidden(m', f')
  {
    hide Leaf, PteValid, PteUser;
    forall r, v | f'.IsRoot(r) && USERTOP <= v < MAXVPN ensures !UserPage(m', r, v) {
      assert !UserPage(m, r, v);
    }
  }

  /** A page the user may touch is backed by a frame of its own. */
  lemma UserPageFrame(m: Mem, f: Forest, owner: map<nat, VPage>, root: nat, vpn: nat)
    requires Sound(m, f) && Owned(m, f, owner, {}) && TopHidden(m, f) && f.IsRoot(root) && UserPage(m, root, vpn)
    ensures var p := FrameOf(m, VPage(root, vpn));
      Maps(m, f, VPage(root, vpn)) && p in m.frames && p != 0 && p in owner && owner[p] == VPage(root, vpn)
  {
    hide Trees, Leaf, PteValid, PteUser, PtePage, Union;
    assert Maps(m, f, VPage(root, vpn));
  }

  lemma SamePage(va: nat, i: nat)
    requires va % PGSIZE + i < PGSIZE
    ensures (va + i) / PGSIZE == va / PGSIZE && (va + i) % PGSIZE == va % PGSIZE + i
  {
  }

  lemma NextPage(va: nat)
    ensures var n := PGSIZE - va % PGSIZE; va / PGSIZE * PGSIZE + PGSIZE == va + n && n > 0
  {
  }

  /** The bytes of one page. */
  lemma PageBytes(m: Mem, root: nat, va: nat, n: nat)
    requires va % PGSIZE + n <= PGSIZE
    ensures UserPage(m, root, va / PGSIZE) && FrameOf(m, VPage(root, va / PGSIZE)) in m.frames ==>
      forall a :: va <= a < va + n ==> UserByte(m, root, a) == DataOf(m, VPage(root, va / PGSIZE))[va % PGSIZE + (a - va)]
    ensures !UserPage(m, root, va / PGSIZE) ==> forall a :: va <= a < va + n ==> UserByte(m, root, a) == -1
  {
    hide UserPage, FrameOf;
    forall a | va <= a < va + n ensures a / PGSIZE == va / PGSIZE && a % PGSIZE == va % PGSIZE + (a - va) {
      SamePage(va, a - va);
    }
  }

  /** The bytes `s` now stand at `va`; no other byte of any user, and nothing else, has changed. */
  ghost predicate Stored(m: Mem, f: Forest, root: nat, va: nat, s: seq<Byte>, m': Mem) {
    && m'.tables == m.tables && m'.free == m.free && m'.frames.Keys == m.frames.Keys
    && (forall r, a :: f.IsRoot(r) && 0 <= a ==>
          UserByte(m', r, a) == if r == root && va <= a < va + |s| then s[a - va] else UserByte(m, r, a))
  }

  lemma StoredMore(m: Mem, f: Forest, root: nat, va: nat, s: seq<Byte>, m1: Mem, t: seq<Byte>, m2: Mem)
    requires Stored(m, f, root, va, s, m1) && Stored(m1, f, root, va + |s|, t, m2)
    ensures Stored(m, f, root, va, s + t, m2)
  {
    hide UserByte;
    forall r, a | f.IsRoot(r) && 0 <= a
      ensures UserByte(m2, r, a) == if r == root && va <= a < va + |s + t| then (s + t)[a - va] else UserByte(m, r, a)
    {
      assert UserByte(m1, r, a) == if r == root && va <= a < va + |s| then s[a - va] else UserByte(m, r, a);
    }
  }

  /** One chunk of `copy_to_user`. */
  function WithBytes(m: Mem, p: nat, off: nat, s: seq<Byte>): Mem
    requires p in m.frames && off + |s| <= PGSIZE
  {
    var b := m.frames[p];
    m.(frames := m.frames[p := b[..off] + s + b[off + |s|..]])
  }

  lemma StoreChunk(m: Mem, f: Forest, owner: map<nat, VPage>, root: nat, va: nat, s: seq<Byte>)
    requires Sound(m, f) && Owned(m, f, owner, {}) && TopHidden(m, f) && f.IsRoot(root)
    requires UserPage(m, root, va / PGSIZE) && va % PGSIZE + |s| <= PGSIZE
    ensures var p := FrameOf(m, VPage(root, va / PGSIZE));
      p in m.frames && Stored(m, f, root, va, s, WithBytes(m, p, va % PGSIZE, s))
  {
    hide Sound, Owned, UserPage, PtePage, Leaf;
    UserPageFrame(m, f, owner, root, va / PGSIZE);
    var p := FrameOf(m, VPage(root, va / PGSIZE));
    var m' := WithBytes(m, p, va % PGSIZE, s);
    forall r, a | f.IsRoot(r) && 0 <= a
      ensures UserByte(m', r, a) == if r == root && va <= a < va + |s| then s[a - va] else UserByte(m, r, a)
    {
      StoreByte(m, f, owner, root, va, s, r, a);
    }
  }

  lemma StoreByte(m: Mem, f: Forest, owner: map<nat, VPage>, root: nat, va: nat, s: seq<Byte>, r: nat, a: nat)
    requires Sound(m, f) && Owned(m, f, owner, {}) && TopHidden(m, f) && f.IsRoot(root) && f.IsRoot(r)
    requires UserPage(m, root, va / PGSIZE) && va % PGSIZE + |s| <= PGSIZE
    ensures var p := FrameOf(m, VPage(root, va / PGSIZE));
      p in m.frames && UserByte(WithBytes(m, p, va % PGSIZE, s), r, a)
        == if r == root && va <= a < va + |s| then s[a - va] else UserByte(m, r, a)
  {
    hide Sound, Owned, UserPage, PtePage, Leaf, TopHidden;
    UserPageFrame(m, f, owner, root, va / PGSIZE);
    var p := FrameOf(m, VPage(root, va / PGSIZE));
    var m' := WithBytes(m, p, va % PGSIZE, s);
    SamePages(m, p, va % PGSIZE, s, r, a / PGSIZE);
    if UserPage(m, r, a / PGSIZE) {
      UserPageFrame(m, f, owner, r, a / PGSIZE);
      if FrameOf(m, VPage(r, a / PGSIZE)) == p {
        assert r == root && a / PGSIZE == va / PGSIZE;
        Offsets(va, a, |s|);
      } else if va <= a < va + |s| {
        SamePage(va, a - va);
      }
    } else if va <= a < va + |s| {
      SamePage(va, a - va);
    }
  }

  lemma SamePages(m: Mem, p: nat, off: nat, s: seq<Byte>, r: nat, v: nat)
    requires p in m.frames && off + |s| <= PGSIZE
    ensures var m' := WithBytes(m, p, off, s);
      && UserPage(m', r, v) == UserPage(m, r, v) && FrameOf(m', VPage(r, v)) == FrameOf(m, VPage(r, v))
  {
  }

  lemma Offsets(va: nat, a: nat, n: nat)
    requires va / PGSIZE == a / PGSIZE && va % PGSIZE + n <= PGSIZE
    ensures va <= a < va + n <==> va % PGSIZE <= a % PGSIZE < va % PGSIZE + n
    ensures a - va == a % PGSIZE - va % PGSIZE
  {
  }

  lemma StoredValid(m: Mem, f: Forest, owner: map<nat, VPage>, root: nat, va: nat, s: seq<Byte>, m': Mem)
    requires Sound(m, f) && Owned(m, f, owner, {}) && TopHidden(m, f) && Stored(m, f, root, va, s, m')
    ensures Sound(m', f) && Owned(m', f, owner, {}) && TopHidden(m', f)
  {
    hide Trees, Leaf, PteValid, PteUser, PtePage, Parted, UserByte;
    OwnedKeeps(m, f, owner, {}, m', f);
    assert forall r, v :: UserPage(m', r, v) == UserPage(m, r, v);
  }

  lemma StoredNone(m: Mem, f: Forest, root: nat, va: nat)
    ensures Stored(m, f, root, va, [], m)
  {
    hide UserByte;
  }

  /** Beyond the bytes stored so far the address space is as it was. */
  lemma StoredElsewhere(m: Mem, f: Forest, root: nat, va: nat, s: seq<Byte>, m': Mem, a: nat)
    requires f.IsRoot(root) && Stored(m, f, root, va, s, m') && a >= va + |s|
    ensures UserByte(m', root, a) == UserByte(m, root, a)
  {
    hide UserByte;
  }
}
