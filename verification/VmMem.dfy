/**
 Physical memory as kernel/vm.c and kernel/kalloc.c share it out: pages on the free list,
 page-table pages, and user frames. Nothing is ever in two of these, and no operation loses
 or gains a page.
 */
module VmMem {
  import opened Blocks
  import opened VmSpec

  type Frame = s: seq<Byte> | |s| == PGSIZE witness seq(PGSIZE, _ => 0)

  function ZeroFrame(): Frame {
    seq(PGSIZE, _ => 0)
  }

  /** Pages are physical page numbers; page 0 stands for the null pointer. */
  datatype Mem = Mem(free: seq<nat>, tables: Tables, frames: map<nat, Frame>)

  ghost predicate Distinct(s: seq<nat>) {
    forall i, j :: 0 <= i < j < |s| ==> s[i] != s[j]
  }

  ghost function Pages(m: Mem): set<nat> {
    Union(m.free, m.tables.Keys, m.frames.Keys)
  }

  /** The trees are well formed, and free list, tables and frames are a partition without page 0. */
  ghost predicate Sound(m: Mem, f: Forest) {
    Trees(m.tables, f) && Parted(m.free, m.tables.Keys, m.frames.Keys)
  }

  ghost predicate SameLeaves(m: Mem, m': Mem, f: Forest) {
    forall r, v :: f.IsRoot(r) && 0 <= v < MAXVPN ==> Leaf(m'.tables, r, v) == Leaf(m.tables, r, v)
  }

  /** Only empty page-table pages have been added: no mapping, no frame and no page total changed. */
  ghost predicate Extended(m: Mem, f: Forest, m': Mem, f': Forest) {
    && Sound(m', f') && Pages(m') == Pages(m) && m'.frames == m.frames
    && (forall r :: f'.IsRoot(r) <==> f.IsRoot(r))
    && (forall p :: p in f.table ==> p in f'.table && f'.table[p] == f.table[p])
    && SameLeaves(m, m', f)
  }

  lemma ExtendedTransitive(m: Mem, f: Forest, m1: Mem, f1: Forest, m2: Mem, f2: Forest)
    requires Extended(m, f, m1, f1) && Extended(m1, f1, m2, f2)
    ensures Extended(m, f, m2, f2)
  {
    hide Sound, Leaf;
    forall r, v | f.IsRoot(r) && 0 <= v < MAXVPN ensures Leaf(m2.tables, r, v) == Leaf(m.tables, r, v) {
      assert Leaf(m1.tables, r, v) == Leaf(m.tables, r, v);
    }
  }

  /** The free list, a set of tables and a set of frames are a partition without page 0. */
  ghost predicate Parted(free: seq<nat>, tables: set<nat>, frames: set<nat>) {
    && Distinct(free) && 0 !in free && 0 !in frames && tables !! frames
    && (forall p :: p in free ==> p !in tables && p !in frames)
  }

  ghost function Union(free: seq<nat>, tables: set<nat>, frames: set<nat>): set<nat> {
    (set p | p in free) + tables + frames
  }

  /** The first free page becomes a table or a frame. */
  lemma PopParted(free: seq<nat>, tables: set<nat>, frames: set<nat>)
    requires Parted(free, tables, frames) && free != []
    ensures free[0] != 0 && free[0] !in tables && free[0] !in frames
    ensures Parted(free[1..], tables + {free[0]}, frames) && Parted(free[1..], tables, frames + {free[0]})
    ensures Union(free[1..], tables + {free[0]}, frames) == Union(free, tables, frames)
    ensures Union(free[1..], tables, frames + {free[0]}) == Union(free, tables, frames)
  {
    assert free == [free[0]] + free[1..];
    assert free[0] in free;
    assert forall p :: p in free[1..] ==> p in free && p != free[0];
  }

  /** `walk` takes a page from the free list and hangs it into the tree. */
  lemma ExtendOnce(m: Mem, f: Forest, t: nat, i: nat)
    requires Sound(m, f) && m.free != [] && t in m.tables && !f.node[t].at.Low? && i < PTES
    requires Below(f, t, i) !in f.table && IsNode(Below(f, t, i).at)
    ensures i < |m.tables[t]|
    ensures Extended(m, f, Mem(m.free[1..], AddTable(m.tables, t, i, m.free[0]), m.frames),
                     AddPlace(f, Below(f, t, i), m.free[0]))
  {
    hide Rooted, Pointers, Leaves, MkPte, Leaf, Parted, Union;
    var c := m.free[0];
    PopParted(m.free, m.tables.Keys, m.frames.Keys);
    AddTableKeeps(m.tables, f, t, i, c);
    assert AddTable(m.tables, t, i, c).Keys == m.tables.Keys + {c};
  }

  /** The place of the level-`level` table for a virtual page. */
  ghost function PlaceAt(root: nat, vpn: nat, level: nat): Place
    requires level < 3
  {
    if level == 2 then Place(root, Root) else if level == 1 then Place(root, Mid(Px(2, vpn))) else LowPlace(root, vpn)
  }

  /** What `walk` does below MAXVA: it finds the level-0 table, and adds tables only if told to. */
  ghost predicate Walked(m: Mem, f: Forest, root: nat, vpn: nat, alloc: bool, t: nat, m': Mem, f': Forest) {
    && Extended(m, f, m', f')
    && (!alloc ==> m' == m && f' == f)
    && t == (if LowPlace(root, vpn) in f'.table then f'.table[LowPlace(root, vpn)] else 0)
    && (alloc && t == 0 ==> m'.free == []) && |m.free| - 2 <= |m'.free| <= |m.free|
  }

  lemma ExtendedSame(m: Mem, f: Forest)
    requires Sound(m, f)
    ensures Extended(m, f, m, f)
  {
  }

  lemma RootIs(m: Mem, f: Forest, root: nat)
    requires Sound(m, f) && f.IsRoot(root)
    ensures root in m.tables && f.table[Place(root, Root)] == root
  {
  }

  lemma TableIsPage(m: Mem, f: Forest, p: Place)
    requires Sound(m, f) && p in f.table
    ensures f.table[p] in m.tables && |m.tables[f.table[p]]| == PTES && f.table[p] != 0
  {
  }

  /** One level of `walk`: the entry is valid exactly if there is a table below it. */
  lemma StepDown(m: Mem, f: Forest, root: nat, vpn: nat, level: nat)
    requires Sound(m, f) && 0 < level < 3 && PlaceAt(root, vpn, level) in f.table
    ensures var t, i := f.table[PlaceAt(root, vpn, level)], Px(level, vpn);
      && t in m.tables && |m.tables[t]| == PTES && t in f.node && !f.node[t].at.Low?
      && Below(f, t, i) == PlaceAt(root, vpn, level - 1)
      && (vpn < MAXVPN ==> IsNode(Below(f, t, i).at))
      && (PteValid(m.tables[t][i]) <==> Below(f, t, i) in f.table)
      && (PteValid(m.tables[t][i]) ==> PtePage(m.tables[t][i]) == f.table[Below(f, t, i)])
  {
    hide Px;
    var t, i := f.table[PlaceAt(root, vpn, level)], Px(level, vpn);
    assert f.node[t] == PlaceAt(root, vpn, level);
    if vpn < MAXVPN { TopHalf(vpn); }
    if Below(f, t, i) in f.table { PteFields(f.table[Below(f, t, i)], 0); }
  }

  /** Without a table below level 1 or 2 there is no level-0 table. */
  lemma NoWayDown(m: Mem, f: Forest, root: nat, vpn: nat, level: nat)
    requires Sound(m, f) && 0 < level < 3 && PlaceAt(root, vpn, level - 1) !in f.table
    ensures LowPlace(root, vpn) !in f.table
  {
    hide Px;
    if level == 2 { NothingBelow(m.tables, f, PlaceAt(root, vpn, 1), Px(1, vpn)); }
  }

  // ------------------------------------------------------------------- mapping

  /**
   `k` pages from virtual page `a` of one tree now map to consecutive physical pages; every
   other mapping of every tree, all frames and the page total are as before.
   */
  ghost predicate Mapped(m: Mem, f: Forest, root: nat, a: nat, k: nat, page: nat, perm: nat, m': Mem, f': Forest)
    requires perm < 1024
  {
    && Sound(m', f') && Pages(m') == Pages(m) && m'.frames == m.frames && a + k <= MAXVPN
    && (forall r :: f'.IsRoot(r) <==> f.IsRoot(r))
    && (forall r, v :: f.IsRoot(r) && 0 <= v < MAXVPN ==>
          Leaf(m'.tables, r, v) == if r == root && a <= v < a + k then MkPte(page + (v - a), perm) else Leaf(m.tables, r, v))
  }

  lemma MappedNone(m: Mem, f: Forest, root: nat, a: nat, page: nat, perm: nat)
    requires Sound(m, f) && perm < 1024 && a <= MAXVPN
    ensures Mapped(m, f, root, a, 0, page, perm, m, f)
  {
  }

  function WithEntry(m: Mem, t: nat, vpn: nat, p: nat): Mem
    requires t in m.tables && |m.tables[t]| == PTES
  {
    m.(tables := SetPte(m.tables, t, Px(0, vpn), p))
  }

  /** Storing an entry in the level-0 table. */
  lemma EntrySet(m: Mem, f: Forest, root: nat, vpn: nat, p: nat)
    requires Sound(m, f) && f.IsRoot(root) && vpn < MAXVPN
    requires LowPlace(root, vpn) in f.table && (p != 0 ==> PteValid(p) && PteLeaf(p))
    ensures var t := f.table[LowPlace(root, vpn)];
      && t in m.tables && |m.tables[t]| == PTES && t != 0
      && m.tables[t][Px(0, vpn)] == Leaf(m.tables, root, vpn)
      && var m' := WithEntry(m, t, vpn, p);
      && Sound(m', f) && Pages(m') == Pages(m) && Leaf(m'.tables, root, vpn) == p
      && SameLeavesBut(m.tables, m'.tables, f, root, vpn)
  {
    hide Rooted, Pointers, Leaves, Leaf, Px, PteValid, PteLeaf;
    TableIsPage(m, f, LowPlace(root, vpn));
    LeafIs(m.tables, f, root, vpn);
    SetLeaf(m.tables, f, root, vpn, p);
    assert WithEntry(m, f.table[LowPlace(root, vpn)], vpn, p).tables.Keys == m.tables.Keys;
  }

  /** One more page of `mappages`. */
  lemma MapOne(m: Mem, f: Forest, root: nat, a: nat, k: nat, page: nat, perm: nat, m1: Mem, f1: Forest,
               t: nat, m2: Mem, f2: Forest)
    requires perm < 1024 && PteLeaf(perm) && f.IsRoot(root) && a + k < MAXVPN
    requires Mapped(m, f, root, a, k, page, perm, m1, f1)
    requires Walked(m1, f1, root, a + k, true, t, m2, f2) && t != 0
    ensures t in m2.tables && |m2.tables[t]| == PTES
    ensures m2.tables[t][Px(0, a + k)] == Leaf(m.tables, root, a + k)
    ensures Mapped(m, f, root, a, k + 1, page, perm, WithEntry(m2, t, a + k, MkPte(page + k, perm)), f2)
  {
    hide Sound, Pages, Leaf, Px, MkPte, PteLeaf, PteValid, WithEntry;
    PteFields(page + k, perm);
    EntrySet(m2, f2, root, a + k, MkPte(page + k, perm));
    var m3 := WithEntry(m2, t, a + k, MkPte(page + k, perm));
    assert m3.frames == m2.frames by { WithEntryFrames(m2, t, a + k, MkPte(page + k, perm)); }
    assert Leaf(m2.tables, root, a + k) == Leaf(m1.tables, root, a + k) == Leaf(m.tables, root, a + k);
    forall r, v | f.IsRoot(r) && 0 <= v < MAXVPN
      ensures Leaf(m3.tables, r, v) ==
        if r == root && a <= v < a + k + 1 then MkPte(page + (v - a), perm) else Leaf(m.tables, r, v)
    {
      assert f2.IsRoot(r) && f1.IsRoot(r);
      assert Leaf(m2.tables, r, v) == Leaf(m1.tables, r, v);
    }
  }

  lemma WithEntryFrames(m: Mem, t: nat, vpn: nat, p: nat)
    requires t in m.tables && |m.tables[t]| == PTES
    ensures WithEntry(m, t, vpn, p).frames == m.frames
  {
  }

  lemma MappedThenExtended(m: Mem, f: Forest, root: nat, a: nat, k: nat, page: nat, perm: nat, m1: Mem, f1: Forest,
                           m2: Mem, f2: Forest)
    requires perm < 1024 && Mapped(m, f, root, a, k, page, perm, m1, f1) && Extended(m1, f1, m2, f2)
    ensures Mapped(m, f, root, a, k, page, perm, m2, f2)
  {
    hide Sound, Pages, Leaf, MkPte;
    forall r, v | f.IsRoot(r) && 0 <= v < MAXVPN
      ensures Leaf(m2.tables, r, v) ==
        if r == root && a <= v < a + k then MkPte(page + (v - a), perm) else Leaf(m.tables, r, v)
    {
      assert f1.IsRoot(r);
      assert Leaf(m2.tables, r, v) == Leaf(m1.tables, r, v);
    }
  }

  // ----------------------------------------------------------------- ownership

  datatype VPage = VPage(root: nat, vpn: nat)

  /** User pages lie below the trapframe and the trampoline, which no tree owns. */
  const USERTOP := MAXVPN - 2

  /** A user page of a tree that is mapped. */
  ghost predicate Maps(m: Mem, f: Forest, u: VPage) {
    f.IsRoot(u.root) && u.vpn < USERTOP && PteValid(Leaf(m.tables, u.root, u.vpn))
  }

  ghost function FrameOf(m: Mem, u: VPage): nat {
    PtePage(Leaf(m.tables, u.root, u.vpn))
  }

  /**
   Frames and mapped user pages are in bijection, but for `loose` frames, allocated and not
   yet mapped: no frame is mapped twice, none is lost.
   */
  ghost predicate Owned(m: Mem, f: Forest, owner: map<nat, VPage>, loose: set<nat>) {
    && m.frames.Keys == owner.Keys + loose && owner.Keys !! loose
    && (forall p :: p in owner ==> Maps(m, f, owner[p]) && FrameOf(m, owner[p]) == p)
    && (forall u :: Maps(m, f, u) ==> FrameOf(m, u) in owner && owner[FrameOf(m, u)] == u)
  }

  /** Ownership only depends on frames and user mappings. */
  lemma OwnedKeeps(m: Mem, f: Forest, owner: map<nat, VPage>, loose: set<nat>, m': Mem, f': Forest)
    requires Owned(m, f, owner, loose) && m'.frames.Keys == m.frames.Keys
    requires forall r :: f'.IsRoot(r) <==> f.IsRoot(r)
    requires forall r, v :: f.IsRoot(r) && 0 <= v < USERTOP ==> Leaf(m'.tables, r, v) == Leaf(m.tables, r, v)
    ensures Owned(m', f', owner, loose)
  {
    hide Leaf, PteValid, PtePage;
    forall u: VPage ensures Maps(m', f', u) <==> Maps(m, f, u) { }
  }

  ghost function WithoutRange(owner: map<nat, VPage>, root: nat, a: nat, k: nat): map<nat, VPage> {
    map p | p in owner && !(owner[p].root == root && a <= owner[p].vpn < a + k) :: owner[p]
  }

  /**
   `k` pages from virtual page `a` of one tree are unmapped and their frames are free again;
   every other mapping and frame is as before, and no page was lost.
   */
  ghost predicate FreedRange(m: Mem, f: Forest, owner: map<nat, VPage>, root: nat, a: nat, k: nat, m': Mem) {
    && Sound(m', f) && Pages(m') == Pages(m) && m'.tables.Keys == m.tables.Keys && a + k <= USERTOP
    && Owned(m', f, WithoutRange(owner, root, a, k), {})
    && (forall p :: p in m'.frames ==> p in m.frames && m'.frames[p] == m.frames[p])
    && (forall r, v :: f.IsRoot(r) && 0 <= v < MAXVPN ==>
          Leaf(m'.tables, r, v) == if r == root && a <= v < a + k then 0 else Leaf(m.tables, r, v))
  }

  /** `kfree` of a frame. */
  function Kfreed(m: Mem, p: nat): Mem {
    m.(free := [p] + m.free, frames := m.frames - {p})
  }

  lemma PushParted(free: seq<nat>, tables: set<nat>, frames: set<nat>, p: nat)
    requires Parted(free, tables, frames) && p in frames
    ensures Parted([p] + free, tables, frames - {p})
    ensures Union([p] + free, tables, frames - {p}) == Union(free, tables, frames)
  {
    assert forall q :: q in [p] + free <==> q == p || q in free;
  }

  /** One more page of `uvm_unmap` with freeing. */
  lemma FreeOne(m: Mem, f: Forest, owner: map<nat, VPage>, root: nat, a: nat, k: nat, m1: Mem)
    requires f.IsRoot(root) && a + k < USERTOP && FreedRange(m, f, owner, root, a, k, m1)
    requires Owned(m, f, owner, {})
    requires PteValid(Leaf(m1.tables, root, a + k)) && LowPlace(root, a + k) in f.table
    ensures var t, p := f.table[LowPlace(root, a + k)], FrameOf(m1, VPage(root, a + k));
      && t in m1.tables && |m1.tables[t]| == PTES && p in m1.frames
      && FreedRange(m, f, owner, root, a, k + 1, WithEntry(Kfreed(m1, p), t, a + k, 0))
  {
    hide Sound, Pages, Leaf, Px, PtePage, PteValid, PteLeaf, Owned, Maps;
    var t, u := f.table[LowPlace(root, a + k)], VPage(root, a + k);
    var p := FrameOf(m1, u);
    MapsFrame(m1, f, WithoutRange(owner, root, a, k), u);
    var m2 := Kfreed(m1, p);
    KfreedSound(m1, f, p);
    ZeroPte();
    EntrySet(m2, f, root, a + k, 0);
    var m3 := WithEntry(m2, t, a + k, 0);
    FreedOneOwned(m1, f, WithoutRange(owner, root, a, k), u, m3);
    assert WithoutRange(WithoutRange(owner, root, a, k), root, a + k, 1) == WithoutRange(owner, root, a, k + 1);
    assert m3.tables.Keys == m1.tables.Keys;
  }

  lemma MapsFrame(m: Mem, f: Forest, owner: map<nat, VPage>, u: VPage)
    requires Owned(m, f, owner, {}) && f.IsRoot(u.root) && u.vpn < USERTOP && PteValid(Leaf(m.tables, u.root, u.vpn))
    ensures Maps(m, f, u) && FrameOf(m, u) in m.frames
  {
    assert Maps(m, f, u);
  }

  lemma KfreedSound(m: Mem, f: Forest, p: nat)
    requires Sound(m, f) && p in m.frames
    ensures Sound(Kfreed(m, p), f) && Pages(Kfreed(m, p)) == Pages(m)
  {
    hide Trees, Parted, Union;
    PushParted(m.free, m.tables.Keys, m.frames.Keys, p);
    assert Kfreed(m, p).frames.Keys == m.frames.Keys - {p};
  }

  /** Dropping one mapping with its frame keeps the bijection. */
  lemma FreedOneOwned(m: Mem, f: Forest, owner: map<nat, VPage>, u: VPage, m': Mem)
    requires Owned(m, f, owner, {}) && Maps(m, f, u)
    requires m'.frames == m.frames - {FrameOf(m, u)} && Leaf(m'.tables, u.root, u.vpn) == 0
    requires SameLeavesBut(m.tables, m'.tables, f, u.root, u.vpn)
    ensures Owned(m', f, WithoutRange(owner, u.root, u.vpn, 1), {})
  {
    hide Leaf, PtePage;
    ZeroPte();
    var owner' := WithoutRange(owner, u.root, u.vpn, 1);
    forall w: VPage | w != u && f.IsRoot(w.root) && w.vpn < USERTOP
      ensures (Maps(m', f, w) <==> Maps(m, f, w)) && FrameOf(m', w) == FrameOf(m, w)
    {
      assert Leaf(m'.tables, w.root, w.vpn) == Leaf(m.tables, w.root, w.vpn);
    }
    assert !Maps(m', f, u);
    assert forall p :: p in owner ==> (p in owner' <==> owner[p] != u);
  }

  lemma FreedNone(m: Mem, f: Forest, owner: map<nat, VPage>, root: nat, a: nat)
    requires Sound(m, f) && Owned(m, f, owner, {}) && a <= USERTOP
    ensures FreedRange(m, f, owner, root, a, 0, m)
  {
    assert WithoutRange(owner, root, a, 0) == owner;
  }

  /** `k` pages from `a` of one tree are unmapped; their physical pages are not touched. */
  ghost predicate UnmappedRange(m: Mem, f: Forest, root: nat, a: nat, k: nat, m': Mem) {
    && Sound(m', f) && m'.free == m.free && m'.frames == m.frames && m'.tables.Keys == m.tables.Keys && a + k <= MAXVPN
    && (forall r, v :: f.IsRoot(r) && 0 <= v < MAXVPN ==>
          Leaf(m'.tables, r, v) == if r == root && a <= v < a + k then 0 else Leaf(m.tables, r, v))
  }

  lemma UnmapOne(m: Mem, f: Forest, root: nat, a: nat, k: nat, m1: Mem)
    requires f.IsRoot(root) && a + k < MAXVPN && UnmappedRange(m, f, root, a, k, m1) && LowPlace(root, a + k) in f.table
    ensures var t := f.table[LowPlace(root, a + k)];
      && t in m1.tables && |m1.tables[t]| == PTES
      && UnmappedRange(m, f, root, a, k + 1, WithEntry(m1, t, a + k, 0))
  {
    hide Sound, Leaf, Px, PteValid, PteLeaf;
    ZeroPte();
    EntrySet(m1, f, root, a + k, 0);
    assert WithEntry(m1, f.table[LowPlace(root, a + k)], a + k, 0).tables.Keys == m1.tables.Keys;
  }

  /** The level-0 entry that `walk` leads to is the leaf, and a valid one is no bare pointer. */
  lemma WalkedLeaf(m: Mem, f: Forest, root: nat, vpn: nat, t: nat)
    requires Sound(m, f) && f.IsRoot(root) && Walked(m, f, root, vpn, false, t, m, f)
    ensures t == 0 ==> Leaf(m.tables, root, vpn) == 0
    ensures t != 0 ==> t in m.tables && |m.tables[t]| == PTES && m.tables[t][Px(0, vpn)] == Leaf(m.tables, root, vpn)
    ensures t != 0 ==> LowPlace(root, vpn) in f.table && f.table[LowPlace(root, vpn)] == t
    ensures PteValid(Leaf(m.tables, root, vpn)) ==> PteFlags(Leaf(m.tables, root, vpn)) != PTE_V
  {
    hide Px, Leaf;
    LeafIs(m.tables, f, root, vpn);
    LeafIsZeroOrValid(m.tables, f, root, vpn);
    ZeroPte();
    LeafFlags(Leaf(m.tables, root, vpn));
  }

  lemma LeafFlags(p: nat)
    ensures PteLeaf(p) ==> PteFlags(p) != PTE_V
  {
  }

  // ------------------------------------------------------------------- growing

  /** The first free page becomes a frame with the given contents. */
  function TakeFrame(m: Mem, b: Frame): Mem
    requires m.free != []
  {
    m.(free := m.free[1..], frames := m.frames[m.free[0] := b])
  }

  lemma TakeFrameSound(m: Mem, f: Forest, b: Frame)
    requires Sound(m, f) && m.free != []
    ensures Sound(TakeFrame(m, b), f) && Pages(TakeFrame(m, b)) == Pages(m) && m.free[0] !in m.frames
  {
    hide Trees, Parted, Union;
    PopParted(m.free, m.tables.Keys, m.frames.Keys);
    assert TakeFrame(m, b).frames.Keys == m.frames.Keys + {m.free[0]};
  }

  /**
   `k` pages from `a` of one tree are newly mapped, each to a frame that was free before; all
   other mappings and frames are as before, and no page was lost.
   */
  ghost predicate Grew(m: Mem, f: Forest, owner: map<nat, VPage>, root: nat, a: nat, k: nat,
                       m': Mem, f': Forest, owner': map<nat, VPage>)
  {
    && Sound(m', f') && Pages(m') == Pages(m) && Owned(m', f', owner', {}) && a + k <= USERTOP
    && (forall r :: f'.IsRoot(r) <==> f.IsRoot(r))
    && (forall p :: p in m.frames ==> p in m'.frames && m'.frames[p] == m.frames[p])
    && (forall r, v :: f.IsRoot(r) && 0 <= v < MAXVPN && !(r == root && a <= v < a + k) ==>
          Leaf(m'.tables, r, v) == Leaf(m.tables, r, v))
    && (forall v :: a <= v < a + k ==> NewPage(m, m', VPage(root, v)))
    && WithoutRange(owner', root, a, k) == owner
  }

  /** A user page mapped to a frame that was not a frame before. */
  ghost predicate NewPage(m: Mem, m': Mem, u: VPage) {
    && PteValid(Leaf(m'.tables, u.root, u.vpn))
    && FrameOf(m', u) in m'.frames && FrameOf(m', u) !in m.frames
  }

  /** A user page with the given permissions and contents. */
  ghost predicate PageIs(m: Mem, u: VPage, perm: nat, b: Frame) {
    && perm < 1024 && Leaf(m.tables, u.root, u.vpn) == MkPte(FrameOf(m, u), perm)
    && FrameOf(m, u) in m.frames && m.frames[FrameOf(m, u)] == b
  }

  /** A page of zeroes reads as zero everywhere. */
  lemma ZeroBytes(m: Mem, u: VPage, perm: nat, k: nat)
    requires PageIs(m, u, perm, ZeroFrame()) && k < 4096
    ensures m.frames[FrameOf(m, u)][k] == 0
  {
  }

  lemma GrewNone(m: Mem, f: Forest, owner: map<nat, VPage>, root: nat, a: nat)
    requires Sound(m, f) && Owned(m, f, owner, {}) && a <= USERTOP
    ensures Grew(m, f, owner, root, a, 0, m, f, owner)
  {
    assert WithoutRange(owner, root, a, 0) == owner;
  }

  /** A loose frame is mapped at a user page that had no mapping. */
  lemma AttachFrame(m: Mem, f: Forest, owner: map<nat, VPage>, u: VPage, p: nat, perm: nat, m': Mem, f': Forest)
    requires perm < 1024 && Owned(m, f, owner, {p}) && f.IsRoot(u.root) && u.vpn < USERTOP
    requires !PteValid(Leaf(m.tables, u.root, u.vpn)) && Mapped(m, f, u.root, u.vpn, 1, p, perm, m', f')
    ensures Owned(m', f', owner[p := u], {}) && FrameOf(m', u) == p && Leaf(m'.tables, u.root, u.vpn) == MkPte(p, perm)
  {
    hide Leaf, Sound, Pages, PtePage, PteValid, MkPte;
    PteFields(p, perm);
    forall w: VPage | w != u
      ensures (Maps(m', f', w) <==> Maps(m, f, w)) && (Maps(m, f, w) ==> FrameOf(m', w) == FrameOf(m, w))
    {
      if f.IsRoot(w.root) && w.vpn < USERTOP {
        assert Leaf(m'.tables, w.root, w.vpn) == Leaf(m.tables, w.root, w.vpn);
      }
    }
    assert Maps(m', f', u) && FrameOf(m', u) == p;
    assert !Maps(m, f, u);
  }

  lemma TakenOwned(m: Mem, f: Forest, owner: map<nat, VPage>, b: Frame)
    requires Sound(m, f) && Owned(m, f, owner, {}) && m.free != []
    ensures Owned(TakeFrame(m, b), f, owner, {m.free[0]})
  {
    hide Trees, Leaf, PtePage, PteValid, Parted, Union;
    TakeFrameSound(m, f, b);
    var m' := TakeFrame(m, b);
    assert m'.frames.Keys == m.frames.Keys + {m.free[0]};
    forall u: VPage ensures (Maps(m', f, u) <==> Maps(m, f, u)) && FrameOf(m', u) == FrameOf(m, u) { }
  }

  /** One more page of `uvm_alloc` or `uvm_copy`. */
  lemma GrowOne(m: Mem, f: Forest, owner: map<nat, VPage>, root: nat, a: nat, k: nat, perm: nat, b: Frame,
                m1: Mem, f1: Forest, owner1: map<nat, VPage>, m3: Mem, f3: Forest)
    requires perm < 1024 && f.IsRoot(root) && a + k < USERTOP
    requires Grew(m, f, owner, root, a, k, m1, f1, owner1) && m1.free != []
    requires !PteValid(Leaf(m.tables, root, a + k))
    requires Mapped(TakeFrame(m1, b), f1, root, a + k, 1, m1.free[0], perm, m3, f3)
    ensures Grew(m, f, owner, root, a, k + 1, m3, f3, owner1[m1.free[0] := VPage(root, a + k)])
  {
    hide Sound, Pages, Leaf, PtePage, PteValid, MkPte, Owned, PageIs;
    var p, u, m2 := m1.free[0], VPage(root, a + k), TakeFrame(m1, b);
    TakeFrameSound(m1, f1, b);
    TakenOwned(m1, f1, owner1, b);
    assert Leaf(m2.tables, root, a + k) == Leaf(m.tables, root, a + k);
    AttachFrame(m2, f1, owner1, u, p, perm, m3, f3);
    TakenPage(m1, f1, u, perm, b, m3, f3);
    OwnedKeys(m1, f1, owner1);
    var owner3 := owner1[p := u];
    assert WithoutRange(owner3, root, a, k + 1) == owner by {
      OneOwnerEach(m1, f1, owner1, u);
      WithoutAdded(owner1, root, a, k, p);
    }
    forall v | a <= v < a + k + 1 ensures NewPage(m, m3, VPage(root, v)) {
      if v < a + k {
        assert NewPage(m, m1, VPage(root, v));
        assert Leaf(m3.tables, root, v) == Leaf(m1.tables, root, v);
      }
    }
  }

  /** What mapping a new frame with contents `b` at `u` gives. */
  lemma TakenPage(m1: Mem, f1: Forest, u: VPage, perm: nat, b: Frame, m3: Mem, f3: Forest)
    requires perm < 1024 && f1.IsRoot(u.root) && u.vpn < USERTOP && m1.free != [] && m1.free[0] !in m1.frames
    requires Mapped(TakeFrame(m1, b), f1, u.root, u.vpn, 1, m1.free[0], perm, m3, f3)
    ensures PageIs(m3, u, perm, b) && PteValid(Leaf(m3.tables, u.root, u.vpn)) && Kept(m1, f1, m3, u)
  {
    hide Sound, Pages, Leaf, PtePage, PteValid, MkPte;
    PteFields(m1.free[0], perm);
    assert Leaf(m3.tables, u.root, u.vpn) == MkPte(m1.free[0], perm);
  }

  /** All frames and all mappings but that of `u` are still there, unchanged. */
  ghost predicate Kept(m: Mem, f: Forest, m': Mem, u: VPage) {
    && (forall p :: p in m.frames ==> p in m'.frames && m'.frames[p] == m.frames[p])
    && (forall r, v :: f.IsRoot(r) && 0 <= v < MAXVPN && VPage(r, v) != u ==> Leaf(m'.tables, r, v) == Leaf(m.tables, r, v))
  }

  lemma PageKept(m: Mem, f: Forest, m': Mem, u: VPage, w: VPage, perm: nat, b: Frame)
    requires Kept(m, f, m', u) && w != u && f.IsRoot(w.root) && w.vpn < MAXVPN && PageIs(m, w, perm, b)
    ensures PageIs(m', w, perm, b)
  {
    hide Leaf, MkPte, PtePage;
    assert Leaf(m'.tables, w.root, w.vpn) == Leaf(m.tables, w.root, w.vpn);
  }

  lemma OwnedKeys(m: Mem, f: Forest, owner: map<nat, VPage>)
    requires Owned(m, f, owner, {})
    ensures owner.Keys == m.frames.Keys
  {
  }

  /** An unmapped page is nobody's. */
  lemma OneOwnerEach(m: Mem, f: Forest, owner: map<nat, VPage>, u: VPage)
    requires Owned(m, f, owner, {}) && !PteValid(Leaf(m.tables, u.root, u.vpn))
    ensures forall p :: p in owner ==> owner[p] != u
  {
    assert !Maps(m, f, u);
  }

  lemma WithoutAdded(owner: map<nat, VPage>, root: nat, a: nat, k: nat, p: nat)
    requires p !in owner && forall q :: q in owner ==> owner[q] != VPage(root, a + k)
    ensures WithoutRange(owner[p := VPage(root, a + k)], root, a, k + 1) == WithoutRange(owner, root, a, k)
  {
    forall q | q in owner
      ensures owner[q].root == root && owner[q].vpn == a + k ==> false
    {
      assert owner[q] != VPage(root, a + k);
    }
  }

  /** A page taken and given back leaves nothing but, perhaps, empty tables behind. */
  lemma GrowUndone(m: Mem, f: Forest, owner: map<nat, VPage>, root: nat, a: nat, k: nat, perm: nat, b: Frame,
                   m1: Mem, f1: Forest, owner1: map<nat, VPage>, m3: Mem, f3: Forest)
    requires perm < 1024 && f.IsRoot(root) && a + k <= USERTOP
    requires Grew(m, f, owner, root, a, k, m1, f1, owner1) && m1.free != []
    requires Mapped(TakeFrame(m1, b), f1, root, a + k, 0, m1.free[0], perm, m3, f3)
    ensures Grew(m, f, owner, root, a, k, Kfreed(m3, m1.free[0]), f3, owner1)
  {
    hide Sound, Pages, Leaf, PtePage, PteValid, MkPte, Owned;
    var p := m1.free[0];
    TakeFrameSound(m1, f1, b);
    KfreedSound(m3, f3, p);
    var m4 := Kfreed(m3, p);
    assert m4.frames == m1.frames;
    OwnedKeeps(m1, f1, owner1, {}, m4, f3);
    forall v | a <= v < a + k ensures NewPage(m, m4, VPage(root, v)) {
      assert NewPage(m, m1, VPage(root, v));
      assert Leaf(m4.tables, root, v) == Leaf(m1.tables, root, v);
    }
  }

  /** Everything is as before but, perhaps, for empty tables. */
  ghost predicate Restored(m: Mem, f: Forest, owner: map<nat, VPage>, m': Mem, f': Forest, owner': map<nat, VPage>) {
    && Sound(m', f') && Owned(m', f', owner', {}) && owner' == owner && m'.frames == m.frames && Pages(m') == Pages(m)
    && (forall r :: f'.IsRoot(r) <==> f.IsRoot(r)) && SameLeaves(m, m', f)
  }

  /** Freeing what was just grown restores the address spaces. */
  lemma GrewThenFreed(m: Mem, f: Forest, owner: map<nat, VPage>, root: nat, a: nat, k: nat,
                      m1: Mem, f1: Forest, owner1: map<nat, VPage>, m2: Mem)
    requires Owned(m, f, owner, {}) && f.IsRoot(root)
    requires Grew(m, f, owner, root, a, k, m1, f1, owner1) && FreedRange(m1, f1, owner1, root, a, k, m2)
    requires Sound(m, f) && forall v :: a <= v < a + k ==> !PteValid(Leaf(m.tables, root, v))
    ensures Restored(m, f, owner, m2, f1, WithoutRange(owner1, root, a, k))
  {
    hide Sound, Pages, Leaf, PtePage, PteValid, MkPte, Owned;
    OwnedKeys(m, f, owner);
    OwnedKeys(m2, f1, owner);
    assert m2.frames == m.frames;
    forall r, v | f.IsRoot(r) && 0 <= v < MAXVPN ensures Leaf(m2.tables, r, v) == Leaf(m.tables, r, v) {
      assert f1.IsRoot(r);
      LeafZero(m, f, r, v);
    }
  }

  lemma LeafZero(m: Mem, f: Forest, root: nat, vpn: nat)
    requires Sound(m, f) && f.IsRoot(root)
    ensures !PteValid(Leaf(m.tables, root, vpn)) ==> Leaf(m.tables, root, vpn) == 0
  {
    LeafIsZeroOrValid(m.tables, f, root, vpn);
  }

  /** Permissions and contents of a mapped user page. */
  ghost function PermOf(m: Mem, u: VPage): nat {
    PteFlags(Leaf(m.tables, u.root, u.vpn))
  }

  ghost function DataOf(m: Mem, u: VPage): Frame
    requires FrameOf(m, u) in m.frames
  {
    m.frames[FrameOf(m, u)]
  }

  lemma MappedPageFacts(m: Mem, f: Forest, owner: map<nat, VPage>, u: VPage)
    requires Sound(m, f) && Owned(m, f, owner, {}) && Maps(m, f, u)
    ensures FrameOf(m, u) in m.frames && PermOf(m, u) < 1024 && PteLeaf(PermOf(m, u))
  {
    hide Trees, Leaf, PteValid, PteLeaf, PteFlags, PtePage;
    ZeroPte();
    LeafIsZeroOrValid(m.tables, f, u.root, u.vpn);
    FlagsLeaf(Leaf(m.tables, u.root, u.vpn));
  }

  lemma FlagsLeaf(p: nat)
    ensures PteFlags(p) < 1024 && PteLeaf(PteFlags(p)) == PteLeaf(p)
  {
    PteParts(p / 1024, p % 1024);
  }

  /** Page `w` now has the permissions and contents that page `u` had. */
  ghost predicate CopyOf(m: Mem, m': Mem, u: VPage, w: VPage) {
    FrameOf(m, u) in m.frames && PageIs(m', w, PermOf(m, u), DataOf(m, u))
  }

  lemma MapsValid(m: Mem, f: Forest, u: VPage)
    requires Maps(m, f, u)
    ensures PteValid(Leaf(m.tables, u.root, u.vpn)) && Leaf(m.tables, u.root, u.vpn) != 0
  {
    ZeroPte();
  }

  // ------------------------------------------------------------- taking down

  ghost predicate Enumerates(s: seq<nat>, xs: set<nat>) {
    Distinct(s) && forall x :: x in s <==> x in xs
  }

  lemma EnumeratesMore(s: seq<nat>, xs: set<nat>, t: seq<nat>, ys: set<nat>)
    requires Enumerates(s, xs) && Enumerates(t, ys) && xs !! ys
    ensures Enumerates(t + s, xs + ys)
  {
    forall i, j | 0 <= i < j < |t + s| ensures (t + s)[i] != (t + s)[j] {
      if i < |t| <= j { assert (t + s)[i] in t && (t + s)[j] in s; }
    }
  }

  function Height(n: Node): nat {
    if n.Root? then 2 else if n.Mid? then 1 else 0
  }

  /** Below table `t` no page is mapped, and no table has been touched since `ts`. */
  ghost predicate Bare(ts: Tables, f: Forest, t: nat, us: Tables)
    requires Trees(ts, f) && t in ts
  {
    forall x :: x in Subtree(f, f.node[t]) ==>
      x in us && us[x] == ts[x] && (f.node[x].at.Low? ==> forall i :: 0 <= i < PTES ==> ts[x][i] == 0)
  }

  /** `freewalk` of table `t` after `k` entries: what hung below them is gone. */
  ghost predicate Walking(ts: Tables, f: Forest, t: nat, k: nat, from: Tables, us: Tables)
    requires Trees(ts, f) && t in ts
  {
    && t in us && |us[t]| == PTES && (forall j :: k <= j < PTES ==> us[t][j] == ts[t][j])
    && (forall x :: x in us <==> x in from && x !in BelowFirst(f, f.node[t], k))
    && (forall x :: x in us && x != t ==> us[x] == from[x])
  }

  /** Entry `k` of a bare table, and the tables below it. */
  lemma BareEntry(ts: Tables, f: Forest, t: nat, k: nat, from: Tables, us: Tables)
    requires Trees(ts, f) && t in ts && k < PTES && Bare(ts, f, t, from) && Walking(ts, f, t, k, from, us)
    ensures PteValid(us[t][k]) ==>
      && !PteLeaf(us[t][k]) && !f.node[t].at.Low? && Below(f, t, k) in f.table
      && var c := PtePage(us[t][k]);
      c in ts && f.node[c] == Below(f, t, k) && Bare(ts, f, c, us) && Height(f.node[c].at) < Height(f.node[t].at)
    ensures PteValid(us[t][k]) ==>
      BelowFirst(f, f.node[t], k + 1) == BelowFirst(f, f.node[t], k) + Subtree(f, Below(f, t, k))
      && BelowFirst(f, f.node[t], k) !! Subtree(f, Below(f, t, k)) && t !in Subtree(f, Below(f, t, k))
    ensures !PteValid(us[t][k]) ==> BelowFirst(f, f.node[t], k + 1) == BelowFirst(f, f.node[t], k)
  {
    hide PteValid, PteLeaf, PtePage, MkPte;
    BelowNext(ts, f, f.node[t], k);
    ZeroPte();
    assert t in Subtree(f, f.node[t]);
    if !f.node[t].at.Low? && Below(f, t, k) in f.table {
      var c := f.table[Below(f, t, k)];
      PteFields(c, 0);
      PointerIsNoLeaf(c);
      assert f.node[c] == Below(f, t, k);
      forall x | x in Subtree(f, f.node[c])
        ensures x in us && us[x] == ts[x] && (f.node[x].at.Low? ==> forall i :: 0 <= i < PTES ==> ts[x][i] == 0)
      {
        assert x in Subtree(f, f.node[t]);
      }
    }
  }

  lemma PointerIsNoLeaf(c: nat)
    ensures !PteLeaf(MkPte(c, 0))
  {
    PteFields(c, 0);
  }

  lemma WalkingStarts(ts: Tables, f: Forest, t: nat, us: Tables)
    requires Trees(ts, f) && t in ts && Bare(ts, f, t, us)
    ensures t in f.node && Walking(ts, f, t, 0, us, us) && BelowFirst(f, f.node[t], 0) == {}
  {
    hide Pointers, Leaves;
    assert t in Subtree(f, f.node[t]);
  }

  /** The subtree below entry `k` has been freed and the entry cleared. */
  lemma WalkedBelow(ts: Tables, f: Forest, t: nat, k: nat, from: Tables, us: Tables, vs: Tables)
    requires Trees(ts, f) && t in ts && k < PTES && Walking(ts, f, t, k, from, us)
    requires !f.node[t].at.Low? && vs == us - Subtree(f, Below(f, t, k)) && t !in Subtree(f, Below(f, t, k))
    requires BelowFirst(f, f.node[t], k + 1) == BelowFirst(f, f.node[t], k) + Subtree(f, Below(f, t, k))
    ensures t in vs && |vs[t]| == PTES && Walking(ts, f, t, k + 1, from, SetPte(vs, t, k, 0))
  {
    hide Trees, Subtree, BelowFirst;
  }

  lemma WalkingEnds(ts: Tables, f: Forest, t: nat, from: Tables, us: Tables, freed: seq<nat>)
    requires Trees(ts, f) && t in ts && Walking(ts, f, t, PTES, from, us) && Bare(ts, f, t, from)
    requires Enumerates(freed, BelowFirst(f, f.node[t], PTES))
    ensures us - {t} == from - Subtree(f, f.node[t]) && Enumerates([t] + freed, Subtree(f, f.node[t]))
  {
    hide Rooted, Pointers, Leaves, Subtree, BelowFirst;
    WholeSubtree(ts, f, t);
    EnumeratesMore(freed, BelowFirst(f, f.node[t], PTES), [t], {t});
  }

  /** A tree without mappings is bare. */
  lemma NoMappingsBare(m: Mem, f: Forest, root: nat)
    requires Sound(m, f) && f.IsRoot(root) && forall v :: 0 <= v < MAXVPN ==> Leaf(m.tables, root, v) == 0
    ensures Trees(m.tables, f) && root in m.tables && f.node[root] == Place(root, Root)
    ensures Bare(m.tables, f, root, m.tables)
  {
    hide Px, Leaf, Pointers, Leaves, PteValid, PteLeaf, MkPte, Parted;
    RootIs(m, f, root);
    forall x, i | x in Subtree(f, Place(root, Root)) && f.node[x].at.Low? && 0 <= i < PTES ensures m.tables[x][i] == 0 {
      assert f.node[x] in f.table;
      var v := VpnAt(f.node[x].at.i2, f.node[x].at.i1, i);
      LeafIs(m.tables, f, root, v);
    }
  }

  /** `freewalk` of a tree without mappings leaves the other trees, all frames and the page total as they are. */
  lemma TakenDown(m: Mem, f: Forest, owner: map<nat, VPage>, root: nat, freed: seq<nat>, m': Mem)
    requires Sound(m, f) && Owned(m, f, owner, {}) && f.IsRoot(root)
    requires forall v :: 0 <= v < MAXVPN ==> Leaf(m.tables, root, v) == 0
    requires Enumerates(freed, Subtree(f, Place(root, Root)))
    requires m' == Mem(freed + m.free, m.tables - Subtree(f, Place(root, Root)), m.frames)
    ensures Sound(m', Pruned(f, root)) && Pages(m') == Pages(m) && Owned(m', Pruned(f, root), owner, {})
    ensures forall r :: Pruned(f, root).IsRoot(r) <==> f.IsRoot(r) && r != root
    ensures forall r, v :: f.IsRoot(r) && r != root && 0 <= v < MAXVPN ==> Leaf(m'.tables, r, v) == Leaf(m.tables, r, v)
  {
    hide Leaf, Rooted, Pointers, Leaves, PteValid, PtePage, Pruned, Parted, Union, Owned, Enumerates, Subtree;
    var gone := Subtree(f, Place(root, Root));
    PruneKeeps(m.tables, f, root, m'.tables);
    SubtreeIsTables(m.tables, f, Place(root, Root));
    PushManyParted(m.free, m.tables.Keys, m.frames.Keys, freed, gone);
    assert m'.tables.Keys == m.tables.Keys - gone;
    PrunedOwned(m, f, owner, root, m');
  }

  lemma SubtreeIsTables(ts: Tables, f: Forest, p: Place)
    requires Trees(ts, f)
    ensures Subtree(f, p) <= ts.Keys
  {
  }

  lemma PushManyParted(free: seq<nat>, tables: set<nat>, frames: set<nat>, freed: seq<nat>, gone: set<nat>)
    requires Parted(free, tables, frames) && 0 !in tables && gone <= tables && Enumerates(freed, gone)
    ensures Parted(freed + free, tables - gone, frames)
    ensures Union(freed + free, tables - gone, frames) == Union(free, tables, frames)
  {
    EnumeratesMore(free, (set p | p in free), freed, gone);
    assert forall q :: q in freed + free <==> q in freed || q in free;
  }

  lemma PrunedOwned(m: Mem, f: Forest, owner: map<nat, VPage>, root: nat, m': Mem)
    requires Owned(m, f, owner, {}) && m'.frames == m.frames
    requires forall v :: 0 <= v < MAXVPN ==> Leaf(m.tables, root, v) == 0
    requires forall r :: Pruned(f, root).IsRoot(r) <==> f.IsRoot(r) && r != root
    requires forall r, v :: f.IsRoot(r) && r != root && 0 <= v < MAXVPN ==>
      Leaf(m'.tables, r, v) == Leaf(m.tables, r, v)
    ensures Owned(m', Pruned(f, root), owner, {})
  {
    hide Leaf, PteValid, PtePage, Pruned;
    ZeroPte();
    forall u: VPage ensures Maps(m', Pruned(f, root), u) <==> Maps(m, f, u) { }
  }

  /** One space is gone: its frames and tables are free, everything of the other spaces is as before. */
  ghost predicate Destroyed(m: Mem, f: Forest, owner: map<nat, VPage>, root: nat,
                            m': Mem, f': Forest, owner': map<nat, VPage>)
  {
    && Pages(m') == Pages(m)
    && (forall r :: f'.IsRoot(r) <==> f.IsRoot(r) && r != root)
    && (forall r, v :: f.IsRoot(r) && r != root && 0 <= v < MAXVPN ==> Leaf(m'.tables, r, v) == Leaf(m.tables, r, v))
    && (forall p :: p in m'.frames <==> p in owner && owner[p].root != root)
    && (forall p :: p in m'.frames ==> p in m.frames && m'.frames[p] == m.frames[p])
    && owner' == (map p | p in owner && owner[p].root != root :: owner[p])
    && m'.tables.Keys == m.tables.Keys - Subtree(f, Place(root, Root))
  }

  /** Freeing all of [0, n) of a space mapped exactly there leaves no mapping. */
  lemma EmptyOnce(m: Mem, f: Forest, owner: map<nat, VPage>, root: nat, n: nat, m1: Mem)
    requires f.IsRoot(root) && FreedRange(m, f, owner, root, 0, n, m1) && Sound(m, f)
    requires forall v :: 0 <= v < MAXVPN ==> (PteValid(Leaf(m.tables, root, v)) <==> v < n)
    ensures Sound(m1, f) && forall v :: 0 <= v < MAXVPN ==> Leaf(m1.tables, root, v) == 0
  {
    hide Sound, Owned, Leaf, PteValid, Pages;
    forall v | 0 <= v < MAXVPN ensures Leaf(m1.tables, root, v) == 0 { LeafZero(m, f, root, v); }
  }

  lemma DestroyedAll(m: Mem, f: Forest, owner: map<nat, VPage>, root: nat, n: nat, m1: Mem, m2: Mem)
    requires Owned(m, f, owner, {}) && FreedRange(m, f, owner, root, 0, n, m1)
    requires forall v :: 0 <= v < MAXVPN ==> (PteValid(Leaf(m.tables, root, v)) <==> v < n)
    requires Pages(m2) == Pages(m1) && m2.frames == m1.frames
    requires m2.tables.Keys == m1.tables.Keys - Subtree(f, Place(root, Root))
    requires forall r :: Pruned(f, root).IsRoot(r) <==> f.IsRoot(r) && r != root
    requires forall r, v :: f.IsRoot(r) && r != root && 0 <= v < MAXVPN ==>
      Leaf(m2.tables, r, v) == Leaf(m1.tables, r, v)
    ensures Destroyed(m, f, owner, root, m2, Pruned(f, root), WithoutRange(owner, root, 0, n))
  {
    hide Sound, Leaf, Pages, Pruned, PtePage, Subtree, PteValid;
    forall p | p in owner && owner[p].root == root ensures owner[p].vpn < n { assert Maps(m, f, owner[p]); }
  }

  // ------------------------------------------------------ spaces of processes

  /** The first free page becomes the root of a new, empty tree. */
  function TakeRoot(m: Mem): Mem
    requires m.free != []
  {
    m.(free := m.free[1..], tables := m.tables[m.free[0] := ZeroTable()])
  }

  /** A tree has appeared and everything of the others is as before. */
  ghost predicate Created(m: Mem, f: Forest, owner: map<nat, VPage>, root: nat, m': Mem, f': Forest) {
    && Sound(m', f') && Owned(m', f', owner, {}) && Pages(m') == Pages(m) && m'.frames == m.frames
    && !f.IsRoot(root) && (forall r :: f'.IsRoot(r) <==> f.IsRoot(r) || r == root)
    && SameLeaves(m, m', f)
  }

  lemma RootTaken(m: Mem, f: Forest, owner: map<nat, VPage>)
    requires Sound(m, f) && Owned(m, f, owner, {}) && m.free != []
    ensures var c := m.free[0];
      && c != 0 && Created(m, f, owner, c, TakeRoot(m), AddPlace(f, Place(c, Root), c))
      && forall v :: 0 <= v < MAXVPN ==> Leaf(TakeRoot(m).tables, c, v) == 0
  {
    hide Trees, Leaf, Parted, Union, AddPlace, PteValid, PtePage, Owned;
    var c, m' := m.free[0], TakeRoot(m);
    var f' := AddPlace(f, Place(c, Root), c);
    PopParted(m.free, m.tables.Keys, m.frames.Keys);
    AddRootKeeps(m.tables, f, c);
    ZeroPte();
    assert m'.tables.Keys == m.tables.Keys + {c};
    CreatedOwned(m, f, owner, c, m', f');
  }

  lemma CreatedOwned(m: Mem, f: Forest, owner: map<nat, VPage>, root: nat, m': Mem, f': Forest)
    requires Owned(m, f, owner, {}) && m'.frames == m.frames && !f.IsRoot(root)
    requires forall r :: f'.IsRoot(r) <==> f.IsRoot(r) || r == root
    requires forall v :: 0 <= v < USERTOP ==> !PteValid(Leaf(m'.tables, root, v))
    requires SameLeaves(m, m', f)
    ensures Owned(m', f', owner, {})
  {
    hide Leaf, PteValid, PtePage;
    forall u: VPage ensures Maps(m', f', u) <==> Maps(m, f, u) { }
  }

  /** A tree was created and something was mapped above the user pages in it. */
  lemma CreatedMapped(m: Mem, f: Forest, owner: map<nat, VPage>, root: nat, m1: Mem, f1: Forest,
                      a: nat, k: nat, page: nat, perm: nat, m2: Mem, f2: Forest)
    requires perm < 1024 && Created(m, f, owner, root, m1, f1) && USERTOP <= a
    requires Mapped(m1, f1, root, a, k, page, perm, m2, f2)
    ensures Created(m, f, owner, root, m2, f2)
  {
    hide Sound, Pages, Leaf, MkPte, Owned;
    OwnedKeeps(m1, f1, owner, {}, m2, f2);
    forall r, v | f.IsRoot(r) && 0 <= v < MAXVPN ensures Leaf(m2.tables, r, v) == Leaf(m.tables, r, v) {
      assert f1.IsRoot(r);
      assert Leaf(m1.tables, r, v) == Leaf(m.tables, r, v);
    }
  }

  lemma CreatedUnmapped(m: Mem, f: Forest, owner: map<nat, VPage>, root: nat, m1: Mem, f1: Forest,
                        a: nat, k: nat, m2: Mem)
    requires Created(m, f, owner, root, m1, f1) && USERTOP <= a && UnmappedRange(m1, f1, root, a, k, m2)
    ensures Created(m, f, owner, root, m2, f1)
  {
    hide Sound, Leaf, Owned;
    OwnedKeeps(m1, f1, owner, {}, m2, f1);
    forall r, v | f.IsRoot(r) && 0 <= v < MAXVPN ensures Leaf(m2.tables, r, v) == Leaf(m.tables, r, v) {
      assert f1.IsRoot(r);
      assert Leaf(m1.tables, r, v) == Leaf(m.tables, r, v);
    }
  }

  /** A tree that was created and destroyed again has changed nothing but, perhaps, which pages are free. */
  lemma CreatedDestroyed(m: Mem, f: Forest, owner: map<nat, VPage>, root: nat, m1: Mem, f1: Forest, m2: Mem,
                         f2: Forest, owner2: map<nat, VPage>)
    requires Created(m, f, owner, root, m1, f1) && Destroyed(m1, f1, owner, root, m2, f2, owner2)
    requires Sound(m2, f2) && Owned(m2, f2, owner2, {}) && Owned(m, f, owner, {})
    ensures Restored(m, f, owner, m2, f2, owner2)
  {
    hide Sound, Pages, Leaf, PteValid, PtePage;
    forall p | p in owner ensures owner[p].root != root { assert Maps(m, f, owner[p]); }
    assert owner2 == owner;
    assert m2.frames == m.frames;
    forall r, v | f.IsRoot(r) && 0 <= v < MAXVPN ensures Leaf(m2.tables, r, v) == Leaf(m.tables, r, v) {
      assert Leaf(m1.tables, r, v) == Leaf(m.tables, r, v);
    }
  }

  /** Unmapping pages above the user's first does not matter to the destruction. */
  lemma UnmappedDestroyed(m: Mem, f: Forest, owner: map<nat, VPage>, root: nat, a: nat, k: nat, m1: Mem,
                          m2: Mem, f2: Forest, owner2: map<nat, VPage>)
    requires UnmappedRange(m, f, root, a, k, m1) && Destroyed(m1, f, owner, root, m2, f2, owner2)
    ensures Destroyed(m, f, owner, root, m2, f2, owner2)
  {
    hide Sound, Leaf, Subtree;
  }
}
