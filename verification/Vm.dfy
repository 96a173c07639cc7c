/**
 kernel/vm.c and kernel/kalloc.c: page tables built and taken down in place over shared
 physical memory.
 */
module Vm {
  import opened Blocks
  import opened VmSpec
  import opened VmMem
  import opened VmCopy
  import opened VmCount

  /** The pages just below MAXVA. */
  const TRAMPOLINE := MAXVPN - 1
  const TRAPFRAME := MAXVPN - 2

  datatype Outcome = Done | Failed | Panic

  /** How `mappages` ends after `k` of the pages `first..last`. */
  ghost predicate MapResult(m: Mem, root: nat, first: nat, last: nat, k: nat, r: Outcome, m': Mem) {
    && (forall v :: first <= v < first + k ==> !PteValid(Leaf(m.tables, root, v)))
    && match r
       case Done => k == last - first + 1
       case Failed => first + k <= last && m'.free == []
       case Panic => first + k <= last && (first + k >= MAXVPN || PteValid(Leaf(m.tables, root, first + k)))
  }

  /** What `mappages` takes for `k` pages, and that it fails exactly if it cannot have it for the next one. */
  ghost predicate MapTakes(m: Mem, f: Forest, root: nat, first: nat, k: nat, r: Outcome, m': Mem, f': Forest) {
    && (r.Done? ==> Took(m, f, root, first, k, 0, m', f'))
    && (r.Failed? ==> |m.free| < Lacking(f, root, first, k + 1))
    && (r.Panic? && first + k < MAXVPN ==> Lacking(f, root, first, k + 1) <= |m.free|)
  }

  lemma FreeLeft(m: Mem, f: Forest, root: nat, a: nat, k: nat, frames: nat, m': Mem, f': Forest)
    requires Took(m, f, root, a, k, frames, m', f')
    ensures |m'.free| + Lacking(f, root, a, k) + frames == |m.free|
  {
  }

  lemma TookEntry(m: Mem, f: Forest, root: nat, a: nat, k: nat, m': Mem, f': Forest, t: nat, vpn: nat, p: nat)
    requires Took(m, f, root, a, k, 0, m', f') && t in m'.tables && |m'.tables[t]| == PTES
    ensures Took(m, f, root, a, k, 0, WithEntry(m', t, vpn, p), f') && Lacking(f, root, a, k) <= |m.free|
  {
  }

  lemma EndPlaces(root: nat, vpn: nat)
    ensures PlaceAt(root, vpn, 2) == Place(root, Root) && PlaceAt(root, vpn, 0) == LowPlace(root, vpn)
  {
  }

  lemma GrewFacts(m: Mem, f: Forest, owner: map<nat, VPage>, root: nat, a: nat, k: nat,
                  m': Mem, f': Forest, owner': map<nat, VPage>, b: Frame)
    requires Grew(m, f, owner, root, a, k, m', f', owner') && f.IsRoot(root) && m'.free != []
    ensures f'.IsRoot(root) && Sound(TakeFrame(m', b), f') && a + k <= USERTOP && m'.free[0] !in m'.frames
    ensures Leaf(TakeFrame(m', b).tables, root, a + k) == Leaf(m.tables, root, a + k)
  {
    hide Sound, Leaf, Owned, Pages, NewPage;
    TakeFrameSound(m', f', b);
  }

  lemma GrewHidden(m: Mem, f: Forest, owner: map<nat, VPage>, root: nat, a: nat, k: nat,
                   m': Mem, f': Forest, owner': map<nat, VPage>)
    requires Grew(m, f, owner, root, a, k, m', f', owner') && TopHidden(m, f)
    ensures Sound(m', f') && Owned(m', f', owner', {}) && TopHidden(m', f') && (f'.IsRoot(root) <==> f.IsRoot(root))
  {
    hide Sound, Leaf, Owned, Pages, NewPage, TopHidden;
    TopKept(m, f, m', f');
  }

  /** What a frame and a mapping for it take: the frame, and the missing tables. */
  lemma TookFrame(m: Mem, f: Forest, root: nat, a: nat, m1: Mem, m': Mem, f': Forest)
    requires Took(m1, f, root, a, 1, 0, m', f') && |m1.free| == |m.free| - 1
    ensures Took(m, f, root, a, 1, 1, m', f')
  {
  }

  /** The pages that `n` pages from `a` take in all. */
  ghost function Needs(f: Forest, root: nat, a: nat, n: nat): nat {
    n + Lacking(f, root, a, n)
  }

  lemma NeedsMore(f: Forest, root: nat, a: nat, k: nat, n: nat)
    requires k <= n
    ensures Needs(f, root, a, k) <= Needs(f, root, a, n) && Needs(f, root, a, n) <= 3 * n
  {
    LackingMore(f, root, a, k, n);
    AtMostTwo(f, root, a, n);
  }

  /** PGROUNDUP(sz) / PGSIZE. */
  function RoundUp(sz: nat): nat {
    (sz + PGSIZE - 1) / PGSIZE
  }

  /** The least number of pages that have room for the bytes. */
  lemma RoundUpIs(sz: nat)
    ensures RoundUp(sz) * 4096 >= sz && (sz > 0 ==> (RoundUp(sz) - 1) * 4096 < sz) && (sz == 0 ==> RoundUp(sz) == 0)
  {
  }

  /** How many pages growth from one size to another asks memory for; at the trapframe it panics. */
  function Turns(oldsz: nat, newsz: nat): nat
    requires RoundUp(oldsz) <= USERTOP
  {
    if newsz < oldsz then 0
    else if RoundUp(newsz) <= USERTOP then RoundUpMonotone(oldsz, newsz); RoundUp(newsz) - RoundUp(oldsz)
    else USERTOP + 1 - RoundUp(oldsz)
  }

  lemma RoundUpMonotone(a: nat, b: nat)
    requires a <= b
    ensures RoundUp(a) <= RoundUp(b)
  {
  }

  /** A space with nothing in it but the two pages below MAXVA. */
  ghost predicate FreshSpace(m: Mem, root: nat, trampoline: nat, trapframe: nat) {
    && Leaf(m.tables, root, TRAMPOLINE) == MkPte(trampoline, PTE_R + PTE_X)
    && Leaf(m.tables, root, TRAPFRAME) == MkPte(trapframe, PTE_R + PTE_W)
    && forall v :: 0 <= v < TRAPFRAME ==> Leaf(m.tables, root, v) == 0
  }

  lemma FreshHidden(m: Mem, f: Forest, owner: map<nat, VPage>, root: nat, trampoline: nat, trapframe: nat,
                    m': Mem, f': Forest)
    requires TopHidden(m, f) && Created(m, f, owner, root, m', f') && FreshSpace(m', root, trampoline, trapframe)
    ensures TopHidden(m', f')
  {
    hide Leaf, PteValid, PteUser, MkPte, Sound, Owned, Pages;
    PteFields(trampoline, PTE_R + PTE_X);
    PteFields(trapframe, PTE_R + PTE_W);
    NotForUser();
    forall r, v | f'.IsRoot(r) && USERTOP <= v < MAXVPN ensures !UserPage(m', r, v) {
      if r != root { assert !UserPage(m, r, v); }
    }
  }

  lemma NotForUser()
    ensures !PteUser(PTE_R + PTE_X) && !PteUser(PTE_R + PTE_W)
  {
  }

  lemma EmptyHidden(m: Mem, f: Forest, owner: map<nat, VPage>, root: nat, m': Mem, f': Forest)
    requires TopHidden(m, f) && Created(m, f, owner, root, m', f')
    requires forall v :: 0 <= v < MAXVPN ==> Leaf(m'.tables, root, v) == 0
    ensures TopHidden(m', f')
  {
    hide Leaf, PteUser, Sound, Owned, Pages;
    ZeroPte();
    forall r, v | f'.IsRoot(r) && USERTOP <= v < MAXVPN ensures !UserPage(m', r, v) {
      if r != root { assert !UserPage(m, r, v); }
    }
  }

  lemma UnmappedHidden(m: Mem, f: Forest, root: nat, a: nat, m': Mem)
    requires TopHidden(m, f) && UnmappedRange(m, f, root, a, 1, m')
    ensures TopHidden(m', f)
  {
    hide Leaf, PteUser, Sound;
    ZeroPte();
    forall r, v | f.IsRoot(r) && USERTOP <= v < MAXVPN ensures !UserPage(m', r, v) {
      assert !UserPage(m, r, v);
    }
  }

  class Vm {
    var m: Mem
    ghost var f: Forest
    ghost var owner: map<nat, VPage>

    ghost predicate Valid()
      reads this
    {
      Sound(m, f) && Owned(m, f, owner, {}) && TopHidden(m, f)
    }

    /** After `kalloc_init`: every page is free, and there is no space. */
    constructor (pages: seq<nat>)
      requires Distinct(pages) && 0 !in pages
      ensures Valid() && m == Mem(pages, map[], map[]) && owner == map[] && forall r :: !f.IsRoot(r)
    {
      m, f, owner := Mem(pages, map[], map[]), Forest(map[], map[]), map[];
    }

    /** `kalloc`: the first page of the free list, 0 if there is none. */
    method Kalloc() returns (p: nat)
      modifies this`m
      ensures old(m.free) == [] ==> p == 0 && m == old(m)
      ensures old(m.free) != [] ==> p == old(m.free)[0] && m == old(m).(free := old(m.free)[1..])
    {
      if m.free == [] {
        return 0;
      }
      p := m.free[0];
      m := m.(free := m.free[1..]);
    }

    /** `walk` for a virtual page below MAXVA. */
    method Walk(root: nat, vpn: nat, alloc: bool) returns (t: nat)
      requires Sound(m, f) && f.IsRoot(root) && vpn < MAXVPN
      modifies this`m, this`f
      ensures Walked(old(m), old(f), root, vpn, alloc, t, m, f)
      ensures alloc ==> (t != 0 <==> Lacking(old(f), root, vpn, 1) <= |old(m).free|)
      ensures alloc && t != 0 ==> Took(old(m), old(f), root, vpn, 1, 0, m, f)
    {
      hide Trees, Parted, Union, Leaf, Px, MkPte, PtePage, PteValid, Stepped, Took, Lacking, PlaceAt;
      ghost var m0, f0 := m, f;
      ExtendedSame(m, f);
      StepStarts(m, f, root, vpn);
      EndPlaces(root, vpn);
      RootIs(m, f, root);
      t := root;
      var level := 2;
      while level > 0
        invariant 0 <= level <= 2 && Extended(m0, f0, m, f) && (!alloc ==> m == m0 && f == f0)
        invariant |m0.free| - (2 - level) <= |m.free| <= |m0.free|
        invariant PlaceAt(root, vpn, level) in f.table && f.table[PlaceAt(root, vpn, level)] == t
        invariant alloc ==> Stepped(m0, f0, root, vpn, level, m, f)
      {
        StepDown(m, f, root, vpn, level);
        var pte := m.tables[t][Px(level, vpn)];
        if PteValid(pte) {
          if alloc { StepFinds(m0, f0, root, vpn, level, m, f); }
          t := PtePage(pte);
        } else {
          if !alloc || m.free == [] {
            NoWayDown(m, f, root, vpn, level);
            if alloc { StepFails(m0, f0, root, vpn, level, m, f); }
            return 0;
          }
          ghost var m1, f1 := m, f;
          ExtendOnce(m, f, t, Px(level, vpn));
          var c := Kalloc();
          m := m.(tables := AddTable(m.tables, t, Px(level, vpn), c));
          f := AddPlace(f, Below(f, t, Px(level, vpn)), c);
          ExtendedTransitive(m0, f0, m1, f1, m, f);
          assert f.table.Keys == f1.table.Keys + {PlaceAt(root, vpn, level - 1)};
          StepAdds(m0, f0, root, vpn, level, m1, f1, m, f);
          t := c;
        }
        level := level - 1;
      }
      TableIsPage(m, f, LowPlace(root, vpn));
      if alloc { StepEnds(m0, f0, root, vpn, m, f); }
    }

    /**
     `mappages` over the bytes [va, va + size): `k` pages get mapped. Fewer than all means that
     memory ran out, or a panic: a page at or above MAXVA, or one that was mapped already.
     */
    method Mappages(root: nat, va: nat, size: nat, page: nat, perm: nat) returns (r: Outcome, ghost k: nat)
      requires Sound(m, f) && f.IsRoot(root) && perm < 1024 && PteLeaf(perm)
      modifies this`m, this`f
      ensures size == 0 ==> r.Panic? && m == old(m) && f == old(f)
      ensures size > 0 && va < MAXVA ==> Mapped(old(m), old(f), root, va / PGSIZE, k, page, perm, m, f)
      ensures size > 0 && va < MAXVA ==> MapResult(old(m), root, va / PGSIZE, (va + size - 1) / PGSIZE, k, r, m)
      ensures size > 0 && va < MAXVA ==> MapTakes(old(m), old(f), root, va / PGSIZE, k, r, m, f)
      ensures size > 0 && va >= MAXVA ==> r.Panic? && m == old(m) && f == old(f)
    {
      k := 0;
      if size == 0 {
        return Panic, 0;
      }
      var a, last := va / PGSIZE, (va + size - 1) / PGSIZE;
      if a >= MAXVPN {
        return Panic, 0;
      }
      r, k := MapAll(root, a, last, page, perm);
    }

    method MapAll(root: nat, first: nat, last: nat, page: nat, perm: nat) returns (r: Outcome, ghost k: nat)
      requires Sound(m, f) && f.IsRoot(root) && perm < 1024 && PteLeaf(perm) && first <= last && first < MAXVPN
      modifies this`m, this`f
      ensures Mapped(old(m), old(f), root, first, k, page, perm, m, f) && MapResult(old(m), root, first, last, k, r, m)
      ensures |old(m).free| - 2 * (last - first + 1) <= |m.free| <= |old(m).free|
      ensures MapTakes(old(m), old(f), root, first, k, r, m, f)
    {
      hide Trees, Parted, Union, Leaf, Px, MkPte, PtePage, PteValid, PteLeaf, Took, Lacking;
      ghost var m0, f0 := m, f;
      TookNone(m, f, root, first);
      k := 0;
      var a, pa := first, page;
      MappedNone(m, f, root, first, page, perm);
      while true
        invariant first <= a <= last && a == first + k && pa == page + k
        invariant Mapped(m0, f0, root, first, k, page, perm, m, f)
        invariant forall v :: first <= v < first + k ==> !PteValid(Leaf(m0.tables, root, v))
        invariant |m0.free| - 2 * k <= |m.free| <= |m0.free| && Took(m0, f0, root, first, k, 0, m, f)
        decreases last - a
      {
        if a >= MAXVPN {
          return Panic, k;
        }
        ghost var m1, f1 := m, f;
        Needed(m0, f0, root, first, k, 0, m, f);
        FreeLeft(m0, f0, root, first, k, 0, m, f);
        var t := Walk(root, a, true);
        if t == 0 {
          MappedThenExtended(m0, f0, root, first, k, page, perm, m1, f1, m, f);
          return Failed, k;
        }
        MapOne(m0, f0, root, first, k, page, perm, m1, f1, t, m, f);
        TookMore(m0, f0, root, first, k, 0, m1, f1, 0, m, f);
        TookEntry(m0, f0, root, first, k + 1, m, f, t, a, MkPte(pa, perm));
        if PteValid(m.tables[t][Px(0, a)]) {
          MappedThenExtended(m0, f0, root, first, k, page, perm, m1, f1, m, f);
          return Panic, k;
        }
        m := WithEntry(m, t, a, MkPte(pa, perm));
        k := k + 1;
        if a == last {
          return Done, k;
        }
        a, pa := a + 1, pa + 1;
      }
    }

    /** `uvm_unmap` with freeing, of page-aligned user pages: panics at a page that is not mapped. */
    method UnmapFree(root: nat, a: nat, npages: nat) returns (r: Outcome, ghost k: nat)
      requires Valid() && f.IsRoot(root) && a + npages <= USERTOP
      modifies this
      ensures Valid() && f == old(f) && owner == WithoutRange(old(owner), root, a, k)
      ensures FreedRange(old(m), f, old(owner), root, a, k, m) && !r.Failed?
      ensures forall v :: a <= v < a + k ==> PteValid(Leaf(old(m).tables, root, v))
      ensures if r.Done? then k == npages else k < npages && !PteValid(Leaf(old(m).tables, root, a + k))
    {
      hide Sound, Pages, Leaf, Px, PtePage, PteValid, PteFlags, Owned, Extended, TopHidden;
      ghost var m0, owner0 := m, owner;
      k := 0;
      FreedNone(m, f, owner, root, a);
      for i := 0 to npages
        invariant i == k && f == old(f) && owner == WithoutRange(owner0, root, a, k)
        invariant FreedRange(m0, f, owner0, root, a, k, m) && TopHidden(m, f)
        invariant forall v :: a <= v < a + k ==> PteValid(Leaf(m0.tables, root, v))
      {
        var t := Walk(root, a + i, false);
        WalkedLeaf(m, f, root, a + i, t);
        if t == 0 {
          ZeroPte();
          return Panic, k;
        }
        var pte := m.tables[t][Px(0, a + i)];
        if !PteValid(pte) {
          return Panic, k;
        }
        if PteFlags(pte) == PTE_V {
          return Panic, k;
        }
        FreeOne(m0, f, owner0, root, a, k, m);
        m := Kfreed(m, PtePage(pte));
        m := WithEntry(m, t, a + i, 0);
        k := k + 1;
        owner := WithoutRange(owner0, root, a, k);
        TopKept(m0, f, m, f);
      }
      return Done, k;
    }

    /** `uvm_unmap` without freeing. */
    method UnmapKeep(root: nat, a: nat, npages: nat) returns (r: Outcome, ghost k: nat)
      requires Sound(m, f) && f.IsRoot(root) && a + npages <= MAXVPN
      modifies this`m, this`f
      ensures f == old(f) && UnmappedRange(old(m), f, root, a, k, m) && !r.Failed?
      ensures if r.Done? then k == npages else k < npages && !PteValid(Leaf(old(m).tables, root, a + k))
    {
      hide Sound, Leaf, Px, PteValid, PteFlags, Extended;
      ghost var m0 := m;
      k := 0;
      for i := 0 to npages
        invariant i == k && f == old(f) && UnmappedRange(m0, f, root, a, k, m)
      {
        var t := Walk(root, a + i, false);
        WalkedLeaf(m, f, root, a + i, t);
        if t == 0 {
          ZeroPte();
          return Panic, k;
        }
        var pte := m.tables[t][Px(0, a + i)];
        if !PteValid(pte) || PteFlags(pte) == PTE_V {
          return Panic, k;
        }
        UnmapOne(m0, f, root, a, k, m);
        m := WithEntry(m, t, a + i, 0);
        k := k + 1;
      }
      return Done, k;
    }

    /** `uvm_dealloc`: unmaps and frees the pages between the two sizes. */
    method UvmDealloc(root: nat, oldsz: nat, newsz: nat) returns (r: Outcome, sz: nat)
      requires Valid() && f.IsRoot(root) && RoundUp(oldsz) <= USERTOP
      requires forall v :: RoundUp(newsz) <= v < RoundUp(oldsz) ==> PteValid(Leaf(m.tables, root, v))
      modifies this
      ensures r.Done? && Valid() && f == old(f) && sz == if newsz >= oldsz then oldsz else newsz
      ensures newsz >= oldsz || RoundUp(newsz) == RoundUp(oldsz) ==> m == old(m) && owner == old(owner)
      ensures RoundUp(newsz) < RoundUp(oldsz) ==>
        FreedRange(old(m), f, old(owner), root, RoundUp(newsz), RoundUp(oldsz) - RoundUp(newsz), m)
        && owner == WithoutRange(old(owner), root, RoundUp(newsz), RoundUp(oldsz) - RoundUp(newsz))
    {
      hide Sound, Owned, Leaf, PteValid, FreedRange, TopHidden;
      if newsz >= oldsz {
        return Done, oldsz;
      }
      if RoundUp(newsz) < RoundUp(oldsz) {
        var npages := RoundUp(oldsz) - RoundUp(newsz);
        ghost var k;
        r, k := UnmapFree(root, RoundUp(newsz), npages);
        assert r.Done?;
      }
      return Done, newsz;
    }

    /**
     `uvm_alloc`: maps fresh zeroed frames from the old size up to the new one. If memory runs
     out on the way, everything it mapped is unmapped and freed again. A page takes at most
     three pages of memory, so with more than that free it cannot fail. A size that reaches the
     trapframe never succeeds: it panics there, unless memory runs out before.
     */
    method UvmAlloc(root: nat, oldsz: nat, newsz: nat, perm: nat) returns (r: Outcome, sz: nat)
      requires Valid() && f.IsRoot(root) && RoundUp(oldsz) <= USERTOP && perm < 1024 && PteLeaf(perm)
      requires forall v :: RoundUp(oldsz) <= v < RoundUp(newsz) && v < USERTOP ==> !PteValid(Leaf(m.tables, root, v))
      requires RoundUp(newsz) > USERTOP ==> PteValid(Leaf(m.tables, root, TRAPFRAME))
      modifies this
      ensures !r.Panic? ==> Valid()
      ensures newsz < oldsz ==> r.Done? && sz == oldsz && m == old(m) && f == old(f) && owner == old(owner)
      ensures newsz >= oldsz && r.Done? ==>
        && sz == newsz && RoundUp(newsz) <= USERTOP
        && Grew(old(m), old(f), old(owner), root, RoundUp(oldsz), RoundUp(newsz) - RoundUp(oldsz), m, f, owner)
        && forall v :: RoundUp(oldsz) <= v < RoundUp(newsz) ==> PageIs(m, VPage(root, v), perm, ZeroFrame())
      ensures r.Failed? ==> newsz >= oldsz && sz == 0 && Restored(old(m), old(f), old(owner), m, f, owner)
      ensures r.Panic? ==> RoundUp(newsz) > USERTOP && |old(m).free| > USERTOP - RoundUp(oldsz)
      ensures r.Failed? <==> newsz >= oldsz && |old(m).free| < Needs(old(f), root, RoundUp(oldsz), Turns(oldsz, newsz))
      ensures RoundUp(newsz) <= USERTOP && |old(m).free| > 3 * (RoundUp(newsz) - RoundUp(oldsz)) ==> r.Done?
      ensures RoundUp(newsz) > USERTOP && |old(m).free| > 3 * (TRAMPOLINE - RoundUp(oldsz)) ==> r.Panic?
    {
      hide Sound, Owned, Leaf, PteValid, PteLeaf, MkPte, Pages, PageIs, NewPage, TopHidden, Took, Lacking, Grew, Kept;
      if newsz < oldsz {
        RoundUpMonotone(newsz, oldsz);
        return Done, oldsz;
      }
      TookNone(m, f, root, RoundUp(oldsz));
      ghost var m0, f0, owner0 := m, f, owner;
      RoundUpMonotone(oldsz, newsz);
      var first, end := RoundUp(oldsz), RoundUp(newsz);
      GrewNone(m, f, owner, root, first);
      var a := first;
      while a < end
        invariant first <= a <= end && a <= USERTOP
        invariant Grew(m0, f0, owner0, root, first, a - first, m, f, owner)
        invariant forall v :: first <= v < a ==> PageIs(m, VPage(root, v), perm, ZeroFrame())
        invariant |m0.free| - 3 * (a - first) <= |m.free| <= |m0.free| - (a - first)
        invariant Took(m0, f0, root, first, a - first, a - first, m, f)
      {
        ghost var m1, f1 := m, f;
        Needed(m0, f0, root, first, a - first, a - first, m, f);
        FreeLeft(m0, f0, root, first, a - first, a - first, m, f);
        NeedsMore(f0, root, first, a - first + 1, Turns(oldsz, newsz));
        GrewHidden(m0, f0, owner0, root, first, a - first, m, f, owner);
        r := GrowPage(root, first, a, perm, ZeroFrame(), m0, f0, owner0);
        if r.Panic? {
          return Panic, 0;
        }
        if r.Failed? {
          UndoGrowth(root, first, a - first, m0, f0, owner0);
          return Failed, 0;
        }
        forall v | first <= v < a ensures PageIs(m, VPage(root, v), perm, ZeroFrame()) {
          PageKept(m1, f1, m, VPage(root, a), VPage(root, v), perm, ZeroFrame());
        }
        TookMore(m0, f0, root, first, a - first, a - first, m1, f1, 1, m, f);
        a := a + 1;
      }
      FreeLeft(m0, f0, root, first, a - first, a - first, m, f);
      GrewHidden(m0, f0, owner0, root, first, a - first, m, f, owner);
      return Done, newsz;
    }

    /** One turn of `uvm_alloc` or `uvm_copy`: a frame, its contents, and a mapping for it. The trapframe's page is taken. */
    method GrowPage(root: nat, first: nat, a: nat, perm: nat, b: Frame,
                    ghost m0: Mem, ghost f0: Forest, ghost owner0: map<nat, VPage>) returns (r: Outcome)
      requires perm < 1024 && PteLeaf(perm) && f0.IsRoot(root) && first <= a <= USERTOP
      requires Grew(m0, f0, owner0, root, first, a - first, m, f, owner)
      requires PteValid(Leaf(m0.tables, root, a)) <==> a == USERTOP
      modifies this
      ensures r.Done? ==> a < USERTOP && Grew(m0, f0, owner0, root, first, a - first + 1, m, f, owner)
      ensures r.Done? ==> PageIs(m, VPage(root, a), perm, b) && Kept(old(m), old(f), m, VPage(root, a))
      ensures r.Done? ==> |old(m).free| - 3 <= |m.free| < |old(m).free|
      ensures r.Failed? ==> Grew(m0, f0, owner0, root, first, a - first, m, f, owner) && |old(m).free| <= 3
      ensures r.Panic? ==> a == USERTOP && |old(m).free| > 0
      ensures r.Failed? <==> |old(m).free| < 1 + Lacking(old(f), root, a, 1)
      ensures r.Done? ==> Took(old(m), old(f), root, a, 1, 1, m, f)
    {
      hide Sound, Owned, Leaf, PteValid, PteLeaf, MkPte, Pages, Parted, Union, NewPage, PageIs, Took, Lacking, Grew, Mapped, Kept;
      if m.free == [] {
        return Failed;
      }
      ghost var m1, f1 := m, f;
      var p := Kalloc();
      m := m.(frames := m.frames[p := b]);
      assert m == TakeFrame(m1, b);
      GrewFacts(m0, f0, owner0, root, first, a - first, m1, f1, owner, b);
      ghost var k;
      r, k := MapAll(root, a, a, p, perm);
      if r.Failed? {
        GrowUndone(m0, f0, owner0, root, first, a - first, perm, b, m1, f1, owner, m, f);
        m := Kfreed(m, p);
      }
      if r.Done? {
        TookFrame(m1, f1, root, a, TakeFrame(m1, b), m, f);
        FreeLeft(m1, f1, root, a, 1, 1, m, f);
        GrowOne(m0, f0, owner0, root, first, a - first, perm, b, m1, f1, owner, m, f);
        TakenPage(m1, f1, VPage(root, a), perm, b, m, f);
        owner := owner[p := VPage(root, a)];
      }
    }

    /** The failure path of `uvm_alloc` and `uvm_copy`. */
    method UndoGrowth(root: nat, first: nat, k: nat, ghost m0: Mem, ghost f0: Forest, ghost owner0: map<nat, VPage>)
      requires Sound(m0, f0) && Owned(m0, f0, owner0, {}) && TopHidden(m0, f0) && f0.IsRoot(root)
      requires Grew(m0, f0, owner0, root, first, k, m, f, owner)
      requires forall v :: first <= v < first + k ==> !PteValid(Leaf(m0.tables, root, v))
      modifies this
      ensures Restored(m0, f0, owner0, m, f, owner) && TopHidden(m, f)
    {
      hide Sound, Owned, Leaf, PteValid, Pages, PtePage, TopHidden;
      TopKept(m0, f0, m, f);
      ghost var m1, owner1 := m, owner;
      forall v | first <= v < first + k ensures PteValid(Leaf(m.tables, root, v)) {
        assert NewPage(m0, m, VPage(root, v));
      }
      ghost var n;
      var r;
      r, n := UnmapFree(root, first, k);
      GrewThenFreed(m0, f0, owner0, root, first, k, m1, f, owner1, m);
    }

    /**
     `uvm_copy`: the child gets a copy of every page below `sz` with the same permissions; if
     memory runs out, the child's mappings and all frames are as before.
     */
    method UvmCopy(src: nat, dst: nat, sz: nat) returns (r: Outcome)
      requires Valid() && f.IsRoot(src) && f.IsRoot(dst) && src != dst && RoundUp(sz) <= USERTOP
      requires forall v :: 0 <= v < RoundUp(sz) ==> Maps(m, f, VPage(src, v)) && !PteValid(Leaf(m.tables, dst, v))
      modifies this
      ensures Valid() && !r.Panic?
      ensures r.Done? ==> Grew(old(m), old(f), old(owner), dst, 0, RoundUp(sz), m, f, owner)
      ensures r.Done? ==> forall v :: 0 <= v < RoundUp(sz) ==> CopyOf(old(m), m, VPage(src, v), VPage(dst, v))
      ensures r.Failed? ==> Restored(old(m), old(f), old(owner), m, f, owner)
      ensures r.Failed? <==> |old(m).free| < Needs(old(f), dst, 0, RoundUp(sz))
      ensures |old(m).free| > 3 * RoundUp(sz) ==> r.Done?
    {
      hide Sound, Owned, Leaf, PteValid, PteLeaf, MkPte, Pages, PageIs, NewPage, PtePage, PteFlags, Px, Maps, TopHidden;
      hide Took, Lacking;
      ghost var m0, f0, owner0 := m, f, owner;
      TookNone(m, f, dst, 0);
      NeedsMore(f, dst, 0, 0, RoundUp(sz));
      var n := RoundUp(sz);
      GrewNone(m, f, owner, dst, 0);
      for i := 0 to n
        invariant Grew(m0, f0, owner0, dst, 0, i, m, f, owner)
        invariant forall v :: 0 <= v < i ==> CopyOf(m0, m, VPage(src, v), VPage(dst, v))
        invariant |m0.free| - 3 * i <= |m.free| && Took(m0, f0, dst, 0, i, i, m, f)
      {
        Needed(m0, f0, dst, 0, i, i, m, f);
        FreeLeft(m0, f0, dst, 0, i, i, m, f);
        NeedsMore(f0, dst, 0, i + 1, n);
        ghost var u := VPage(src, i);
        MappedPageFacts(m0, f0, owner0, u);
        var t := Walk(src, i, false);
        WalkedLeaf(m, f, src, i, t);
        assert Leaf(m.tables, src, i) == Leaf(m0.tables, src, i);
        MapsValid(m0, f0, u);
        if t == 0 {
          return Panic;
        }
        var pte := m.tables[t][Px(0, i)];
        if !PteValid(pte) {
          return Panic;
        }
        ghost var m1, f1 := m, f;
        r := GrowPage(dst, 0, i, PteFlags(pte), m.frames[PtePage(pte)], m0, f0, owner0);
        if !r.Done? {
          UndoGrowth(dst, 0, i, m0, f0, owner0);
          return Failed;
        }
        forall v | 0 <= v < i ensures CopyOf(m0, m, VPage(src, v), VPage(dst, v)) {
          PageKept(m1, f1, m, VPage(dst, i), VPage(dst, v), PermOf(m0, VPage(src, v)), DataOf(m0, VPage(src, v)));
        }
        TookMore(m0, f0, dst, 0, i, i, m1, f1, 1, m, f);
      }
      FreeLeft(m0, f0, dst, 0, n, n, m, f);
      GrewHidden(m0, f0, owner0, dst, 0, n, m, f, owner);
      return Done;
    }

    /** `freewalk`: frees a table and all tables below it, each once; a mapped page below would panic. */
    method Freewalk(t: nat, ghost ts: Tables) returns (r: Outcome, ghost freed: seq<nat>)
      requires Trees(ts, f) && t in ts && Bare(ts, f, t, m.tables)
      modifies this`m
      ensures r.Done? && Enumerates(freed, Subtree(f, f.node[t]))
      ensures m == Mem(freed + old(m).free, old(m).tables - Subtree(f, f.node[t]), old(m).frames)
      decreases Height(f.node[t].at)
    {
      hide Trees, Px, PteValid, PteLeaf, PtePage, MkPte, Subtree, BelowFirst, Bare;
      freed := [];
      ghost var m0 := m;
      WalkingStarts(ts, f, t, m.tables);
      for i := 0 to PTES
        invariant t in f.node && Walking(ts, f, t, i, m0.tables, m.tables)
        invariant m.free == freed + m0.free && m.frames == m0.frames && Enumerates(freed, BelowFirst(f, f.node[t], i))
      {
        BareEntry(ts, f, t, i, m0.tables, m.tables);
        var pte := m.tables[t][i];
        if PteValid(pte) && !PteLeaf(pte) {
          ghost var m1 := m;
          ghost var more;
          r, more := Freewalk(PtePage(pte), ts);
          WalkedBelow(ts, f, t, i, m0.tables, m1.tables, m.tables);
          EnumeratesMore(freed, BelowFirst(f, f.node[t], i), more, Subtree(f, Below(f, t, i)));
          freed := more + freed;
          m := m.(tables := SetPte(m.tables, t, i, 0));
        } else if PteValid(pte) {
          return Panic, freed;
        }
      }
      WalkingEnds(ts, f, t, m0.tables, m.tables, freed);
      m := m.(tables := m.tables - {t}, free := [t] + m.free);
      freed := [t] + freed;
      return Done, freed;
    }

    /**
     `uvm_free` of a space that is mapped exactly on [0, sz): its frames and its tables are free
     again, each once, and nothing else is touched.
     */
    method UvmFree(root: nat, sz: nat) returns (r: Outcome)
      requires Valid() && f.IsRoot(root) && RoundUp(sz) <= USERTOP
      requires forall v :: 0 <= v < MAXVPN ==> (PteValid(Leaf(m.tables, root, v)) <==> v < RoundUp(sz))
      modifies this
      ensures Valid() && r.Done? && Destroyed(old(m), old(f), old(owner), root, m, f, owner)
    {
      hide Sound, Owned, Leaf, PteValid, Pages, Pruned, FreedRange, Subtree, Bare, Enumerates, TopHidden;
      ghost var m0, f0, owner0 := m, f, owner;
      FreedNone(m, f, owner, root, 0);
      if sz > 0 {
        ghost var k;
        r, k := UnmapFree(root, 0, RoundUp(sz));
      }
      EmptyOnce(m0, f, owner0, root, RoundUp(sz), m);
      NoMappingsBare(m, f, root);
      ghost var m1, freed := m, [];
      r, freed := Freewalk(root, m.tables);
      TakenDown(m1, f, owner, root, freed, m);
      f := Pruned(f, root);
      DestroyedAll(m0, f0, owner0, root, RoundUp(sz), m1, m);
      TopKept(m0, f0, m, f);
    }

    /**
     `proc_pagetable`: a new space with nothing but the trampoline and the trapframe in it, or 0
     and everything as before.
     */
    method ProcPagetable(trampoline: nat, trapframe: nat) returns (root: nat)
      requires Valid()
      modifies this
      ensures Valid() && owner == old(owner)
      ensures root == 0 ==> Restored(old(m), old(f), owner, m, f, owner)
      ensures root != 0 ==> Created(old(m), old(f), owner, root, m, f) && FreshSpace(m, root, trampoline, trapframe)
      ensures root == 0 <==> |old(m).free| < 3
    {
      hide Sound, Owned, Leaf, PteValid, Pages, MkPte, AddPlace, TopHidden, Took, Lacking;
      ghost var m0, f0 := m, f;
      var r;
      ghost var k;
      if m.free == [] {
        return 0;
      }
      RootTaken(m, f, owner);
      HeadIsNew(m, f);
      root := Kalloc();
      m := m.(tables := m.tables[root := ZeroTable()]);
      f := AddPlace(f, Place(root, Root), root);
      assert m == TakeRoot(m0);
      ghost var m1, f1 := m, f;
      ZeroPte();
      FreshLacks(m0, f0, root, TRAMPOLINE, f);
      r, k := MapAll(root, TRAMPOLINE, TRAMPOLINE, trampoline, PTE_R + PTE_X);
      CreatedMapped(m0, f0, owner, root, m1, f1, TRAMPOLINE, k, trampoline, PTE_R + PTE_X, m, f);
      ghost var m2, f2 := m, f;
      if !r.Done? {
        DropSpace(root, m0, f0);
        return 0;
      }
      FreeLeft(m1, f1, root, TRAMPOLINE, 1, 0, m, f);
      r, k := MapAll(root, TRAPFRAME, TRAPFRAME, trapframe, PTE_R + PTE_W);
      CreatedMapped(m0, f0, owner, root, m2, f2, TRAPFRAME, k, trapframe, PTE_R + PTE_W, m, f);
      ghost var m3, f3 := m, f;
      if !r.Done? {
        PteFields(trampoline, PTE_R + PTE_X);
        assert Leaf(m.tables, root, TRAMPOLINE) == MkPte(trampoline, PTE_R + PTE_X);
        r, k := UnmapKeep(root, TRAMPOLINE, 1);
        CreatedUnmapped(m0, f0, owner, root, m3, f3, TRAMPOLINE, k, m);
        DropSpace(root, m0, f0);
        // the tables are there: the second mapping cannot fail
        SameWay(m1, f1, root, TRAMPOLINE, TRAPFRAME, m2, f2);
        assert false;
      }
      FreshHidden(m0, f0, owner, root, trampoline, trapframe, m, f);
    }

    /** The failure path of `proc_pagetable`. */
    method DropSpace(root: nat, ghost m0: Mem, ghost f0: Forest)
      requires Sound(m0, f0) && Owned(m0, f0, owner, {}) && TopHidden(m0, f0) && Created(m0, f0, owner, root, m, f)
      requires forall v :: 0 <= v < MAXVPN ==> Leaf(m.tables, root, v) == 0
      modifies this
      ensures owner == old(owner) && Restored(m0, f0, owner, m, f, owner) && TopHidden(m, f)
    {
      hide Sound, Owned, Leaf, PteValid, Pages, TopHidden;
      ghost var m1, f1, owner1 := m, f, owner;
      ZeroPte();
      EmptyHidden(m0, f0, owner, root, m, f);
      assert RoundUp(0) == 0;
      var r := UvmFree(root, 0);
      CreatedDestroyed(m0, f0, owner1, root, m1, f1, m, f, owner);
    }

    /**
     `proc_freepagetable` of a space mapped exactly on [0, sz), the trampoline and the trapframe:
     every frame and every table of the space is free again, and no panic is reached.
     */
    method ProcFreepagetable(root: nat, sz: nat) returns (r: Outcome)
      requires Valid() && f.IsRoot(root) && RoundUp(sz) <= USERTOP
      requires forall v :: 0 <= v < MAXVPN ==>
        (PteValid(Leaf(m.tables, root, v)) <==> v < RoundUp(sz) || v == TRAMPOLINE || v == TRAPFRAME)
      modifies this
      ensures Valid() && r.Done? && Destroyed(old(m), old(f), old(owner), root, m, f, owner)
    {
      hide Sound, Owned, Leaf, PteValid, Pages, Destroyed, TopHidden;
      ghost var m0, f0, owner0, k := m, f, owner, 0;
      ZeroPte();
      r, k := UnmapKeep(root, TRAMPOLINE, 1);
      if !r.Done? {
        return;
      }
      ghost var m1 := m;
      r, k := UnmapKeep(root, TRAPFRAME, 1);
      if !r.Done? {
        return;
      }
      ghost var m2 := m;
      OwnedKeeps(m0, f, owner, {}, m1, f);
      OwnedKeeps(m1, f, owner, {}, m2, f);
      forall v | 0 <= v < MAXVPN ensures PteValid(Leaf(m.tables, root, v)) <==> v < RoundUp(sz) {
        assert Leaf(m1.tables, root, v) == if v == TRAMPOLINE then 0 else Leaf(m0.tables, root, v);
      }
      UnmappedHidden(m0, f, root, TRAMPOLINE, m1);
      UnmappedHidden(m1, f, root, TRAPFRAME, m2);
      r := UvmFree(root, sz);
      UnmappedDestroyed(m1, f0, owner0, root, TRAPFRAME, 1, m2, m, f, owner);
      UnmappedDestroyed(m0, f0, owner0, root, TRAMPOLINE, 1, m1, m, f, owner);
    }

    /** `walkaddr`: the frame behind a user address, 0 if the user has no access there. */
    method Walkaddr(root: nat, va: nat) returns (p: nat)
      requires Valid() && f.IsRoot(root)
      modifies this`m, this`f
      ensures m == old(m) && f == old(f)
      ensures p != 0 <==> UserPage(m, root, va / PGSIZE)
      ensures p != 0 ==> p == FrameOf(m, VPage(root, va / PGSIZE)) && p in m.frames
    {
      hide Sound, Owned, Leaf, Px, PteValid, PteUser, PtePage, Extended, TopHidden;
      if va >= MAXVA {
        return 0;
      }
      assert va / PGSIZE < MAXVPN;
      var t := Walk(root, va / PGSIZE, false);
      WalkedLeaf(m, f, root, va / PGSIZE, t);
      ZeroPte();
      if t == 0 {
        return 0;
      }
      var pte := m.tables[t][Px(0, va / PGSIZE)];
      if !PteValid(pte) || !PteUser(pte) {
        return 0;
      }
      UserPageFrame(m, f, owner, root, va / PGSIZE);
      return PtePage(pte);
    }

    /** `copy_from_user`: the bytes at `srcva`, up to the first one the user cannot touch. */
    method CopyFromUser(root: nat, srcva: nat, len: nat) returns (ok: bool, dst: seq<Byte>)
      requires Valid() && f.IsRoot(root)
      modifies this`m, this`f
      ensures m == old(m) && f == old(f)
      ensures |dst| <= len && forall a :: srcva <= a < srcva + |dst| ==> UserByte(m, root, a) == dst[a - srcva]
      ensures if ok then |dst| == len else |dst| < len && UserByte(m, root, srcva + |dst|) == -1
    {
      hide Sound, Owned, TopHidden, UserPage, FrameOf, UserByte;
      dst := [];
      var va, rest := srcva, len;
      while rest > 0
        invariant m == old(m) && f == old(f) && 0 <= rest == len - |dst| && (rest > 0 ==> va == srcva + |dst|)
        invariant forall a :: srcva <= a < srcva + |dst| ==> UserByte(m, root, a) == dst[a - srcva]
      {
        var p := Walkaddr(root, va);
        if p == 0 {
          PageBytes(m, root, va, 1);
          return false, dst;
        }
        var off := va % PGSIZE;
        var n := PGSIZE - off;
        if n > rest {
          n := rest;
        }
        PageBytes(m, root, va, n);
        NextPage(va);
        dst := dst + m.frames[p][off..off + n];
        rest, va := rest - n, va / PGSIZE * PGSIZE + PGSIZE;
      }
      return true, dst;
    }

    /** `copy_to_user`: stores a prefix of `src`, all of it unless the user cannot touch the next byte. */
    method CopyToUser(root: nat, dstva: nat, src: seq<Byte>) returns (ok: bool, ghost n: nat)
      requires Valid() && f.IsRoot(root)
      modifies this`m, this`f
      ensures Valid() && f == old(f) && n <= |src| && Stored(old(m), f, root, dstva, src[..n], m)
      ensures forall a :: dstva <= a < dstva + n ==> UserByte(old(m), root, a) != -1
      ensures if ok then n == |src| else n < |src| && UserByte(old(m), root, dstva + n) == -1
    {
      hide Sound, Owned, TopHidden, UserPage, FrameOf, UserByte, Stored;
      ghost var m0 := m;
      var va, done := dstva, 0;
      n := 0;
      StoredNone(m, f, root, dstva);
      while done < |src|
        invariant f == old(f) && done == n <= |src| && (n < |src| ==> va == dstva + n)
        invariant Valid() && Stored(m0, f, root, dstva, src[..n], m)
        invariant forall a :: dstva <= a < dstva + n ==> UserByte(m0, root, a) != -1
      {
        var p := Walkaddr(root, va);
        if p == 0 {
          PageBytes(m, root, va, 1);
          StoredElsewhere(m0, f, root, dstva, src[..n], m, va);
          return false, n;
        }
        var off := va % PGSIZE;
        var k := PGSIZE - off;
        if k > |src| - done {
          k := |src| - done;
        }
        PageBytes(m, root, va, k);
        NextPage(va);
        ghost var m1 := m;
        StoreChunk(m, f, owner, root, va, src[n..n + k]);
        m := WithBytes(m, p, off, src[done..done + k]);
        StoredValid(m1, f, owner, root, va, src[n..n + k], m);
        StoredMore(m0, f, root, dstva, src[..n], m1, src[n..n + k], m);
        assert src[..n] + src[n..n + k] == src[..n + k];
        forall a | va <= a < va + k
          ensures UserByte(m0, root, a) != -1
        {
          StoredElsewhere(m0, f, root, dstva, src[..n], m1, a);
        }
        n, done, va := n + k, done + k, va / PGSIZE * PGSIZE + PGSIZE;
      }
      return true, n;
    }

    /** `copyin_str`: a user string with its terminating 0, if one comes within `max` bytes. */
    method CopyinStr(root: nat, srcva: nat, max: nat) returns (ok: bool, dst: seq<Byte>, ghost n: nat)
      requires Valid() && f.IsRoot(root)
      modifies this`m, this`f
      ensures m == old(m) && f == old(f) && n <= max
      ensures forall a :: srcva <= a < srcva + n ==> UserByte(m, root, a) > 0
      ensures if ok then n < max && UserByte(m, root, srcva + n) == 0 && |dst| == n + 1 && dst[n] == 0
              else |dst| == n && (n == max || UserByte(m, root, srcva + n) == -1)
      ensures forall a :: srcva <= a < srcva + n ==> UserByte(m, root, a) == dst[a - srcva]
    {
      hide Sound, Owned, TopHidden, UserPage, FrameOf, UserByte;
      dst, n := [], 0;
      var va, rest := srcva, max;
      while rest > 0
        invariant m == old(m) && f == old(f) && n == |dst| && rest == max - n && (rest > 0 ==> va == srcva + n)
        invariant forall a :: srcva <= a < srcva + n ==> 0 < UserByte(m, root, a) == dst[a - srcva]
      {
        var p := Walkaddr(root, va);
        if p == 0 {
          PageBytes(m, root, va, 1);
          return false, dst, n;
        }
        var off := va % PGSIZE;
        var k := PGSIZE - off;
        if k > rest {
          k := rest;
        }
        PageBytes(m, root, va, k);
        NextPage(va);
        var i := 0;
        while i < k
          invariant 0 <= i <= k && n == |dst| && va + i == srcva + n && rest == max - n
          invariant rest == max - (va - srcva) - i
          invariant forall a :: srcva <= a < srcva + n ==> 0 < UserByte(m, root, a) == dst[a - srcva]
        {
          var c := m.frames[p][off + i];
          assert UserByte(m, root, srcva + n) == UserByte(m, root, va + i) == c;
          if c == 0 {
            return true, dst + [0], n;
          }
          dst, n := dst + [c], n + 1;
          i, rest := i + 1, rest - 1;
        }
        va := va / PGSIZE * PGSIZE + PGSIZE;
      }
      return false, dst, n;
    }
  }
}
