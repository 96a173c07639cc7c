/**
 Sv39 page tables of kernel/vm.c on values. Page-table pages are named by physical page
 number and hold 512 entries; a ghost map says which place of which tree each of them is.
 `Leaf` is the meaning of a tree: the entry of every virtual page, 0 where there is none.
 */
module VmSpec {

  const PGSIZE := 4096
  const PTES := 512
  /** Virtual pages below MAXVA. */
  const MAXVPN := 0x400_0000

  // ------------------------------------------------------------------- entries

  const PTE_V := 1
  const PTE_R := 2
  const PTE_W := 4
  const PTE_X := 8
  const PTE_U := 16

  predicate PteValid(p: nat) { p % 2 == 1 }
  predicate PteUser(p: nat) { p / 16 % 2 == 1 }
  /** Has R, W or X: the entry maps a page instead of pointing to a table. */
  predicate PteLeaf(p: nat) { p / 2 % 8 != 0 }
  function PtePage(p: nat): nat { p / 1024 }
  function PteFlags(p: nat): nat { p % 1024 }

  /** PA2PTE(pa) | perm | PTE_V for the physical page `page`. */
  function MkPte(page: nat, perm: nat): nat
    requires perm < 1024
  {
    page * 1024 + perm / 2 * 2 + 1
  }

  lemma PteFields(page: nat, perm: nat)
    requires perm < 1024
    ensures var p := MkPte(page, perm);
      && PteValid(p) && PtePage(p) == page && PteFlags(p) == perm / 2 * 2 + 1
      && PteUser(p) == PteUser(perm) && PteLeaf(p) == PteLeaf(perm)
  {
    var f := perm / 2 * 2 + 1;
    assert f / 2 == perm / 2 && f / 16 == perm / 16;
    PteParts(page, f);
  }

  lemma PteParts(page: nat, f: nat)
    requires f < 1024
    ensures var p := page * 1024 + f;
      p / 1024 == page && p % 1024 == f && p % 2 == f % 2 && p / 16 % 2 == f / 16 % 2 && p / 2 % 8 == f / 2 % 8
  {
    HighBits(page, f);
    ValidBit(page, f);
    LowBits(page, f);
    MiddleBits(page, f);
  }

  lemma HighBits(page: nat, f: nat)
    requires f < 1024
    ensures (page * 1024 + f) / 1024 == page && (page * 1024 + f) % 1024 == f
  {
  }

  lemma ValidBit(page: nat, f: nat)
    ensures (page * 1024 + f) % 2 == f % 2
  {
    assert page * 1024 + f == page * 512 * 2 + f;
  }

  lemma LowBits(page: nat, f: nat)
    ensures (page * 1024 + f) / 2 % 8 == f / 2 % 8
  {
    var x := page * 64;
    assert page * 1024 + f == 2 * (8 * x) + f;
    assert (2 * (8 * x) + f) / 2 == 8 * x + f / 2;
  }

  lemma MiddleBits(page: nat, f: nat)
    ensures (page * 1024 + f) / 16 % 2 == f / 16 % 2
  {
    var x := page * 32;
    assert page * 1024 + f == 16 * (2 * x) + f;
    assert (16 * (2 * x) + f) / 16 == 2 * x + f / 16;
  }

  // --------------------------------------------------------------------- trees

  /** PX(2, va), PX(1, va) and PX(0, va) of a virtual page. */
  function Px(level: nat, vpn: nat): (i: nat)
    requires level < 3
    ensures i < PTES
  {
    if level == 2 then vpn / 0x4_0000 % PTES else if level == 1 then vpn / PTES % PTES else vpn % PTES
  }

  lemma PxDistinct(v: nat, w: nat)
    requires v < MAXVPN && w < MAXVPN
    requires Px(2, v) == Px(2, w) && Px(1, v) == Px(1, w) && Px(0, v) == Px(0, w)
    ensures v == w
  {
    PxSplit(v);
    PxSplit(w);
  }

  lemma PxSplit(v: nat)
    requires v < MAXVPN
    ensures v == Px(2, v) * 0x4_0000 + Px(1, v) * PTES + Px(0, v)
  {
    var q := v / PTES;
    assert v == q * PTES + v % PTES && q == q / PTES * PTES + q % PTES;
    assert q / PTES == v / 0x4_0000 < 256;
  }

  /** A table's position in its tree. */
  datatype Node = Root | Mid(i2: nat) | Low(i2: nat, i1: nat)
  datatype Place = Place(root: nat, at: Node)

  function Child(n: Node, i: nat): Node
    requires !n.Low?
  {
    match n
    case Root => Mid(i)
    case Mid(i2) => Low(i2, i)
  }

  function Parent(n: Node): Node
    requires !n.Root?
  {
    match n
    case Mid(_) => Root
    case Low(i2, _) => Mid(i2)
  }

  type Tables = map<nat, seq<nat>>

  /** Which table is where: two maps, each the inverse of the other. */
  datatype Forest = Forest(node: map<nat, Place>, table: map<Place, nat>) {
    ghost predicate IsRoot(r: nat) {
      Place(r, Root) in table
    }
  }

  /** The place below entry `i` of table `t`. */
  ghost function Below(f: Forest, t: nat, i: nat): Place
    requires t in f.node && !f.node[t].at.Low?
  {
    Place(f.node[t].root, Child(f.node[t].at, i))
  }

  ghost predicate Inverse(ts: Tables, f: Forest) {
    && f.node.Keys == ts.Keys && 0 !in ts
    && (forall t :: t in ts ==> |ts[t]| == PTES)
    && (forall t :: t in ts ==> f.node[t] in f.table && f.table[f.node[t]] == t)
    && (forall p :: p in f.table ==> f.table[p] in ts && f.node[f.table[p]] == p)
  }

  /** Addresses below MAXVA use the lower half of a root. */
  predicate IsNode(n: Node) {
    (n.Mid? ==> n.i2 < PTES / 2) && (n.Low? ==> n.i2 < PTES / 2 && n.i1 < PTES)
  }

  lemma TopHalf(v: nat)
    requires v < MAXVPN
    ensures Px(2, v) < PTES / 2
  {
  }

  /** The virtual page with the given three indices. */
  ghost function VpnAt(i2: nat, i1: nat, i0: nat): (v: nat)
    requires i2 < PTES / 2 && i1 < PTES && i0 < PTES
    ensures v < MAXVPN && Px(2, v) == i2 && Px(1, v) == i1 && Px(0, v) == i0
  {
    var q := i2 * PTES + i1;
    var v := q * PTES + i0;
    assert v / PTES == q && v / 0x4_0000 == i2;
    v
  }

  /** Roots are named by their page, and the place above a table is filled. */
  ghost predicate Rooted(f: Forest) {
    && (forall p :: p in f.table ==> IsNode(p.at))
    && (forall p :: p in f.table && p.at.Root? ==> f.table[p] == p.root)
    && (forall p :: p in f.table && !p.at.Root? ==> Place(p.root, Parent(p.at)) in f.table)
  }

  /** An entry above level 0 points to the table below it, or is not valid if there is none. */
  ghost predicate Pointers(ts: Tables, f: Forest)
    requires Inverse(ts, f)
  {
    forall t, i :: t in ts && 0 <= i < PTES && !f.node[t].at.Low? ==>
      if Below(f, t, i) in f.table then ts[t][i] == MkPte(f.table[Below(f, t, i)], 0) else !PteValid(ts[t][i])
  }

  /** An entry at level 0 is 0 or a valid leaf. */
  ghost predicate Leaves(ts: Tables, f: Forest)
    requires Inverse(ts, f)
  {
    forall t, i :: t in ts && 0 <= i < PTES && f.node[t].at.Low? && ts[t][i] != 0 ==> PteValid(ts[t][i]) && PteLeaf(ts[t][i])
  }

  ghost predicate Trees(ts: Tables, f: Forest) {
    Inverse(ts, f) && Rooted(f) && Pointers(ts, f) && Leaves(ts, f)
  }

  /** The table that an entry points to, 0 if there is none. */
  function Next(ts: Tables, t: nat, i: nat): nat {
    if t in ts && i < |ts[t]| && PteValid(ts[t][i]) then PtePage(ts[t][i]) else 0
  }

  /** The level-0 table for a virtual page, found by walking down from the root. */
  function LowTable(ts: Tables, root: nat, vpn: nat): nat {
    Next(ts, Next(ts, root, Px(2, vpn)), Px(1, vpn))
  }

  ghost function LowPlace(root: nat, vpn: nat): Place {
    Place(root, Low(Px(2, vpn), Px(1, vpn)))
  }

  /** The entry of a virtual page, 0 where the walk ends early. */
  function Leaf(ts: Tables, root: nat, vpn: nat): nat {
    var t := LowTable(ts, root, vpn);
    if t in ts && |ts[t]| == PTES then ts[t][Px(0, vpn)] else 0
  }

  lemma NextIs(ts: Tables, f: Forest, t: nat, i: nat)
    requires Trees(ts, f) && t in ts && !f.node[t].at.Low? && i < PTES
    ensures Next(ts, t, i) == if Below(f, t, i) in f.table then f.table[Below(f, t, i)] else 0
  {
    if Below(f, t, i) in f.table {
      PteFields(f.table[Below(f, t, i)], 0);
    }
  }

  /** Walking finds the table at the place of the virtual page. */
  lemma WalkFinds(ts: Tables, f: Forest, root: nat, vpn: nat)
    requires Trees(ts, f) && f.IsRoot(root)
    ensures LowTable(ts, root, vpn) == if LowPlace(root, vpn) in f.table then f.table[LowPlace(root, vpn)] else 0
  {
    hide PteValid, PtePage, PteLeaf, MkPte, Px, Next;
    assert f.node[root] == Place(root, Root);
    NextIs(ts, f, root, Px(2, vpn));
    var m := Place(root, Mid(Px(2, vpn)));
    if m in f.table {
      NextIs(ts, f, f.table[m], Px(1, vpn));
    } else {
      NextOfNone(ts, Px(1, vpn));
    }
  }

  lemma NextOfNone(ts: Tables, i: nat)
    requires 0 !in ts
    ensures Next(ts, 0, i) == 0
  {
  }

  lemma LeafIs(ts: Tables, f: Forest, root: nat, vpn: nat)
    requires Trees(ts, f) && f.IsRoot(root)
    ensures Leaf(ts, root, vpn) ==
      if LowPlace(root, vpn) in f.table then ts[f.table[LowPlace(root, vpn)]][Px(0, vpn)] else 0
  {
    hide Px, LowTable;
    WalkFinds(ts, f, root, vpn);
  }

  lemma LeafIsZeroOrValid(ts: Tables, f: Forest, root: nat, vpn: nat)
    requires Trees(ts, f) && f.IsRoot(root)
    ensures Leaf(ts, root, vpn) != 0 ==> PteValid(Leaf(ts, root, vpn)) && PteLeaf(Leaf(ts, root, vpn))
  {
    hide Px, Leaf, PteValid, PteLeaf;
    LeafIs(ts, f, root, vpn);
  }

  function SetPte(ts: Tables, t: nat, i: nat, p: nat): (us: Tables)
    requires t in ts && i < |ts[t]|
  {
    var ptes: seq<nat> := ts[t][i := p];
    ts[t := ptes]
  }

  /** What stays the same for every tree but at one virtual page of one of them. */
  ghost predicate SameLeavesBut(ts: Tables, us: Tables, f: Forest, root: nat, vpn: nat) {
    forall r, v :: f.IsRoot(r) && 0 <= v < MAXVPN && !(r == root && v == vpn) ==> Leaf(us, r, v) == Leaf(ts, r, v)
  }

  /** Storing a level-0 entry changes the meaning at one virtual page of one tree. */
  lemma SetLeaf(ts: Tables, f: Forest, root: nat, vpn: nat, p: nat)
    requires Trees(ts, f) && f.IsRoot(root) && vpn < MAXVPN
    requires LowPlace(root, vpn) in f.table && (p != 0 ==> PteValid(p) && PteLeaf(p))
    ensures var t := f.table[LowPlace(root, vpn)];
      && t in ts && |ts[t]| == PTES
      && var us := SetPte(ts, t, Px(0, vpn), p);
      Trees(us, f) && Leaf(us, root, vpn) == p && SameLeavesBut(ts, us, f, root, vpn)
  {
    hide Px, PteValid, PteLeaf, MkPte, Leaf, Inverse, Rooted, Pointers, Leaves, SetPte;
    var t := f.table[LowPlace(root, vpn)];
    SetLowEntry(ts, f, root, vpn, p);
    var us := SetPte(ts, t, Px(0, vpn), p);
    LeafIs(us, f, root, vpn);
    forall r, v | f.IsRoot(r) && 0 <= v < MAXVPN && !(r == root && v == vpn) ensures Leaf(us, r, v) == Leaf(ts, r, v) {
      SetLowEntryLeaf(ts, f, root, vpn, p, r, v);
    }
  }

  lemma SetLowEntry(ts: Tables, f: Forest, root: nat, vpn: nat, p: nat)
    requires Trees(ts, f) && LowPlace(root, vpn) in f.table && (p != 0 ==> PteValid(p) && PteLeaf(p))
    ensures var t := f.table[LowPlace(root, vpn)];
      && t in ts && |ts[t]| == PTES
      && var us := SetPte(ts, t, Px(0, vpn), p); Trees(us, f) && us[t][Px(0, vpn)] == p
  {
    hide Px, PteValid, PteLeaf, MkPte;
    assert f.node[f.table[LowPlace(root, vpn)]] == LowPlace(root, vpn);
  }

  lemma SetLowEntryLeaf(ts: Tables, f: Forest, root: nat, vpn: nat, p: nat, r: nat, v: nat)
    requires Trees(ts, f) && f.IsRoot(r) && vpn < MAXVPN && v < MAXVPN && !(r == root && v == vpn)
    requires LowPlace(root, vpn) in f.table && (p != 0 ==> PteValid(p) && PteLeaf(p))
    ensures var t := f.table[LowPlace(root, vpn)];
      t in ts && |ts[t]| == PTES && Leaf(SetPte(ts, t, Px(0, vpn), p), r, v) == Leaf(ts, r, v)
  {
    hide Px, PteValid, PteLeaf, MkPte, Leaf, Rooted, Pointers, Leaves;
    SetLowEntry(ts, f, root, vpn, p);
    LeafIs(ts, f, r, v);
    LeafIs(SetPte(ts, f.table[LowPlace(root, vpn)], Px(0, vpn), p), f, r, v);
    if LowPlace(r, v) == LowPlace(root, vpn) && Px(0, v) == Px(0, vpn) {
      PxDistinct(v, vpn);
    }
  }

  function ZeroTable(): (z: seq<nat>)
    ensures |z| == PTES && forall i :: 0 <= i < PTES ==> z[i] == 0
  {
    seq(PTES, _ => 0)
  }

  /** Hanging the empty table `c` below entry `i` of table `t`. */
  function AddTable(ts: Tables, t: nat, i: nat, c: nat): Tables
    requires t in ts && i < |ts[t]|
  {
    SetPte(ts, t, i, MkPte(c, 0))[c := ZeroTable()]
  }

  ghost function AddPlace(f: Forest, p: Place, c: nat): Forest {
    Forest(f.node[c := p], f.table[p := c])
  }

  lemma ZeroPte()
    ensures !PteValid(0)
  {
  }

  ghost predicate CanAdd(ts: Tables, f: Forest, t: nat, i: nat, c: nat) {
    && Trees(ts, f) && t in ts && !f.node[t].at.Low? && i < PTES
    && Below(f, t, i) !in f.table && IsNode(Below(f, t, i).at) && c != 0 && c !in ts
  }

  lemma AddTableInverse(ts: Tables, f: Forest, t: nat, i: nat, c: nat)
    requires CanAdd(ts, f, t, i, c)
    ensures Inverse(AddTable(ts, t, i, c), AddPlace(f, Below(f, t, i), c))
  {
    hide Rooted, Pointers, Leaves, MkPte;
  }

  lemma AddTableRooted(ts: Tables, f: Forest, t: nat, i: nat, c: nat)
    requires CanAdd(ts, f, t, i, c)
    ensures Rooted(AddPlace(f, Below(f, t, i), c))
  {
    hide Pointers, Leaves;
    var p := Below(f, t, i);
    assert Parent(p.at) == f.node[t].at && Place(p.root, Parent(p.at)) == f.node[t];
  }

  lemma AddTablePointers(ts: Tables, f: Forest, t: nat, i: nat, c: nat)
    requires CanAdd(ts, f, t, i, c) && Inverse(AddTable(ts, t, i, c), AddPlace(f, Below(f, t, i), c))
    ensures Pointers(AddTable(ts, t, i, c), AddPlace(f, Below(f, t, i), c))
  {
    hide Rooted, Leaves, PteValid, MkPte;
    var p := Below(f, t, i);
    var us, f' := AddTable(ts, t, i, c), AddPlace(f, p, c);
    ZeroPte();
    forall x, j | x in us && 0 <= j < PTES && !f'.node[x].at.Low?
      ensures if Below(f', x, j) in f'.table then us[x][j] == MkPte(f'.table[Below(f', x, j)], 0) else !PteValid(us[x][j])
    {
      if x == c {
        NothingBelow(ts, f, p, j);
      } else if Below(f, x, j) == p {
        assert f.node[x] == f.node[t];
      }
    }
  }

  /** An empty table adds no mapping to any tree. */
  lemma AddTableKeeps(ts: Tables, f: Forest, t: nat, i: nat, c: nat)
    requires CanAdd(ts, f, t, i, c)
    ensures var us, f' := AddTable(ts, t, i, c), AddPlace(f, Below(f, t, i), c);
      && Trees(us, f') && (forall r :: f'.IsRoot(r) <==> f.IsRoot(r))
      && (forall r, v :: f.IsRoot(r) && 0 <= v < MAXVPN ==> Leaf(us, r, v) == Leaf(ts, r, v))
  {
    hide Rooted, Pointers, PteValid, PteLeaf, MkPte, Px, Leaf;
    var us, f' := AddTable(ts, t, i, c), AddPlace(f, Below(f, t, i), c);
    AddTableInverse(ts, f, t, i, c);
    AddTableRooted(ts, f, t, i, c);
    AddTablePointers(ts, f, t, i, c);
    ZeroPte();
    assert Leaves(us, f');
    forall r, v | f.IsRoot(r) && 0 <= v < MAXVPN ensures Leaf(us, r, v) == Leaf(ts, r, v) {
      LeafIs(ts, f, r, v);
      LeafIs(us, f', r, v);
    }
  }

  /** There is no table below a place that is not filled. */
  lemma NothingBelow(ts: Tables, f: Forest, p: Place, j: nat)
    requires Trees(ts, f) && p !in f.table && !p.at.Low?
    ensures Place(p.root, Child(p.at, j)) !in f.table
  {
    assert Parent(Child(p.at, j)) == p.at;
  }

  /** A new tree: the empty table `c` as a root. */
  ghost predicate CanRoot(ts: Tables, f: Forest, c: nat) {
    Trees(ts, f) && c != 0 && c !in ts
  }

  lemma AddRootInverse(ts: Tables, f: Forest, c: nat)
    requires CanRoot(ts, f, c)
    ensures Place(c, Root) !in f.table && !f.IsRoot(c)
    ensures Inverse(ts[c := ZeroTable()], AddPlace(f, Place(c, Root), c)) && Rooted(AddPlace(f, Place(c, Root), c))
  {
    hide Pointers, Leaves, Inverse, Rooted, ZeroTable;
    NotARoot(ts, f, c);
    AddRootMaps(ts, f, c);
    AddRootRooted(f, c);
  }

  lemma NotARoot(ts: Tables, f: Forest, c: nat)
    requires CanRoot(ts, f, c)
    ensures Place(c, Root) !in f.table
  {
    hide Pointers, Leaves;
  }

  lemma AddRootMaps(ts: Tables, f: Forest, c: nat)
    requires Inverse(ts, f) && c != 0 && c !in ts && Place(c, Root) !in f.table
    ensures Inverse(ts[c := ZeroTable()], AddPlace(f, Place(c, Root), c))
  {
    hide ZeroTable;
  }

  lemma AddRootRooted(f: Forest, c: nat)
    requires Rooted(f)
    ensures Rooted(AddPlace(f, Place(c, Root), c))
  {
  }

  lemma AddRootPointers(ts: Tables, f: Forest, c: nat)
    requires CanRoot(ts, f, c) && Inverse(ts[c := ZeroTable()], AddPlace(f, Place(c, Root), c))
    requires Place(c, Root) !in f.table
    ensures Pointers(ts[c := ZeroTable()], AddPlace(f, Place(c, Root), c))
    ensures Leaves(ts[c := ZeroTable()], AddPlace(f, Place(c, Root), c))
  {
    hide Rooted, PteValid, PteLeaf, MkPte;
    ZeroPte();
    forall j: nat ensures Place(c, Mid(j)) !in f.table { NothingBelow(ts, f, Place(c, Root), j); }
  }

  /** A new tree has no mapping, and the other trees stay as they are. */
  lemma AddRootKeeps(ts: Tables, f: Forest, c: nat)
    requires CanRoot(ts, f, c)
    ensures var us, f' := ts[c := ZeroTable()], AddPlace(f, Place(c, Root), c);
      && Trees(us, f') && !f.IsRoot(c) && (forall r :: f'.IsRoot(r) <==> f.IsRoot(r) || r == c)
      && (forall r, v :: f.IsRoot(r) && 0 <= v < MAXVPN ==> Leaf(us, r, v) == Leaf(ts, r, v))
      && (forall v :: 0 <= v < MAXVPN ==> Leaf(us, c, v) == 0)
  {
    hide Rooted, Pointers, Leaves, PteValid, PteLeaf, MkPte, Px, Leaf;
    var us, f' := ts[c := ZeroTable()], AddPlace(f, Place(c, Root), c);
    AddRootInverse(ts, f, c);
    AddRootPointers(ts, f, c);
    forall r, v | f.IsRoot(r) && 0 <= v < MAXVPN ensures Leaf(us, r, v) == Leaf(ts, r, v) {
      LeafIs(ts, f, r, v);
      LeafIs(us, f', r, v);
    }
    forall v | 0 <= v < MAXVPN ensures Leaf(us, c, v) == 0 {
      NothingBelow(ts, f, Place(c, Root), Px(2, v));
      NothingBelow(ts, f, Place(c, Mid(Px(2, v))), Px(1, v));
      LeafIs(us, f', c, v);
    }
  }

  // -------------------------------------------------------------- taking down

  /** Is `n` strictly below `p`, and under which entry of `p`? */
  predicate StrictlyBelow(n: Node, p: Node) {
    (p.Root? && !n.Root?) || (p.Mid? && n.Low? && n.i2 == p.i2)
  }

  function EntryAbove(n: Node, p: Node): nat
    requires StrictlyBelow(n, p)
  {
    if p.Root? then n.i2 else n.i1
  }

  /** The tables below the first `k` entries of a place, and all tables at or below a place. */
  ghost function BelowFirst(f: Forest, p: Place, k: nat): set<nat> {
    set t | t in f.node && f.node[t].root == p.root && StrictlyBelow(f.node[t].at, p.at)
            && EntryAbove(f.node[t].at, p.at) < k
  }

  ghost function Subtree(f: Forest, p: Place): set<nat> {
    set t | t in f.node && f.node[t].root == p.root && (f.node[t].at == p.at || StrictlyBelow(f.node[t].at, p.at))
  }

  /** The tables below entry `k` are the subtree of the place below it. */
  lemma BelowNext(ts: Tables, f: Forest, p: Place, k: nat)
    requires Trees(ts, f) && k < PTES
    ensures p.at.Low? ==> BelowFirst(f, p, k + 1) == {}
    ensures !p.at.Low? ==> var c := Place(p.root, Child(p.at, k));
      && BelowFirst(f, p, k + 1) == BelowFirst(f, p, k) + Subtree(f, c) && BelowFirst(f, p, k) !! Subtree(f, c)
      && (c !in f.table ==> Subtree(f, c) == {})
  {
    hide Pointers, Leaves;
    if !p.at.Low? {
      var c := Place(p.root, Child(p.at, k));
      if c !in f.table {
        forall t | t in Subtree(f, c) ensures false { UnderFilled(ts, f, c, t); }
      }
    }
  }

  lemma UnderFilled(ts: Tables, f: Forest, c: Place, t: nat)
    requires Trees(ts, f) && t in Subtree(f, c) && !c.at.Root?
    ensures c in f.table
  {
    hide Pointers, Leaves;
    assert f.node[t] in f.table;
    if f.node[t].at != c.at { assert Place(c.root, Parent(f.node[t].at)) in f.table; }
  }

  lemma WholeSubtree(ts: Tables, f: Forest, t: nat)
    requires Trees(ts, f) && t in ts
    ensures Subtree(f, f.node[t]) == {t} + BelowFirst(f, f.node[t], PTES) && t !in BelowFirst(f, f.node[t], PTES)
    ensures BelowFirst(f, f.node[t], 0) == {}
  {
    hide Pointers, Leaves;
    var p := f.node[t];
    forall x | x in Subtree(f, p) ensures x == t || x in BelowFirst(f, p, PTES) {
      assert f.node[x] in f.table;
      if f.node[x].at == p.at { assert f.node[x] == p; }
    }
  }

  ghost function Pruned(f: Forest, root: nat): Forest {
    Forest(map t | t in f.node && f.node[t].root != root :: f.node[t],
           map p | p in f.table && p.root != root :: f.table[p])
  }

  lemma PruneInverse(ts: Tables, f: Forest, root: nat, us: Tables)
    requires Trees(ts, f) && f.IsRoot(root) && us == ts - Subtree(f, Place(root, Root))
    ensures forall t :: t in us <==> t in ts && f.node[t].root != root
    ensures Inverse(us, Pruned(f, root)) && Rooted(Pruned(f, root))
  {
    hide Pointers, Leaves, Rooted;
    PruneRooted(f, root);
    forall t | t in ts ensures t in us <==> f.node[t].root != root {
      assert f.node[t].root == root ==> t in Subtree(f, Place(root, Root));
    }
  }

  lemma PruneRooted(f: Forest, root: nat)
    requires Rooted(f)
    ensures Rooted(Pruned(f, root))
  {
  }

  lemma PrunePointers(ts: Tables, f: Forest, root: nat, us: Tables)
    requires Trees(ts, f) && us.Keys <= ts.Keys && (forall t :: t in us ==> us[t] == ts[t] && f.node[t].root != root)
    requires Inverse(us, Pruned(f, root))
    ensures Pointers(us, Pruned(f, root)) && Leaves(us, Pruned(f, root))
  {
    hide PteValid, PteLeaf, MkPte, Rooted;
    var f' := Pruned(f, root);
    assert forall t, i :: t in us && 0 <= i < PTES && !f'.node[t].at.Low? ==>
      Below(f', t, i) == Below(f, t, i) && (Below(f', t, i) in f'.table <==> Below(f, t, i) in f.table);
  }

  /** Taking away a whole tree leaves the other trees as they are. */
  lemma PruneKeeps(ts: Tables, f: Forest, root: nat, us: Tables)
    requires Trees(ts, f) && f.IsRoot(root) && us == ts - Subtree(f, Place(root, Root))
    ensures Trees(us, Pruned(f, root))
    ensures forall r :: Pruned(f, root).IsRoot(r) <==> f.IsRoot(r) && r != root
    ensures forall r, v :: f.IsRoot(r) && r != root && 0 <= v < MAXVPN ==> Leaf(us, r, v) == Leaf(ts, r, v)
  {
    hide PteValid, PteLeaf, MkPte, Px, Leaf, Rooted, Pointers, Leaves;
    var f' := Pruned(f, root);
    PruneInverse(ts, f, root, us);
    PrunePointers(ts, f, root, us);
    forall r, v | f.IsRoot(r) && r != root && 0 <= v < MAXVPN ensures Leaf(us, r, v) == Leaf(ts, r, v) {
      LeafIs(ts, f, r, v);
      LeafIs(us, f', r, v);
    }
  }
}
