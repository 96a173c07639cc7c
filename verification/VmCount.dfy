/**
 How much memory mapping takes: a page for every frame, and one for every page-table page on the way
 to it that is not there yet. It fails exactly if there are fewer free pages than that.
 */
module VmCount {
  import opened VmSpec
  import opened VmMem

  /** The tables on the way from the root to page `vpn`, down to level `level`. */
  ghost function Way(root: nat, vpn: nat, level: nat): set<Place>
    requires level <= 2
  {
    if level == 2 then {}
    else if level == 1 then {PlaceAt(root, vpn, 1)}
    else {PlaceAt(root, vpn, 1), PlaceAt(root, vpn, 0)}
  }

  /** The tables on the way to any of the pages `a..a + k`. */
  ghost function Ways(root: nat, a: nat, k: nat): set<Place> {
    if k == 0 then {} else Ways(root, a, k - 1) + Way(root, a + k - 1, 0)
  }

  /** How many of these tables are missing. */
  ghost function Short(ways: set<Place>, have: set<Place>): nat {
    |ways - have|
  }

  ghost function Lacking(f: Forest, root: nat, a: nat, k: nat): nat {
    Short(Ways(root, a, k), f.table.Keys)
  }

  lemma ShortBoth(a: set<Place>, b: set<Place>, have: set<Place>)
    ensures Short(a + b, have) == Short(a, have) + Short(b, have + a)
  {
    assert a + b - have == (a - have) + (b - (have + a));
  }

  lemma ShortOne(a: set<Place>, p: Place, have: set<Place>)
    requires p !in a
    ensures Short(a + {p}, have) == Short(a, have) + if p in have then 0 else 1
  {
    assert a + {p} - have == if p in have then a - have else (a - have) + {p};
  }

  lemma ShortBound(a: set<Place>, have: set<Place>)
    ensures Short(a, have) <= |a| && (a <= have ==> Short(a, have) == 0)
  {
    assert a == (a - have) + (a * have);
    if a <= have { assert a - have == {}; }
  }

  lemma {:induction false} FewWays(root: nat, a: nat, k: nat)
    ensures |Ways(root, a, k)| <= 2 * k
  {
    hide PlaceAt, Px;
    if k > 0 {
      FewWays(root, a, k - 1);
      var x, y := Ways(root, a, k - 1), Way(root, a + k - 1, 0);
      assert y == {PlaceAt(root, a + k - 1, 1), PlaceAt(root, a + k - 1, 0)};
      assert x + y == x + (y - x);
    }
  }

  lemma AtMostTwo(f: Forest, root: nat, a: nat, k: nat)
    ensures Lacking(f, root, a, k) <= 2 * k
  {
    FewWays(root, a, k);
    ShortBound(Ways(root, a, k), f.table.Keys);
  }

  lemma {:induction false} LackingMore(f: Forest, root: nat, a: nat, k: nat, n: nat)
    requires k <= n
    ensures Lacking(f, root, a, k) <= Lacking(f, root, a, n)
    decreases n
  {
    hide Way, Short;
    if k < n {
      LackingMore(f, root, a, k, n - 1);
      ShortBoth(Ways(root, a, n - 1), Way(root, a + n - 1, 0), f.table.Keys);
    }
  }

  /** `frames` pages and the missing tables on the way to `k` pages have been taken, and nothing else. */
  ghost predicate Took(m: Mem, f: Forest, root: nat, a: nat, k: nat, frames: nat, m': Mem, f': Forest) {
    f'.table.Keys == f.table.Keys + Ways(root, a, k) && |m'.free| + Lacking(f, root, a, k) + frames == |m.free|
  }

  lemma TookNone(m: Mem, f: Forest, root: nat, a: nat)
    ensures Took(m, f, root, a, 0, 0, m, f)
  {
    assert f.table.Keys + {} == f.table.Keys;
    ShortBound({}, f.table.Keys);
  }

  lemma TookMore(m: Mem, f: Forest, root: nat, a: nat, k: nat, frames: nat, m1: Mem, f1: Forest, more: nat,
                 m2: Mem, f2: Forest)
    requires Took(m, f, root, a, k, frames, m1, f1) && Took(m1, f1, root, a + k, 1, more, m2, f2)
    ensures Took(m, f, root, a, k + 1, frames + more, m2, f2)
  {
    hide Way, Short;
    WaysOne(root, a + k);
    ShortBoth(Ways(root, a, k), Way(root, a + k, 0), f.table.Keys);
  }

  lemma WaysOne(root: nat, a: nat)
    ensures Ways(root, a, 1) == Way(root, a, 0)
  {
    assert Ways(root, a, 1) == Ways(root, a, 0) + Way(root, a, 0);
  }

  /** What the next page takes is by how much the total grows. */
  lemma Needed(m: Mem, f: Forest, root: nat, a: nat, k: nat, frames: nat, m1: Mem, f1: Forest)
    requires Took(m, f, root, a, k, frames, m1, f1)
    ensures Lacking(f, root, a, k + 1) == Lacking(f, root, a, k) + Lacking(f1, root, a + k, 1)
  {
    hide Way, Short;
    WaysOne(root, a + k);
    ShortBoth(Ways(root, a, k), Way(root, a + k, 0), f.table.Keys);
  }

  // ---------------------------------------------------------------------- walk

  /** `walk` has got to level `level` and has taken what was missing so far. */
  ghost predicate Stepped(m: Mem, f: Forest, root: nat, vpn: nat, level: nat, m': Mem, f': Forest)
    requires level <= 2
  {
    && f'.table.Keys == f.table.Keys + Way(root, vpn, level)
    && |m'.free| + Short(Way(root, vpn, level), f.table.Keys) == |m.free|
  }

  lemma StepStarts(m: Mem, f: Forest, root: nat, vpn: nat)
    ensures Stepped(m, f, root, vpn, 2, m, f)
  {
    assert f.table.Keys + {} == f.table.Keys;
    ShortBound({}, f.table.Keys);
  }

  lemma NotYet(root: nat, vpn: nat, level: nat)
    requires 0 < level <= 2
    ensures PlaceAt(root, vpn, level - 1) !in Way(root, vpn, level)
    ensures Way(root, vpn, level - 1) == Way(root, vpn, level) + {PlaceAt(root, vpn, level - 1)}
  {
    hide Px;
  }

  lemma StepFinds(m: Mem, f: Forest, root: nat, vpn: nat, level: nat, m': Mem, f': Forest)
    requires 0 < level <= 2 && Stepped(m, f, root, vpn, level, m', f') && PlaceAt(root, vpn, level - 1) in f'.table
    ensures Stepped(m, f, root, vpn, level - 1, m', f')
  {
    hide Way, PlaceAt, Short;
    NotYet(root, vpn, level);
    ShortOne(Way(root, vpn, level), PlaceAt(root, vpn, level - 1), f.table.Keys);
    assert PlaceAt(root, vpn, level - 1) in f'.table.Keys;
  }

  lemma StepAdds(m: Mem, f: Forest, root: nat, vpn: nat, level: nat, m1: Mem, f1: Forest, m2: Mem, f2: Forest)
    requires 0 < level <= 2 && Stepped(m, f, root, vpn, level, m1, f1) && PlaceAt(root, vpn, level - 1) !in f1.table
    requires f2.table.Keys == f1.table.Keys + {PlaceAt(root, vpn, level - 1)} && |m2.free| == |m1.free| - 1
    ensures Stepped(m, f, root, vpn, level - 1, m2, f2)
  {
    hide Way, PlaceAt, Short;
    NotYet(root, vpn, level);
    ShortOne(Way(root, vpn, level), PlaceAt(root, vpn, level - 1), f.table.Keys);
  }

  lemma StepFails(m: Mem, f: Forest, root: nat, vpn: nat, level: nat, m': Mem, f': Forest)
    requires 0 < level <= 2 && Stepped(m, f, root, vpn, level, m', f')
    requires PlaceAt(root, vpn, level - 1) !in f'.table && m'.free == []
    ensures |m.free| < Lacking(f, root, vpn, 1)
  {
    hide Way, PlaceAt, Short;
    NotYet(root, vpn, level);
    NotYet(root, vpn, 1);
    WaysOne(root, vpn);
    ShortOne(Way(root, vpn, level), PlaceAt(root, vpn, level - 1), f.table.Keys);
    ShortOne(Way(root, vpn, 1), PlaceAt(root, vpn, 0), f.table.Keys);
  }

  lemma StepEnds(m: Mem, f: Forest, root: nat, vpn: nat, m': Mem, f': Forest)
    requires Stepped(m, f, root, vpn, 0, m', f')
    ensures Took(m, f, root, vpn, 1, 0, m', f') && Lacking(f, root, vpn, 1) <= |m.free|
  {
    hide Way, PlaceAt, Px;
    WaysOne(root, vpn);
  }

  /** A page that is mapped lacks no table. */
  lemma NothingLacking(m: Mem, f: Forest, root: nat, vpn: nat)
    requires Sound(m, f) && f.IsRoot(root) && vpn < MAXVPN && PteValid(Leaf(m.tables, root, vpn))
    ensures Lacking(f, root, vpn, 1) == 0
  {
    hide Parted;
    LeafIs(m.tables, f, root, vpn);
    ZeroPte();
    assert LowPlace(root, vpn) in f.table;
    WaysOne(root, vpn);
    assert PlaceAt(root, vpn, 1) in f.table;
    NotYet(root, vpn, 1);
    NotYet(root, vpn, 2);
    ShortBound(Way(root, vpn, 0), f.table.Keys);
  }

  lemma HeadIsNew(m: Mem, f: Forest)
    requires Sound(m, f) && m.free != []
    ensures m.free[0] != 0 && m.free[0] !in m.tables
  {
    hide Trees;
    PopParted(m.free, m.tables.Keys, m.frames.Keys);
  }

  lemma ShortTwo(p: Place, q: Place, have: set<Place>)
    requires p != q && p !in have && q !in have
    ensures Short({p, q}, have) == 2
  {
    assert {p, q} - have == {p, q};
  }

  /** A new space lacks both tables on the way to any page. */
  lemma FreshLacks(m: Mem, f: Forest, root: nat, vpn: nat, f': Forest)
    requires Sound(m, f) && root !in m.tables && f' == AddPlace(f, Place(root, Root), root)
    ensures Lacking(f', root, vpn, 1) == 2
  {
    hide Px, Trees, Parted, Short, Ways;
    WaysOne(root, vpn);
    NoneBelow(m.tables, f, root);
    ShortTwo(PlaceAt(root, vpn, 1), PlaceAt(root, vpn, 0), f'.table.Keys);
  }

  lemma NoneBelow(ts: Tables, f: Forest, root: nat)
    requires Trees(ts, f) && root !in ts
    ensures forall p :: p in f.table ==> p.root != root
  {
    hide Px, Pointers, Leaves;
    forall p | p in f.table ensures p.root != root {
      if p.at.Mid? { assert Place(p.root, Root) in f.table; }
      if p.at.Low? { assert Place(p.root, Mid(p.at.i2)) in f.table && Place(p.root, Root) in f.table; }
    }
  }

  /** Neighbours in one level-0 table need the same tables. */
  lemma SameWay(m: Mem, f: Forest, root: nat, v: nat, w: nat, m': Mem, f': Forest)
    requires Took(m, f, root, v, 1, 0, m', f') && v / PTES == w / PTES
    ensures Lacking(f', root, w, 1) == 0
  {
    WaysOne(root, v);
    WaysOne(root, w);
    SameIndices(v, w);
    assert Way(root, w, 0) == Way(root, v, 0);
    ShortBound(Way(root, w, 0), f'.table.Keys);
  }

  lemma SameIndices(v: nat, w: nat)
    requires v / PTES == w / PTES
    ensures Px(1, v) == Px(1, w) && Px(2, v) == Px(2, w)
  {
  }
}
