/** user/umalloc.c: the allocator of Kernighan and Ritchie over a circular free list. */
module Malloc {
  import opened MallocSpec

  /**
   The reply of `sbrk`, if it gets called: an address at or above the break, in units, or none. So the
   break is a multiple of 16 bytes, as `exec` and `malloc` leave it; a program that calls `sbrk` itself
   has to keep it so.
   */
  datatype Reply = Refused | Grant(at: nat)

  /** Where `malloc` has looked on its way from place `f` to place `i`. */
  ghost predicate Visited(f: nat, i: nat, j: nat) {
    if f < i then f < j < i else j > f || j < i
  }

  class Malloc {
    const base: nat
    var h: Headers
    /** 0 until the first call. */
    var freep: nat
    ghost var v: View
    ghost var at: nat
    ghost var top: nat

    ghost predicate Valid()
      reads this
    {
      && base > 0 && v.ring != [] && v.ring[0] == base
      && if freep == 0 then v == View([base], map[], {}, map[]) && base < top <= WORD
         else Ready()
    }

    ghost predicate Ready()
      reads this
    {
      Inv(h, v, top) && base > 0 && freep != 0 && at < |v.ring| && v.ring[at] == freep && v.ring[0] == base
    }

    constructor (base: nat, ghost top: nat)
      requires 0 < base < top <= WORD
      ensures Valid() && v.live == {} && v.tag == map[] && this.top == top
    {
      this.base, this.top, h, freep := base, top, Headers(map[], map[]), 0;
      v, at := View([base], map[], {}, map[]), 0;
    }

    /** The search loop of `free`: it always ends, at the last block of the list below `bp`. */
    method FindPlace(bp: nat) returns (p: nat, ghost k: nat)
      requires Ready() && bp > base && forall i :: 0 <= i < |v.ring| ==> v.ring[i] != bp
      ensures k < |v.ring| && p == v.ring[k] && base <= p < bp && (k + 1 < |v.ring| ==> bp < v.ring[k + 1])
    {
      hide Tile, Held;
      ghost var goal, n := PlaceOf(v.ring, bp), |v.ring|;
      p, k := freep, at;
      assert Edge(h, v.ring, k);
      while !(bp > p && bp < h.ptr[p])
        invariant k < n && p == v.ring[k] && Edge(h, v.ring, k)
        decreases if k <= goal then goal - k else goal + n - k
      {
        if p >= h.ptr[p] && (bp > p || bp < h.ptr[p]) {
          break;
        }
        assert k != goal;
        assert Edge(h, v.ring, Succ(k, n));
        p := h.ptr[p];
        k := Succ(k, n);
      }
    }

    /** `free` of a live block: it is not live any more, every other one is as before, and no memory is lost. */
    method Free(ap: nat)
      requires Valid() && ap > 0 && ap - 1 in v.live
      modifies this
      ensures Ready() && v.live == old(v).live - {ap - 1} && top == old(top)
      ensures Coarser(old(v).tag, v.tag) && Keeps(old(h), old(v), h, v)
    {
      hide Inv, Freed, Keeps, Coarser;
      var bp := ap - 1;
      LiveNotInRing(h, v, top, bp);
      var p;
      ghost var k;
      p, k := FindPlace(bp);
      ghost var h0, v0 := h, v;
      FreeKeeps(h, v, top, k, bp);
      FreedCoarser(v, k, bp);
      v := Freed(v, k, bp);
      FreeKeepsOthers(h0, v0, top, k, bp, v);
      if bp + h.size[bp] == h.ptr[p] {
        var next := h.ptr[p];
        h := Headers(h.ptr[bp := h.ptr[next]], h.size[bp := Add32(h.size[bp], h.size[next])]);
      } else {
        h := h.(ptr := h.ptr[bp := h.ptr[p]]);
      }
      if p + h.size[p] == bp {
        h := Headers(h.ptr[p := h.ptr[bp]], h.size[p := Add32(h.size[p], h.size[bp])]);
      } else {
        h := h.(ptr := h.ptr[p := bp]);
      }
      freep, at := p, k;
      assert h == FreeHeaders(h0, p, bp);
    }

    /** The search loop of `malloc`: once round the list from `freep`. */
    method Scan(nunits: nat) returns (found: bool, prevp: nat, p: nat, ghost i: nat)
      requires Ready() && nunits > 0
      ensures found ==>
        0 < i < |v.ring| && p == v.ring[i] && prevp == v.ring[i - 1] && p in h.size && h.size[p] >= nunits
      ensures !found ==> forall j :: 0 <= j < |v.ring| ==> v.ring[j] in h.size && h.size[v.ring[j]] < nunits
    {
      hide Tile, Held;
      ghost var n := |v.ring|;
      assert Edge(h, v.ring, at);
      prevp, p, i := freep, h.ptr[freep], Succ(at, n);
      while true
        invariant i < n && p == v.ring[i] && prevp == v.ring[if i == 0 then n - 1 else i - 1]
        invariant forall j :: 0 <= j < n && Visited(at, i, j) ==> h.size[v.ring[j]] < nunits
        decreases if i <= at then at - i else at + n - i
      {
        if h.size[p] >= nunits {
          return true, prevp, p, i;
        }
        if p == freep {
          assert i == at;
          return false, prevp, p, i;
        }
        assert Edge(h, v.ring, i);
        prevp, p, i := p, h.ptr[p], Succ(i, n);
      }
    }

    /** `morecore`: the granted units join the free list, which then holds a block of the size asked for. */
    method Morecore(nu: nat, reply: Reply) returns (ok: bool)
      requires Ready() && CoreUnits(nu) < WORD / 2 / HEADER
      requires reply.Grant? ==> top <= reply.at && reply.at + CoreUnits(nu) <= WORD
      modifies this
      ensures Ready() && ok == reply.Grant?
      ensures !ok ==> h == old(h) && v == old(v) && top == old(top)
      ensures ok ==> v.live == old(v).live && Keeps(old(h), old(v), h, v) && top == reply.at + CoreUnits(nu)
      ensures ok ==> forall u :: u in v.tag <==> u in old(v).tag || reply.at <= u < reply.at + CoreUnits(nu)
      ensures ok ==> exists i :: 0 < i < |v.ring| && v.ring[i] in h.size && h.size[v.ring[i]] >= nu
    {
      hide Inv, Keeps, Coarser, GrantOf;
      if reply.Refused? {
        return false;
      }
      var n := CoreUnits(nu);
      var b := reply.at;
      ghost var h0, v0, top0 := h, v, top;
      GrantAll(h, v, top, b, n);
      h := h.(size := h.size[b := n]);
      v, top := GrantOf(v, b, n), b + n;
      ghost var h1, v1 := h, v;
      Free(b + 1);
      GrantFreed(h0, v0, top0, h1, v1, top, h, v, b, n);
      return true;
    }

    /**
     `malloc`: a block that was not live, of the units asked for, cut from what was free or from
     what `sbrk` granted. It fails only if no free block is large enough and `sbrk` refuses.
     */
    method Allocate(nbytes: nat, reply: Reply) returns (r: nat)
      requires Valid() && nbytes < WORD && (nbytes <= WORD / 2 - 2 * HEADER || Fits(v, UnitsFor(nbytes)))
      requires reply.Grant? ==> top <= reply.at && reply.at + CoreUnits(UnitsFor(nbytes)) <= WORD
      modifies this
      ensures Valid() && freep != 0
      ensures r == 0 <==> reply.Refused? && !Fits(old(v), UnitsFor(nbytes))
      ensures r == 0 ==> v == old(v)
      ensures r != 0 ==> r - 1 !in old(v).live && v.live == old(v).live + {r - 1}
      ensures r != 0 ==> r - 1 in v.blocks && v.blocks[r - 1] == UnitsFor(nbytes) && Keeps(old(h), old(v), h, v)
      ensures Fits(old(v), UnitsFor(nbytes)) || r == 0 ==> v.tag.Keys == old(v).tag.Keys && top == old(top)
      ensures !Fits(old(v), UnitsFor(nbytes)) && r != 0 ==>
        forall u :: u in v.tag <==> u in old(v).tag || reply.at <= u < reply.at + CoreUnits(UnitsFor(nbytes))
    {
      hide Inv, Keeps, Coarser, UnitsFor, CoreUnits, Fits;
      var nunits := UnitsFor(nbytes);
      ghost var h0, v0 := h, v;
      if freep == 0 {
        h := Headers(h.ptr[base := base], h.size[base := 0]);
        freep, at := base, 0;
        FirstCall(h, base, top);
      }
      var found, prevp, p;
      ghost var i;
      found, prevp, p, i := Scan(nunits);
      ghost var h1, v1, top1 := h, v, top;
      KeepsFirst(h0, v0, h, v, top);
      if found {
        FoundFits(h, v, top, i, nunits);
      } else {
        NotFoundFits(h, v, top, nunits);
        RequestFits(nbytes);
        var ok := Morecore(nunits, reply);
        if !ok {
          return 0;
        }
        found, prevp, p, i := Scan(nunits);
        KeepsBoth(h0, v0, h1, v1, top1, h, v);
      }
      ghost var h2, v2, top2 := h, v, top;
      r := Take(prevp, p, i, nunits);
      KeepsBoth(h0, v0, h2, v2, top2, h, v);
    }

    /** The block found leaves the list, or its last units become a block of their own. */
    method Take(prevp: nat, p: nat, ghost i: nat, nunits: nat) returns (r: nat)
      requires Ready() && nunits > 0
      requires 0 < i < |v.ring| && p == v.ring[i] && prevp == v.ring[i - 1] && p in h.size && h.size[p] >= nunits
      modifies this
      ensures Ready() && top == old(top) && r != 0 && r - 1 !in old(v).live && v.live == old(v).live + {r - 1}
      ensures r - 1 in v.blocks && v.blocks[r - 1] == nunits && Keeps(old(h), old(v), h, v)
      ensures v.tag.Keys == old(v).tag.Keys
    {
      hide Inv, Keeps, Without;
      ghost var h0, v0 := h, v;
      RingPlaces(h, v, top, i);
      if h.size[p] == nunits {
        TakeKeeps(h, v, top, i);
        TakeUntouched(h, v, top, i);
        h := h.(ptr := h.ptr[prevp := h.ptr[p]]);
        v := Taken(v, i);
        r := p + 1;
      } else {
        SplitKeeps(h, v, top, i, nunits);
        SplitUntouched(h, v, top, i, nunits, Split(v, i, nunits).live);
        v := Split(v, i, nunits);
        h := h.(size := h.size[p := h.size[p] - nunits]);
        var q := p + h.size[p];
        h := h.(size := h.size[q := nunits]);
        assert h == SplitHeaders(h0, p, nunits);
        r := q + 1;
      }
      KeepsFrom(h0, v0, top, h, v, top);
      freep, at := prevp, i - 1;
    }
  }

  /** The view with the granted units as a live block, as `morecore` sets it up. */
  ghost function GrantOf(v: View, b: nat, n: nat): View
    requires forall u :: u in v.tag ==> u < b
  {
    View(v.ring, v.blocks[b := n], v.live + {b}, Granted(v.tag, b, n))
  }

  ghost function Granted(tag: map<nat, nat>, b: nat, n: nat): (r: map<nat, nat>)
    requires forall u :: u in tag ==> u < b
    ensures forall u :: u in r <==> u in tag || b <= u < b + n
    ensures forall u :: u in r ==> r[u] == if u in tag then tag[u] else b
  {
    if n == 0 then tag else Granted(tag, b, n - 1)[b + n - 1 := b]
  }

  lemma GrantAll(h: Headers, v: View, top: nat, b: nat, n: nat)
    requires Inv(h, v, top) && top <= b && n > 0 && b + n <= WORD
    ensures b !in v.live && forall u :: u in v.tag ==> u < b
    ensures var h', v' := h.(size := h.size[b := n]), GrantOf(v, b, n);
      && Inv(h', v', b + n) && Keeps(h, v, h', v') && v'.live == v.live + {b} && v'.ring == v.ring
      && b in v'.blocks && v'.blocks[b] == n && (forall u :: u in v'.tag <==> u in v.tag || b <= u < b + n)
  {
    hide Ring, Apart, Tile, Granted;
    GrantAbove(h, v, top, b);
    GrantKeeps(h, v, top, b, n, Granted(v.tag, b, n));
    KeepsFrom(h, v, top, h.(size := h.size[b := n]), GrantOf(v, b, n), b + n);
  }

  /** Granted units, once freed, are in a free block of at least their number. */
  lemma GrantFreed(h: Headers, v: View, top: nat, h1: Headers, v1: View, top1: nat, h2: Headers, v2: View,
                   b: nat, n: nat)
    requires Inv(h, v, top) && Inv(h1, v1, top1) && Keeps(h, v, h1, v1) && v1.live == v.live + {b} && b !in v.live
    requires b in v1.blocks && v1.blocks[b] == n
    requires Inv(h2, v2, top1) && v2.live == v1.live - {b} && Coarser(v1.tag, v2.tag) && Keeps(h1, v1, h2, v2)
    ensures v2.live == v.live && Keeps(h, v, h2, v2) && v2.tag.Keys == v1.tag.Keys
    ensures exists i :: 0 < i < |v2.ring| && v2.ring[i] in h2.size && h2.size[v2.ring[i]] >= n
  {
    hide Inv, Untouched;
    KeepsBoth(h, v, h1, v1, top1, h2, v2) by { KeepsTile(h, v, top); }
    var i := FreedFits(h1, v1, top1, h2, v2, b);
    RingIn(h2, v2, top1, i);
  }

  lemma RingIn(h: Headers, v: View, top: nat, i: nat)
    requires Inv(h, v, top) && i < |v.ring|
    ensures v.ring[i] in h.size
  {
  }

  /** Is there a free block of `n` units or more? */
  ghost predicate Fits(v: View, n: nat) {
    exists b :: b in v.blocks && b !in v.live && v.blocks[b] >= n
  }

  lemma FirstCall(h: Headers, base: nat, top: nat)
    requires base in h.ptr && h.ptr[base] == base && base in h.size && h.size[base] == 0 && base < top <= WORD
    ensures Inv(h, View([base], map[], {}, map[]), top)
  {
    assert Edge(h, [base], 0);
    assert forall b :: !InRing([base], b);
  }

  lemma RequestFits(nbytes: nat)
    requires nbytes <= WORD / 2 - 2 * HEADER
    ensures CoreUnits(UnitsFor(nbytes)) < WORD / 2 / HEADER && UnitsFor(nbytes) <= CoreUnits(UnitsFor(nbytes))
  {
  }

  lemma RingPlaces(h: Headers, v: View, top: nat, i: nat)
    requires Inv(h, v, top) && 0 < i < |v.ring|
    ensures v.ring[i - 1] >= v.ring[0] && v.ring[i] in h.ptr && v.ring[i] in h.size
    ensures |Without(v.ring, i)| == |v.ring| - 1
    ensures Without(v.ring, i)[i - 1] == v.ring[i - 1] && Without(v.ring, i)[0] == v.ring[0]
  {
    hide Edge, Tile, Held, Without;
  }

  lemma KeepsFrom(h: Headers, v: View, top: nat, h': Headers, v': View, top': nat)
    requires Inv(h, v, top) && Inv(h', v', top') && Untouched(h, v, h', v'.live)
    ensures Keeps(h, v, h', v')
  {
    hide Inv;
    UntouchedSizes(h, v, top, h', v', top');
  }

  /** The first call sets up the list; there are no live blocks then. */
  lemma KeepsFirst(h: Headers, v: View, h': Headers, v': View, top: nat)
    requires v' == v && Inv(h', v', top) && (v.live == {} || h' == h)
    ensures Keeps(h, v, h', v') && Tile(v.blocks, v.tag)
  {
    hide Ring, Apart, InRing;
  }

  lemma KeepsTile(h: Headers, v: View, top: nat)
    requires Inv(h, v, top)
    ensures Tile(v.blocks, v.tag)
  {
    hide Tile;
  }

  lemma KeepsBoth(h: Headers, v: View, h1: Headers, v1: View, top1: nat, h2: Headers, v2: View)
    requires Tile(v.blocks, v.tag) && Inv(h1, v1, top1) && Keeps(h, v, h1, v1) && Keeps(h1, v1, h2, v2)
    requires v.live <= v1.live && v.live <= v2.live
    ensures Keeps(h, v, h2, v2)
  {
    hide Ring, Apart, Held, Tile, Keeps;
    KeepsTransitive(h, v, h1, v1, h2, v2);
  }

  lemma FoundFits(h: Headers, v: View, top: nat, i: nat, n: nat)
    requires Inv(h, v, top) && 0 < i < |v.ring| && v.ring[i] in h.size && h.size[v.ring[i]] >= n
    ensures Fits(v, n)
  {
    RingSize(h, v, top, i);
    InRingAt(v.ring, i);
  }

  lemma NotFoundFits(h: Headers, v: View, top: nat, n: nat)
    requires Inv(h, v, top) && forall j :: 0 <= j < |v.ring| ==> v.ring[j] in h.size && h.size[v.ring[j]] < n
    ensures !Fits(v, n)
  {
    hide Edge, Tile, Ring, Apart;
    forall b | b in v.blocks && b !in v.live ensures v.blocks[b] < n { var i := FreeAt(h, v, top, b); }
  }

  lemma LiveNotInRing(h: Headers, v: View, top: nat, b: nat)
    requires Inv(h, v, top) && b in v.live
    ensures b > v.ring[0] && forall i :: 0 <= i < |v.ring| ==> v.ring[i] != b
  {
    assert Within(v.blocks, b, b);
    forall i | 0 < i < |v.ring| ensures v.ring[i] != b { InRingAt(v.ring, i); }
  }

  lemma FreeKeepsOthers(h: Headers, v: View, top: nat, k: nat, bp: nat, v': View)
    requires Inv(h, v, top) && bp in v.live && k < |v.ring| && v'.live == v.live - {bp}
    requires bp in h.size && v.ring[k] in h.ptr && v.ring[k] in h.size && h.ptr[v.ring[k]] in h.ptr
    requires h.ptr[v.ring[k]] in h.size
    requires Inv(FreeHeaders(h, v.ring[k], bp), v', top)
    ensures Keeps(h, v, FreeHeaders(h, v.ring[k], bp), v')
  {
    hide Inv, FreeHeaders;
    FreeUntouched(h, v, top, k, bp, v');
    UntouchedSizes(h, v, top, FreeHeaders(h, v.ring[k], bp), v', top);
  }
}
