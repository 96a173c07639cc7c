/**
 kernel/buffer-io.c: NBUF buffers on a circular doubly linked list, most recently released
 first. Every method is one critical section, so any interleaving of processes is some
 order of these calls; `Valid` is what all of them keep. It says that the list is a
 permutation of all buffers ordered by last release, that a nonzero block has at most one
 buffer, that a valid buffer holds the latest contents of its block, and that a block whose
 latest contents are not on disk has a buffer that is locked or pinned, hence not recycled.
 */
module BufferCache {
  import opened Blocks

  const NBUF := 30
  /** The list head's place among the buffers. */
  const HEAD := NBUF

  datatype Buf = Buf(valid: bool, blockno: nat, owner: nat, refcnt: nat, prev: nat, next: nat, data: Block)

  /** Who counts in a buffer's `refcnt`: pins of the log, and callers between get and release. */
  datatype Refs = Refs(pins: nat, holds: nat)

  datatype Outcome = Done | Panic

  datatype Found = Hit(i: nat) | Recycled(i: nat) | NoBuffers

  // ----------------------------------------------------------------- the list

  /** The list as it is walked: places -1 and |order| are the head. */
  function At(order: seq<nat>, k: int): nat {
    if 0 <= k < |order| then order[k] else HEAD
  }

  /** `order` lists distinct buffers, and the links follow it there and back. */
  ghost predicate Linked(bs: seq<Buf>, order: seq<nat>) {
    && |bs| == NBUF + 1
    && (forall k :: 0 <= k < |order| ==> order[k] < NBUF)
    && (forall k, m :: 0 <= k < m < |order| ==> order[k] != order[m])
    && (forall k :: -1 <= k < |order| ==> bs[At(order, k)].next == At(order, k + 1))
    && (forall k :: 0 <= k <= |order| ==> bs[At(order, k)].prev == At(order, k - 1))
  }

  function SetNext(bs: seq<Buf>, i: nat, n: nat): seq<Buf>
    requires i < |bs|
  {
    bs[i := bs[i].(next := n)]
  }

  function SetPrev(bs: seq<Buf>, i: nat, p: nat): seq<Buf>
    requires i < |bs|
  {
    bs[i := bs[i].(prev := p)]
  }

  /** Two states of the buffers that differ in links only. */
  ghost predicate SameButLinks(bs: seq<Buf>, cs: seq<Buf>) {
    && |bs| == |cs|
    && (forall i :: 0 <= i < |bs| ==> cs[i] == bs[i].(prev := cs[i].prev, next := cs[i].next))
  }

  /** Taking the buffer at place `k` off the list. */
  lemma Unlinked(bs: seq<Buf>, order: seq<nat>, k: nat)
    requires Linked(bs, order) && k < |order|
    ensures var p, n := At(order, k - 1), At(order, k + 1);
      && bs[order[k]].prev == p && bs[order[k]].next == n
      && var cs := SetNext(SetPrev(bs, n, p), p, n);
      SameButLinks(bs, cs) && cs[order[k]] == bs[order[k]] && Linked(cs, order[..k] + order[k + 1..])
  {
    assert At(order, k) == order[k];
    UnlinkedNext(bs, order, k);
    UnlinkedPrev(bs, order, k);
  }

  lemma UnlinkedNext(bs: seq<Buf>, order: seq<nat>, k: nat)
    requires Linked(bs, order) && k < |order|
    ensures var p, n, rest := At(order, k - 1), At(order, k + 1), order[..k] + order[k + 1..];
      forall m :: -1 <= m < |rest| ==> SetNext(SetPrev(bs, n, p), p, n)[At(rest, m)].next == At(rest, m + 1)
  {
    var p, n, rest := At(order, k - 1), At(order, k + 1), order[..k] + order[k + 1..];
    var cs := SetNext(SetPrev(bs, n, p), p, n);
    forall m | -1 <= m < |rest| ensures cs[At(rest, m)].next == At(rest, m + 1) {
      assert At(rest, m) == At(order, if m < k then m else m + 1);
      assert At(rest, m + 1) == At(order, if m + 1 < k then m + 1 else m + 2);
    }
  }

  lemma UnlinkedPrev(bs: seq<Buf>, order: seq<nat>, k: nat)
    requires Linked(bs, order) && k < |order|
    ensures var p, n, rest := At(order, k - 1), At(order, k + 1), order[..k] + order[k + 1..];
      forall m :: 0 <= m <= |rest| ==> SetNext(SetPrev(bs, n, p), p, n)[At(rest, m)].prev == At(rest, m - 1)
  {
    var p, n, rest := At(order, k - 1), At(order, k + 1), order[..k] + order[k + 1..];
    var cs := SetNext(SetPrev(bs, n, p), p, n);
    forall m | 0 <= m <= |rest| ensures cs[At(rest, m)].prev == At(rest, m - 1) {
      assert At(rest, m) == At(order, if m < k then m else m + 1);
      assert At(rest, m - 1) == At(order, if m - 1 < k then m - 1 else m);
    }
  }

  /** Putting a buffer at the front of the list. */
  lemma PushedFront(bs: seq<Buf>, order: seq<nat>, b: nat)
    requires Linked(bs, order) && b < NBUF && b !in order
    ensures var first := At(order, 0);
      && bs[HEAD].next == first
      && var c1 := SetPrev(SetNext(bs, b, first), b, HEAD);
      var cs := SetNext(SetPrev(c1, first, b), HEAD, b);
      SameButLinks(bs, cs) && Linked(cs, [b] + order)
  {
    var first := At(order, 0);
    assert At(order, -1) == HEAD;
    var c1 := SetPrev(SetNext(bs, b, first), b, HEAD);
    var cs := SetNext(SetPrev(c1, first, b), HEAD, b);
    var more := [b] + order;
    forall m | -1 <= m < |more| ensures cs[At(more, m)].next == At(more, m + 1) {
      if m > 0 { assert At(more, m) == At(order, m - 1) && At(more, m + 1) == At(order, m); }
    }
    forall m | 0 <= m <= |more| ensures cs[At(more, m)].prev == At(more, m - 1) {
      if m > 1 { assert At(more, m) == At(order, m - 1) && At(more, m - 1) == At(order, m - 2); }
    }
  }

  // ------------------------------------------------------------- the contents

  /**
   `latest` is what was last stored in each block, `refs` splits each buffer's reference count
   and `at` gives the buffer of each cached nonzero block. Callers keep a buffer they have
   changed locked (`owner` is the locking process, 0 for none) until they have written or
   pinned it.
   */
  ghost predicate Coherent(bs: seq<Buf>, disk: seq<Block>, latest: seq<Block>, refs: seq<Refs>, at: map<nat, nat>) {
    Counted(bs, disk, latest, refs, at) && Guarded(bs, disk, latest, refs, at)
  }

  /** What holds however a caller uses its buffer: references add up, and one valid buffer a block at most. */
  ghost predicate Counted(bs: seq<Buf>, disk: seq<Block>, latest: seq<Block>, refs: seq<Refs>, at: map<nat, nat>) {
    && |bs| == NBUF + 1 && |refs| == NBUF && |latest| == |disk|
    && (forall i :: 0 <= i < NBUF ==> bs[i].blockno < |disk|)
    && (forall i :: 0 <= i < NBUF ==> bs[i].refcnt == refs[i].pins + refs[i].holds)
    && (forall i :: 0 <= i < NBUF && bs[i].owner != 0 ==> refs[i].holds > 0)
    && (forall i :: 0 <= i < NBUF && bs[i].blockno != 0 ==> bs[i].blockno in at && at[bs[i].blockno] == i)
    && (forall b :: b in at ==> b != 0 && at[b] < NBUF && bs[at[b]].blockno == b)
    && (forall i :: 0 <= i < NBUF && bs[i].blockno != 0 && bs[i].valid ==> bs[i].data == latest[bs[i].blockno])
  }

  /** A block whose latest contents are not on disk has a buffer that will not be recycled. */
  ghost predicate Guarded(bs: seq<Buf>, disk: seq<Block>, latest: seq<Block>, refs: seq<Refs>, at: map<nat, nat>)
    requires Counted(bs, disk, latest, refs, at)
  {
    forall b :: 0 < b < |disk| && disk[b] != latest[b] ==>
      b in at && bs[at[b]].valid && (bs[at[b]].owner != 0 || refs[at[b]].pins > 0)
  }

  /** Buffer `v` keeps its block safe, or has nothing to keep. */
  ghost predicate Safe(v: Buf, f: Refs, disk: seq<Block>, latest: seq<Block>)
    requires v.blockno < |disk| == |latest|
  {
    v.owner != 0 || f.pins > 0 || v.blockno == 0 || disk[v.blockno] == latest[v.blockno]
  }

  /** All buffers are on the list, ordered by the time of their last release. */
  ghost predicate Listed(bs: seq<Buf>, order: seq<nat>, stamp: seq<int>) {
    Linked(bs, order) && Sorted(order, stamp)
  }

  ghost predicate Sorted(order: seq<nat>, stamp: seq<int>) {
    && |order| == |stamp| == NBUF
    && (forall k :: 0 <= k < NBUF ==> order[k] < NBUF)
    && (forall k, m :: 0 <= k < m < NBUF ==> order[k] != order[m])
    && (forall i :: 0 <= i < NBUF ==> i in order)
    && (forall k, m :: 0 <= k < m < NBUF ==> stamp[order[k]] > stamp[order[m]])
  }

  /** Moving a buffer to the front and stamping it keeps the order by stamps. */
  lemma FrontListed(order: seq<nat>, b: nat, stamp: seq<int>, clock: int) returns (k: nat)
    requires Sorted(order, stamp) && b < NBUF && (forall i :: 0 <= i < NBUF ==> stamp[i] < clock)
    ensures |order| == |stamp| == NBUF && k < NBUF && order[k] == b && b !in order[..k] + order[k + 1..]
    ensures Sorted([b] + (order[..k] + order[k + 1..]), stamp[b := clock])
  {
    assert b in order;
    k :| 0 <= k < NBUF && order[k] == b;
    var rest := order[..k] + order[k + 1..];
    var more := [b] + rest;
    assert forall m :: 1 <= m < NBUF ==> more[m] == order[if m <= k then m - 1 else m];
    forall i | 0 <= i < NBUF ensures i in more { StillThere(order, k, i); }
    forall m, n | 0 <= m < n < NBUF
      ensures more[m] != more[n] && stamp[b := clock][more[m]] > stamp[b := clock][more[n]]
    {
      var m', n' := if m <= k then m - 1 else m, if n <= k then n - 1 else n;
      assert more[n] == order[n'] && (m > 0 ==> more[m] == order[m']);
    }
  }

  lemma StillThere(order: seq<nat>, k: nat, i: nat)
    requires k < |order| && i in order
    ensures i in [order[k]] + (order[..k] + order[k + 1..])
  {
    var more := [order[k]] + (order[..k] + order[k + 1..]);
    var m :| 0 <= m < |order| && order[m] == i;
    assert more[if m == k then 0 else if m < k then m + 1 else m] == i;
  }

  lemma SameThrough(bs: seq<Buf>, cs: seq<Buf>, ds: seq<Buf>)
    requires SameButLinks(bs, cs) && SameButLinks(cs, ds)
    ensures SameButLinks(bs, ds)
  {
  }

  lemma SameLinks(bs: seq<Buf>, order: seq<nat>, stamp: seq<int>, i: nat, b: Buf)
    requires Listed(bs, order, stamp) && i < NBUF && b.prev == bs[i].prev && b.next == bs[i].next
    ensures Listed(bs[i := b], order, stamp)
  {
  }

  function Recycle(b: Buf, blockno: nat): Buf {
    b.(blockno := blockno, valid := false, refcnt := 1)
  }

  ghost function Moved(at: map<nat, nat>, from: nat, to: nat, i: nat): map<nat, nat> {
    if to == 0 then at - {from} else (at - {from})[to := i]
  }

  /** An unused buffer holds no dirty block, so it can be given to a block that has none. */
  lemma RecycleKeeps(bs: seq<Buf>, disk: seq<Block>, latest: seq<Block>, refs: seq<Refs>, at: map<nat, nat>,
                     i: nat, blockno: nat)
    requires Coherent(bs, disk, latest, refs, at) && i < NBUF && bs[i].refcnt == 0 && blockno < |disk|
    requires forall j :: 0 <= j < NBUF ==> bs[j].blockno != blockno
    ensures bs[i].blockno != 0 ==> disk[bs[i].blockno] == latest[bs[i].blockno]
    ensures Coherent(bs[i := Recycle(bs[i], blockno)], disk, latest, refs[i := Refs(0, 1)],
                     Moved(at, bs[i].blockno, blockno, i))
  {
    assert blockno !in at;
    assert bs[i].owner == 0 && refs[i].pins == 0;
  }

  /** A change to one buffer that keeps its block and accounts for its references. */
  lemma TouchKeeps(bs: seq<Buf>, disk: seq<Block>, latest: seq<Block>, refs: seq<Refs>, at: map<nat, nat>,
                   i: nat, v: Buf, f: Refs)
    requires Counted(bs, disk, latest, refs, at) && i < NBUF
    requires v.blockno == bs[i].blockno && v.refcnt == f.pins + f.holds && (v.owner != 0 ==> f.holds > 0)
    requires bs[i].valid ==> v.valid
    requires v.blockno != 0 && v.valid ==> v.data == latest[v.blockno]
    ensures Counted(bs[i := v], disk, latest, refs[i := f], at)
    ensures Guarded(bs, disk, latest, refs, at) ==>
      (Guarded(bs[i := v], disk, latest, refs[i := f], at) <==> Safe(v, f, disk, latest))
    ensures v.owner == bs[i].owner && f.pins == refs[i].pins && v.valid == bs[i].valid ==>
      (Guarded(bs[i := v], disk, latest, refs[i := f], at) <==> Guarded(bs, disk, latest, refs, at))
  {
  }

  lemma LinksDoNotMatter(bs: seq<Buf>, cs: seq<Buf>, disk: seq<Block>, latest: seq<Block>, refs: seq<Refs>,
                         at: map<nat, nat>)
    requires Counted(bs, disk, latest, refs, at) && SameButLinks(bs, cs)
    ensures Counted(cs, disk, latest, refs, at)
    ensures Guarded(cs, disk, latest, refs, at) <==> Guarded(bs, disk, latest, refs, at)
  {
    assert forall i :: 0 <= i < NBUF ==>
      cs[i].blockno == bs[i].blockno && cs[i].valid == bs[i].valid && cs[i].owner == bs[i].owner
      && cs[i].refcnt == bs[i].refcnt && cs[i].data == bs[i].data;
  }

  lemma ModifyKeeps(bs: seq<Buf>, disk: seq<Block>, latest: seq<Block>, refs: seq<Refs>, at: map<nat, nat>,
                    i: nat, data: Block)
    requires Coherent(bs, disk, latest, refs, at) && i < NBUF && bs[i].owner != 0 && bs[i].valid
    ensures Coherent(bs[i := bs[i].(data := data)], disk, latest[bs[i].blockno := data], refs, at)
  {
  }

  lemma InitCoherent(bs: seq<Buf>, disk: seq<Block>)
    requires |bs| == NBUF + 1 && 0 < |disk|
    requires forall i :: 0 <= i < NBUF ==> bs[i].blockno == 0 && bs[i].refcnt == 0 && bs[i].owner == 0
    ensures Coherent(bs, disk, disk, seq(NBUF, _ => Refs(0, 0)), map[])
  {
  }

  /** Buffer `i` has one more reference, for block `blockno`; it was that block's or unused, and no other changed. */
  ghost predicate Got(bs: seq<Buf>, refs: seq<Refs>, at: map<nat, nat>, blockno: nat, i: nat,
                      bs': seq<Buf>, refs': seq<Refs>, at': map<nat, nat>) {
    && |bs| == |bs'| == NBUF + 1 && |refs| == NBUF && i < NBUF && bs'[i].blockno == blockno
    && (forall j :: 0 <= j < NBUF && j != i ==> bs'[j] == bs[j])
    && refs' == refs[i := Refs(refs[i].pins, refs[i].holds + 1)]
    && blockno in at' && at'[blockno] == i && (blockno in at ==> at' == at)
    && (blockno !in at ==> refs[i] == Refs(0, 0) && at' == Moved(at, bs[i].blockno, blockno, i))
  }

  /** Buffer `b` is unlocked and has one reference less; only links may have changed besides. */
  ghost predicate Released(bs: seq<Buf>, refs: seq<Refs>, b: nat, bs': seq<Buf>, refs': seq<Refs>) {
    && |bs| == |bs'| == NBUF + 1 && |refs| == NBUF && b < NBUF && refs[b].holds > 0 && bs[b].refcnt > 0
    && refs' == refs[b := Refs(refs[b].pins, refs[b].holds - 1)]
    && SameButLinks(bs[b := bs[b].(owner := 0, refcnt := bs[b].refcnt - 1)], bs')
  }

  /** Where a block is cached. */
  lemma Placed(bs: seq<Buf>, disk: seq<Block>, latest: seq<Block>, refs: seq<Refs>, at: map<nat, nat>, blockno: nat)
    requires Coherent(bs, disk, latest, refs, at) && blockno != 0
    ensures |bs| == NBUF + 1 && |refs| == NBUF && |latest| == |disk|
    ensures blockno in at ==> at[blockno] < NBUF && bs[at[blockno]].blockno == blockno
    ensures forall i :: 0 <= i < NBUF && bs[i].blockno == blockno ==> blockno in at && at[blockno] == i
    ensures forall i :: 0 <= i < NBUF ==> (bs[i].refcnt == 0 <==> refs[i] == Refs(0, 0))
    ensures forall i :: 0 <= i < NBUF && bs[i].refcnt == 0 ==> bs[i].owner == 0
  {
  }

  lemma Held(bs: seq<Buf>, disk: seq<Block>, latest: seq<Block>, refs: seq<Refs>, at: map<nat, nat>, b: nat)
    requires Counted(bs, disk, latest, refs, at) && b < NBUF
    ensures |bs| == NBUF + 1 && |refs| == NBUF && bs[b].refcnt == refs[b].pins + refs[b].holds
    ensures bs[b].blockno < |disk| == |latest|
    ensures bs[b].owner != 0 ==> refs[b].holds > 0
  {
  }

  class BufferCache {
    var bufs: seq<Buf>
    var disk: seq<Block>
    ghost var order: seq<nat>
    ghost var stamp: seq<int>
    ghost var clock: int
    ghost var latest: seq<Block>
    ghost var refs: seq<Refs>
    ghost var at: map<nat, nat>

    ghost predicate Valid()
      reads this
    {
      Sound() && Guarded(bufs, disk, latest, refs, at)
    }

    /** `Valid`, but for a changed block that its caller gave up without writing or pinning it. */
    ghost predicate Sound()
      reads this
    {
      && Listed(bufs, order, stamp) && (forall i :: 0 <= i < NBUF ==> stamp[i] < clock)
      && Counted(bufs, disk, latest, refs, at)
    }

    /** `bufcache_init`: all buffers unused and holding block 0, none of them valid. */
    constructor (disk: seq<Block>)
      requires 0 < |disk|
      ensures Valid() && this.disk == latest == disk && at == map[]
      ensures forall i :: 0 <= i < NBUF ==> bufs[i].blockno == 0 && !bufs[i].valid && bufs[i].refcnt == 0
    {
      this.disk, latest := disk, disk;
      order, clock, at := [], NBUF, map[];
      stamp := seq(NBUF, i => i);
      refs := seq(NBUF, _ => Refs(0, 0));
      bufs := seq(NBUF + 1, _ => Buf(false, 0, 0, 0, HEAD, HEAD, ZeroBlock()));
      new;
      InitCoherent(bufs, disk);
      for b := 0 to NBUF
        invariant Linked(bufs, order) && |order| == b
        invariant forall k :: 0 <= k < b ==> order[k] == b - 1 - k
        invariant stamp == seq(NBUF, i => i) && this.disk == latest == disk && at == map[] && clock == NBUF
        invariant Coherent(bufs, disk, latest, refs, at)
        invariant forall i :: 0 <= i < NBUF ==> bufs[i].blockno == 0 && !bufs[i].valid && bufs[i].refcnt == 0
      {
        PushFront(b);
      }
      forall i | 0 <= i < NBUF ensures i in order {
        assert order[NBUF - 1 - i] == i;
      }
    }

    /** Links a buffer in at the front of the list. */
    method PushFront(b: nat)
      requires Linked(bufs, order) && b < NBUF && b !in order
      requires Counted(bufs, disk, latest, refs, at)
      modifies this`bufs, this`order
      ensures Linked(bufs, order) && order == [b] + old(order) && SameButLinks(old(bufs), bufs)
      ensures Counted(bufs, disk, latest, refs, at)
      ensures Guarded(bufs, disk, latest, refs, at) <==> old(Guarded(bufs, disk, latest, refs, at))
    {
      PushedFront(bufs, order, b);
      bufs := SetNext(bufs, b, bufs[HEAD].next);
      bufs := SetPrev(bufs, b, HEAD);
      bufs := SetPrev(bufs, bufs[HEAD].next, b);
      bufs := SetNext(bufs, HEAD, b);
      order := [b] + order;
      LinksDoNotMatter(old(bufs), bufs, disk, latest, refs, at);
    }

    /** The forward walk of `bufcache_get`: a buffer holding the block, or the head. */
    method FindCached(blockno: nat) returns (b: nat)
      requires Listed(bufs, order, stamp)
      ensures b <= NBUF
      ensures b < NBUF ==> bufs[b].blockno == blockno
      ensures b == HEAD ==> forall i :: 0 <= i < NBUF ==> bufs[i].blockno != blockno
    {
      assert At(order, -1) == HEAD;
      b := bufs[HEAD].next;
      ghost var k := 0;
      while b != HEAD
        invariant 0 <= k <= NBUF && b == At(order, k)
        invariant forall m :: 0 <= m < k ==> bufs[order[m]].blockno != blockno
        decreases NBUF - k
      {
        if bufs[b].blockno == blockno {
          return;
        }
        b, k := bufs[b].next, k + 1;
      }
      forall i | 0 <= i < NBUF ensures bufs[i].blockno != blockno {
        assert i in order;
      }
    }

    /** The backward walk of `bufcache_get`: the least recently released unused buffer, or the head. */
    method FindUnused() returns (b: nat)
      requires Listed(bufs, order, stamp)
      ensures b <= NBUF
      ensures b < NBUF ==> bufs[b].refcnt == 0
      ensures b < NBUF ==> forall i :: 0 <= i < NBUF && i != b && bufs[i].refcnt == 0 ==> stamp[b] < stamp[i]
      ensures b == HEAD ==> forall i :: 0 <= i < NBUF ==> bufs[i].refcnt > 0
    {
      assert At(order, NBUF) == HEAD;
      b := bufs[HEAD].prev;
      ghost var k := NBUF - 1;
      while b != HEAD
        invariant -1 <= k < NBUF && b == At(order, k)
        invariant forall m :: k < m < NBUF ==> bufs[order[m]].refcnt > 0
        decreases k
      {
        if bufs[b].refcnt == 0 {
          forall i | 0 <= i < NBUF && i != b && bufs[i].refcnt == 0 ensures stamp[b] < stamp[i] {
            assert i in order;
          }
          return;
        }
        b, k := bufs[b].prev, k - 1;
      }
      forall i | 0 <= i < NBUF ensures bufs[i].refcnt > 0 {
        assert i in order;
      }
    }

    /** `bufcache_get`, up to the point where it waits for the buffer's sleep lock. */
    method Get(blockno: nat) returns (r: Found)
      requires Valid() && blockno < |disk|
      modifies this`bufs, this`refs, this`at
      ensures Valid()
      ensures r.NoBuffers? || (r.i < NBUF && refs[r.i].holds > 0)
      ensures r.Hit? ==>
        && r.i < NBUF && old(bufs[r.i]).blockno == blockno
        && bufs == old(bufs)[r.i := old(bufs[r.i]).(refcnt := old(bufs[r.i].refcnt) + 1)]
      ensures !r.Hit? ==> forall i :: 0 <= i < NBUF ==> old(bufs)[i].blockno != blockno
      ensures r.NoBuffers? ==> refs == old(refs)
      ensures !r.NoBuffers? ==> refs == old(refs)[r.i := Refs(old(refs[r.i]).pins, old(refs[r.i]).holds + 1)]
      ensures at == if r.Recycled? then Moved(old(at), old(bufs[r.i]).blockno, blockno, r.i) else old(at)
      // the victim is unused, its old block is safe on disk, and every other unused buffer
      // was released later
      ensures r.Recycled? ==>
        && r.i < NBUF && old(bufs[r.i]).refcnt == 0
        && (old(bufs[r.i]).blockno != 0 ==> disk[old(bufs[r.i].blockno)] == latest[old(bufs[r.i].blockno)])
        && (forall i :: 0 <= i < NBUF && i != r.i && old(bufs)[i].refcnt == 0 ==> stamp[r.i] < stamp[i])
        && bufs == old(bufs)[r.i := Recycle(old(bufs[r.i]), blockno)]
      ensures r.NoBuffers? ==> bufs == old(bufs) && forall i :: 0 <= i < NBUF ==> bufs[i].refcnt > 0
    {
      var b := FindCached(blockno);
      if b != HEAD {
        Ref(b);
        return Hit(b);
      }
      b := FindUnused();
      if b != HEAD {
        Take(b, blockno);
        return Recycled(b);
      }
      return NoBuffers;
    }

    method Ref(b: nat)
      requires Valid() && b < NBUF
      modifies this`bufs, this`refs
      ensures Valid()
      ensures bufs == old(bufs)[b := old(bufs[b]).(refcnt := old(bufs[b].refcnt) + 1)]
      ensures refs == old(refs)[b := Refs(old(refs[b]).pins, old(refs[b]).holds + 1)]
    {
      Touch(b, bufs[b].(refcnt := bufs[b].refcnt + 1), Refs(refs[b].pins, refs[b].holds + 1));
    }

    method Take(b: nat, blockno: nat)
      requires Valid() && b < NBUF && bufs[b].refcnt == 0 && blockno < |disk|
      requires forall j :: 0 <= j < NBUF ==> bufs[j].blockno != blockno
      modifies this`bufs, this`refs, this`at
      ensures Valid()
      ensures old(bufs[b].blockno) != 0 ==> disk[old(bufs[b].blockno)] == latest[old(bufs[b].blockno)]
      ensures bufs == old(bufs)[b := Recycle(old(bufs[b]), blockno)] && refs == old(refs)[b := Refs(0, 1)]
      ensures old(refs[b]) == Refs(0, 0) && at == Moved(old(at), old(bufs[b]).blockno, blockno, b)
    {
      SameLinks(bufs, order, stamp, b, Recycle(bufs[b], blockno));
      RecycleKeeps(bufs, disk, latest, refs, at, b, blockno);
      at := Moved(at, bufs[b].blockno, blockno, b);
      bufs, refs := bufs[b := Recycle(bufs[b], blockno)], refs[b := Refs(0, 1)];
    }

    method Touch(b: nat, v: Buf, ghost f: Refs)
      requires Sound() && b < NBUF
      requires v.blockno == bufs[b].blockno && v.refcnt == f.pins + f.holds && (v.owner != 0 ==> f.holds > 0)
      requires v.prev == bufs[b].prev && v.next == bufs[b].next && (bufs[b].valid ==> v.valid)
      requires v.blockno != 0 && v.valid ==> v.data == latest[v.blockno]
      modifies this`bufs, this`refs
      ensures Sound() && bufs == old(bufs)[b := v] && refs == old(refs)[b := f]
      ensures old(Valid()) ==> (Valid() <==> Safe(v, f, disk, latest))
      ensures v.owner == old(bufs[b].owner) && f.pins == old(refs[b].pins) && v.valid == old(bufs[b].valid) ==>
        (Valid() <==> old(Valid()))
    {
      SameLinks(bufs, order, stamp, b, v);
      TouchKeeps(bufs, disk, latest, refs, at, b, v, f);
      bufs, refs := bufs[b := v], refs[b := f];
    }

    /** One pass of `acquiresleep` on the buffer's lock by a process that got the buffer. */
    method TryLock(b: nat, pid: nat) returns (ok: bool)
      requires Valid() && b < NBUF && pid != 0 && refs[b].holds > 0
      modifies this`bufs, this`refs
      ensures Valid() && refs == old(refs) && ok == (old(bufs[b].owner) == 0)
      ensures bufs == if ok then old(bufs)[b := old(bufs[b]).(owner := pid)] else old(bufs)
    {
      ok := bufs[b].owner == 0;
      if ok {
        Touch(b, bufs[b].(owner := pid), refs[b]);
        assert refs == old(refs);
      }
    }

    /** The end of `bufcache_read`: the buffer now holds the latest contents of its block. */
    method Fill(b: nat, pid: nat)
      requires Valid() && b < NBUF && pid != 0 && bufs[b].owner == pid
      modifies this`bufs, this`refs
      ensures Valid() && refs == old(refs)
      ensures bufs[b].blockno != 0 ==> bufs[b].data == latest[bufs[b].blockno]
      ensures bufs == old(bufs)[b := old(bufs[b]).(valid := true, data := bufs[b].data)]
      ensures old(bufs[b].valid) ==> bufs[b].data == old(bufs[b].data)
    {
      if !bufs[b].valid {
        assert bufs[b].blockno != 0 ==> disk[bufs[b].blockno] == latest[bufs[b].blockno];
        Touch(b, bufs[b].(valid := true, data := disk[bufs[b].blockno]), refs[b]);
        assert refs == old(refs);
      }
    }

    /** The lock holder changes the contents of the block. */
    method Modify(b: nat, pid: nat, data: Block)
      requires Valid() && b < NBUF && pid != 0 && bufs[b].owner == pid && bufs[b].valid
      modifies this`bufs, this`latest
      ensures Valid()
      ensures bufs == old(bufs)[b := old(bufs[b]).(data := data)]
      ensures latest == old(latest)[bufs[b].blockno := data]
    {
      SameLinks(bufs, order, stamp, b, bufs[b].(data := data));
      ModifyKeeps(bufs, disk, latest, refs, at, b, data);
      latest := latest[bufs[b].blockno := data];
      bufs := bufs[b := bufs[b].(data := data)];
    }

    /** `bufcache_write`: the block's latest contents are now on disk. */
    method Write(b: nat, pid: nat) returns (r: Outcome)
      requires Valid() && b < NBUF && pid != 0 && bufs[b].valid
      modifies this`disk
      ensures r.Panic? <==> bufs[b].owner != pid
      ensures r.Panic? ==> disk == old(disk)
      ensures r.Done? ==> disk == old(disk)[bufs[b].blockno := bufs[b].data]
      ensures r.Done? && bufs[b].blockno != 0 ==> disk[bufs[b].blockno] == latest[bufs[b].blockno]
      ensures Valid()
    {
      if bufs[b].owner != pid {
        return Panic;
      }
      disk := disk[bufs[b].blockno := bufs[b].data];
      return Done;
    }

    /**
     `bufcache_release` up to its `releasesleep`. The invariant survives exactly if the caller has
     written or pinned what it changed.
     */
    method Unlock(b: nat, pid: nat) returns (r: Outcome)
      requires Valid() && b < NBUF && pid != 0
      modifies this`bufs, this`refs
      ensures Sound() && refs == old(refs)
      ensures Valid() <==> r.Panic? || Safe(old(bufs[b]).(owner := 0), refs[b], disk, latest)
      ensures r.Panic? <==> old(bufs[b].owner) != pid
      ensures bufs == if r.Panic? then old(bufs) else old(bufs)[b := old(bufs[b]).(owner := 0)]
    {
      if bufs[b].owner != pid {
        return Panic;
      }
      Touch(b, bufs[b].(owner := 0), refs[b]);
      assert refs == old(refs);
      return Done;
    }

    /**
     The rest of `bufcache_release`, by a process that no longer holds the lock (another may).
     A buffer that nobody refers to any more becomes the most recently used one.
     */
    method Drop(b: nat)
      requires Sound() && b < NBUF && refs[b].holds > if bufs[b].owner != 0 then 1 else 0
      modifies this`bufs, this`refs, this`order, this`stamp, this`clock
      ensures Sound() && (Valid() <==> old(Valid()))
      ensures SameButLinks(old(bufs)[b := old(bufs[b]).(refcnt := old(bufs[b].refcnt) - 1)], bufs)
      ensures refs == old(refs)[b := Refs(old(refs[b]).pins, old(refs[b]).holds - 1)]
      ensures bufs[b].refcnt > 0 ==> order == old(order)
      ensures bufs[b].refcnt == 0 ==>
        exists k :: 0 <= k < NBUF && old(order)[k] == b && order == [b] + old(order)[..k] + old(order)[k + 1..]
    {
      Touch(b, bufs[b].(refcnt := bufs[b].refcnt - 1), Refs(refs[b].pins, refs[b].holds - 1));
      if bufs[b].refcnt == 0 {
        MoveToFront(b);
      }
    }

    method MoveToFront(b: nat)
      requires Sound() && b < NBUF
      modifies this`bufs, this`order, this`stamp, this`clock
      ensures Sound() && (Valid() <==> old(Valid())) && SameButLinks(old(bufs), bufs)
      ensures exists k :: 0 <= k < NBUF && old(order)[k] == b && order == [b] + old(order)[..k] + old(order)[k + 1..]
    {
      hide Counted, Guarded, Linked, SameButLinks, Sorted;
      assert Sorted(order, stamp);
      ghost var k := FrontListed(order, b, stamp, clock);
      ghost var was, bs := order, bufs;
      Unlink(b, k);
      ghost var cs := bufs;
      PushFront(b);
      SameThrough(bs, cs, bufs);
      stamp := stamp[b := clock];
      clock := clock + 1;
      assert order == [b] + (was[..k] + was[k + 1..]);
      assert order == [b] + was[..k] + was[k + 1..];
    }

    /** Takes a buffer off the list. */
    method Unlink(b: nat, ghost k: nat)
      requires Sound() && k < NBUF && order[k] == b
      modifies this`bufs, this`order
      ensures Linked(bufs, order) && order == old(order)[..k] + old(order)[k + 1..]
      ensures SameButLinks(old(bufs), bufs) && Counted(bufs, disk, latest, refs, at)
      ensures Guarded(bufs, disk, latest, refs, at) <==> old(Guarded(bufs, disk, latest, refs, at))
    {
      Unlinked(bufs, order, k);
      bufs := SetPrev(bufs, bufs[b].next, bufs[b].prev);
      bufs := SetNext(bufs, bufs[b].prev, bufs[b].next);
      order := order[..k] + order[k + 1..];
      LinksDoNotMatter(old(bufs), bufs, disk, latest, refs, at);
    }

    method Pin(b: nat)
      requires Valid() && b < NBUF
      modifies this`bufs, this`refs
      ensures Valid()
      ensures bufs == old(bufs)[b := old(bufs[b]).(refcnt := old(bufs[b].refcnt) + 1)]
      ensures refs == old(refs)[b := Refs(old(refs[b]).pins + 1, old(refs[b]).holds)]
    {
      Touch(b, bufs[b].(refcnt := bufs[b].refcnt + 1), Refs(refs[b].pins + 1, refs[b].holds));
    }

    /** The log unpins a block that it has installed. */
    method Unpin(b: nat)
      requires Valid() && b < NBUF && refs[b].pins > 0
      requires bufs[b].blockno == 0 || disk[bufs[b].blockno] == latest[bufs[b].blockno]
      modifies this`bufs, this`refs
      ensures Valid()
      ensures bufs == old(bufs)[b := old(bufs[b]).(refcnt := old(bufs[b].refcnt) - 1)]
      ensures refs == old(refs)[b := Refs(old(refs[b]).pins - 1, old(refs[b]).holds)]
    {
      Touch(b, bufs[b].(refcnt := bufs[b].refcnt - 1), Refs(refs[b].pins - 1, refs[b].holds));
    }

    /**
     `bufcache_read` by a process that finds the buffer's lock free: the buffer, locked, with the
     block's latest contents. It panics exactly if the block has no buffer and none is unused.
     */
    method Read(blockno: nat, pid: nat) returns (r: Found)
      requires Valid() && 0 < blockno < |disk| && pid != 0
      requires blockno in at ==> bufs[at[blockno]].owner == 0
      modifies this`bufs, this`refs, this`at
      ensures Valid()
      ensures r.NoBuffers? <==> blockno !in old(at) && forall i :: 0 <= i < NBUF ==> old(refs)[i] != Refs(0, 0)
      ensures r.NoBuffers? ==> bufs == old(bufs) && refs == old(refs) && at == old(at)
      ensures !r.NoBuffers? ==>
        && Got(old(bufs), old(refs), old(at), blockno, r.i, bufs, refs, at)
        && bufs[r.i].owner == pid && bufs[r.i].valid && bufs[r.i].data == latest[blockno]
    {
      hide Counted, Guarded, Listed, Moved;
      Placed(bufs, disk, latest, refs, at, blockno);
      ghost var bs0, refs0, at0 := bufs, refs, at;
      r := Get(blockno);
      if r.NoBuffers? {
        return;
      }
      var locked := TryLock(r.i, pid);
      Fill(r.i, pid);
      Placed(bufs, disk, latest, refs, at, blockno);
    }

    /**
     `bufcache_release`. If the caller changed the block and has neither written nor pinned it, the
     buffer can be recycled with the only copy of the change.
     */
    method Release(b: nat, pid: nat) returns (r: Outcome)
      requires Valid() && b < NBUF && pid != 0
      modifies this`bufs, this`refs, this`order, this`stamp, this`clock
      ensures r.Panic? <==> old(bufs[b].owner) != pid
      ensures Sound() && (Valid() <==> r.Panic? || Safe(old(bufs[b]).(owner := 0), old(refs[b]), disk, latest))
      ensures r.Panic? ==> bufs == old(bufs) && refs == old(refs)
      ensures r.Done? ==> Released(old(bufs), old(refs), b, bufs, refs)
    {
      hide Counted, Guarded, Listed, SameButLinks;
      Held(bufs, disk, latest, refs, at, b);
      ghost var v := bufs[b];
      r := Unlock(b, pid);
      if r.Done? {
        assert old(bufs)[b := v.(owner := 0)][b := v.(owner := 0, refcnt := v.refcnt - 1)] ==
               old(bufs)[b := v.(owner := 0, refcnt := v.refcnt - 1)];
        Drop(b);
        Held(bufs, disk, latest, refs, at, b);
      }
    }
  }
}
