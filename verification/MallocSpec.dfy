/**
 The user allocator (user/umalloc.c) on values. Addresses count units of one header (16 bytes).
 Memory is seen as headers; the ghost view says which circular list the pointers form, into
 which blocks the memory from `sbrk` is cut, and which of them the program holds.
 */
module MallocSpec {

  const WORD := 0x1_0000_0000
  const HEADER := 16

  /** Unsigned 32-bit addition of two block sizes. */
  function Add32(a: nat, b: nat): nat {
    (a + b) % WORD
  }

  datatype Headers = Headers(ptr: map<nat, nat>, size: map<nat, nat>)

  /**
   `ring` is the free list from `base` on; `blocks` gives the units of every block, free or live;
   `tag` gives for every unit obtained from `sbrk` the block it lies in.
   */
  datatype View = View(ring: seq<nat>, blocks: map<nat, nat>, live: set<nat>, tag: map<nat, nat>)

  function Succ(i: nat, n: nat): nat {
    if i + 1 < n then i + 1 else 0
  }

  ghost predicate Ring(h: Headers, ring: seq<nat>) {
    && |ring| > 0
    && (forall i :: 0 <= i < |ring| ==> ring[i] in h.ptr && ring[i] in h.size)
    && (forall i :: 0 <= i < |ring| ==> Edge(h, ring, i))
  }

  /** The pointer of the block at place `i` leads to the next place, at the end to base. */
  ghost predicate Edge(h: Headers, ring: seq<nat>, i: nat)
    requires i < |ring|
  {
    ring[i] in h.ptr && h.ptr[ring[i]] == ring[Succ(i, |ring|)]
  }

  /** The list is in address order, and between any two of its blocks there is a gap. */
  ghost predicate Apart(h: Headers, ring: seq<nat>)
    requires Ring(h, ring)
  {
    && h.size[ring[0]] == 0
    && (forall i :: 0 < i < |ring| ==> h.size[ring[i]] > 0)
    && (forall i, j :: 0 <= i < j < |ring| ==> ring[i] + h.size[ring[i]] < ring[j])
  }

  ghost predicate Within(blocks: map<nat, nat>, b: nat, u: nat) {
    b in blocks && b <= u < b + blocks[b]
  }

  /** The blocks cut the obtained units into disjoint pieces and leave none over. */
  ghost predicate Tile(blocks: map<nat, nat>, tag: map<nat, nat>) {
    && (forall u :: u in tag ==> Within(blocks, tag[u], u))
    && (forall b, u :: Within(blocks, b, u) ==> u in tag && tag[u] == b)
    && (forall b :: b in blocks ==> Within(blocks, b, b))
  }

  ghost predicate InRing(ring: seq<nat>, b: nat) {
    exists i :: 0 < i < |ring| && ring[i] == b
  }

  /** Headers hold the block sizes; a block is either live or in the list; all lie between base and the break. */
  ghost predicate Held(h: Headers, v: View, top: nat) {
    && |v.ring| > 0 && v.ring[0] < top <= WORD
    && (forall b :: b in v.blocks ==> b in h.size && h.size[b] == v.blocks[b])
    && (forall b :: b in v.blocks <==> b in v.live || InRing(v.ring, b))
    && (forall b :: b in v.live ==> !InRing(v.ring, b))
    && (forall u :: u in v.tag ==> v.ring[0] < u < top)
  }

  ghost predicate Inv(h: Headers, v: View, top: nat) {
    Ring(h, v.ring) && Apart(h, v.ring) && Tile(v.blocks, v.tag) && Held(h, v, top)
  }

  /** No word of a block that is live throughout has been written. */
  ghost predicate Untouched(h: Headers, v: View, h': Headers, live: set<nat>) {
    forall u :: u in v.tag && v.tag[u] in v.live && v.tag[u] in live ==> SameAt(h, h', u)
  }

  ghost predicate SameAt(h: Headers, h': Headers, u: nat) {
    && (u in h'.ptr <==> u in h.ptr) && (u in h.ptr ==> h'.ptr[u] == h.ptr[u])
    && (u in h'.size <==> u in h.size) && (u in h.size ==> h'.size[u] == h.size[u])
  }

  // --------------------------------------------------------------------- tiles

  ghost function Retag(tag: map<nat, nat>, from: nat, to: nat): map<nat, nat> {
    map u | u in tag :: if tag[u] == from then to else tag[u]
  }

  /** Two neighbouring blocks become one. */
  ghost function Joined(blocks: map<nat, nat>, a: nat, b: nat): map<nat, nat>
    requires a in blocks && b in blocks
  {
    (blocks - {b})[a := blocks[a] + blocks[b]]
  }

  lemma JoinTile(blocks: map<nat, nat>, tag: map<nat, nat>, a: nat, b: nat)
    requires Tile(blocks, tag) && a in blocks && b in blocks && a + blocks[a] == b
    ensures Tile(Joined(blocks, a, b), Retag(tag, b, a))
  {
    assert Within(blocks, a, a) && Within(blocks, b, b);
    var blocks' := Joined(blocks, a, b);
    forall c: nat, u: nat | Within(blocks', c, u) ensures u in tag && Retag(tag, b, a)[u] == c {
      assert Within(blocks, if c == a && u >= b then b else c, u);
    }
  }

  /** The last `n` units of block `b` become a block of their own. */
  ghost function Cut(blocks: map<nat, nat>, b: nat, n: nat): map<nat, nat>
    requires b in blocks && n < blocks[b]
  {
    blocks[b := blocks[b] - n][b + (blocks[b] - n) := n]
  }

  ghost function CutTag(blocks: map<nat, nat>, tag: map<nat, nat>, b: nat, n: nat): map<nat, nat>
    requires b in blocks && n < blocks[b]
  {
    map u | u in tag :: if tag[u] == b && u >= b + (blocks[b] - n) then b + (blocks[b] - n) else tag[u]
  }

  lemma CutTile(blocks: map<nat, nat>, tag: map<nat, nat>, b: nat, n: nat)
    requires Tile(blocks, tag) && b in blocks && 0 < n < blocks[b]
    ensures b + (blocks[b] - n) !in blocks && Tile(Cut(blocks, b, n), CutTag(blocks, tag, b, n))
  {
    var c := b + (blocks[b] - n);
    assert Within(blocks, b, c);
    var blocks' := Cut(blocks, b, n);
    forall d: nat, u: nat | Within(blocks', d, u) ensures u in tag && CutTag(blocks, tag, b, n)[u] == d {
      assert Within(blocks, if d == c then b else d, u);
    }
  }

  /** A block of units that were not there before. */
  lemma NewTile(blocks: map<nat, nat>, tag: map<nat, nat>, b: nat, n: nat, tag': map<nat, nat>)
    requires Tile(blocks, tag) && n > 0 && (forall u :: u in tag ==> u < b)
    requires forall u :: u in tag' <==> u in tag || b <= u < b + n
    requires forall u :: u in tag' ==> tag'[u] == if u in tag then tag[u] else b
    ensures b !in blocks && Tile(blocks[b := n], tag')
  {
    var blocks' := blocks[b := n];
    forall c: nat, u: nat | Within(blocks', c, u) ensures u in tag' && tag'[u] == c {
      if c != b { assert Within(blocks, c, u); }
    }
  }

  // ---------------------------------------------------------------------- free

  /** The block that `free` inserts after: the last one below `bp`. */
  ghost function PlaceOf(ring: seq<nat>, bp: nat): (k: nat)
    requires |ring| > 0 && ring[0] < bp
    ensures k < |ring| && ring[k] < bp && (k + 1 < |ring| ==> bp <= ring[k + 1])
  {
    if ring[|ring| - 1] < bp then |ring| - 1 else PlaceOf(ring[..|ring| - 1], bp)
  }

  lemma BlocksApart(blocks: map<nat, nat>, tag: map<nat, nat>, a: nat, b: nat)
    requires Tile(blocks, tag) && a in blocks && b in blocks && a < b
    ensures a + blocks[a] <= b
  {
    if b < a + blocks[a] {
      assert Within(blocks, a, b) && Within(blocks, b, b);
    }
  }

  /** As `Inv`, but a block at one of the places lo..hi may touch the next. */
  ghost predicate Loose(h: Headers, v: View, top: nat, lo: int, hi: int) {
    Ring(h, v.ring) && Tile(v.blocks, v.tag) && Held(h, v, top) && Ordered(h, v.ring, lo, hi)
  }

  ghost predicate Ordered(h: Headers, ring: seq<nat>, lo: int, hi: int)
    requires Ring(h, ring)
  {
    && h.size[ring[0]] == 0
    && (forall i :: 0 < i < |ring| ==> h.size[ring[i]] > 0)
    && (forall i, j :: 0 <= i < j < |ring| ==> ring[i] + h.size[ring[i]] <= ring[j] && ring[i] < ring[j])
    && (forall i, j :: 0 <= i < j < |ring| && ring[i] + h.size[ring[i]] == ring[j] ==> j == i + 1 && lo <= i <= hi)
  }

  /** Block `bp` put into the list after place `k`. */
  ghost function WithFree(v: View, k: nat, bp: nat): View
    requires k < |v.ring|
  {
    v.(ring := Insert(v.ring, k + 1, bp), live := v.live - {bp})
  }

  function Insert(ring: seq<nat>, i: nat, x: nat): (r: seq<nat>)
    requires i <= |ring|
    ensures |r| == |ring| + 1 && (forall j :: 0 <= j < i ==> r[j] == ring[j]) && r[i] == x
    ensures forall j :: i < j < |r| ==> r[j] == ring[j - 1]
  {
    ring[..i] + [x] + ring[i..]
  }

  function Without(ring: seq<nat>, i: nat): (r: seq<nat>)
    requires i < |ring|
    ensures |r| == |ring| - 1 && (forall j :: 0 <= j < i ==> r[j] == ring[j])
    ensures forall j :: i <= j < |r| ==> r[j] == ring[j + 1]
  {
    ring[..i] + ring[i + 1..]
  }

  function Linked(h: Headers, p: nat, bp: nat): Headers
    requires p in h.ptr
  {
    h.(ptr := h.ptr[bp := h.ptr[p]][p := bp])
  }

  lemma LinkedRing(h: Headers, ring: seq<nat>, k: nat, bp: nat)
    requires Ring(h, ring) && k < |ring| && bp in h.size && forall i :: 0 <= i < |ring| ==> ring[i] != bp
    requires forall i, j :: 0 <= i < j < |ring| ==> ring[i] != ring[j]
    ensures Ring(Linked(h, ring[k], bp), Insert(ring, k + 1, bp))
  {
    hide Insert;
    var h', r := Linked(h, ring[k], bp), Insert(ring, k + 1, bp);
    assert Edge(h, ring, k);
    forall i | 0 <= i < |r| ensures r[i] in h'.ptr && r[i] in h'.size && Edge(h', r, i) {
      if i < k { assert Edge(h, ring, i); } else if i > k + 1 { assert Edge(h, ring, i - 1); }
    }
  }

  /** After the insertion only the new block may touch its neighbours. */
  lemma FreeInserted(h: Headers, v: View, top: nat, k: nat, bp: nat)
    requires Inv(h, v, top) && bp in v.live && k < |v.ring|
    requires v.ring[k] < bp && (k + 1 < |v.ring| ==> bp < v.ring[k + 1])
    ensures Loose(Linked(h, v.ring[k], bp), WithFree(v, k, bp), top, k, k + 1)
  {
    hide Insert, Tile, InRing, Edge;
    var h', v' := Linked(h, v.ring[k], bp), WithFree(v, k, bp);
    LinkedRing(h, v.ring, k, bp);
    InsertedHeld(h, v, top, k, bp, h');
    InsertedOrdered(h, v, top, k, bp);
  }

  lemma InsertedHeld(h: Headers, v: View, top: nat, k: nat, bp: nat, h': Headers)
    requires Inv(h, v, top) && bp in v.live && k < |v.ring| && h'.size == h.size
    ensures Held(h', WithFree(v, k, bp), top)
  {
    hide Insert, Ring, Apart, Tile;
    var r := Insert(v.ring, k + 1, bp);
    forall b ensures InRing(r, b) <==> InRing(v.ring, b) || b == bp {
      InRingInsert(v.ring, k + 1, bp, b);
    }
  }

  lemma InRingInsert(ring: seq<nat>, i: nat, x: nat, b: nat)
    requires 0 < i <= |ring|
    ensures InRing(Insert(ring, i, x), b) <==> InRing(ring, b) || b == x
  {
    hide Insert;
    var r := Insert(ring, i, x);
    if InRing(ring, b) {
      var j :| 0 < j < |ring| && ring[j] == b;
      assert r[if j < i then j else j + 1] == b;
    }
    if b == x { assert r[i] == b; }
  }

  lemma InsertedOrdered(h: Headers, v: View, top: nat, k: nat, bp: nat)
    requires Inv(h, v, top) && bp in v.live && k < |v.ring|
    requires v.ring[k] < bp && (k + 1 < |v.ring| ==> bp < v.ring[k + 1])
    requires Ring(Linked(h, v.ring[k], bp), Insert(v.ring, k + 1, bp))
    ensures Ordered(Linked(h, v.ring[k], bp), Insert(v.ring, k + 1, bp), k, k + 1)
  {
    hide Insert, Tile, Edge, InRing, Held;
    NeighboursApart(h, v, top, k, bp);
    var ring, r := v.ring, Insert(v.ring, k + 1, bp);
    forall i | 0 < i < |r| ensures h.size[r[i]] > 0 { assert i != k + 1 ==> r[i] == ring[if i <= k then i else i - 1]; }
    forall i, j | 0 <= i < j < |r|
      ensures r[i] + h.size[r[i]] <= r[j] && r[i] < r[j]
      ensures r[i] + h.size[r[i]] == r[j] ==> j == i + 1 && k <= i <= k + 1
    {
      InsertedPair(h, ring, k, bp, i, j);
    }
  }

  /** Two places of the list after the insertion. */
  lemma InsertedPair(h: Headers, ring: seq<nat>, k: nat, bp: nat, i: nat, j: nat)
    requires Ring(h, ring) && Apart(h, ring) && k < |ring| && i < j <= |ring| && bp in h.size && h.size[bp] > 0
    requires ring[k] + h.size[ring[k]] <= bp && (k + 1 < |ring| ==> bp + h.size[bp] <= ring[k + 1]) && ring[k] < bp
    ensures var r := Insert(ring, k + 1, bp);
      && r[i] in h.size && r[i] + h.size[r[i]] <= r[j] && r[i] < r[j]
      && (r[i] + h.size[r[i]] == r[j] ==> j == i + 1 && k <= i <= k + 1)
  {
    hide Insert, Edge;
    var i', j' := if i <= k then i else i - 1, if j <= k then j else j - 1;
    if i == k + 1 {
      assert ring[k + 1] <= ring[j'];
    } else if j == k + 1 {
      assert ring[i'] <= ring[k];
    }
  }

  /** Blocks do not overlap, so the freed one ends before the next free one begins. */
  lemma NeighboursApart(h: Headers, v: View, top: nat, k: nat, bp: nat)
    requires Inv(h, v, top) && bp in v.live && k < |v.ring|
    requires v.ring[k] < bp && (k + 1 < |v.ring| ==> bp < v.ring[k + 1])
    ensures bp in h.size && h.size[bp] > 0 && v.ring[k] + h.size[v.ring[k]] <= bp
    ensures k + 1 < |v.ring| ==> bp + h.size[bp] <= v.ring[k + 1]
  {
    hide Edge;
    assert Within(v.blocks, bp, bp);
    if k > 0 {
      InRingAt(v.ring, k);
      BlocksApart(v.blocks, v.tag, v.ring[k], bp);
    }
    if k + 1 < |v.ring| {
      InRingAt(v.ring, k + 1);
      BlocksApart(v.blocks, v.tag, bp, v.ring[k + 1]);
    }
  }

  // -------------------------------------------------------------------- coalescing

  /** Block `a` swallows the next block in the list, `b`. */
  function Absorb(h: Headers, a: nat, b: nat): Headers
    requires a in h.size && b in h.size && b in h.ptr
  {
    Headers(h.ptr[a := h.ptr[b]], h.size[a := Add32(h.size[a], h.size[b])])
  }

  ghost function Absorbed(v: View, i: nat): View
    requires i + 1 < |v.ring| && v.ring[i] in v.blocks && v.ring[i + 1] in v.blocks
  {
    var a, b := v.ring[i], v.ring[i + 1];
    View(Without(v.ring, i + 1), Joined(v.blocks, a, b), v.live, Retag(v.tag, b, a))
  }

  ghost predicate NoRepeat(ring: seq<nat>) {
    forall i, j :: 0 <= i < j < |ring| ==> ring[i] != ring[j]
  }

  /** Taking place `i` out of the list. */
  lemma WithoutRing(h: Headers, ring: seq<nat>, i: nat, h': Headers)
    requires Ring(h, ring) && NoRepeat(ring) && 0 < i < |ring|
    requires h'.ptr == h.ptr[ring[i - 1] := h.ptr[ring[i]]] && h'.size.Keys == h.size.Keys
    ensures Ring(h', Without(ring, i))
  {
    hide Without;
    var r := Without(ring, i);
    assert Edge(h, ring, i);
    forall j | 0 <= j < |r| ensures r[j] in h'.ptr && r[j] in h'.size && Edge(h', r, j) {
      if j < i { assert Edge(h, ring, j); } else { assert Edge(h, ring, j + 1); }
    }
  }

  lemma InRingWithout(ring: seq<nat>, i: nat, b: nat)
    requires NoRepeat(ring) && 0 < i < |ring|
    ensures InRing(Without(ring, i), b) <==> InRing(ring, b) && b != ring[i]
  {
    hide Without;
    var r := Without(ring, i);
    if InRing(ring, b) && b != ring[i] {
      var j :| 0 < j < |ring| && ring[j] == b;
      assert r[if j < i then j else j - 1] == b;
    }
    if InRing(r, b) {
      var j :| 0 < j < |r| && r[j] == b;
      assert ring[if j < i then j else j + 1] == b;
    }
  }

  lemma AbsorbKeeps(h: Headers, v: View, top: nat, lo: int, i: nat)
    requires Loose(h, v, top, lo, i) && i + 1 < |v.ring| && v.ring[i] + h.size[v.ring[i]] == v.ring[i + 1]
    ensures v.ring[i] in v.blocks && v.ring[i + 1] in v.blocks
    ensures Loose(Absorb(h, v.ring[i], v.ring[i + 1]), Absorbed(v, i), top, lo, i - 1)
  {
    hide Without, Edge, Tile, InRing, Held;
    var a, b := v.ring[i], v.ring[i + 1];
    AbsorbSizes(h, v, top, lo, i);
    var h', v' := Absorb(h, a, b), Absorbed(v, i);
    WithoutRing(h, v.ring, i + 1, h');
    JoinTile(v.blocks, v.tag, a, b);
    AbsorbHeld(h, v, top, lo, i);
    AbsorbOrdered(h, v, top, lo, i);
  }

  lemma AbsorbSizes(h: Headers, v: View, top: nat, lo: int, i: nat)
    requires Loose(h, v, top, lo, i) && i + 1 < |v.ring| && v.ring[i] + h.size[v.ring[i]] == v.ring[i + 1]
    ensures i > 0 && v.ring[i] in v.blocks && v.ring[i + 1] in v.blocks
    ensures h.size[v.ring[i]] == v.blocks[v.ring[i]] && h.size[v.ring[i + 1]] == v.blocks[v.ring[i + 1]]
    ensures Add32(h.size[v.ring[i]], h.size[v.ring[i + 1]]) == h.size[v.ring[i]] + h.size[v.ring[i + 1]]
  {
    hide Edge;
    var a, b := v.ring[i], v.ring[i + 1];
    assert InRing(v.ring, a) && InRing(v.ring, b);
    assert Within(v.blocks, b, b + v.blocks[b] - 1);
  }

  lemma AbsorbHeld(h: Headers, v: View, top: nat, lo: int, i: nat)
    requires Loose(h, v, top, lo, i) && i + 1 < |v.ring| && v.ring[i] + h.size[v.ring[i]] == v.ring[i + 1]
    ensures v.ring[i] in v.blocks && v.ring[i + 1] in v.blocks
    ensures Held(Absorb(h, v.ring[i], v.ring[i + 1]), Absorbed(v, i), top)
  {
    hide Without, Edge, Tile, InRing;
    AbsorbSizes(h, v, top, lo, i);
    forall b ensures InRing(Without(v.ring, i + 1), b) <==> InRing(v.ring, b) && b != v.ring[i + 1] {
      InRingWithout(v.ring, i + 1, b);
    }
    InRingAt(v.ring, i + 1);
    InRingAt(v.ring, i);
  }

  lemma InRingAt(ring: seq<nat>, i: nat)
    requires 0 < i < |ring|
    ensures InRing(ring, ring[i])
  {
  }

  lemma AbsorbOrdered(h: Headers, v: View, top: nat, lo: int, i: nat)
    requires Loose(h, v, top, lo, i) && i + 1 < |v.ring| && v.ring[i] + h.size[v.ring[i]] == v.ring[i + 1]
    requires Ring(Absorb(h, v.ring[i], v.ring[i + 1]), Without(v.ring, i + 1))
    ensures Ordered(Absorb(h, v.ring[i], v.ring[i + 1]), Without(v.ring, i + 1), lo, i - 1)
  {
    hide Without, Edge, Tile, InRing, Held;
    AbsorbSizes(h, v, top, lo, i);
  }

  /** What `free` does to the headers once it has found the place: three stores, or more where blocks touch. */
  function FreeHeaders(h: Headers, p: nat, bp: nat): Headers
    requires p in h.ptr && p in h.size && bp in h.size && h.ptr[p] in h.ptr && h.ptr[p] in h.size
  {
    var next := h.ptr[p];
    var h1 := if bp + h.size[bp] == next
              then Headers(h.ptr[bp := h.ptr[next]], h.size[bp := Add32(h.size[bp], h.size[next])])
              else h.(ptr := h.ptr[bp := next]);
    if p + h1.size[p] == bp
    then Headers(h1.ptr[p := h1.ptr[bp]], h1.size[p := Add32(h1.size[p], h1.size[bp])])
    else h1.(ptr := h1.ptr[p := bp])
  }

  ghost function Coalesced(v: View, i: int): View {
    if 0 < i && i + 1 < |v.ring| && v.ring[i] in v.blocks && v.ring[i + 1] in v.blocks
       && v.ring[i] + v.blocks[v.ring[i]] == v.ring[i + 1]
    then Absorbed(v, i) else v
  }

  /** The block is put into the list, then it and its predecessor swallow what they touch. */
  ghost function Freed(v: View, k: nat, bp: nat): View
    requires k < |v.ring|
  {
    Coalesced(Coalesced(WithFree(v, k, bp), k + 1), k)
  }

  function CoalesceHeaders(h: Headers, a: nat, b: nat): Headers
    requires a in h.size && b in h.size && b in h.ptr
  {
    if a + h.size[a] == b then Absorb(h, a, b) else h
  }

  lemma CoalesceKeeps(h: Headers, v: View, top: nat, lo: int, i: nat)
    requires Loose(h, v, top, lo, i) && i < |v.ring| && |v.ring| > 1
    ensures var b := v.ring[Succ(i, |v.ring|)];
      v.ring[i] in h.size && b in h.size && b in h.ptr
      && Loose(CoalesceHeaders(h, v.ring[i], b), Coalesced(v, i), top, lo, i - 1)
  {
    hide Without, Edge, Tile, Held, InRing;
    if i + 1 < |v.ring| && v.ring[i] + h.size[v.ring[i]] == v.ring[i + 1] {
      AbsorbSizes(h, v, top, lo, i);
      AbsorbKeeps(h, v, top, lo, i);
    } else if i + 1 < |v.ring| && i > 0 {
      RingSize(h, v, top, i);
    } else if i > 0 {
      assert v.ring[0] < v.ring[i];
    }
  }

  lemma RingSize(h: Headers, v: View, top: nat, i: nat)
    requires Held(h, v, top) && 0 < i < |v.ring|
    ensures v.ring[i] in v.blocks && v.ring[i] in h.size && h.size[v.ring[i]] == v.blocks[v.ring[i]]
  {
    InRingAt(v.ring, i);
  }

  /** The stores of `free` are an insertion followed by the two merges. */
  lemma FreeStores(h: Headers, p: nat, bp: nat)
    requires p in h.ptr && p in h.size && bp in h.size && h.ptr[p] in h.ptr && h.ptr[p] in h.size
    requires p != bp && h.ptr[p] != bp && (h.ptr[p] == p ==> bp + h.size[bp] != p)
    ensures FreeHeaders(h, p, bp) == CoalesceHeaders(CoalesceHeaders(Linked(h, p, bp), bp, h.ptr[p]), p, bp)
  {
    var next := h.ptr[p];
    var h1 := CoalesceHeaders(Linked(h, p, bp), bp, next);
    assert h1.ptr[bp] == if bp + h.size[bp] == next then h.ptr[next] else next;
  }

  /** `free` keeps the invariant: the list stays ordered and without touching blocks. */
  lemma FreeKeeps(h: Headers, v: View, top: nat, k: nat, bp: nat)
    requires Inv(h, v, top) && bp in v.live && k < |v.ring|
    requires v.ring[k] < bp && (k + 1 < |v.ring| ==> bp < v.ring[k + 1])
    ensures var p := v.ring[k];
      && p in h.ptr && p in h.size && bp in h.size && h.ptr[p] in h.ptr && h.ptr[p] in h.size
      && var v' := Freed(v, k, bp);
      && Inv(FreeHeaders(h, p, bp), v', top)
      && v'.live == v.live - {bp} && |v'.ring| > k && v'.ring[k] == p && v'.ring[0] == v.ring[0]
  {
    hide Inv, Loose, InRing, Insert, Without, WithFree, Coalesced, FreeHeaders, CoalesceHeaders, Linked;
    FreePlace(h, v, top, k, bp);
    var p := v.ring[k];
    var next := h.ptr[p];
    FreeStores(h, p, bp);
    FreeInserted(h, v, top, k, bp);
    var h1, v1 := Linked(h, p, bp), WithFree(v, k, bp);
    WithFreeRing(v, k, bp);
    CoalesceKeeps(h1, v1, top, k, k + 1);
    var h2, v2 := CoalesceHeaders(h1, bp, next), Coalesced(v1, k + 1);
    CoalescedRing(v1, k + 1);
    CoalesceKeeps(h2, v2, top, k, k);
    CoalescedRing(v2, k);
    LooseNoMore(FreeHeaders(h, p, bp), Freed(v, k, bp), top, k);
  }

  lemma LooseNoMore(h: Headers, v: View, top: nat, k: nat)
    requires Loose(h, v, top, k, k - 1)
    ensures Inv(h, v, top)
  {
    hide Edge, Tile, Held;
  }

  lemma FreePlace(h: Headers, v: View, top: nat, k: nat, bp: nat)
    requires Inv(h, v, top) && bp in v.live && k < |v.ring|
    requires v.ring[k] < bp && (k + 1 < |v.ring| ==> bp < v.ring[k + 1])
    ensures var p := v.ring[k];
      && p in h.ptr && p in h.size && bp in h.size && h.ptr[p] in h.ptr && h.ptr[p] in h.size
      && h.ptr[p] == v.ring[Succ(k, |v.ring|)] && h.ptr[p] != bp && (h.ptr[p] == p ==> bp + h.size[bp] != p)
  {
    assert Edge(h, v.ring, k);
  }

  lemma WithFreeRing(v: View, k: nat, bp: nat)
    requires k < |v.ring|
    ensures var v' := WithFree(v, k, bp);
      && |v'.ring| == |v.ring| + 1 && v'.ring[k] == v.ring[k] && v'.ring[k + 1] == bp && v'.ring[0] == v.ring[0]
      && v'.ring[Succ(k + 1, |v'.ring|)] == v.ring[Succ(k, |v.ring|)]
      && v'.live == v.live - {bp} && v'.blocks == v.blocks && v'.tag == v.tag
  {
    hide Insert;
  }

  lemma CoalescedRing(v: View, i: nat)
    requires i < |v.ring|
    ensures var v' := Coalesced(v, i);
      && |v'.ring| > i && v'.live == v.live && v'.tag.Keys == v.tag.Keys
      && forall j :: 0 <= j <= i ==> v'.ring[j] == v.ring[j]
  {
    hide Without;
  }

  /** Units that shared a block still do. */
  ghost predicate Coarser(tag: map<nat, nat>, tag': map<nat, nat>) {
    && tag'.Keys == tag.Keys
    && forall u, w :: u in tag && w in tag && tag[u] == tag[w] ==> tag'[u] == tag'[w]
  }

  lemma FreedCoarser(v: View, k: nat, bp: nat)
    requires k < |v.ring|
    ensures Coarser(v.tag, Freed(v, k, bp).tag)
  {
    hide Without, Insert, Joined;
  }

  /** The freed block is now part of a free block at least as large. */
  lemma FreedFits(h: Headers, v: View, top: nat, h': Headers, v': View, bp: nat) returns (i: nat)
    requires Inv(h, v, top) && Inv(h', v', top) && bp in v.live && v'.live == v.live - {bp} && Coarser(v.tag, v'.tag)
    requires bp in v.blocks
    requires forall b :: b in v'.live ==> b in v.blocks && b in v'.blocks && v'.blocks[b] == v.blocks[b]
    ensures 0 < i < |v'.ring| && h'.size[v'.ring[i]] >= v.blocks[bp]
  {
    hide Ring, Apart, Edge, Held, InRing;
    assert Inv(h, v, top);
    var last := bp + v.blocks[bp] - 1;
    assert Within(v.blocks, bp, bp) && Within(v.blocks, bp, last);
    var c := v'.tag[bp];
    assert v'.tag[last] == c && Within(v'.blocks, c, bp) && Within(v'.blocks, c, last);
    assert c in v'.live ==> Within(v.blocks, c, bp);
    i := FreeAt(h', v', top, c);
  }

  /** A block that is not live is in the list. */
  lemma FreeAt(h: Headers, v: View, top: nat, b: nat) returns (i: nat)
    requires Held(h, v, top) && b in v.blocks && b !in v.live
    ensures 0 < i < |v.ring| && v.ring[i] == b && b in h.size && h.size[b] == v.blocks[b]
  {
    i :| 0 < i < |v.ring| && v.ring[i] == b;
  }

  /** `free` writes no word of a block that stays live, so such blocks keep their size too. */
  lemma FreeUntouched(h: Headers, v: View, top: nat, k: nat, bp: nat, v': View)
    requires Inv(h, v, top) && bp in v.live && k < |v.ring| && v'.live == v.live - {bp}
    requires bp in h.size && v.ring[k] in h.ptr && v.ring[k] in h.size && h.ptr[v.ring[k]] in h.ptr
    requires h.ptr[v.ring[k]] in h.size
    ensures Untouched(h, v, FreeHeaders(h, v.ring[k], bp), v'.live)
  {
    hide Edge, Ring, Apart;
    assert Within(v.blocks, bp, bp);
    if k > 0 {
      InRingAt(v.ring, k);
      assert Within(v.blocks, v.ring[k], v.ring[k]);
    }
  }

  /** Blocks that are live throughout keep their size. */
  lemma UntouchedSizes(h: Headers, v: View, top: nat, h': Headers, v': View, top': nat)
    requires Inv(h, v, top) && Inv(h', v', top') && Untouched(h, v, h', v'.live)
    ensures forall b :: b in v.live && b in v'.live ==> b in v.blocks && b in v'.blocks && v'.blocks[b] == v.blocks[b]
  {
    hide Edge, Ring, Apart, InRing;
    forall b | b in v.live && b in v'.live ensures b in v.blocks && b in v'.blocks && v'.blocks[b] == v.blocks[b] {
      assert Within(v.blocks, b, b);
      assert SameAt(h, h', b);
    }
  }

  // -------------------------------------------------------------------- malloc

  /** The whole block at place `i` leaves the list and becomes live. */
  function TakenHeaders(h: Headers, prev: nat, p: nat): Headers
    requires p in h.ptr
  {
    h.(ptr := h.ptr[prev := h.ptr[p]])
  }

  ghost function Taken(v: View, i: nat): View
    requires i < |v.ring|
  {
    v.(ring := Without(v.ring, i), live := v.live + {v.ring[i]})
  }

  lemma TakeKeeps(h: Headers, v: View, top: nat, i: nat)
    requires Inv(h, v, top) && 0 < i < |v.ring|
    ensures Inv(TakenHeaders(h, v.ring[i - 1], v.ring[i]), Taken(v, i), top)
    ensures v.ring[i] !in v.live && v.ring[i] in v.blocks && v.blocks[v.ring[i]] == h.size[v.ring[i]]
  {
    hide Edge, Tile, Without, InRing;
    var h' := TakenHeaders(h, v.ring[i - 1], v.ring[i]);
    WithoutRing(h, v.ring, i, h');
    InRingAt(v.ring, i);
    forall b
      ensures InRing(Without(v.ring, i), b) <==> InRing(v.ring, b) && b != v.ring[i]
    {
      InRingWithout(v.ring, i, b);
    }
  }

  /** The last `n` units of the block at place `i` become a live block. */
  function SplitHeaders(h: Headers, p: nat, n: nat): Headers
    requires p in h.size && n < h.size[p]
  {
    h.(size := h.size[p := h.size[p] - n][p + (h.size[p] - n) := n])
  }

  ghost function Split(v: View, i: nat, n: nat): View
    requires i < |v.ring| && v.ring[i] in v.blocks && n < v.blocks[v.ring[i]]
  {
    var b := v.ring[i];
    View(v.ring, Cut(v.blocks, b, n), v.live + {b + (v.blocks[b] - n)}, CutTag(v.blocks, v.tag, b, n))
  }

  lemma SplitKeeps(h: Headers, v: View, top: nat, i: nat, n: nat)
    requires Inv(h, v, top) && 0 < i < |v.ring| && 0 < n < h.size[v.ring[i]]
    ensures v.ring[i] in v.blocks && v.blocks[v.ring[i]] == h.size[v.ring[i]]
    ensures Inv(SplitHeaders(h, v.ring[i], n), Split(v, i, n), top)
    ensures v.ring[i] + (h.size[v.ring[i]] - n) !in v.live
  {
    hide Edge, Tile, InRing;
    RingSize(h, v, top, i);
    var b := v.ring[i];
    CutTile(v.blocks, v.tag, b, n);
    var c := b + (v.blocks[b] - n);
    NotInRing(h, v, top, c);
    var h' := SplitHeaders(h, b, n);
    forall j | 0 <= j < |v.ring| ensures v.ring[j] in h'.size && Edge(h', v.ring, j)
      && h'.size[v.ring[j]] == if j == i then h.size[b] - n else h.size[v.ring[j]]
    {
      SameEdge(h, h', v.ring, j);
    }
    CutHeld(h, v, top, i, n);
  }

  lemma SameEdge(h: Headers, h': Headers, ring: seq<nat>, j: nat)
    requires j < |ring| && Edge(h, ring, j) && h'.ptr == h.ptr
    ensures Edge(h', ring, j)
  {
  }

  /** An address that is no block is not in the list, unless it is base. */
  lemma NotInRing(h: Headers, v: View, top: nat, c: nat)
    requires Held(h, v, top) && c !in v.blocks && c > v.ring[0]
    ensures !InRing(v.ring, c) && c !in v.live && forall j :: 0 <= j < |v.ring| ==> v.ring[j] != c
  {
    forall j | 0 < j < |v.ring| ensures v.ring[j] != c { InRingAt(v.ring, j); }
  }

  lemma CutHeld(h: Headers, v: View, top: nat, i: nat, n: nat)
    requires Inv(h, v, top) && 0 < i < |v.ring| && v.ring[i] in v.blocks && v.blocks[v.ring[i]] == h.size[v.ring[i]]
    requires 0 < n < h.size[v.ring[i]] && v.ring[i] + (h.size[v.ring[i]] - n) !in v.blocks
    requires !InRing(v.ring, v.ring[i] + (h.size[v.ring[i]] - n))
    ensures Held(SplitHeaders(h, v.ring[i], n), Split(v, i, n), top)
  {
    hide Edge, Tile, InRing, Ring, Apart;
    InRingAt(v.ring, i);
  }

  /** `morecore`: a new block at or above the break, live until it is freed into the list. */
  lemma GrantKeeps(h: Headers, v: View, top: nat, b: nat, n: nat, tag': map<nat, nat>)
    requires Inv(h, v, top) && top <= b && n > 0 && b + n <= WORD
    requires forall u :: u in tag' <==> u in v.tag || b <= u < b + n
    requires forall u :: u in tag' ==> tag'[u] == if u in v.tag then v.tag[u] else b
    ensures b !in v.live
    ensures Inv(h.(size := h.size[b := n]), View(v.ring, v.blocks[b := n], v.live + {b}, tag'), b + n)
  {
    hide Edge, Tile, InRing;
    GrantAbove(h, v, top, b);
    NewTile(v.blocks, v.tag, b, n, tag');
    var h' := h.(size := h.size[b := n]);
    NotInRing(h, v, top, b);
    forall j | 0 <= j < |v.ring| ensures Edge(h', v.ring, j) { SameEdge(h, h', v.ring, j); }
  }

  lemma GrantAbove(h: Headers, v: View, top: nat, b: nat)
    requires Held(h, v, top) && top <= b
    ensures forall u :: u in v.tag ==> u < b
  {
  }

  lemma TakeUntouched(h: Headers, v: View, top: nat, i: nat)
    requires Inv(h, v, top) && 0 < i < |v.ring|
    ensures Untouched(h, v, TakenHeaders(h, v.ring[i - 1], v.ring[i]), Taken(v, i).live)
  {
    hide Edge, Apart, Without;
    if i > 1 {
      InRingAt(v.ring, i - 1);
      assert Within(v.blocks, v.ring[i - 1], v.ring[i - 1]);
    }
  }

  lemma SplitUntouched(h: Headers, v: View, top: nat, i: nat, n: nat, live: set<nat>)
    requires Inv(h, v, top) && 0 < i < |v.ring| && 0 < n < h.size[v.ring[i]]
    ensures Untouched(h, v, SplitHeaders(h, v.ring[i], n), live)
  {
    hide Edge, Apart;
    RingSize(h, v, top, i);
    InRingAt(v.ring, i);
    var b := v.ring[i];
    assert Within(v.blocks, b, b) && Within(v.blocks, b, b + (h.size[b] - n));
  }

  /** What a granted, freed or given-out step leaves alone, put together. */
  lemma UntouchedTransitive(h: Headers, v: View, h1: Headers, v1: View, h2: Headers, live: set<nat>)
    requires Untouched(h, v, h1, live) && Untouched(h1, v1, h2, live)
    requires forall u :: u in v.tag && v.tag[u] in v.live && v.tag[u] in live ==> u in v1.tag && v1.tag[u] == v.tag[u]
    requires forall b :: b in v.live && b in live ==> b in v1.live
    ensures Untouched(h, v, h2, live)
  {
    forall u | u in v.tag && v.tag[u] in v.live && v.tag[u] in live ensures SameAt(h, h2, u) {
      assert SameAt(h, h1, u) && SameAt(h1, h2, u);
    }
  }

  /** A block that stays live keeps its units. */
  lemma SameUnits(v: View, v': View, b: nat, u: nat)
    requires Tile(v.blocks, v.tag) && Tile(v'.blocks, v'.tag)
    requires b in v.blocks && b in v'.blocks && v'.blocks[b] == v.blocks[b] && u in v.tag && v.tag[u] == b
    ensures u in v'.tag && v'.tag[u] == b
  {
    assert Within(v'.blocks, b, u);
  }

  /** What a call leaves of the blocks that were live before and are live after it: everything. */
  ghost predicate Keeps(h: Headers, v: View, h': Headers, v': View) {
    && Untouched(h, v, h', v'.live)
    && forall b :: b in v.live && b in v'.live ==> b in v.blocks && b in v'.blocks && v'.blocks[b] == v.blocks[b]
  }

  lemma KeepsTransitive(h: Headers, v: View, h1: Headers, v1: View, h2: Headers, v2: View)
    requires Keeps(h, v, h1, v1) && Keeps(h1, v1, h2, v2) && v.live <= v1.live && v.live <= v2.live
    requires Tile(v.blocks, v.tag) && Tile(v1.blocks, v1.tag)
    ensures Keeps(h, v, h2, v2)
  {
    hide Tile, SameAt;
    forall u | u in v.tag && v.tag[u] in v.live && v.tag[u] in v2.live ensures u in v1.tag && v1.tag[u] == v.tag[u] {
      SameUnits(v, v1, v.tag[u], u);
    }
    UntouchedTransitive(h, v, h1, v1, h2, v2.live);
  }

  /** Two blocks that a program holds have no unit in common. */
  lemma LiveDisjoint(h: Headers, v: View, top: nat, a: nat, b: nat)
    requires Inv(h, v, top) && a in v.live && b in v.live && a < b
    ensures a in v.blocks && a + v.blocks[a] <= b
  {
    hide Ring, Apart, InRing;
    BlocksApart(v.blocks, v.tag, a, b);
  }

  /** The units that `malloc` looks for: the payload rounded up, and a header. */
  function UnitsFor(nbytes: nat): (n: nat)
    ensures n >= 1 && (n - 1) * HEADER >= nbytes && (n >= 2 ==> (n - 2) * HEADER < nbytes)
  {
    (nbytes + HEADER - 1) / HEADER + 1
  }

  /** The bytes that `sbrk` gets as an `int`. */
  function SbrkArgument(n: nat): int {
    var x := n * HEADER % WORD;
    if x < WORD / 2 then x else x - WORD
  }

  /** `morecore` asks for 4096 units at least. */
  function CoreUnits(n: nat): (r: nat)
    ensures r >= n && r >= 4096 && (r > 4096 ==> r == n)
  {
    if n < 4096 then 4096 else n
  }

  /** The heap grows by what `malloc` asks for exactly if the request is at most 2^31 - 32 bytes. */
  lemma SbrkWhole(nbytes: nat)
    requires nbytes < WORD
    ensures var n := CoreUnits(UnitsFor(nbytes)); SbrkArgument(n) == n * HEADER <==> nbytes <= WORD / 2 - 2 * HEADER
  {
    var n := UnitsFor(nbytes);
    assert n <= WORD / HEADER + 1;
    assert n * HEADER < WORD / 2 <==> n < WORD / 2 / HEADER;
  }

  const LONG := 0x1_0000_0000_0000_0000

  /** The size of a process of `sz` bytes after `growproc` of a negative `n`, in 64-bit arithmetic. */
  function ShrunkSize(sz: nat, n: int): nat
    requires sz < LONG && n < 0
  {
    var newsz := (sz + n) % LONG;
    if newsz >= sz then sz else newsz
  }

  /** A larger request makes the heap shrink exactly if its `int` is negative and the process has that much. */
  lemma ShrinksExactly(nbytes: nat, sz: nat)
    requires nbytes < WORD && sz < LONG && SbrkArgument(CoreUnits(UnitsFor(nbytes))) < 0
    ensures var n := SbrkArgument(CoreUnits(UnitsFor(nbytes)));
      && (ShrunkSize(sz, n) < sz <==> sz + n >= 0) && (sz + n >= 0 ==> ShrunkSize(sz, n) == sz + n)
  {
    hide UnitsFor;
    var n := SbrkArgument(CoreUnits(UnitsFor(nbytes)));
    assert -LONG < n < 0;
    if sz + n < 0 {
      assert (sz + n) % LONG == sz + n + LONG;
    }
  }

  /** 2^32 - 4112 bytes take a page away from every process that has one. */
  lemma SbrkShrinks(sz: nat)
    requires 4096 <= sz < LONG
    ensures SbrkArgument(CoreUnits(UnitsFor(WORD - 4112))) == -4096 && ShrunkSize(sz, -4096) == sz - 4096
  {
    ShrinksExactly(WORD - 4112, sz);
  }

  // ----------------------------------------------------------------- conservation

  ghost function Interval(b: nat, n: nat): (s: set<nat>)
    ensures |s| == n && forall u :: u in s <==> b <= u < b + n
  {
    if n == 0 then {} else Interval(b, n - 1) + {b + n - 1}
  }

  ghost function Total(blocks: map<nat, nat>): nat
    decreases |blocks|
  {
    if |blocks| == 0 then 0 else blocks[Pick(blocks)] + Total(blocks - {Pick(blocks)})
  }

  ghost function Pick(blocks: map<nat, nat>): (b: nat)
    requires |blocks| > 0
    ensures b in blocks
  {
    var b :| b in blocks; b
  }

  lemma {:induction false} TileCount(blocks: map<nat, nat>, tag: map<nat, nat>)
    requires Tile(blocks, tag)
    ensures |tag| == Total(blocks)
    decreases |blocks|
  {
    hide Tile, Within, Interval, Pick;
    if |blocks| == 0 {
      NoTiles(blocks, tag);
    } else {
      var b := Pick(blocks);
      var units := Interval(b, blocks[b]);
      TileLess(blocks, tag, b, blocks - {b}, tag - units);
      TileCount(blocks - {b}, tag - units);
      assert (tag - units).Keys == tag.Keys - units;
      assert |tag.Keys - units| == |tag.Keys| - |units|;
    }
  }

  lemma NoTiles(blocks: map<nat, nat>, tag: map<nat, nat>)
    requires Tile(blocks, tag) && |blocks| == 0
    ensures tag == map[]
  {
    assert blocks == map[];
    assert forall u :: u in tag ==> Within(blocks, tag[u], u);
  }

  lemma TileLess(blocks: map<nat, nat>, tag: map<nat, nat>, b: nat, blocks': map<nat, nat>, tag': map<nat, nat>)
    requires Tile(blocks, tag) && b in blocks && blocks' == blocks - {b} && tag' == tag - Interval(b, blocks[b])
    ensures Tile(blocks', tag') && Interval(b, blocks[b]) <= tag.Keys
  {
    forall u | u in Interval(b, blocks[b]) ensures u in tag { assert Within(blocks, b, u); }
    forall c: nat, u: nat | Within(blocks', c, u) ensures u in tag' && tag'[u] == c {
      assert Within(blocks, c, u);
      assert Within(blocks, b, u) ==> c == b;
    }
    forall u | u in tag' ensures Within(blocks', tag'[u], u) { assert Within(blocks, tag[u], u); }
  }

  ghost function Only(blocks: map<nat, nat>, s: set<nat>): map<nat, nat> {
    map b | b in blocks && b in s :: blocks[b]
  }

  /** Live units and free units add up to the units obtained from `sbrk`. */
  lemma Conservation(h: Headers, v: View, top: nat)
    requires Inv(h, v, top)
    ensures |v.tag| == Total(Only(v.blocks, v.live)) + Total(Only(v.blocks, v.blocks.Keys - v.live))
  {
    hide Ring, Apart, Held, Tile, Total, Only, TagOnly, Within;
    var free := v.blocks.Keys - v.live;
    assert Tile(v.blocks, v.tag);
    TileOnly(v.blocks, v.tag, v.live);
    TileOnly(v.blocks, v.tag, free);
    TileCount(Only(v.blocks, v.live), TagOnly(v.tag, v.live));
    TileCount(Only(v.blocks, free), TagOnly(v.tag, free));
    TagParts(v.blocks, v.tag, v.live);
  }

  ghost function TagOnly(tag: map<nat, nat>, s: set<nat>): map<nat, nat> {
    map u | u in tag && tag[u] in s :: tag[u]
  }

  lemma TagParts(blocks: map<nat, nat>, tag: map<nat, nat>, live: set<nat>)
    requires Tile(blocks, tag)
    ensures |tag| == |TagOnly(tag, live)| + |TagOnly(tag, blocks.Keys - live)|
  {
    var t1, t2 := TagOnly(tag, live), TagOnly(tag, blocks.Keys - live);
    assert forall u :: u in tag ==> Within(blocks, tag[u], u);
    assert tag.Keys == t1.Keys + t2.Keys;
  }

  lemma TileOnly(blocks: map<nat, nat>, tag: map<nat, nat>, s: set<nat>)
    requires Tile(blocks, tag)
    ensures Tile(Only(blocks, s), TagOnly(tag, s))
  {
    var t := TagOnly(tag, s);
    var o := Only(blocks, s);
    forall c: nat, u: nat | Within(o, c, u) ensures u in t && t[u] == c { assert Within(blocks, c, u); }
  }
}
