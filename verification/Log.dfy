/**
 kernel/log.c as it runs on the buffer cache: the in-memory header is a list updated in place,
 blocks are read, copied, written, pinned and released one at a time, and every `bufcache_write`
 is recorded. Each routine is tied to the write plans of `LogSpec`, so the crash theorems there
 and in `LogProtocol` speak about the writes this code issues, in the order it issues them.
 */
module Log {
  import opened Blocks
  import opened LogSpec
  import opened BufferCache

  /**
   The disk, what `bufcache_read` returns for each block, and the block writes issued so far.
   `Put` is `bufcache_write` of a block with new contents.
   */
  datatype Store = Store(disk: Disk, cache: Disk, issued: seq<BlockWrite>) {
    ghost predicate Fits(l: Layout) {
      |disk| == |cache| == l.total
    }

    function Put(w: BlockWrite): (s: Store)
      requires w.addr < |disk| == |cache|
    {
      Store(disk[w.addr := w.data], cache[w.addr := w.data], issued + [w])
    }
  }

  ghost function Puts(s: Store, ws: seq<BlockWrite>, k: nat): (t: Store)
    requires |s.disk| == |s.cache| && Fits(ws, s.disk) && k <= |ws|
    ensures |t.disk| == |t.cache| == |s.disk|
  {
    if k == 0 then s else Puts(s, ws, k - 1).Put(ws[k - 1])
  }

  lemma {:induction false} PutsRuns(s: Store, ws: seq<BlockWrite>, k: nat)
    requires |s.disk| == |s.cache| && Fits(ws, s.disk) && k <= |ws|
    ensures Puts(s, ws, k) == Store(Run(s.disk, ws, k), Run(s.cache, ws, k), s.issued + ws[..k])
  {
    if k == 0 {
      assert s.issued + ws[..0] == s.issued;
    } else {
      PutsRuns(s, ws, k - 1);
      assert s.issued + ws[..k] == s.issued + ws[..k - 1] + [ws[k - 1]];
    }
  }

  /** `write_log` still finds block `lh[k]` as it was: its earlier writes went to the log. */
  lemma LogReads(l: Layout, lh: seq<nat>, s: Store, k: nat)
    requires l.Valid() && l.ValidList(lh) && s.Fits(l) && k < |lh|
    ensures Fits(LogPlan(l, lh, s.cache), s.disk)
    ensures lh[k] < l.total && Puts(s, LogPlan(l, lh, s.cache), k).cache[lh[k]] == s.cache[lh[k]]
  {
    LogPrefix(l, s.cache, lh, s.cache, k);
    PutsRuns(s, LogPlan(l, lh, s.cache), k);
    assert l.IsHome(lh[k]);
  }

  lemma {:induction false} InstallRun(l: Layout, lh: seq<nat>, c: Disk, k: nat, a: nat)
    requires l.Valid() && l.ValidList(lh) && |c| == l.total && k <= |lh|
    requires l.start <= a < l.start + l.size
    ensures Fits(InstallPlan(l, lh, c), c)
    ensures Run(c, InstallPlan(l, lh, c), k)[a] == c[a]
  {
    if k > 0 {
      InstallRun(l, lh, c, k - 1, a);
      assert l.IsHome(lh[k - 1]);
    }
  }

  /** `install_trans` still finds every log block as it was: it only writes home blocks. */
  lemma InstallReads(l: Layout, lh: seq<nat>, s: Store, k: nat, a: nat)
    requires l.Valid() && l.ValidList(lh) && s.Fits(l) && k <= |lh|
    requires l.start <= a < l.start + l.size
    ensures Fits(InstallPlan(l, lh, s.cache), s.disk)
    ensures Puts(s, InstallPlan(l, lh, s.cache), k).cache[a] == s.cache[a]
  {
    InstallRun(l, lh, s.cache, k, a);
    PutsRuns(s, InstallPlan(l, lh, s.cache), k);
  }

  lemma {:induction false} PutsConcat(s: Store, a: seq<BlockWrite>, b: seq<BlockWrite>, k: nat)
    requires |s.disk| == |s.cache| && Fits(a, s.disk) && Fits(b, s.disk) && k <= |b|
    ensures Fits(a + b, s.disk)
    ensures Puts(Puts(s, a, |a|), b, k) == Puts(s, a + b, |a| + k)
  {
    if k == 0 {
      PutsPrefix(s, a, b, |a|);
    } else {
      PutsConcat(s, a, b, k - 1);
    }
  }

  lemma {:induction false} PutsPrefix(s: Store, a: seq<BlockWrite>, b: seq<BlockWrite>, k: nat)
    requires |s.disk| == |s.cache| && Fits(a, s.disk) && Fits(b, s.disk) && k <= |a|
    ensures Fits(a + b, s.disk)
    ensures Puts(s, a, k) == Puts(s, a + b, k)
  {
    if k > 0 { PutsPrefix(s, a, b, k - 1); }
  }

  lemma PutLast(s: Store, a: seq<BlockWrite>, w: BlockWrite)
    requires |s.disk| == |s.cache| && Fits(a, s.disk) && w.addr < |s.disk|
    ensures Fits(a + [w], s.disk)
    ensures Puts(s, a, |a|).Put(w) == Puts(s, a + [w], |a| + 1)
  {
    PutsPrefix(s, a, [w], |a|);
  }

  /** Installing what the header says and then clearing it is what a recovery plan does. */
  lemma RecoverEffect(l: Layout, s: Store)
    requires l.ValidDisk(s.disk) && s.cache == s.disk
    ensures var lh := Head(s.disk[l.start]);
      && l.ValidList(lh) && Fits(InstallPlan(l, lh, s.cache), s.disk) && |InstallPlan(l, lh, s.cache)| == |lh|
      && var t := Puts(s, InstallPlan(l, lh, s.cache), |lh|);
      && t.cache[l.start] == s.cache[l.start]
      && t.Put(BlockWrite(l.start, EncodeHead(t.cache[l.start], []))) ==
           Store(Recover(l, s.disk), Recover(l, s.disk), s.issued + RecoverPlan(l, s.disk))
  {
    hide EncodeHead;
    var lh := Head(s.disk[l.start]);
    var a, x := InstallPlan(l, lh, s.disk), BlockWrite(l.start, EncodeHead(s.disk[l.start], []));
    InstallReads(l, lh, s, |lh|, l.start);
    PutLast(s, a, x);
    var ws := a + [x];
    assert ws == RecoverPlan(l, s.disk);
    PutsRuns(s, ws, |ws|);
    assert ws[..|ws|] == ws;
  }

  lemma PutsStages(s: Store, a: seq<BlockWrite>, w: BlockWrite, b: seq<BlockWrite>, x: BlockWrite)
    requires |s.disk| == |s.cache| && Fits(a, s.disk) && Fits(b, s.disk)
    requires w.addr < |s.disk| && x.addr < |s.disk|
    ensures Fits(a + [w] + b + [x], s.disk)
    ensures Puts(Puts(s, a, |a|).Put(w), b, |b|).Put(x) == Puts(s, a + [w] + b + [x], |a + [w] + b| + 1)
  {
    PutLast(s, a, w);
    var aw, t := a + [w], Puts(s, a, |a|).Put(w);
    assert t == Puts(s, aw, |aw|);
    PutsConcat(s, aw, b, |b|);
    assert Puts(t, b, |b|) == Puts(s, aw + b, |aw + b|);
    PutLast(s, aw + b, x);
  }

  /** After `write_log` and `write_head` the cache is the committed disk. */
  lemma FirstStages(l: Layout, lh: seq<nat>, s: Store)
    requires ReadyToCommit(l, s.cache, lh, s.cache) && s.Fits(l)
    ensures Fits(LogPlan(l, lh, s.cache), s.disk)
    ensures var s1 := Puts(s, LogPlan(l, lh, s.cache), |lh|);
      && s1.cache[l.start] == s.cache[l.start]
      && s1.cache[l.start := EncodeHead(s.cache[l.start], lh)] == Committed(l, s.cache, lh, s.cache)
  {
    LogPrefix(l, s.cache, lh, s.cache, |lh|);
    PutsRuns(s, LogPlan(l, lh, s.cache), |lh|);
  }

  /** The four stages of `commit`, each reading the cache that the stage before left. */
  lemma CommitStages(l: Layout, lh: seq<nat>, s: Store, s1: Store, s2: Store, s3: Store, s4: Store)
    requires ReadyToCommit(l, s.cache, lh, s.cache) && lh != [] && s.Fits(l)
    requires Fits(LogPlan(l, lh, s.cache), s.disk) && s1 == Puts(s, LogPlan(l, lh, s.cache), |lh|)
    requires s2 == s1.Put(BlockWrite(l.start, EncodeHead(s1.cache[l.start], lh)))
    requires Fits(InstallPlan(l, lh, s2.cache), s2.disk) && s3 == Puts(s2, InstallPlan(l, lh, s2.cache), |lh|)
    requires s4 == s3.Put(BlockWrite(l.start, EncodeHead(s3.cache[l.start], [])))
    ensures var ws := CommitPlan(l, lh, s.cache, s.cache[l.start]);
      Fits(ws, s.disk) && s4 == Puts(s, ws, |ws|)
  {
    FirstStages(l, lh, s);
    var e := Committed(l, s.cache, lh, s.cache);
    assert s2.cache == e;
    InstallReads(l, lh, s2, |lh|, l.start);
    var a, w := LogPlan(l, lh, s.cache), BlockWrite(l.start, e[l.start]);
    var b, x := InstallPlan(l, lh, e), BlockWrite(l.start, EncodeHead(e[l.start], []));
    assert s2 == Puts(s, a, |a|).Put(w) && s3 == Puts(s2, b, |b|) && s4 == s3.Put(x);
    PutsStages(s, a, w, b, x);
    CommitPlanIs(l, lh, s.cache);
    assert |CommitPlan(l, lh, s.cache, s.cache[l.start])| == |a + [w] + b| + 1;
  }

  lemma CommitPlanIs(l: Layout, lh: seq<nat>, c: Disk)
    requires ReadyToCommit(l, c, lh, c) && lh != []
    ensures var e := Committed(l, c, lh, c);
      CommitPlan(l, lh, c, c[l.start]) ==
      LogPlan(l, lh, c) + [BlockWrite(l.start, e[l.start])] + InstallPlan(l, lh, e)
      + [BlockWrite(l.start, EncodeHead(e[l.start], []))]
  {
    CommittedRecovers(l, c, lh, c);
    CommitPlanSplit(l, c, lh, c);
  }

  lemma HeaderIsClean(l: Layout, lh: seq<nat>, s: Store)
    requires ReadyToCommit(l, s.disk, lh, s.cache) && s.Fits(l)
    requires forall a :: 0 <= a < l.total && a !in lh ==> s.cache[a] == s.disk[a]
    ensures s.cache[l.start] == s.disk[l.start] && ReadyToCommit(l, s.cache, lh, s.cache)
  {
    assert !l.IsHome(l.start);
  }

  /** What the commit plan makes of the disk and of the cache. */
  lemma CommitEffect(l: Layout, lh: seq<nat>, s: Store)
    requires ReadyToCommit(l, s.disk, lh, s.cache) && s.Fits(l) && lh != []
    requires forall a :: 0 <= a < l.total && a !in lh ==> s.cache[a] == s.disk[a]
    ensures
      var ws := CommitPlan(l, lh, s.cache, s.disk[l.start]);
      && Fits(ws, s.disk)
      && var t := Puts(s, ws, |ws|);
      && l.ValidDisk(t.disk) && Head(t.disk[l.start]) == [] && l.SameHome(t.disk, s.cache)
      && t.disk == t.cache && t.issued == s.issued + ws
  {
    HeaderIsClean(l, lh, s);
    CommitCompletes(l, s.disk, lh, s.cache);
    CommitCompletes(l, s.cache, lh, s.cache);
    var ws := CommitPlan(l, lh, s.cache, s.disk[l.start]);
    PutsRuns(s, ws, |ws|);
    RunAgrees(s.disk, s.cache, ws, |ws|);
    assert ws[..|ws|] == ws;
    assert Run(s.disk, ws, |ws|) == Run(s.cache, ws, |ws|);
  }

  /** Where two disks agree, they agree after the same writes. */
  lemma {:induction false} RunAgrees(d: Disk, e: Disk, ws: seq<BlockWrite>, k: nat)
    requires |d| == |e| && Fits(ws, d) && k <= |ws|
    ensures forall a :: 0 <= a < |d| && d[a] == e[a] ==> Run(d, ws, k)[a] == Run(e, ws, k)[a]
  {
    if k > 0 { RunAgrees(d, e, ws, k - 1); }
  }

  // ------------------------------------------------------- buffers of the log

  /** Nobody has locked the buffer of block `b`. */
  ghost predicate Free(bs: seq<Buf>, at: map<nat, nat>, b: nat) {
    b in at && at[b] < NBUF < |bs| ==> bs[at[b]].owner == 0
  }

  /** How often the buffer of block `b` is pinned. */
  ghost function PinsOf(refs: seq<Refs>, at: map<nat, nat>, b: nat): nat {
    if b in at && at[b] < |refs| then refs[at[b]].pins else 0
  }

  ghost predicate Spare(refs: seq<Refs>) {
    Refs(0, 0) in refs
  }

  ghost predicate TwoSpare(refs: seq<Refs>) {
    exists i, j :: 0 <= i < j < |refs| && refs[i] == refs[j] == Refs(0, 0)
  }

  lemma SpareOfTwo(refs: seq<Refs>)
    ensures TwoSpare(refs) ==> Spare(refs)
  {
  }

  /** Buffers that somebody refers to are where they were, and locked as they were. */
  ghost predicate Kept(bs: seq<Buf>, refs: seq<Refs>, at: map<nat, nat>, bs': seq<Buf>, at': map<nat, nat>) {
    && |bs'| == |bs| == NBUF + 1 && |refs| == NBUF
    && (forall j :: 0 <= j < NBUF ==> bs'[j].owner == bs[j].owner)
    && (forall j :: 0 <= j < NBUF && refs[j] != Refs(0, 0) ==> bs'[j].blockno == bs[j].blockno)
    && (forall b :: b in at && at[b] < NBUF && refs[at[b]] != Refs(0, 0) ==> b in at' && at'[b] == at[b])
    && (forall b :: b in at' && !(b in at && at'[b] == at[b]) ==>
          at'[b] < NBUF && refs[at'[b]] == Refs(0, 0) && bs[at'[b]].owner == 0)
  }

  lemma KeptFree(bs: seq<Buf>, refs: seq<Refs>, at: map<nat, nat>, bs': seq<Buf>, at': map<nat, nat>, b: nat)
    requires Kept(bs, refs, at, bs', at') && Free(bs, at, b)
    ensures Free(bs', at', b)
  {
  }

  lemma KeptPins(bs: seq<Buf>, refs: seq<Refs>, at: map<nat, nat>, bs': seq<Buf>, at': map<nat, nat>, b: nat)
    requires Kept(bs, refs, at, bs', at')
    ensures PinsOf(refs, at', b) == PinsOf(refs, at, b)
  {
  }

  lemma KeptTwice(bs: seq<Buf>, refs: seq<Refs>, at: map<nat, nat>, bs1: seq<Buf>, at1: map<nat, nat>,
                  bs2: seq<Buf>, at2: map<nat, nat>)
    requires Kept(bs, refs, at, bs1, at1) && Kept(bs1, refs, at1, bs2, at2)
    ensures Kept(bs, refs, at, bs2, at2)
  {
  }

  /** Locks and places, whatever the links and contents. */
  ghost predicate Alike(bs: seq<Buf>, cs: seq<Buf>) {
    |cs| == |bs| && forall k :: 0 <= k < |bs| ==> cs[k].owner == bs[k].owner && cs[k].blockno == bs[k].blockno
  }

  /** A buffer that is read was unlocked, and was the block's unless nobody referred to it. */
  lemma GotFacts(b0: seq<Buf>, disk: seq<Block>, latest: seq<Block>, r0: seq<Refs>, a0: map<nat, nat>,
                 x: nat, i: nat, b1: seq<Buf>, r1: seq<Refs>, a1: map<nat, nat>)
    requires Coherent(b0, disk, latest, r0, a0) && x != 0 && Free(b0, a0, x) && Got(b0, r0, a0, x, i, b1, r1, a1)
    ensures |b0| == |b1| == NBUF + 1 && |r0| == NBUF && i < NBUF && b0[i].owner == 0
    ensures b1[i].blockno == x && (r0[i] != Refs(0, 0) ==> b0[i].blockno == x)
    ensures r1 == r0[i := Refs(r0[i].pins, r0[i].holds + 1)] && forall k :: 0 <= k < NBUF && k != i ==> b1[k] == b0[k]
    ensures forall b :: b in a0 && a0[b] < NBUF && r0[a0[b]] != Refs(0, 0) ==> b in a1 && a1[b] == a0[b]
    ensures forall b :: b in a1 && !(b in a0 && a1[b] == a0[b]) ==>
      a1[b] < NBUF && r0[a1[b]] == Refs(0, 0) && b0[a1[b]].owner == 0
  {
    Placed(b0, disk, latest, r0, a0, x);
    if b0[i].blockno != 0 { Placed(b0, disk, latest, r0, a0, b0[i].blockno); }
  }

  /** A buffer read, perhaps changed, and released. */
  lemma OneUse(b0: seq<Buf>, disk: seq<Block>, latest: seq<Block>, r0: seq<Refs>, a0: map<nat, nat>,
               x: nat, i: nat, b1: seq<Buf>, r1: seq<Refs>, a1: map<nat, nat>, b2: seq<Buf>, b3: seq<Buf>,
               r3: seq<Refs>)
    requires Coherent(b0, disk, latest, r0, a0) && x != 0 && Free(b0, a0, x)
    requires Got(b0, r0, a0, x, i, b1, r1, a1) && Alike(b1, b2) && Released(b2, r1, i, b3, r3)
    ensures r3 == r0 && Kept(b0, r0, a0, b3, a1)
  {
    hide Counted, Guarded;
    GotFacts(b0, disk, latest, r0, a0, x, i, b1, r1, a1);
    forall k | 0 <= k < NBUF
      ensures b3[k].owner == b0[k].owner && (r0[k] != Refs(0, 0) ==> b3[k].blockno == b0[k].blockno)
    {
    }
  }

  /** A second buffer is read while the first is held. */
  lemma GotTwo(b0: seq<Buf>, disk: seq<Block>, latest: seq<Block>, r0: seq<Refs>, a0: map<nat, nat>,
               x: nat, i: nat, b1: seq<Buf>, r1: seq<Refs>, a1: map<nat, nat>, y: nat)
    requires Coherent(b0, disk, latest, r0, a0) && Coherent(b1, disk, latest, r1, a1) && x != 0 && y != 0 && x != y
    requires Free(b0, a0, x) && Free(b0, a0, y) && Got(b0, r0, a0, x, i, b1, r1, a1)
    ensures Free(b1, a1, y) && (TwoSpare(r0) ==> Spare(r1)) && (y in a0 && r0[a0[y]].pins > 0 ==> y in a1)
  {
    Placed(b0, disk, latest, r0, a0, x);
    Placed(b0, disk, latest, r0, a0, y);
    Placed(b1, disk, latest, r1, a1, y);
    if TwoSpare(r0) {
      var u, v :| 0 <= u < v < |r0| && r0[u] == r0[v] == Refs(0, 0);
      assert r1[if u == i then v else u] == Refs(0, 0);
    }
  }

  /** Two buffers have been read; no other has changed, and nobody lost a buffer. */
  ghost predicate HasBoth(b0: seq<Buf>, r0: seq<Refs>, a0: map<nat, nat>, x: nat, i: nat, y: nat, j: nat,
                          b2: seq<Buf>, r2: seq<Refs>, a2: map<nat, nat>) {
    && |b0| == |b2| == NBUF + 1 && |r0| == NBUF && i < NBUF && j < NBUF && i != j
    && (forall k :: 0 <= k < NBUF && k != i && k != j ==> b2[k] == b0[k])
    && r2 == r0[i := Refs(r0[i].pins, r0[i].holds + 1)][j := Refs(r0[j].pins, r0[j].holds + 1)]
    && b2[i].blockno == x && b2[j].blockno == y && b0[i].owner == b0[j].owner == 0
    && (r0[i] != Refs(0, 0) ==> b0[i].blockno == x) && (r0[j] != Refs(0, 0) ==> b0[j].blockno == y)
    && (forall b :: b in a0 && a0[b] < NBUF && r0[a0[b]] != Refs(0, 0) ==> b in a2 && a2[b] == a0[b])
    && (forall b :: b in a2 && !(b in a0 && a2[b] == a0[b]) ==>
          a2[b] < NBUF && r0[a2[b]] == Refs(0, 0) && b0[a2[b]].owner == 0)
  }

  lemma TwoGot(b0: seq<Buf>, disk: seq<Block>, latest: seq<Block>, r0: seq<Refs>, a0: map<nat, nat>,
               x: nat, i: nat, b1: seq<Buf>, r1: seq<Refs>, a1: map<nat, nat>,
               y: nat, j: nat, b2: seq<Buf>, r2: seq<Refs>, a2: map<nat, nat>)
    requires Coherent(b0, disk, latest, r0, a0) && Coherent(b1, disk, latest, r1, a1) && x != 0 && y != 0 && i != j
    requires Free(b0, a0, x) && Free(b1, a1, y) && Got(b0, r0, a0, x, i, b1, r1, a1)
    requires Got(b1, r1, a1, y, j, b2, r2, a2)
    ensures HasBoth(b0, r0, a0, x, i, y, j, b2, r2, a2)
  {
    hide Counted, Guarded, Got;
    GotFacts(b0, disk, latest, r0, a0, x, i, b1, r1, a1);
    GotFacts(b1, disk, latest, r1, a1, y, j, b2, r2, a2);
  }

  /** Both have been released. */
  ghost predicate GaveBoth(b3: seq<Buf>, r3: seq<Refs>, i: nat, j: nat, b5: seq<Buf>, r5: seq<Refs>) {
    && |b3| == |b5| == NBUF + 1 && |r3| == NBUF && i < NBUF && j < NBUF && i != j && r3[i].holds > 0 && r3[j].holds > 0
    && (forall k :: 0 <= k < NBUF ==>
          b5[k].blockno == b3[k].blockno && b5[k].owner == if k == i || k == j then 0 else b3[k].owner)
    && r5 == r3[i := Refs(r3[i].pins, r3[i].holds - 1)][j := Refs(r3[j].pins, r3[j].holds - 1)]
  }

  lemma TwoReleased(b3: seq<Buf>, r3: seq<Refs>, i: nat, b4: seq<Buf>, r4: seq<Refs>, j: nat, b5: seq<Buf>,
                    r5: seq<Refs>)
    requires i != j && Released(b3, r3, i, b4, r4) && Released(b4, r4, j, b5, r5)
    ensures GaveBoth(b3, r3, i, j, b5, r5) && GaveBoth(b3, r3, j, i, b5, r5)
  {
  }

  /** In all, references are as before but for the second block's pins. */
  lemma TwoUses(b0: seq<Buf>, r0: seq<Refs>, a0: map<nat, nat>, x: nat, i: nat, y: nat, j: nat,
                b2: seq<Buf>, r2: seq<Refs>, a2: map<nat, nat>, b3: seq<Buf>, pins: nat, r3: seq<Refs>,
                b5: seq<Buf>, r5: seq<Refs>)
    requires HasBoth(b0, r0, a0, x, i, y, j, b2, r2, a2) && Alike(b2, b3)
    requires r3 == r2[j := Refs(pins, r2[j].holds)] && GaveBoth(b3, r3, i, j, b5, r5)
    ensures r5 == r0[j := Refs(pins, r0[j].holds)] && Kept(b0, r0, a0, b5, a2)
  {
  }

  /** Nobody has locked a block of the log or of its list. */
  ghost predicate AllFree(l: Layout, lh: seq<nat>, bs: seq<Buf>, at: map<nat, nat>) {
    forall b :: (l.start <= b < l.start + l.size) || b in lh ==> Free(bs, at, b)
  }

  /** Every block of the list is pinned once, and no other block. */
  ghost predicate Pinned(lh: seq<nat>, refs: seq<Refs>, at: map<nat, nat>) {
    forall b: nat :: PinsOf(refs, at, b) == if b in lh then 1 else 0
  }

  /** Of the blocks from `tail` on, all but the first are still pinned. */
  ghost predicate NextUnpinned(lh: seq<nat>, tail: nat, refs: seq<Refs>, at: map<nat, nat>, refs': seq<Refs>,
                               at': map<nat, nat>)
    requires tail < |lh|
  {
    Pinned(lh[tail..], refs, at) ==> Pinned(lh[tail + 1..], refs', at') && (Spare(refs) ==> Spare(refs'))
  }

  class Log {
    const l: Layout
    const cache: BufferCache
    /** `log.lh`: the logged block numbers. */
    var lh: seq<nat>
    var outstanding: int
    var committing: bool
    ghost var issued: seq<BlockWrite>

    ghost function View(): Store
      reads this, cache
    {
      Store(cache.disk, cache.latest, issued)
    }

    ghost predicate Valid()
      reads this, cache
    {
      && l.Valid() && l.start > 0 && l.ValidList(lh) && 0 !in lh
      && cache.Valid() && |cache.disk| == |cache.latest| == l.total
    }

    /** `initlog`: nothing is cached, then recovery. */
    constructor (l: Layout, cache: BufferCache, pid: nat)
      requires l.ValidDisk(cache.disk) && l.start > 0 && 0 !in Head(cache.disk[l.start]) && pid != 0
      requires cache.Valid() && cache.latest == cache.disk && cache.at == map[]
      requires forall i :: 0 <= i < NBUF ==> cache.refs[i] == Refs(0, 0)
      modifies cache
      ensures this.l == l && this.cache == cache && lh == [] && outstanding == 0 && !committing
      ensures Quiescent() && AllFree(l, lh, cache.bufs, cache.at)
      ensures View() == Store(Recover(l, old(cache.disk)), Recover(l, old(cache.disk)), RecoverPlan(l, old(cache.disk)))
    {
      this.l, this.cache := l, cache;
      lh, outstanding, committing, issued := [], 0, false, [];
      new;
      hide Counted, Guarded, Listed, Recover, RecoverPlan, Kept;
      NothingCached(l, cache.bufs, cache.refs, cache.at);
      ghost var b0, r0, a0, d0 := cache.bufs, cache.refs, cache.at, cache.disk;
      assert r0[0] == r0[1] == Refs(0, 0);
      var r := RecoverFromLog(pid);
      RecoverEmptiesLog(l, d0);
      AllFreeKept(l, lh, b0, r0, a0, cache.bufs, cache.at);
      PinnedKept(lh, b0, r0, a0, cache.bufs, cache.at);
    }

    /** Loads the header block into the in-memory header. */
    method ReadHead(pid: nat) returns (r: Outcome)
      requires cache.Valid() && 0 < l.start < |cache.disk| == |cache.latest|
      requires cache.disk[l.start] == cache.latest[l.start]
      requires pid != 0 && Free(cache.bufs, cache.at, l.start) && Word(cache.latest[l.start], 0) <= LOGSIZE
      modifies this`lh, cache
      ensures old(Spare(cache.refs)) ==> r.Done?
      ensures r.Done? ==>
        && cache.Valid() && cache.disk == old(cache.disk) && cache.latest == old(cache.latest)
        && lh == Head(cache.latest[l.start])
        && cache.refs == old(cache.refs) && Kept(old(cache.bufs), cache.refs, old(cache.at), cache.bufs, cache.at)
    {
      hide Counted, Guarded, Listed, Released, SameButLinks, Kept, Free;
      ghost var b0, r0, a0 := cache.bufs, cache.refs, cache.at;
      LockFree(b0, cache.disk, cache.latest, r0, a0, l.start);
      var g := cache.Read(l.start, pid);
      if g.NoBuffers? {
        return Panic;
      }
      ghost var b1, r1, a1 := cache.bufs, cache.refs, cache.at;
      var h := cache.bufs[g.i].data;
      var n := Word(h, 0);
      var list := [];
      for i := 0 to n
        invariant list == Head(h)[..i]
      {
        list := list + [Word(h, i + 1)];
      }
      lh := list;
      r := cache.Release(g.i, pid);
      OneUse(b0, cache.disk, cache.latest, r0, a0, l.start, g.i, b1, r1, a1, b1, cache.bufs, cache.refs);
    }

    /** Stores the in-memory header in the header block: one block write. */
    method WriteHead(pid: nat) returns (r: Outcome)
      requires Valid() && pid != 0 && Free(cache.bufs, cache.at, l.start)
      modifies this`issued, cache
      ensures old(Spare(cache.refs)) ==> r.Done?
      ensures r.Done? ==>
        && Valid() && View() == old(View()).Put(BlockWrite(l.start, EncodeHead(old(cache.latest[l.start]), lh)))
        && cache.refs == old(cache.refs) && Kept(old(cache.bufs), cache.refs, old(cache.at), cache.bufs, cache.at)
    {
      hide Counted, Guarded, Listed, Released, SameButLinks, Kept, Free;
      ghost var b0, disk0, latest0, r0, a0 := cache.bufs, cache.disk, cache.latest, cache.refs, cache.at;
      LockFree(b0, disk0, latest0, r0, a0, l.start);
      var g := cache.Read(l.start, pid);
      if g.NoBuffers? {
        return Panic;
      }
      ghost var b1, r1, a1 := cache.bufs, cache.refs, cache.at;
      var h := SetWord(cache.bufs[g.i].data, 0, |lh|);
      for i := 0 to |lh|
        invariant h == StoreBlocks(SetWord(b1[g.i].data, 0, |lh|), lh, i)
      {
        h := SetWord(h, i + 1, lh[i]);
      }
      cache.Modify(g.i, pid, h);
      ghost var b2 := cache.bufs;
      r := cache.Write(g.i, pid);
      r := cache.Release(g.i, pid);
      issued := issued + [BlockWrite(l.start, h)];
      OneUse(b0, disk0, latest0, r0, a0, l.start, g.i, b1, r1, a1, b2, cache.bufs, cache.refs);
    }

    /** Two blocks are read; both buffers are locked at the same time. */
    method ReadBoth(x: nat, y: nat, pid: nat) returns (r: Outcome, i: nat, j: nat)
      requires cache.Valid() && 0 < x < |cache.disk| && 0 < y < |cache.disk| && x != y && pid != 0
      requires Free(cache.bufs, cache.at, x) && Free(cache.bufs, cache.at, y)
      modifies cache
      ensures old(TwoSpare(cache.refs) || (Spare(cache.refs) && PinsOf(cache.refs, cache.at, y) > 0)) ==> r.Done?
      ensures r.Done? ==>
        && cache.Valid() && cache.disk == old(cache.disk) && cache.latest == old(cache.latest)
        && |cache.latest| == |cache.disk|
        && HasBoth(old(cache.bufs), old(cache.refs), old(cache.at), x, i, y, j, cache.bufs, cache.refs, cache.at)
        && cache.bufs[i].owner == cache.bufs[j].owner == pid && cache.bufs[i].valid && cache.bufs[j].valid
        && cache.bufs[i].data == cache.latest[x] && cache.bufs[j].data == cache.latest[y]
    {
      hide Counted, Guarded, Listed, Kept, Free, HasBoth, Moved;
      ghost var b0, d, t, r0, a0 := cache.bufs, cache.disk, cache.latest, cache.refs, cache.at;
      LockFree(b0, d, t, r0, a0, x);
      LockFree(b0, d, t, r0, a0, y);
      i, j := 0, 0;
      var g := cache.Read(x, pid);
      if g.NoBuffers? {
        return Panic, 0, 0;
      }
      ghost var b1, r1, a1 := cache.bufs, cache.refs, cache.at;
      GotTwo(b0, d, t, r0, a0, x, g.i, b1, r1, a1, y);
      LockFree(b1, d, t, r1, a1, y);
      var h := cache.Read(y, pid);
      if h.NoBuffers? {
        return Panic, 0, 0;
      }
      i, j := g.i, h.i;
      NotSame(b1, d, t, r1, a1, x, y, i, j, cache.bufs, cache.refs, cache.at);
      TwoGot(b0, d, t, r0, a0, x, i, b1, r1, a1, y, j, cache.bufs, cache.refs, cache.at);
      return Done, i, j;
    }

    method ReleaseBoth(u: nat, v: nat, pid: nat)
      requires cache.Valid() && u < NBUF && v < NBUF && u != v && pid != 0
      requires cache.bufs[u].owner == cache.bufs[v].owner == pid && Safe(u) && Safe(v)
      modifies cache
      ensures cache.Valid() && cache.disk == old(cache.disk) && cache.latest == old(cache.latest)
      ensures cache.at == old(cache.at)
      ensures GaveBoth(old(cache.bufs), old(cache.refs), u, v, cache.bufs, cache.refs)
      ensures GaveBoth(old(cache.bufs), old(cache.refs), v, u, cache.bufs, cache.refs)
    {
      hide Counted, Guarded, Listed, GaveBoth;
      ghost var b3, r3 := cache.bufs, cache.refs;
      var r := cache.Release(u, pid);
      ghost var b4, r4 := cache.bufs, cache.refs;
      assert b4[v] == b3[v].(prev := b4[v].prev, next := b4[v].next);
      r := cache.Release(v, pid);
      TwoReleased(b3, r3, u, b4, r4, v, cache.bufs, cache.refs);
    }

    /** A buffer may be released: its block is on disk or pinned. */
    ghost predicate Safe(i: nat)
      reads cache
    {
      && i < |cache.bufs| && i < |cache.refs| && cache.bufs[i].blockno < |cache.disk| == |cache.latest|
      && (cache.disk[cache.bufs[i].blockno] == cache.latest[cache.bufs[i].blockno] || cache.refs[i].pins > 0)
    }

    /** One turn of `write_log`: a block of the list, as the cache has it, goes to its log block. */
    method LogOne(pid: nat, tail: nat) returns (r: Outcome)
      requires Valid() && pid != 0 && tail < |lh| && Free(cache.bufs, cache.at, l.start + tail + 1)
      requires Free(cache.bufs, cache.at, lh[tail]) && PinsOf(cache.refs, cache.at, lh[tail]) > 0
      modifies this`issued, cache
      ensures old(Spare(cache.refs)) ==> r.Done?
      ensures r.Done? ==>
        && Valid() && View() == old(View()).Put(BlockWrite(l.start + tail + 1, old(cache.latest[lh[tail]])))
        && cache.refs == old(cache.refs) && Kept(old(cache.bufs), cache.refs, old(cache.at), cache.bufs, cache.at)
      ensures r.Done? && old(Pinned(lh, cache.refs, cache.at)) ==> Pinned(lh, cache.refs, cache.at)
    {
      hide Counted, Guarded, Listed, Kept, Free, GaveBoth, HasBoth, Spare, TwoSpare, Pinned;
      ghost var b0, r0, a0 := cache.bufs, cache.refs, cache.at;
      var x, y, to, from := l.start + tail + 1, lh[tail], 0, 0;
      assert l.IsHome(y) && x != y;
      PinsPlace(b0, cache.disk, cache.latest, r0, a0, y);
      r, to, from := ReadBoth(x, y, pid);
      if r.Panic? {
        return;
      }
      ghost var b2, r2, a2 := cache.bufs, cache.refs, cache.at;
      BothFacts(b0, r0, a0, x, to, y, from, b2, cache.disk, cache.latest, r2, a2);
      cache.Modify(to, pid, cache.bufs[from].data);
      ghost var b3 := cache.bufs;
      r := cache.Write(to, pid);
      ReleaseBoth(from, to, pid);
      issued := issued + [BlockWrite(x, b2[from].data)];
      TwoUses(b0, r0, a0, x, to, y, from, b2, r2, a2, b3, r2[from].pins, r2, cache.bufs, cache.refs);
      if Pinned(lh, r0, a0) {
        PinnedKept(lh, b0, r0, a0, cache.bufs, cache.at);
      }
    }

    /** Copies the logged blocks, as the cache has them, into the log. */
    method WriteLog(pid: nat) returns (r: Outcome)
      requires Valid() && pid != 0 && AllFree(l, lh, cache.bufs, cache.at) && Pinned(lh, cache.refs, cache.at)
      modifies this`issued, cache
      ensures old(Spare(cache.refs)) ==> r.Done?
      ensures r.Done? ==>
        && Valid() && Fits(LogPlan(l, lh, old(cache.latest)), old(cache.disk))
        && View() == Puts(old(View()), LogPlan(l, lh, old(cache.latest)), |lh|)
        && cache.refs == old(cache.refs) && Kept(old(cache.bufs), cache.refs, old(cache.at), cache.bufs, cache.at)
    {
      hide Counted, Guarded, Listed, Kept, Free, Pinned, AllFree, Puts, Spare;
      ghost var s, ws := View(), LogPlan(l, lh, cache.latest);
      ghost var b0, r0, a0 := cache.bufs, cache.refs, cache.at;
      LogPrefix(l, s.cache, lh, s.cache, 0);
      PutsNone(s, ws);
      KeptSame(b0, cache.disk, cache.latest, r0, a0);
      var tail := 0;
      while tail < |lh|
        invariant 0 <= tail <= |lh| && Valid() && Fits(ws, s.disk) && View() == Puts(s, ws, tail)
        invariant cache.refs == r0 && Kept(b0, r0, a0, cache.bufs, cache.at)
      {
        LogReads(l, lh, s, tail);
        StillReady(l, lh, tail, b0, r0, a0, cache.bufs, cache.at);
        ghost var b1, a1 := cache.bufs, cache.at;
        r := LogOne(pid, tail);
        if r.Panic? {
          return;
        }
        PutsNext(s, ws, tail);
        KeptTwice(b0, r0, a0, b1, a1, cache.bufs, cache.at);
        tail := tail + 1;
      }
      return Done;
    }

    /** The home block gets its contents, is written, and is unpinned outside recovery. */
    method StoreHome(pid: nat, to: nat, data: Block, recovering: bool)
      requires cache.Valid() && to < NBUF && pid != 0 && cache.bufs[to].owner == pid && cache.bufs[to].valid
      requires 0 < cache.bufs[to].blockno < |cache.disk| == |cache.latest| && (recovering || cache.refs[to].pins > 0)
      modifies cache
      ensures cache.Valid() && Alike(old(cache.bufs), cache.bufs) && cache.at == old(cache.at)
      ensures cache.disk == old(cache.disk)[old(cache.bufs[to].blockno) := data]
      ensures cache.latest == old(cache.latest)[old(cache.bufs[to].blockno) := data]
      ensures cache.refs == if recovering then old(cache.refs)
                            else old(cache.refs)[to := Refs(old(cache.refs[to]).pins - 1, old(cache.refs[to]).holds)]
    {
      hide Counted, Guarded, Listed;
      Held(cache.bufs, cache.disk, cache.latest, cache.refs, cache.at, to);
      cache.Modify(to, pid, data);
      var r := cache.Write(to, pid);
      if !recovering {
        cache.Unpin(to);
      }
    }

    /**
     One turn of `install_trans`: a log block goes to its home block, which is unpinned once it is
     on disk, unless this is a recovery.
     */
    method InstallOne(pid: nat, tail: nat, recovering: bool) returns (r: Outcome)
      requires Valid() && pid != 0 && tail < |lh| && Free(cache.bufs, cache.at, l.start + tail + 1)
      requires Free(cache.bufs, cache.at, lh[tail]) && (recovering || PinsOf(cache.refs, cache.at, lh[tail]) > 0)
      requires cache.disk[l.start + tail + 1] == cache.latest[l.start + tail + 1]
      modifies this`issued, cache
      ensures old(TwoSpare(cache.refs) || (Spare(cache.refs) && !recovering)) ==> r.Done?
      ensures r.Done? ==>
        && Valid() && View() == old(View()).Put(BlockWrite(lh[tail], old(cache.latest[l.start + tail + 1])))
        && Kept(old(cache.bufs), old(cache.refs), old(cache.at), cache.bufs, cache.at)
        && (if recovering then cache.refs == old(cache.refs) else Unpinned(old(cache.refs), old(cache.at), lh[tail], cache.refs))
      ensures r.Done? && !recovering ==> NextUnpinned(lh, tail, old(cache.refs), old(cache.at), cache.refs, cache.at)
    {
      hide Counted, Guarded, Listed, Kept, Free, GaveBoth, HasBoth, Spare, TwoSpare, Pinned;
      ghost var b0, r0, a0 := cache.bufs, cache.refs, cache.at;
      var x, y, from, to := l.start + tail + 1, lh[tail], 0, 0;
      assert l.IsHome(y) && x != y;
      PinsPlace(b0, cache.disk, cache.latest, r0, a0, y);
      r, from, to := ReadBoth(x, y, pid);
      if r.Panic? {
        return;
      }
      ghost var b2, r2, a2 := cache.bufs, cache.refs, cache.at;
      BothFacts(b0, r0, a0, x, from, y, to, b2, cache.disk, cache.latest, r2, a2);
      StoreHome(pid, to, cache.bufs[from].data, recovering);
      ghost var b3, r3 := cache.bufs, cache.refs;
      ReleaseBoth(from, to, pid);
      issued := issued + [BlockWrite(y, b2[from].data)];
      assert r3 == r2[to := Refs(r3[to].pins, r2[to].holds)];
      TwoUses(b0, r0, a0, x, from, y, to, b2, r2, a2, b3, r3[to].pins, r3, cache.bufs, cache.refs);
      if !recovering && Pinned(lh[tail..], r0, a0) {
        UnpinNext(l, lh, tail, b0, r0, a0, cache.bufs, cache.disk, cache.latest, cache.refs, cache.at);
      }
      return Done;
    }

    /** The blocks of the log are on disk as the cache has them. */
    ghost predicate LogClean()
      reads this, cache
    {
      forall a :: l.start <= a < l.start + l.size && a < |cache.disk| && a < |cache.latest| ==> cache.disk[a] == cache.latest[a]
    }

    /** Copies the log blocks to their home blocks and, outside recovery, unpins these. */
    method InstallTrans(pid: nat, recovering: bool) returns (r: Outcome)
      requires Valid() && pid != 0 && AllFree(l, lh, cache.bufs, cache.at) && LogClean()
      requires recovering || Pinned(lh, cache.refs, cache.at)
      modifies this`issued, cache
      ensures old(TwoSpare(cache.refs) || (Spare(cache.refs) && !recovering)) ==> r.Done?
      ensures r.Done? ==>
        && Valid() && Fits(InstallPlan(l, lh, old(cache.latest)), old(cache.disk))
        && View() == Puts(old(View()), InstallPlan(l, lh, old(cache.latest)), |lh|)
        && AllFree(l, lh, cache.bufs, cache.at)
        && (recovering ==> cache.refs == old(cache.refs))
        && (recovering ==> Kept(old(cache.bufs), cache.refs, old(cache.at), cache.bufs, cache.at))
        && (!recovering ==> Pinned([], cache.refs, cache.at) && (old(Spare(cache.refs)) ==> Spare(cache.refs)))
    {
      hide Counted, Guarded, Listed, Kept, Free, Pinned, AllFree, Puts, Spare, TwoSpare, InstallPlan, Unpinned;
      ghost var s, ws := View(), InstallPlan(l, lh, cache.latest);
      ghost var b0, r0, a0 := cache.bufs, cache.refs, cache.at;
      InstallSize(l, lh, cache.latest);
      InstallReads(l, lh, s, 0, l.start);
      PutsNone(s, ws);
      KeptSame(b0, cache.disk, cache.latest, r0, a0);
      SpareOfTwo(r0);
      assert lh[0..] == lh;
      var tail := 0;
      while tail < |lh|
        invariant 0 <= tail <= |lh| && Valid() && Fits(ws, s.disk) && View() == Puts(s, ws, tail)
        invariant AllFree(l, lh, cache.bufs, cache.at)
        invariant recovering ==> cache.refs == r0 && Kept(b0, r0, a0, cache.bufs, cache.at)
        invariant !recovering ==> Pinned(lh[tail..], cache.refs, cache.at) && (Spare(r0) ==> Spare(cache.refs))
      {
        InstallTurn(l, lh, s, tail);
        ReadyHome(l, lh, tail, cache.bufs, cache.refs, cache.at, recovering);
        ghost var b1, r1, a1 := cache.bufs, cache.refs, cache.at;
        r := InstallOne(pid, tail, recovering);
        if r.Panic? {
          return;
        }
        PutsNext(s, ws, tail);
        AllFreeKept(l, lh, b1, r1, a1, cache.bufs, cache.at);
        if recovering {
          KeptTwice(b0, r0, a0, b1, a1, cache.bufs, cache.at);
        }
        tail := tail + 1;
      }
      assert lh[|lh|..] == [];
      return Done;
    }

    /**
     Between transactions of the log: logged blocks are pinned once, no transaction is on disk, and
     a block that differs from the disk is logged, or locked by a process that has yet to log it.
     */
    ghost predicate Logged()
      reads this, cache
    {
      && Valid() && Pinned(lh, cache.refs, cache.at) && l.ValidDisk(cache.disk) && Head(cache.disk[l.start]) == []
      && (forall a :: 0 <= a < l.total && a !in lh && cache.latest[a] != cache.disk[a] ==>
            a != 0 && l.IsHome(a) && a in cache.at && !Free(cache.bufs, cache.at, a))
    }

    /** All changed blocks are logged. */
    ghost predicate Quiescent()
      reads this, cache
    {
      Logged() && forall a :: 0 <= a < l.total && a !in lh ==> cache.latest[a] == cache.disk[a]
    }

    /**
     Issues exactly the writes of a commit plan. Afterwards the cache and the disk agree, the
     home blocks hold what the cache held, and the log is empty with nothing pinned. One unused
     buffer is enough for it.
     */
    method Commit(pid: nat) returns (r: Outcome)
      requires Quiescent() && AllFree(l, lh, cache.bufs, cache.at) && pid != 0
      modifies this`issued, this`lh, cache
      ensures old(Spare(cache.refs)) ==> r.Done?
      ensures r.Done? ==>
        && Quiescent() && lh == [] && issued ==
             old(issued) + CommitPlan(l, old(lh), old(cache.latest), old(cache.disk[l.start]))
        && l.SameHome(cache.disk, old(cache.latest)) && cache.disk == cache.latest
    {
      hide Counted, Guarded, Listed, Kept, Free, Pinned, AllFree, Puts, Spare, EncodeHead, CommitPlan, InstallPlan;
      hide LogPlan;
      if |lh| > 0 {
        ghost var s, list := View(), lh;
        HeaderIsClean(l, lh, s);
        r := WriteLog(pid);
        if r.Panic? { return; }
        ghost var s1 := View();
        AllFreeKept(l, lh, old(cache.bufs), cache.refs, old(cache.at), cache.bufs, cache.at);
        ghost var b1, a1 := cache.bufs, cache.at;
        HeaderFree(l, lh, cache.bufs, cache.at);
        r := WriteHead(pid);
        if r.Panic? { return; }
        ghost var s2 := View();
        AllFreeKept(l, lh, b1, cache.refs, a1, cache.bufs, cache.at);
        PinnedKept(lh, old(cache.bufs), cache.refs, old(cache.at), b1, a1);
        PinnedKept(lh, b1, cache.refs, a1, cache.bufs, cache.at);
        LogSize(l, list, s.cache);
        CleanPuts(s, LogPlan(l, list, s.cache), |list|);
        r := InstallTrans(pid, false);
        if r.Panic? { return; }
        ghost var s3 := View();
        HeaderFree(l, lh, cache.bufs, cache.at);
        ghost var b3, a3 := cache.bufs, cache.at;
        lh := [];
        r := WriteHead(pid);
        if r.Panic? { return; }
        PinnedKept([], b3, cache.refs, a3, cache.bufs, cache.at);
        CommitStages(l, list, s, s1, s2, s3, View());
        CommitEffect(l, list, s);
      } else {
        CommitNothing(l, View());
      }
      return Done;
    }

    /** At boot: issues exactly the writes of a recovery plan and so leaves the recovered disk. */
    method RecoverFromLog(pid: nat) returns (r: Outcome)
      requires l.ValidDisk(cache.disk) && cache.latest == cache.disk && cache.Valid() && pid != 0
      requires l.start > 0 && 0 !in Head(cache.disk[l.start])
      requires AllFree(l, Head(cache.disk[l.start]), cache.bufs, cache.at)
      modifies this`issued, this`lh, cache
      ensures old(TwoSpare(cache.refs)) ==> r.Done?
      ensures r.Done? ==>
        && Valid() && lh == [] && cache.disk == Recover(l, old(cache.disk)) && cache.latest == cache.disk
        && issued == old(issued) + RecoverPlan(l, old(cache.disk)) && cache.refs == old(cache.refs)
        && Kept(old(cache.bufs), cache.refs, old(cache.at), cache.bufs, cache.at)
    {
      hide Counted, Guarded, Listed, Recover, RecoverPlan, InstallPlan, EncodeHead, Puts, Fits, Kept, Free;
      hide AllFree, Spare, TwoSpare;
      ghost var s, b0, r0, a0 := View(), cache.bufs, cache.refs, cache.at;
      SpareOfTwo(r0);
      HeaderFree(l, Head(cache.disk[l.start]), b0, a0);
      r := ReadHead(pid);
      if r.Panic? { return; }
      RecoverEffect(l, s);
      AllFreeKept(l, lh, b0, r0, a0, cache.bufs, cache.at);
      ghost var b1, a1 := cache.bufs, cache.at;
      r := InstallTrans(pid, true);
      if r.Panic? { return; }
      KeptTwice(b0, r0, a0, b1, a1, cache.bufs, cache.at);
      HeaderFree(l, lh, cache.bufs, cache.at);
      ghost var b2, a2 := cache.bufs, cache.at;
      lh := [];
      r := WriteHead(pid);
      if r.Panic? { return; }
      KeptTwice(b0, r0, a0, b2, a2, cache.bufs, cache.at);
      return Done;
    }

    /** One pass of `begin_op`'s loop: reserve room for the operation, or say to sleep. */
    method TryBegin() returns (admitted: bool)
      requires 0 <= outstanding
      modifies this`outstanding
      ensures admitted == (!committing && |lh| + (old(outstanding) + 1) * MAXOPBLOCKS <= LOGSIZE)
      ensures outstanding == old(outstanding) + if admitted then 1 else 0
    {
      if committing {
        admitted := false;
      } else if |lh| + (outstanding + 1) * MAXOPBLOCKS > LOGSIZE {
        admitted := false;
      } else {
        outstanding := outstanding + 1;
        admitted := true;
      }
    }

    /**
     `log_write` of a buffer that the caller has locked and changed. A block already in the list
     is absorbed; a new one is appended and its buffer is pinned.
     */
    method LogWrite(i: nat, pid: nat) returns (r: Outcome)
      requires Logged() && i < NBUF && pid != 0 && cache.bufs[i].owner == pid
      requires cache.bufs[i].blockno != 0 && l.IsHome(cache.bufs[i].blockno)
      modifies this`lh, cache
      ensures r.Panic? <==> |old(lh)| >= LOGSIZE || |old(lh)| >= l.size - 1 || outstanding < 1
      ensures cache.disk == old(cache.disk) && cache.latest == old(cache.latest) && cache.at == old(cache.at)
      ensures Alike(old(cache.bufs), cache.bufs)
      ensures Logged() && (r.Panic? ==> lh == old(lh))
      ensures r.Done? ==>
        var b := old(cache.bufs[i].blockno); b in lh && lh == if b in old(lh) then old(lh) else old(lh) + [b]
    {
      hide Counted, Guarded, Listed, Pinned;
      Held(cache.bufs, cache.disk, cache.latest, cache.refs, cache.at, i);
      if |lh| >= LOGSIZE || |lh| >= l.size - 1 {
        return Panic;
      }
      if outstanding < 1 {
        return Panic;
      }
      var b, k := cache.bufs[i].blockno, 0;
      while k < |lh| && lh[k] != b
        invariant k <= |lh| && b !in lh[..k]
      {
        k := k + 1;
      }
      if k == |lh| {
        PinNew(lh, cache.bufs, cache.disk, cache.latest, cache.refs, cache.at, i);
        cache.Pin(i);
        lh := lh + [b];
      }
      return Done;
    }

    /** Leaves the operation; the last one out commits. */
    method EndOp(pid: nat) returns (r: Outcome)
      requires Logged() && 1 <= outstanding && pid != 0
      requires outstanding == 1 ==> Quiescent() && AllFree(l, lh, cache.bufs, cache.at)
      modifies this`issued, this`lh, this`outstanding, this`committing, cache
      ensures old(committing) ==> r.Panic?
      ensures r.Panic? ==> old(committing) || (outstanding == 0 && !old(Spare(cache.refs)))
      ensures outstanding == old(outstanding) - 1
      ensures r.Done? ==> Logged() && !committing
      ensures r.Done? && outstanding == 0 ==>
        && lh == [] && l.SameHome(cache.disk, old(cache.latest)) && cache.disk == cache.latest && Quiescent()
        && issued == old(issued) + CommitPlan(l, old(lh), old(cache.latest), old(cache.disk[l.start]))
      ensures old(committing) || outstanding > 0 ==> View() == old(View()) && lh == old(lh)
    {
      hide Counted, Guarded, Listed, Pinned, CommitPlan, AllFree, Spare;
      outstanding := outstanding - 1;
      if committing {
        return Panic;
      }
      if outstanding == 0 {
        committing := true;
        r := Commit(pid);
        if r.Panic? { return; }
        committing := false;
      }
      return Done;
    }

    // What other processes do with the cache meanwhile keeps all this, and between two turns of a
    // commit too.

    /** The blocks that wait to be installed, `lh` or in a commit what is left of it, are pinned once. */
    ghost predicate Awaiting(ps: seq<nat>)
      reads this, cache
    {
      Valid() && Pinned(ps, cache.refs, cache.at)
    }

    /** `bufcache_get` of any block: the buffer of a block that waits to be installed is not recycled. */
    method OtherGet(blockno: nat, ghost ps: seq<nat>) returns (g: Found)
      requires Awaiting(ps) && 0 < blockno < l.total
      modifies cache
      ensures Awaiting(ps) && View() == old(View()) && (old(Logged()) && ps == lh ==> Logged())
      ensures forall b :: b in ps ==> b in old(cache.at) && b in cache.at && cache.at[b] == old(cache.at)[b]
      ensures g.Recycled? ==> g.i < NBUF < |old(cache.bufs)| && old(cache.bufs)[g.i].blockno !in ps
    {
      hide Counted, Guarded, Listed, Moved, Pinned;
      ghost var bs, refs, at := cache.bufs, cache.refs, cache.at;
      Placed(bs, cache.disk, cache.latest, refs, at, blockno);
      g := cache.Get(blockno);
      if g.NoBuffers? {
        ListedPlaced(ps, bs, cache.disk, cache.latest, refs, at);
      } else {
        Placed(cache.bufs, cache.disk, cache.latest, cache.refs, cache.at, blockno);
        GotPinned(ps, bs, cache.disk, cache.latest, refs, at, blockno, g.i, cache.bufs, cache.refs, cache.at);
      }
    }

    /** The rest of `bufcache_read`, once the buffer's lock is free. */
    method OtherLock(i: nat, pid: nat, ghost ps: seq<nat>) returns (ok: bool)
      requires Awaiting(ps) && i < NBUF && pid != 0 && cache.refs[i].holds > 0
      modifies cache
      ensures Awaiting(ps) && (old(Logged()) ==> Logged())
      ensures View() == old(View()) && cache.at == old(cache.at) && cache.refs == old(cache.refs)
      ensures ok == (old(cache.bufs[i].owner) == 0) && (ok ==> cache.bufs[i].owner == pid && cache.bufs[i].valid)
    {
      hide Counted, Guarded, Listed, Pinned;
      Held(cache.bufs, cache.disk, cache.latest, cache.refs, cache.at, i);
      PinsPlaces(cache.bufs, cache.disk, cache.latest, cache.refs, cache.at);
      ok := cache.TryLock(i, pid);
      if ok {
        cache.Fill(i, pid);
      }
    }

    /** A process changes a buffer that it has locked. */
    method OtherModify(i: nat, pid: nat, data: Block)
      requires Logged() && i < NBUF && pid != 0 && cache.bufs[i].owner == pid && cache.bufs[i].valid
      requires cache.bufs[i].blockno != 0 && l.IsHome(cache.bufs[i].blockno)
      modifies cache
      ensures Logged() && cache.disk == old(cache.disk)
      ensures cache.latest == old(cache.latest)[old(cache.bufs[i].blockno) := data]
    {
      hide Counted, Guarded, Listed, Pinned;
      Held(cache.bufs, cache.disk, cache.latest, cache.refs, cache.at, i);
      Placed(cache.bufs, cache.disk, cache.latest, cache.refs, cache.at, cache.bufs[i].blockno);
      cache.Modify(i, pid, data);
    }

    /** A process releases a buffer. All stays as it should exactly if it has logged what it changed. */
    method OtherRelease(i: nat, pid: nat, ghost ps: seq<nat>)
      requires Awaiting(ps) && i < NBUF && pid != 0 && cache.bufs[i].owner == pid && cache.bufs[i].blockno != 0
      modifies cache
      ensures Pinned(ps, cache.refs, cache.at) && View() == old(View()) && cache.at == old(cache.at)
      ensures var b := old(cache.bufs[i].blockno);
        && (Awaiting(ps) <==> b in ps || old(cache.disk[b] == cache.latest[b]))
        && (old(Logged()) && ps == lh ==> (Logged() <==> b in lh || old(cache.disk[b] == cache.latest[b])))
    {
      hide Counted, Guarded, Listed, Pinned, SameButLinks;
      ghost var bs, refs, at := cache.bufs, cache.refs, cache.at;
      Held(bs, cache.disk, cache.latest, refs, at, i);
      Placed(bs, cache.disk, cache.latest, refs, at, bs[i].blockno);
      PinsPlace(bs, cache.disk, cache.latest, refs, at, bs[i].blockno);
      PinsPlaces(bs, cache.disk, cache.latest, refs, at);
      ListedPins(ps, refs, at, bs[i].blockno);
      var r := cache.Release(i, pid);
      ReleasedPinned(ps, bs, refs, at, i, cache.bufs, cache.refs);
    }
  }

  lemma ListedPins(lh: seq<nat>, refs: seq<Refs>, at: map<nat, nat>, b: nat)
    requires Pinned(lh, refs, at)
    ensures PinsOf(refs, at, b) == if b in lh then 1 else 0
  {
  }

  lemma ListedPlaced(lh: seq<nat>, bs: seq<Buf>, disk: seq<Block>, latest: seq<Block>, refs: seq<Refs>,
                     at: map<nat, nat>)
    requires Pinned(lh, refs, at)
    ensures forall b :: b in lh ==> b in at && at[b] < |refs| && refs[at[b]].pins > 0
  {
    forall b | b in lh ensures b in at && at[b] < |refs| && refs[at[b]].pins > 0 { assert PinsOf(refs, at, b) == 1; }
  }

  /** A buffer given to a block is not that of a logged one, and pins stay. */
  lemma GotPinned(lh: seq<nat>, bs: seq<Buf>, disk: seq<Block>, latest: seq<Block>, refs: seq<Refs>, at: map<nat, nat>,
                  x: nat, i: nat, bs': seq<Buf>, refs': seq<Refs>, at': map<nat, nat>)
    requires Coherent(bs, disk, latest, refs, at) && x != 0 && Got(bs, refs, at, x, i, bs', refs', at')
    requires Pinned(lh, refs, at)
    ensures Pinned(lh, refs', at')
    ensures forall b :: b in lh ==> b in at && b in at' && at'[b] == at[b]
    ensures refs[i] == Refs(0, 0) ==> bs[i].blockno !in lh
    ensures forall a :: a in at && at[a] < NBUF && bs[at[a]].owner != 0 ==> a in at' && at'[a] == at[a]
  {
    Placed(bs, disk, latest, refs, at, x);
    ListedPlaced(lh, bs, disk, latest, refs, at);
    forall b: nat ensures PinsOf(refs', at', b) == if b in lh then 1 else 0 {
      assert PinsOf(refs, at, b) == if b in lh then 1 else 0;
    }
  }

  lemma ReleasedPinned(lh: seq<nat>, bs: seq<Buf>, refs: seq<Refs>, at: map<nat, nat>, i: nat, bs': seq<Buf>,
                       refs': seq<Refs>)
    requires Released(bs, refs, i, bs', refs') && Pinned(lh, refs, at)
    ensures Pinned(lh, refs', at)
    ensures forall a :: a in at && at[a] < NBUF && at[a] != i ==> bs'[at[a]].owner == bs[at[a]].owner
  {
    forall b: nat ensures PinsOf(refs', at, b) == if b in lh then 1 else 0 {
      assert PinsOf(refs, at, b) == if b in lh then 1 else 0;
    }
  }

  lemma PinNew(lh: seq<nat>, bs: seq<Buf>, disk: seq<Block>, latest: seq<Block>, refs: seq<Refs>, at: map<nat,
               nat>, i: nat)
    requires Coherent(bs, disk, latest, refs, at) && i < NBUF && bs[i].blockno != 0 && bs[i].blockno !in lh
    requires Pinned(lh, refs, at)
    ensures |refs| == NBUF && Pinned(lh + [bs[i].blockno], refs[i := Refs(refs[i].pins + 1, refs[i].holds)], at)
  {
    hide Counted, Guarded;
    Held(bs, disk, latest, refs, at, i);
    Placed(bs, disk, latest, refs, at, bs[i].blockno);
    PinsPlaces(bs, disk, latest, refs, at);
    var y, refs' := bs[i].blockno, refs[i := Refs(refs[i].pins + 1, refs[i].holds)];
    forall b: nat ensures PinsOf(refs', at, b) == if b in lh + [y] then 1 else 0 {
      assert PinsOf(refs, at, b) == if b in lh then 1 else 0;
    }
  }

  lemma NothingCached(l: Layout, bs: seq<Buf>, refs: seq<Refs>, at: map<nat, nat>)
    requires at == map[]
    ensures forall lh :: AllFree(l, lh, bs, at)
    ensures Pinned([], refs, at)
  {
  }

  lemma CommitNothing(l: Layout, s: Store)
    requires l.ValidDisk(s.disk) && |s.cache| == l.total && forall a :: 0 <= a < l.total ==> s.cache[a] == s.disk[a]
    ensures s.disk == s.cache && CommitPlan(l, [], s.cache, s.disk[l.start]) == []
  {
  }

  lemma LogSize(l: Layout, lh: seq<nat>, c: Disk)
    requires l.ValidList(lh) && |c| == l.total
    ensures (forall i :: 0 <= i < |lh| ==> lh[i] < |c|) && |LogPlan(l, lh, c)| == |lh|
  {
  }

  /** Where disk and cache agree, they still do after writes through the cache. */
  lemma {:induction false} CleanPuts(s: Store, ws: seq<BlockWrite>, k: nat)
    requires |s.disk| == |s.cache| && Fits(ws, s.disk) && k <= |ws|
    ensures forall a :: 0 <= a < |s.disk| && s.disk[a] == s.cache[a] ==>
      Puts(s, ws, k).disk[a] == Puts(s, ws, k).cache[a]
  {
    if k > 0 { CleanPuts(s, ws, k - 1); }
  }

  lemma PinnedKept(lh: seq<nat>, bs: seq<Buf>, refs: seq<Refs>, at: map<nat, nat>, bs': seq<Buf>, at': map<nat, nat>)
    requires Pinned(lh, refs, at) && Kept(bs, refs, at, bs', at')
    ensures Pinned(lh, refs, at')
  {
    hide Kept, PinsOf;
    forall b: nat ensures PinsOf(refs, at', b) == if b in lh then 1 else 0 { KeptPins(bs, refs, at, bs', at', b); }
  }

  lemma HeaderFree(l: Layout, lh: seq<nat>, bs: seq<Buf>, at: map<nat, nat>)
    requires l.Valid() && AllFree(l, lh, bs, at)
    ensures Free(bs, at, l.start)
  {
    hide Free;
  }

  lemma InstallSize(l: Layout, lh: seq<nat>, c: Disk)
    requires l.Valid() && l.ValidList(lh) && |c| == l.total
    ensures |InstallPlan(l, lh, c)| == |lh|
    ensures forall k :: 0 <= k < |lh| ==> InstallPlan(l, lh, c)[k] == BlockWrite(lh[k], c[l.start + k + 1])
  {
  }

  /** What turn `tail` of `install_trans` reads: the log block, clean and as at the start. */
  lemma InstallTurn(l: Layout, lh: seq<nat>, s: Store, tail: nat)
    requires l.Valid() && l.ValidList(lh) && s.Fits(l) && tail < |lh|
    requires s.disk[l.start + tail + 1] == s.cache[l.start + tail + 1]
    ensures Fits(InstallPlan(l, lh, s.cache), s.disk) && |InstallPlan(l, lh, s.cache)| == |lh| && lh[tail] < l.total
    ensures var t, a := Puts(s, InstallPlan(l, lh, s.cache), tail), l.start + tail + 1;
      && InstallPlan(l, lh, s.cache)[tail] == BlockWrite(lh[tail], t.cache[a])
      && t.disk[a] == t.cache[a]
  {
    var ws, a := InstallPlan(l, lh, s.cache), l.start + tail + 1;
    InstallReads(l, lh, s, tail, a);
    PutsRuns(s, ws, tail);
    RunAgrees(s.disk, s.cache, ws, tail);
    assert l.IsHome(lh[tail]);
  }

  lemma ReadyHome(l: Layout, lh: seq<nat>, tail: nat, bs: seq<Buf>, refs: seq<Refs>, at: map<nat, nat>,
                  recovering: bool)
    requires l.ValidList(lh) && tail < |lh| && AllFree(l, lh, bs, at) && (recovering || Pinned(lh[tail..], refs, at))
    ensures Free(bs, at, l.start + tail + 1) && Free(bs, at, lh[tail]) && (recovering || PinsOf(refs, at, lh[tail]) > 0)
  {
    hide Free;
    assert lh[tail] == lh[tail..][0];
  }

  lemma AllFreeKept(l: Layout, lh: seq<nat>, bs: seq<Buf>, refs: seq<Refs>, at: map<nat, nat>, bs': seq<Buf>,
                    at': map<nat, nat>)
    requires AllFree(l, lh, bs, at) && Kept(bs, refs, at, bs', at')
    ensures AllFree(l, lh, bs', at')
  {
    hide Free, Kept;
    forall b | (l.start <= b < l.start + l.size) || b in lh ensures Free(bs', at', b) {
      KeptFree(bs, refs, at, bs', at', b);
    }
  }

  /** Once installed, a block is not pinned any more; the others of the list still are. */
  lemma UnpinNext(l: Layout, lh: seq<nat>, tail: nat, b1: seq<Buf>, r1: seq<Refs>, a1: map<nat, nat>,
                  bs: seq<Buf>, disk: seq<Block>, latest: seq<Block>, refs: seq<Refs>, at: map<nat, nat>)
    requires l.ValidList(lh) && tail < |lh| && Pinned(lh[tail..], r1, a1) && Kept(b1, r1, a1, bs, at)
    requires Unpinned(r1, a1, lh[tail], refs) && Coherent(bs, disk, latest, refs, at) && lh[tail] != 0
    ensures Pinned(lh[tail + 1..], refs, at) && (Spare(r1) ==> Spare(refs))
  {
    hide Counted, Guarded, Kept;
    var i, y := a1[lh[tail]], lh[tail];
    assert lh[tail..] == [y] + lh[tail + 1..];
    PinsPlaces(bs, disk, latest, refs, at);
    KeptPlace(b1, r1, a1, bs, at, y);
    forall b: nat ensures PinsOf(refs, at, b) == if b in lh[tail + 1..] then 1 else 0 {
      KeptPins(b1, r1, a1, bs, at, b);
      assert PinsOf(r1, a1, b) == if b in lh[tail..] then 1 else 0;
      assert b in lh[tail..] <==> b == y || b in lh[tail + 1..];
    }
    if Spare(r1) {
      var k :| 0 <= k < |r1| && r1[k] == Refs(0, 0);
      assert refs[k] == Refs(0, 0);
    }
  }

  lemma KeptPlace(bs: seq<Buf>, refs: seq<Refs>, at: map<nat, nat>, bs': seq<Buf>, at': map<nat, nat>, b: nat)
    requires Kept(bs, refs, at, bs', at') && b in at && at[b] < |refs| && refs[at[b]].pins > 0
    ensures b in at' && at'[b] == at[b]
  {
  }

  /** No two blocks share a buffer. */
  lemma PinsPlaces(bs: seq<Buf>, disk: seq<Block>, latest: seq<Block>, refs: seq<Refs>, at: map<nat, nat>)
    requires Coherent(bs, disk, latest, refs, at)
    ensures |refs| == NBUF < |bs| && (forall b :: b in at ==> at[b] < NBUF && bs[at[b]].blockno == b)
    ensures forall b, c :: b in at && c in at && at[b] == at[c] ==> b == c
  {
  }

  ghost predicate Unpinned(refs: seq<Refs>, at: map<nat, nat>, b: nat, refs': seq<Refs>) {
    b in at && at[b] < |refs| && refs[at[b]].pins > 0 && refs' == refs[at[b] := Refs(refs[at[b]].pins - 1, refs[at[b]].holds)]
  }

  lemma PutsNone(s: Store, ws: seq<BlockWrite>)
    requires |s.disk| == |s.cache| && Fits(ws, s.disk)
    ensures Puts(s, ws, 0) == s
  {
  }

  lemma PutsNext(s: Store, ws: seq<BlockWrite>, k: nat)
    requires |s.disk| == |s.cache| && Fits(ws, s.disk) && k < |ws|
    ensures Puts(s, ws, k + 1) == Puts(s, ws, k).Put(ws[k])
  {
  }

  lemma KeptSame(bs: seq<Buf>, disk: seq<Block>, latest: seq<Block>, refs: seq<Refs>, at: map<nat, nat>)
    requires Coherent(bs, disk, latest, refs, at)
    ensures Kept(bs, refs, at, bs, at)
  {
  }

  /** The two blocks of turn `tail` are free and the home block is pinned, as at the start. */
  lemma StillReady(l: Layout, lh: seq<nat>, tail: nat, b0: seq<Buf>, r0: seq<Refs>, a0: map<nat, nat>,
                   bs: seq<Buf>, at: map<nat, nat>)
    requires l.ValidList(lh) && tail < |lh| && AllFree(l, lh, b0, a0) && Pinned(lh, r0, a0) && Kept(b0, r0, a0, bs, at)
    ensures Free(bs, at, l.start + tail + 1) && Free(bs, at, lh[tail]) && PinsOf(r0, at, lh[tail]) > 0
  {
    hide Kept, Free;
    assert Free(b0, a0, l.start + tail + 1) && Free(b0, a0, lh[tail]);
    KeptFree(b0, r0, a0, bs, at, l.start + tail + 1);
    KeptFree(b0, r0, a0, bs, at, lh[tail]);
    KeptPins(b0, r0, a0, bs, at, lh[tail]);
  }

  lemma NotSame(b1: seq<Buf>, disk: seq<Block>, latest: seq<Block>, r1: seq<Refs>, a1: map<nat, nat>,
                x: nat, y: nat, i: nat, j: nat, b2: seq<Buf>, r2: seq<Refs>, a2: map<nat, nat>)
    requires Coherent(b1, disk, latest, r1, a1) && i < NBUF && b1[i].blockno == x && r1[i] != Refs(0, 0) && x != y
    requires y != 0 && Got(b1, r1, a1, y, j, b2, r2, a2)
    ensures i != j && b2[i] == b1[i]
  {
    Placed(b1, disk, latest, r1, a1, y);
  }

  lemma BothFacts(b0: seq<Buf>, r0: seq<Refs>, a0: map<nat, nat>, x: nat, i: nat, y: nat, j: nat,
                  b2: seq<Buf>, disk: seq<Block>, latest: seq<Block>, r2: seq<Refs>, a2: map<nat, nat>)
    requires HasBoth(b0, r0, a0, x, i, y, j, b2, r2, a2) && Coherent(b2, disk, latest, r2, a2) && y != 0
    ensures |b2| == NBUF + 1 && |r0| == |r2| == NBUF && i < NBUF && j < NBUF && i != j && b2[i].blockno == x
    ensures b2[j].blockno == y
    ensures r2[j].pins == r0[j].pins
    ensures (PinsOf(r0, a0, y) > 0 ==> y in a0 && a0[y] == j && r0[j].pins == PinsOf(r0, a0, y))
  {
    Placed(b2, disk, latest, r2, a2, y);
  }

  /** A pinned block has a buffer. */
  lemma PinsPlace(bs: seq<Buf>, disk: seq<Block>, latest: seq<Block>, refs: seq<Refs>, at: map<nat, nat>, b: nat)
    requires Coherent(bs, disk, latest, refs, at) && b != 0
    ensures |refs| == NBUF
    ensures (PinsOf(refs, at, b) > 0 ==> b in at && at[b] < NBUF && refs[at[b]].pins == PinsOf(refs, at, b))
    ensures forall i :: 0 <= i < NBUF && bs[i].blockno == b ==> PinsOf(refs, at, b) == refs[i].pins
  {
    Placed(bs, disk, latest, refs, at, b);
  }

  lemma LockFree(bs: seq<Buf>, disk: seq<Block>, latest: seq<Block>, refs: seq<Refs>, at: map<nat, nat>, b: nat)
    requires Coherent(bs, disk, latest, refs, at) && Free(bs, at, b) && b != 0
    ensures |bs| == NBUF + 1 && |refs| == NBUF && |latest| == |disk|
    ensures (b in at ==> at[b] < NBUF && bs[at[b]].owner == 0)
    ensures b in at ==> bs[at[b]].blockno == b
  {
  }
}
