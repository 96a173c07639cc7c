/**
 The redo log of kernel/log.c at the level of single block writes.

 A commit and a recovery are plans: the sequence of block writes they issue. A crash
 keeps the disk as some prefix of the plan left it. The main result, `CrashAtomic`, is
 that whatever prefix of a commit reached the disk, and however often recovery itself is
 cut short, a complete recovery leaves every home block old or every home block new, and
 new exactly when the commit's header write reached the disk.
 */
module LogSpec {
  import opened Blocks

  const MAXOPBLOCKS := 10
  const LOGSIZE := 3 * MAXOPBLOCKS

  type Disk = seq<Block>

  /** Where the log lies: the header at `start`, log blocks up to `start + size`. */
  datatype Layout = Layout(start: nat, size: nat, total: nat) {
    ghost predicate Valid() {
      1 <= size && start + size <= total <= WORD_LIMIT
    }

    /** Home blocks are the blocks outside the log. */
    predicate IsHome(b: nat) {
      b < total && !(start <= b < start + size)
    }

    /** A block list that `log_write` can have built. */
    ghost predicate ValidList(lh: seq<nat>) {
      && |lh| <= LOGSIZE && |lh| <= size - 1
      && (forall i :: 0 <= i < |lh| ==> IsHome(lh[i]))
      && (forall i, j :: 0 <= i < j < |lh| ==> lh[i] != lh[j])
    }

    /** A disk whose header block holds a usable block list. */
    ghost predicate ValidDisk(d: Disk) {
      && Valid() && |d| == total
      && Word(d[start], 0) <= LOGSIZE
      && ValidList(Head(d[start]))
    }

    ghost predicate SameHome(d: Disk, e: Disk)
      requires |d| == |e| == total
    {
      forall b :: 0 <= b < total && IsHome(b) ==> d[b] == e[b]
    }
  }

  // --------------------------------------------------------------- header block

  /** The block list a header block denotes: a count followed by that many words. */
  function Head(h: Block): (lh: seq<nat>)
    requires Word(h, 0) <= LOGSIZE
  {
    seq(Word(h, 0), i requires 0 <= i < Word(h, 0) => Word(h, i + 1))
  }

  function StoreBlocks(h: Block, lh: seq<nat>, k: nat): Block
    requires k <= |lh| <= LOGSIZE
    requires forall i :: 0 <= i < |lh| ==> lh[i] < WORD_LIMIT
  {
    if k == 0 then h else SetWord(StoreBlocks(h, lh, k - 1), k, lh[k - 1])
  }

  /** `write_head` overwrites the count and that many words and keeps the rest of the block. */
  function EncodeHead(h: Block, lh: seq<nat>): Block
    requires |lh| <= LOGSIZE
    requires forall i :: 0 <= i < |lh| ==> lh[i] < WORD_LIMIT
  {
    StoreBlocks(SetWord(h, 0, |lh|), lh, |lh|)
  }

  lemma {:induction false} StoreBlocksWord(h: Block, lh: seq<nat>, k: nat, j: nat)
    requires k <= |lh| <= LOGSIZE && j < WORDS
    requires forall i :: 0 <= i < |lh| ==> lh[i] < WORD_LIMIT
    ensures Word(StoreBlocks(h, lh, k), j) == if 1 <= j <= k then lh[j - 1] else Word(h, j)
  {
    if k > 0 {
      StoreBlocksWord(h, lh, k - 1, j);
      WordSetWord(StoreBlocks(h, lh, k - 1), k, lh[k - 1], j);
    }
  }

  /** Reading back a written header gives the block list, whatever the block held before. */
  lemma HeadRoundTrip(h: Block, lh: seq<nat>)
    requires |lh| <= LOGSIZE
    requires forall i :: 0 <= i < |lh| ==> lh[i] < WORD_LIMIT
    ensures Word(EncodeHead(h, lh), 0) == |lh|
    ensures Head(EncodeHead(h, lh)) == lh
  {
    var g := SetWord(h, 0, |lh|);
    WordSetWord(h, 0, |lh|, 0);
    StoreBlocksWord(g, lh, |lh|, 0);
    forall i | 0 <= i < |lh| ensures Word(EncodeHead(h, lh), i + 1) == lh[i] {
      StoreBlocksWord(g, lh, |lh|, i + 1);
    }
  }

  // ---------------------------------------------------------------- write plans

  /** One `bufcache_write`. */
  datatype BlockWrite = BlockWrite(addr: nat, data: Block)

  ghost predicate Fits(ws: seq<BlockWrite>, d: Disk) {
    forall i :: 0 <= i < |ws| ==> ws[i].addr < |d|
  }

  /** The disk after the first `k` writes of a plan. */
  ghost function Run(d: Disk, ws: seq<BlockWrite>, k: nat): (e: Disk)
    requires k <= |ws| && Fits(ws, d)
    ensures |e| == |d|
  {
    if k == 0 then d else Run(d, ws, k - 1)[ws[k - 1].addr := ws[k - 1].data]
  }

  /** `write_log`: copy each listed block, as the cache has it, to its log block. */
  function LogPlan(l: Layout, lh: seq<nat>, view: Disk): (ws: seq<BlockWrite>)
    requires forall i :: 0 <= i < |lh| ==> lh[i] < |view|
  {
    seq(|lh|, i requires 0 <= i < |lh| => BlockWrite(l.start + 1 + i, view[lh[i]]))
  }

  /** `install_trans`: copy each log block to its home block. */
  function InstallPlan(l: Layout, lh: seq<nat>, d: Disk): (ws: seq<BlockWrite>)
    requires l.start + |lh| < |d|
  {
    seq(|lh|, i requires 0 <= i < |lh| => BlockWrite(lh[i], d[l.start + 1 + i]))
  }

  /** `commit`: log, header, install (the log blocks now hold `view`), clear the header. */
  ghost function CommitPlan(l: Layout, lh: seq<nat>, view: Disk, head: Block): (ws: seq<BlockWrite>)
    requires l.Valid() && l.ValidList(lh) && |view| == l.total
  {
    if lh == [] then [] else
      LogPlan(l, lh, view)
      + [BlockWrite(l.start, EncodeHead(head, lh))]
      + seq(|lh|, i requires 0 <= i < |lh| => BlockWrite(lh[i], view[lh[i]]))
      + [BlockWrite(l.start, EncodeHead(EncodeHead(head, lh), []))]
  }

  /** `recover_from_log`: install what the header lists, then clear the header. */
  ghost function RecoverPlan(l: Layout, d: Disk): (ws: seq<BlockWrite>)
    requires l.ValidDisk(d)
    ensures Fits(ws, d) && |ws| == |Head(d[l.start])| + 1
  {
    InstallPlan(l, Head(d[l.start]), d) + [BlockWrite(l.start, EncodeHead(d[l.start], []))]
  }

  /** The disk a complete recovery leaves. */
  ghost function Recover(l: Layout, d: Disk): (e: Disk)
    requires l.ValidDisk(d)
    ensures |e| == l.total
  {
    Run(d, RecoverPlan(l, d), |RecoverPlan(l, d)|)
  }

  // ------------------------------------------------------------- recovery alone

  /** The disk after `k` of recovery's writes, block by block; `h2` is the cleared header. */
  ghost predicate RecoverState(l: Layout, d: Disk, lh: seq<nat>, h2: Block, k: nat, e: Disk)
    requires l.Valid() && l.ValidList(lh) && |d| == l.total
  {
    && |e| == l.total
    && e[l.start] == (if k <= |lh| then d[l.start] else h2)
    && (forall a :: l.start < a < l.start + l.size ==> e[a] == d[a])
    && (forall i :: 0 <= i < |lh| ==> e[lh[i]] == if i < k then d[l.start + 1 + i] else d[lh[i]])
    && (forall b :: 0 <= b < l.total && l.IsHome(b) && b !in lh ==> e[b] == d[b])
  }

  lemma RecoverStep(l: Layout, d: Disk, lh: seq<nat>, h2: Block, k: nat, e: Disk)
    requires l.Valid() && l.ValidList(lh) && |d| == l.total && k <= |lh|
    requires RecoverState(l, d, lh, h2, k, e)
    ensures k < |lh| ==> RecoverState(l, d, lh, h2, k + 1, e[lh[k] := d[l.start + 1 + k]])
    ensures k == |lh| ==> RecoverState(l, d, lh, h2, k + 1, e[l.start := h2])
  {
    if k < |lh| {
      assert l.IsHome(lh[k]);
      var e' := e[lh[k] := d[l.start + 1 + k]];
      forall i | 0 <= i < |lh| ensures e'[lh[i]] == if i < k + 1 then d[l.start + 1 + i] else d[lh[i]] {
        assert i != k ==> lh[i] != lh[k];
      }
    }
  }

  lemma RecoverStart(l: Layout, d: Disk, lh: seq<nat>, h2: Block)
    requires l.Valid() && l.ValidList(lh) && |d| == l.total
    ensures RecoverState(l, d, lh, h2, 0, d)
  {
  }

  lemma {:induction false} RecoverPrefixOf(l: Layout, d: Disk, lh: seq<nat>, h2: Block, ws: seq<BlockWrite>, k: nat)
    requires l.Valid() && l.ValidList(lh) && |d| == l.total
    requires Fits(ws, d) && |ws| == |lh| + 1 && k <= |ws|
    requires forall i :: 0 <= i < |lh| ==> ws[i] == BlockWrite(lh[i], d[l.start + 1 + i])
    requires ws[|lh|] == BlockWrite(l.start, h2)
    ensures RecoverState(l, d, lh, h2, k, Run(d, ws, k))
  {
    hide RecoverState;
    if k == 0 {
      RecoverStart(l, d, lh, h2);
    } else {
      RecoverPrefixOf(l, d, lh, h2, ws, k - 1);
      RecoverStep(l, d, lh, h2, k - 1, Run(d, ws, k - 1));
    }
  }

  lemma RecoverPrefix(l: Layout, d: Disk, k: nat)
    requires l.ValidDisk(d) && k <= |RecoverPlan(l, d)|
    ensures RecoverState(l, d, Head(d[l.start]), EncodeHead(d[l.start], []), k, Run(d, RecoverPlan(l, d), k))
  {
    RecoverPrefixOf(l, d, Head(d[l.start]), EncodeHead(d[l.start], []), RecoverPlan(l, d), k);
  }

  /** A recovery cut short anywhere loses nothing: recovering again ends in the same place. */
  lemma RecoveryRestarts(l: Layout, d: Disk, k: nat)
    requires l.ValidDisk(d) && k <= |RecoverPlan(l, d)|
    ensures var e := Run(d, RecoverPlan(l, d), k);
      l.ValidDisk(e) && l.SameHome(Recover(l, e), Recover(l, d))
  {
    var lh, e := Head(d[l.start]), Run(d, RecoverPlan(l, d), k);
    RecoverPrefix(l, d, k);
    RecoverPrefix(l, d, |RecoverPlan(l, d)|);
    HeadRoundTrip(d[l.start], []);
    RecoverPrefix(l, e, |RecoverPlan(l, e)|);
    var r, s := Recover(l, e), Recover(l, d);
    forall b | 0 <= b < l.total && l.IsHome(b) ensures r[b] == s[b] {
      if b in lh {
        var i :| 0 <= i < |lh| && lh[i] == b;
        assert s[lh[i]] == d[l.start + 1 + i];
        if k <= |lh| { assert r[lh[i]] == e[l.start + 1 + i]; }
      }
    }
  }

  /** Recovering an empty log changes no home block. */
  lemma RecoverEmptyLog(l: Layout, d: Disk)
    requires l.ValidDisk(d) && Head(d[l.start]) == []
    ensures l.SameHome(Recover(l, d), d)
  {
    RecoverPrefix(l, d, |RecoverPlan(l, d)|);
  }

  /** A complete recovery leaves an empty log, so another one changes nothing. */
  lemma RecoverEmptiesLog(l: Layout, d: Disk)
    requires l.ValidDisk(d)
    ensures l.ValidDisk(Recover(l, d)) && Head(Recover(l, d)[l.start]) == []
    ensures l.SameHome(Recover(l, Recover(l, d)), Recover(l, d))
  {
    RecoverPrefix(l, d, |RecoverPlan(l, d)|);
    HeadRoundTrip(d[l.start], []);
    RecoverEmptyLog(l, Recover(l, d));
  }

  // ------------------------------------------------------------------- commits

  /** A disk with an empty log, a list to commit, and the cache's contents of the blocks. */
  ghost predicate ReadyToCommit(l: Layout, d: Disk, lh: seq<nat>, view: Disk) {
    && l.ValidDisk(d) && Head(d[l.start]) == []
    && l.ValidList(lh) && |view| == l.total
    && (forall b :: 0 <= b < l.total && l.IsHome(b) && b !in lh ==> view[b] == d[b])
  }

  /** The first `k` writes of `write_log` fill `k` log blocks and touch nothing else. */
  lemma {:induction false} LogPrefix(l: Layout, d: Disk, lh: seq<nat>, view: Disk, k: nat)
    requires l.Valid() && l.ValidList(lh) && |d| == |view| == l.total && k <= |lh|
    ensures Fits(LogPlan(l, lh, view), d)
    ensures
      var e := Run(d, LogPlan(l, lh, view), k);
      && (forall i :: 0 <= i < k ==> e[l.start + 1 + i] == view[lh[i]])
      && (forall a :: 0 <= a < l.total && !(l.start < a <= l.start + k) ==> e[a] == d[a])
  {
    if k > 0 {
      LogPrefix(l, d, lh, view, k - 1);
    }
  }

  lemma {:induction false} RunConcat(d: Disk, a: seq<BlockWrite>, b: seq<BlockWrite>, k: nat)
    requires Fits(a, d) && Fits(b, d) && k <= |a| + |b|
    ensures Fits(a + b, d)
    ensures Run(d, a + b, k) == if k <= |a| then Run(d, a, k) else Run(Run(d, a, |a|), b, k - |a|)
  {
    if k > 0 {
      RunConcat(d, a, b, k - 1);
      assert (a + b)[k - 1] == if k - 1 < |a| then a[k - 1] else b[k - 1 - |a|];
    }
  }

  lemma RunThrough(d: Disk, a: seq<BlockWrite>, w: BlockWrite, c: seq<BlockWrite>, k: nat)
    requires Fits(a, d) && w.addr < |d| && Fits(c, d) && k <= |a| + 1 + |c|
    ensures Fits(a + [w] + c, d)
    ensures Run(d, a + [w] + c, k) ==
      if k <= |a| then Run(d, a, k) else Run(Run(d, a, |a|)[w.addr := w.data], c, k - |a| - 1)
  {
    assert Run(Run(d, a, |a|), [w], 1) == Run(d, a, |a|)[w.addr := w.data];
    RunConcat(d, a, [w], if k <= |a| then k else |a| + 1);
    RunConcat(d, a, [w], |a| + 1);
    RunConcat(d, a + [w], c, k);
  }

  /** The disk once the committing header is on it: the log is full and holds the new contents. */
  ghost function Committed(l: Layout, d: Disk, lh: seq<nat>, view: Disk): (e: Disk)
    requires ReadyToCommit(l, d, lh, view)
    ensures |e| == l.total
  {
    LogPrefix(l, d, lh, view, |lh|);
    Run(d, LogPlan(l, lh, view), |lh|)[l.start := EncodeHead(d[l.start], lh)]
  }

  /** Recovering such a disk installs exactly the cache's contents. */
  lemma CommittedRecovers(l: Layout, d: Disk, lh: seq<nat>, view: Disk)
    requires ReadyToCommit(l, d, lh, view)
    ensures l.ValidDisk(Committed(l, d, lh, view)) && Head(Committed(l, d, lh, view)[l.start]) == lh
    ensures l.SameHome(Recover(l, Committed(l, d, lh, view)), view)
  {
    hide EncodeHead, Head;
    LogPrefix(l, d, lh, view, |lh|);
    HeadRoundTrip(d[l.start], lh);
    var e := Committed(l, d, lh, view);
    assert forall i :: 0 <= i < |lh| ==> e[l.start + 1 + i] == view[lh[i]];
    RecoverPrefix(l, e, |RecoverPlan(l, e)|);
    var r := Recover(l, e);
    forall b | 0 <= b < l.total && l.IsHome(b) ensures r[b] == view[b] {
      if b in lh {
        var i :| 0 <= i < |lh| && lh[i] == b;
        assert r[lh[i]] == e[l.start + 1 + i];
      }
    }
  }

  /** After its header write, a commit does what recovery would do. */
  lemma CommitPlanSplit(l: Layout, d: Disk, lh: seq<nat>, view: Disk)
    requires ReadyToCommit(l, d, lh, view) && lh != []
    requires l.ValidDisk(Committed(l, d, lh, view)) && Head(Committed(l, d, lh, view)[l.start]) == lh
    ensures CommitPlan(l, lh, view, d[l.start]) ==
      LogPlan(l, lh, view) + [BlockWrite(l.start, EncodeHead(d[l.start], lh))]
      + RecoverPlan(l, Committed(l, d, lh, view))
  {
    LogPrefix(l, d, lh, view, |lh|);
    var e := Committed(l, d, lh, view);
    var install := seq(|lh|, i requires 0 <= i < |lh| => BlockWrite(lh[i], view[lh[i]]));
    assert InstallPlan(l, lh, e) == install;
    assert RecoverPlan(l, e) == install + [BlockWrite(l.start, EncodeHead(EncodeHead(d[l.start], lh), []))];
  }

  /** The disk after `k` of the commit's writes. */
  lemma CommitPrefix(l: Layout, d: Disk, lh: seq<nat>, view: Disk, k: nat)
    requires ReadyToCommit(l, d, lh, view) && lh != [] && k <= 2 * |lh| + 2
    requires l.ValidDisk(Committed(l, d, lh, view)) && Head(Committed(l, d, lh, view)[l.start]) == lh
    ensures
      var ws, e := CommitPlan(l, lh, view, d[l.start]), Committed(l, d, lh, view);
      && |ws| == 2 * |lh| + 2 && Fits(ws, d) && Fits(LogPlan(l, lh, view), d)
      && Run(d, ws, k) == if k <= |lh| then Run(d, LogPlan(l, lh, view), k)
                          else Run(e, RecoverPlan(l, e), k - |lh| - 1)
  {
    var e := Committed(l, d, lh, view);
    LogPrefix(l, d, lh, view, |lh|);
    CommitPlanSplit(l, d, lh, view);
    RunThrough(d, LogPlan(l, lh, view), BlockWrite(l.start, EncodeHead(d[l.start], lh)), RecoverPlan(l, e), k);
  }

  /**
   A commit cut short after `k` block writes: recovery then leaves every home block old
   while the header write is missing (`k <= |lh|`), every home block new once it is there.
   */
  lemma CommitThenRecover(l: Layout, d: Disk, lh: seq<nat>, view: Disk, k: nat)
    requires ReadyToCommit(l, d, lh, view) && lh != [] && k <= 2 * |lh| + 2
    ensures
      var ws := CommitPlan(l, lh, view, d[l.start]);
      && |ws| == 2 * |lh| + 2 && Fits(ws, d)
      && l.ValidDisk(Run(d, ws, k))
      && l.SameHome(Recover(l, Run(d, ws, k)), if k <= |lh| then d else view)
  {
    hide CommitPlan, Recover, RecoverPlan, EncodeHead, Head;
    CommittedRecovers(l, d, lh, view);
    CommitPrefix(l, d, lh, view, k);
    if k <= |lh| {
      LogPrefix(l, d, lh, view, k);
      RecoverEmptyLog(l, Run(d, LogPlan(l, lh, view), k));
    } else {
      RecoveryRestarts(l, Committed(l, d, lh, view), k - |lh| - 1);
    }
  }

  /** A complete commit leaves the new contents at home and an empty log. */
  lemma CommitCompletes(l: Layout, d: Disk, lh: seq<nat>, view: Disk)
    requires ReadyToCommit(l, d, lh, view) && lh != []
    ensures
      var ws := CommitPlan(l, lh, view, d[l.start]);
      && Fits(ws, d)
      && var e := Run(d, ws, |ws|);
      && l.ValidDisk(e) && Head(e[l.start]) == [] && l.SameHome(e, view)
  {
    CommittedRecovers(l, d, lh, view);
    CommitPrefix(l, d, lh, view, 2 * |lh| + 2);
    RecoverEmptiesLog(l, Committed(l, d, lh, view));
  }

  /** The disk after recoveries that were cut short after `ks[0]`, `ks[1]`, ... of their writes. */
  ghost function AfterCrashes(l: Layout, d: Disk, ks: seq<nat>): (e: Disk)
    requires l.ValidDisk(d)
    ensures l.ValidDisk(e)
    decreases |ks|
  {
    if ks == [] then d else
      var ws := RecoverPlan(l, d);
      var k := if ks[0] <= |ws| then ks[0] else |ws|;
      RecoveryRestarts(l, d, k);
      AfterCrashes(l, Run(d, ws, k), ks[1..])
  }

  lemma {:induction false} CrashedRecoveries(l: Layout, d: Disk, ks: seq<nat>)
    requires l.ValidDisk(d)
    ensures l.SameHome(Recover(l, AfterCrashes(l, d, ks)), Recover(l, d))
    decreases |ks|
  {
    if ks != [] {
      var ws := RecoverPlan(l, d);
      var k := if ks[0] <= |ws| then ks[0] else |ws|;
      RecoveryRestarts(l, d, k);
      CrashedRecoveries(l, Run(d, ws, k), ks[1..]);
    }
  }

  /**
   Crash atomicity: a commit that stops after any number `k` of block writes, followed by
   any number of recoveries that stop anywhere, followed by a complete recovery.
   */
  lemma CrashAtomic(l: Layout, d: Disk, lh: seq<nat>, view: Disk, k: nat, ks: seq<nat>)
    requires ReadyToCommit(l, d, lh, view) && lh != [] && k <= 2 * |lh| + 2
    ensures
      var ws := CommitPlan(l, lh, view, d[l.start]);
      && |ws| == 2 * |lh| + 2 && Fits(ws, d)
      && l.ValidDisk(Run(d, ws, k))
      && l.SameHome(Recover(l, AfterCrashes(l, Run(d, ws, k), ks)), if k <= |lh| then d else view)
  {
    CommitThenRecover(l, d, lh, view, k);
    CrashedRecoveries(l, Run(d, CommitPlan(l, lh, view, d[l.start]), k), ks);
  }
}
