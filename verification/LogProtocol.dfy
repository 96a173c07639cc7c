/**
 Group commit as a step system: any number of file-system operations interleave their
 `begin_op`, `log_write` and `end_op`; the last `end_op` commits one block write at a time;
 a crash may come between any two steps and recovery may crash too.

 `CrashSafety`: in every run, recovering the disk gives the effect of a prefix of the
 writes, and that prefix holds each operation wholly or not at all. `NoPanic` and
 `PanicReachable` give the exact condition under which no panic of log.c can fire.
 */
module LogProtocol {
  import opened Blocks
  import opened LogSpec

  type OpId = nat

  /** One `log_write`: operation `op` leaves `data` in block `addr`. */
  datatype OpWrite = OpWrite(op: OpId, addr: nat, data: Block)

  /** `opBlocks` bounds the distinct blocks one operation adds to the log. */
  datatype Config = Config(l: Layout, init: Disk, opBlocks: nat) {
    ghost predicate Valid() {
      l.ValidDisk(init) && Head(init[l.start]) == []
    }

    /** `log_write` panics from this many logged blocks on. */
    function Limit(): int {
      if l.size - 1 < LOGSIZE then l.size - 1 else LOGSIZE
    }
  }

  datatype Phase = Idle | Committing | Recovering

  /**
   `view` is what `bufcache_read` returns for home blocks. `plan`, `done` and `from` are the
   block writes of the commit or recovery in progress, how many of them have been issued, and
   the disk they started from. `live`, `used`, `writes` and `durable` record history: blocks
   added by each running operation, operations ever started, all writes of the run that a
   crash has not undone, and how many of those a crash can no longer undo.
   */
  datatype State = State(
    disk: Disk, view: Disk, lh: seq<nat>, outstanding: int, phase: Phase,
    plan: seq<BlockWrite>, done: nat, from: Disk, panicked: bool,
    live: map<OpId, nat>, used: set<OpId>, writes: seq<OpWrite>, durable: nat)

  datatype Step =
    | BeginOp(op: OpId)
    | LogWrite(w: OpWrite)
    | EndOp(op: OpId)
    | WriteBlock
    | Finish
    | Crash

  function Start(c: Config): State {
    State(c.init, c.init, [], 0, Idle, [], 0, c.init, false, map[], {}, [], 0)
  }

  predicate Enabled(c: Config, s: State, t: Step) {
    t.Crash? ||
    (!s.panicked &&
     match t
     case BeginOp(op) =>
       s.phase.Idle? && op !in s.used && |s.lh| + (s.outstanding + 1) * MAXOPBLOCKS <= LOGSIZE
     case LogWrite(w) =>
       && w.op in s.live && c.l.IsHome(w.addr) && w.addr < |s.view|
       && (w.addr in s.lh || s.live[w.op] < c.opBlocks)
     case EndOp(op) => op in s.live
     case WriteBlock =>
       !s.phase.Idle? && s.done < |s.plan| && s.plan[s.done].addr < |s.disk|
     case Finish => !s.phase.Idle? && s.done == |s.plan|
     case Crash => true)
  }

  ghost function Do(c: Config, s: State, t: Step): State
    requires Enabled(c, s, t)
  {
    match t
    case BeginOp(op) =>
      s.(outstanding := s.outstanding + 1, live := s.live[op := 0], used := s.used + {op})
    case LogWrite(w) =>
      if |s.lh| >= LOGSIZE || |s.lh| >= c.l.size - 1 || s.outstanding < 1 then
        s.(panicked := true)
      else if w.addr in s.lh then
        s.(view := s.view[w.addr := w.data], writes := s.writes + [w])
      else
        s.(view := s.view[w.addr := w.data], writes := s.writes + [w],
           lh := s.lh + [w.addr], live := s.live[w.op := s.live[w.op] + 1])
    case EndOp(op) =>
      var s' := s.(outstanding := s.outstanding - 1, live := s.live - {op});
      if s.phase.Committing? then s'.(panicked := true)
      else if s.outstanding != 1 then s'
      else s'.(phase := Committing, done := 0, from := s.disk, plan :=
                 if ReadyToCommit(c.l, s.disk, s.lh, s.view)
                 then CommitPlan(c.l, s.lh, s.view, s.disk[c.l.start]) else [])
    case WriteBlock =>
      var w := s.plan[s.done];
      s.(disk := s.disk[w.addr := w.data], done := s.done + 1,
         durable := if s.phase.Committing? && s.done == |s.lh| then |s.writes| else s.durable)
    case Finish =>
      s.(phase := Idle, lh := [], view := if s.phase.Recovering? then s.disk else s.view)
    case Crash =>
      s.(phase := Recovering, done := 0, from := s.disk, lh := [], outstanding := 0, panicked := false,
         plan := if c.l.ValidDisk(s.disk) then RecoverPlan(c.l, s.disk) else [],
         view := s.disk, live := map[],
         writes := if s.durable <= |s.writes| then s.writes[..s.durable] else s.writes)
  }

  ghost predicate Runs(c: Config, s0: State, ts: seq<Step>)
    decreases |ts|, 0
  {
    ts == [] || (Runs(c, s0, ts[..|ts| - 1]) && Enabled(c, After(c, s0, ts[..|ts| - 1]), ts[|ts| - 1]))
  }

  /** The state a run ends in. */
  ghost function After(c: Config, s0: State, ts: seq<Step>): State
    requires Runs(c, s0, ts)
    decreases |ts|, 1
  {
    if ts == [] then s0 else Do(c, After(c, s0, ts[..|ts| - 1]), ts[|ts| - 1])
  }

  // ---------------------------------------------------------------- durability

  /** The contents that a sequence of writes makes of a disk. */
  ghost function Contents(d: Disk, ws: seq<OpWrite>): (e: Disk)
    requires forall i :: 0 <= i < |ws| ==> ws[i].addr < |d|
    ensures |e| == |d|
  {
    if ws == [] then d
    else Contents(d, ws[..|ws| - 1])[ws[|ws| - 1].addr := ws[|ws| - 1].data]
  }

  /** No operation lies on both sides of the durable point, and none on its left is still running. */
  ghost predicate WholeOps(s: State) {
    && s.durable <= |s.writes|
    && (forall i, j :: 0 <= i < s.durable <= j < |s.writes| ==> s.writes[i].op != s.writes[j].op)
    && (forall i :: 0 <= i < s.durable ==> s.writes[i].op !in s.live)
  }

  ghost predicate Basic(c: Config, s: State) {
    && c.Valid()
    && |s.disk| == |s.view| == c.l.total
    && (forall i :: 0 <= i < |s.writes| ==> c.l.IsHome(s.writes[i].addr))
    && WholeOps(s)
    && s.live.Keys <= s.used
    && (forall i :: 0 <= i < |s.writes| ==> s.writes[i].op in s.used)
    && s.outstanding == |s.live|
    && c.l.ValidList(s.lh)
  }

  ghost function Durable(c: Config, s: State): Disk
    requires Basic(c, s)
  {
    Contents(c.init, s.writes[..s.durable])
  }

  ghost predicate IdleInv(c: Config, s: State)
    requires Basic(c, s)
  {
    && ReadyToCommit(c.l, s.disk, s.lh, s.view)
    && c.l.SameHome(s.disk, Durable(c, s))
    && c.l.SameHome(s.view, Contents(c.init, s.writes))
    && (s.durable < |s.writes| ==> s.lh != [])
    && (s.outstanding == 0 ==> s.lh == [])
  }

  ghost predicate CommittingInv(c: Config, s: State)
    requires Basic(c, s)
  {
    && ReadyToCommit(c.l, s.from, s.lh, s.view)
    && c.l.SameHome(s.view, Contents(c.init, s.writes))
    && s.live == map[]
    && s.plan == CommitPlan(c.l, s.lh, s.view, s.from[c.l.start])
    && Fits(s.plan, s.from)
    && s.done <= |s.plan| && s.disk == Run(s.from, s.plan, s.done)
    && (if s.done <= |s.lh| then c.l.SameHome(s.from, Durable(c, s)) else s.durable == |s.writes|)
    && (s.lh == [] ==> s.durable == |s.writes|)
  }

  ghost predicate RecoveringInv(c: Config, s: State)
    requires Basic(c, s)
  {
    && c.l.ValidDisk(s.from)
    && c.l.SameHome(Recover(c.l, s.from), Durable(c, s))
    && s.live == map[] && s.lh == [] && s.durable == |s.writes|
    && s.plan == RecoverPlan(c.l, s.from)
    && s.done <= |s.plan| && s.disk == Run(s.from, s.plan, s.done)
  }

  ghost predicate Inv(c: Config, s: State) {
    && Basic(c, s)
    && (!s.panicked ==>
          match s.phase
          case Idle => IdleInv(c, s)
          case Committing => CommittingInv(c, s)
          case Recovering => RecoveringInv(c, s))
    && Safe(c, s)
  }

  /** Recovering the disk now would give exactly the durable writes. */
  ghost predicate Safe(c: Config, s: State)
    requires Basic(c, s)
  {
    c.l.ValidDisk(s.disk) && c.l.SameHome(Recover(c.l, s.disk), Durable(c, s))
  }

  /** Whatever the phase, the disk recovers to the durable writes. */
  lemma PhaseIsSafe(c: Config, s: State)
    requires Basic(c, s) && !s.panicked
    requires s.phase.Idle? ==> IdleInv(c, s)
    requires s.phase.Committing? ==> CommittingInv(c, s)
    requires s.phase.Recovering? ==> RecoveringInv(c, s)
    ensures Safe(c, s)
  {
    match s.phase
    case Idle => RecoverEmptyLog(c.l, s.disk);
    case Committing =>
      assert s.writes[..|s.writes|] == s.writes;
      if s.lh == [] {
        RecoverEmptyLog(c.l, s.disk);
      } else {
        CommitThenRecover(c.l, s.from, s.lh, s.view, s.done);
      }
    case Recovering => RecoveryRestarts(c.l, s.from, s.done);
  }

  lemma BeginOpKeeps(c: Config, s: State, op: OpId)
    requires Inv(c, s) && Enabled(c, s, BeginOp(op))
    ensures Inv(c, Do(c, s, BeginOp(op)))
  {
    assert |s.live[op := 0]| == |s.live| + 1 by {
      assert s.live[op := 0].Keys == s.live.Keys + {op};
    }
  }

  lemma ContentsStep(d: Disk, ws: seq<OpWrite>, w: OpWrite)
    requires forall i :: 0 <= i < |ws| ==> ws[i].addr < |d|
    requires w.addr < |d|
    ensures Contents(d, ws + [w]) == Contents(d, ws)[w.addr := w.data]
  {
    assert (ws + [w])[..|ws|] == ws;
  }

  lemma LogWriteBasic(c: Config, s: State, w: OpWrite)
    requires Basic(c, s) && Enabled(c, s, LogWrite(w))
    ensures Basic(c, Do(c, s, LogWrite(w)))
  {
    var s' := Do(c, s, LogWrite(w));
    assert s'.live.Keys == s.live.Keys;
    assert |s'.live| == |s'.live.Keys|;
  }

  lemma LogWriteKeeps(c: Config, s: State, w: OpWrite)
    requires Inv(c, s) && Enabled(c, s, LogWrite(w))
    ensures Inv(c, Do(c, s, LogWrite(w)))
  {
    hide Recover, RecoverPlan, CommitPlan, Fits, Contents, Head;
    var s' := Do(c, s, LogWrite(w));
    LogWriteBasic(c, s, w);
    if !s'.panicked {
      assert s.phase.Idle?;
      ContentsStep(c.init, s.writes, w);
      assert s'.writes[..s.durable] == s.writes[..s.durable];
      assert w.addr in s'.lh;
      assert forall b :: b in s.lh ==> b in s'.lh;
    }
  }

  lemma EndOpKeeps(c: Config, s: State, op: OpId)
    requires Inv(c, s) && Enabled(c, s, EndOp(op))
    ensures Inv(c, Do(c, s, EndOp(op)))
  {
    var s' := Do(c, s, EndOp(op));
    assert |s'.live| == |s.live| - 1 by {
      assert s'.live.Keys == s.live.Keys - {op};
    }
    assert s.phase.Idle?;
    if s'.phase.Committing? {
      assert s'.live == map[];
      if s.lh != [] { CommitThenRecover(c.l, s.disk, s.lh, s.view, 0); }
    }
  }

  lemma WriteBlockKeeps(c: Config, s: State)
    requires Inv(c, s) && Enabled(c, s, WriteBlock)
    ensures Inv(c, Do(c, s, WriteBlock))
  {
    hide Recover, RecoverPlan, CommitPlan, Contents, Fits;
    var s' := Do(c, s, WriteBlock);
    assert s.writes[..|s.writes|] == s.writes;
    PhaseIsSafe(c, s');
  }

  lemma FinishKeeps(c: Config, s: State)
    requires Inv(c, s) && Enabled(c, s, Finish)
    ensures Inv(c, Do(c, s, Finish))
  {
    var s' := Do(c, s, Finish);
    assert s.writes[..|s.writes|] == s.writes;
    if s.phase.Recovering? {
      RecoverEmptiesLog(c.l, s.from);
    } else if s.lh != [] {
      CommitCompletes(c.l, s.from, s.lh, s.view);
    }
    PhaseIsSafe(c, s');
  }

  lemma CrashKeeps(c: Config, s: State)
    requires Inv(c, s)
    ensures Inv(c, Do(c, s, Crash))
  {
    var s' := Do(c, s, Crash);
    assert s'.writes[..s.durable] == s'.writes == s.writes[..s.durable];
    PhaseIsSafe(c, s');
  }

  lemma {:induction false} RunKeepsInv(c: Config, ts: seq<Step>)
    requires c.Valid() && Runs(c, Start(c), ts)
    ensures Inv(c, After(c, Start(c), ts))
    decreases |ts|
  {
    if ts == [] {
      PhaseIsSafe(c, Start(c));
    } else {
      var rest, t := ts[..|ts| - 1], ts[|ts| - 1];
      RunKeepsInv(c, rest);
      var s := After(c, Start(c), rest);
      match t
      case BeginOp(op) => BeginOpKeeps(c, s, op);
      case LogWrite(w) => LogWriteKeeps(c, s, w);
      case EndOp(op) => EndOpKeeps(c, s, op);
      case WriteBlock => WriteBlockKeeps(c, s);
      case Finish => FinishKeeps(c, s);
      case Crash => CrashKeeps(c, s);
    }
  }

  // ----------------------------------------------------- what the steps ask for

  /**
   A run as its steps tell it, without any state of the log: the writes logged and how many of
   them are durable, the operations begun and not ended, the blocks logged since the last commit,
   the block writes issued since it began, and whether the last crash is still being recovered.
   */
  datatype Trace = Trace(
    logged: seq<OpWrite>, durable: nat, open: set<OpId>, pending: set<nat>, issued: nat, recovering: bool)

  /**
   A `log_write` adds a write. What has been logged is durable once all blocks logged since the last
   commit and then the header have been written. A crash undoes the rest.
   */
  function Note(h: Trace, t: Step): Trace {
    match t
    case BeginOp(op) => h.(open := h.open + {op})
    case LogWrite(w) => h.(logged := h.logged + [w], pending := h.pending + {w.addr})
    case EndOp(op) => h.(open := h.open - {op}, issued := 0)
    case WriteBlock =>
      h.(issued := h.issued + 1,
         durable := if !h.recovering && h.issued == |h.pending| then |h.logged| else h.durable)
    case Finish => h.(pending := {}, recovering := false)
    case Crash => Trace(if h.durable <= |h.logged| then h.logged[..h.durable] else h.logged, h.durable, {}, {}, 0, true)
  }

  function Traced(ts: seq<Step>): Trace {
    if ts == [] then Trace([], 0, {}, {}, 0, false) else Note(Traced(ts[..|ts| - 1]), ts[|ts| - 1])
  }

  /** The state agrees with the trace; a `log_write` that panicked has been noted but not done. */
  ghost predicate Agrees(s: State, h: Trace) {
    && s.durable == h.durable <= |s.writes| && s.writes <= h.logged
    && (!s.panicked ==>
          && s.writes == h.logged && s.live.Keys == h.open && (s.phase.Recovering? <==> h.recovering)
          && (forall b :: b in s.lh <==> b in h.pending) && (!s.phase.Idle? ==> s.done == h.issued))
  }

  lemma {:induction false} Distinct(lh: seq<nat>, bs: set<nat>)
    requires (forall i, j :: 0 <= i < j < |lh| ==> lh[i] != lh[j]) && (forall b :: b in lh <==> b in bs)
    ensures |lh| == |bs|
    decreases |lh|
  {
    if lh != [] {
      var rest, b := lh[..|lh| - 1], lh[|lh| - 1];
      assert lh == rest + [b];
      Distinct(rest, bs - {b});
    }
  }

  /** What of the invariant it takes. */
  ghost predicate Orderly(s: State) {
    && s.durable <= |s.writes| && (forall i, j :: 0 <= i < j < |s.lh| ==> s.lh[i] != s.lh[j])
    && (!s.panicked && !s.phase.Idle? ==> s.live == map[])
  }

  lemma InvOrderly(c: Config, s: State)
    requires Inv(c, s)
    ensures Orderly(s)
  {
    hide Recover, RecoverPlan, CommitPlan, Fits, Contents, Head;
  }

  lemma NoteBeginOp(c: Config, s: State, h: Trace, op: OpId)
    requires Orderly(s) && Agrees(s, h) && Enabled(c, s, BeginOp(op))
    ensures Agrees(Do(c, s, BeginOp(op)), Note(h, BeginOp(op)))
  {
    assert s.live[op := 0].Keys == s.live.Keys + {op};
  }

  lemma NoteLogWrite(c: Config, s: State, h: Trace, w: OpWrite)
    requires Orderly(s) && Agrees(s, h) && Enabled(c, s, LogWrite(w))
    ensures Agrees(Do(c, s, LogWrite(w)), Note(h, LogWrite(w)))
  {
    assert s.live[w.op := s.live[w.op] + 1].Keys == s.live.Keys;
  }

  lemma NoteEndOp(c: Config, s: State, h: Trace, op: OpId)
    requires Orderly(s) && Agrees(s, h) && Enabled(c, s, EndOp(op))
    ensures Agrees(Do(c, s, EndOp(op)), Note(h, EndOp(op)))
  {
    hide CommitPlan, ReadyToCommit;
    assert (s.live - {op}).Keys == s.live.Keys - {op};
  }

  lemma NoteAgrees(c: Config, s: State, h: Trace, t: Step)
    requires Orderly(s) && Agrees(s, h) && Enabled(c, s, t)
    ensures Agrees(Do(c, s, t), Note(h, t))
  {
    hide RecoverPlan, CommitPlan, ReadyToCommit, Enabled;
    match t
    case BeginOp(op) => NoteBeginOp(c, s, h, op);
    case LogWrite(w) => NoteLogWrite(c, s, h, w);
    case EndOp(op) => NoteEndOp(c, s, h, op);
    case _ => NoteOther(c, s, h, t);
  }

  lemma NoteOther(c: Config, s: State, h: Trace, t: Step)
    requires Orderly(s) && Agrees(s, h) && Enabled(c, s, t) && (t.WriteBlock? || t.Finish? || t.Crash?)
    ensures Agrees(Do(c, s, t), Note(h, t))
  {
    hide RecoverPlan;
    if t.WriteBlock? { Distinct(s.lh, h.pending); }
  }

  lemma {:induction false} RunAgrees(c: Config, ts: seq<Step>)
    requires c.Valid() && Runs(c, Start(c), ts)
    ensures Agrees(After(c, Start(c), ts), Traced(ts))
    decreases |ts|
  {
    hide Inv, Do, Note, Enabled, Orderly;
    if ts != [] {
      var rest, t := ts[..|ts| - 1], ts[|ts| - 1];
      RunAgrees(c, rest);
      RunKeepsInv(c, rest);
      InvOrderly(c, After(c, Start(c), rest));
      NoteAgrees(c, After(c, Start(c), rest), Traced(rest), t);
    }
  }

  /**
   Every run, with crashes anywhere, by its steps alone: the disk recovers to exactly the durable
   ones of the writes that its `log_write` steps asked for; no operation is split by that point, and
   none before it is still running. Unless it panicked, readers see all writes once a recovery is
   over, and once no operation runs and no commit is pending every write is durable.
   */
  lemma CrashSafety(c: Config, ts: seq<Step>)
    requires c.Valid() && Runs(c, Start(c), ts)
    ensures
      var s, h := After(c, Start(c), ts), Traced(ts);
      && h.durable <= |h.logged|
      && (forall i, j :: 0 <= i < h.durable <= j < |h.logged| && !s.panicked ==> h.logged[i].op != h.logged[j].op)
      && (forall i :: 0 <= i < h.durable && !s.panicked ==> h.logged[i].op !in h.open)
      && (forall i :: 0 <= i < h.durable ==> h.logged[i].addr < c.l.total)
      && c.l.ValidDisk(s.disk)
      && c.l.SameHome(Recover(c.l, s.disk), Contents(c.init, h.logged[..h.durable]))
      && (!s.panicked ==>
            && (forall i :: 0 <= i < |h.logged| ==> h.logged[i].addr < c.l.total)
            && (!h.recovering ==> |s.view| == c.l.total && c.l.SameHome(s.view, Contents(c.init, h.logged)))
            && (s.phase.Idle? && h.open == {} ==> h.durable == |h.logged|))
  {
    hide Recover, Contents;
    RunKeepsInv(c, ts);
    RunAgrees(c, ts);
    var s, h := After(c, Start(c), ts), Traced(ts);
    assert s.writes[..s.durable] == h.logged[..h.durable];
    assert forall i :: 0 <= i < h.durable ==> h.logged[i] == s.writes[i];
  }

  function LogWrites(ts: seq<Step>): seq<OpWrite> {
    if ts == [] then []
    else LogWrites(ts[..|ts| - 1]) + if ts[|ts| - 1].LogWrite? then [ts[|ts| - 1].w] else []
  }

  /** Without crashes, what a run has logged are its `log_write` steps in order. */
  lemma {:induction false} AllLogged(ts: seq<Step>)
    requires forall i :: 0 <= i < |ts| ==> !ts[i].Crash?
    ensures Traced(ts).logged == LogWrites(ts)
    decreases |ts|
  {
    if ts != [] { AllLogged(ts[..|ts| - 1]); }
  }

  // ------------------------------------------------------- every run can end well

  /** `us` goes on after `ts` with ends of operations and block writes only. */
  ghost predicate WindsUp(ts: seq<Step>, us: seq<Step>) {
    ts <= us && forall i :: |ts| <= i < |us| ==> us[i].EndOp? || us[i].WriteBlock? || us[i].Finish?
  }

  lemma {:induction false} WindingUpLogs(ts: seq<Step>, us: seq<Step>)
    requires WindsUp(ts, us)
    ensures Traced(us).logged == Traced(ts).logged
    decreases |us|
  {
    if us != ts { WindingUpLogs(ts, us[..|us| - 1]); }
  }

  lemma EndOpCounts(c: Config, s: State, op: OpId)
    requires Inv(c, s) && !s.panicked && op in s.live
    ensures Enabled(c, s, EndOp(op))
    ensures var s' := Do(c, s, EndOp(op)); !s'.panicked && |s'.live| < |s.live|
  {
    hide Recover, RecoverPlan, CommitPlan, Fits, Contents, Head;
    assert (s.live - {op}).Keys == s.live.Keys - {op};
  }

  /** All open operations end, without a panic. */
  lemma {:induction false} EndAll(c: Config, ts: seq<Step>) returns (us: seq<Step>)
    requires c.Valid() && Runs(c, Start(c), ts) && !After(c, Start(c), ts).panicked
    ensures Runs(c, Start(c), us) && WindsUp(ts, us)
    ensures var s := After(c, Start(c), us); !s.panicked && s.live == map[]
    decreases |After(c, Start(c), ts).live|
  {
    hide Inv, Do, Enabled;
    var s := After(c, Start(c), ts);
    if s.live == map[] {
      us := ts;
    } else {
      var op :| op in s.live;
      RunKeepsInv(c, ts);
      EndOpCounts(c, s, op);
      Extend(c, Start(c), ts, EndOp(op));
      us := EndAll(c, ts + [EndOp(op)]);
    }
  }

  /** The next block write of a commit or recovery, or its end, is possible. */
  lemma Advances(c: Config, s: State)
    requires Inv(c, s) && !s.panicked && !s.phase.Idle?
    ensures s.live == map[] && s.done <= |s.plan|
    ensures s.done < |s.plan| ==>
      Enabled(c, s, WriteBlock) && var s' := Do(c, s, WriteBlock); !s'.panicked && s'.phase == s.phase && s'.plan == s.plan
    ensures s.done == |s.plan| ==>
      Enabled(c, s, Finish) && var s' := Do(c, s, Finish); !s'.panicked && s'.phase.Idle? && s'.live == map[]
  {
    hide Recover, Contents, Head;
  }

  lemma {:induction false} WriteOut(c: Config, ts: seq<Step>) returns (us: seq<Step>)
    requires c.Valid() && Runs(c, Start(c), ts)
    requires var s := After(c, Start(c), ts); !s.panicked && !s.phase.Idle?
    ensures Runs(c, Start(c), us) && WindsUp(ts, us)
    ensures var s := After(c, Start(c), us); !s.panicked && s.phase.Idle? && s.live == map[]
    decreases var s := After(c, Start(c), ts); |s.plan| - s.done
  {
    hide Inv, Enabled;
    var s := After(c, Start(c), ts);
    RunKeepsInv(c, ts);
    Advances(c, s);
    if s.done < |s.plan| {
      Extend(c, Start(c), ts, WriteBlock);
      us := WriteOut(c, ts + [WriteBlock]);
    } else {
      Extend(c, Start(c), ts, Finish);
      us := ts + [Finish];
    }
  }

  /**
   From every state that a run can reach without a panic, open operations can end and commits and
   recoveries can be written out; then the home blocks on disk hold every write that was logged.
   */
  lemma CanFinish(c: Config, ts: seq<Step>) returns (us: seq<Step>)
    requires c.Valid() && Runs(c, Start(c), ts) && !After(c, Start(c), ts).panicked
    ensures Runs(c, Start(c), us) && WindsUp(ts, us)
    ensures var s, h := After(c, Start(c), us), Traced(us);
      && !s.panicked && s.phase.Idle? && h.open == {} && h.logged == Traced(ts).logged && h.durable == |h.logged|
      && |s.disk| == c.l.total && (forall i :: 0 <= i < |h.logged| ==> h.logged[i].addr < c.l.total)
      && c.l.SameHome(s.disk, Contents(c.init, h.logged))
  {
    hide Inv, Do, Enabled, Agrees, Contents;
    us := EndAll(c, ts);
    if !After(c, Start(c), us).phase.Idle? {
      var vs := WriteOut(c, us);
      us := vs;
    }
    WindingUpLogs(ts, us);
    Finished(c, us);
  }

  lemma Finished(c: Config, ts: seq<Step>)
    requires c.Valid() && Runs(c, Start(c), ts)
    requires var s := After(c, Start(c), ts); !s.panicked && s.phase.Idle? && s.live == map[]
    ensures var s, h := After(c, Start(c), ts), Traced(ts);
      && h.open == {} && h.durable == |h.logged|
      && |s.disk| == c.l.total && (forall i :: 0 <= i < |h.logged| ==> h.logged[i].addr < c.l.total)
      && c.l.SameHome(s.disk, Contents(c.init, h.logged))
  {
    hide Recover, Contents, Head;
    RunKeepsInv(c, ts);
    RunAgrees(c, ts);
    var s := After(c, Start(c), ts);
    assert s.writes[..|s.writes|] == s.writes;
  }

  // ------------------------------------------------------------------ capacity

  /** What the running operations may still add to the log. */
  ghost function Slack(live: map<OpId, nat>, k: nat): int {
    if live == map[] then 0
    else var op :| op in live; k - live[op] + Slack(live - {op}, k)
  }

  lemma {:induction false} SlackRemove(live: map<OpId, nat>, k: nat, op: OpId)
    requires op in live
    ensures Slack(live, k) == k - live[op] + Slack(live - {op}, k)
    decreases |live|
  {
    var o :| o in live && Slack(live, k) == k - live[o] + Slack(live - {o}, k);
    if o != op {
      SlackRemove(live - {o}, k, op);
      assert live - {o} - {op} == live - {op} - {o};
      SlackRemove(live - {op}, k, o);
    }
  }

  lemma {:induction false} SlackBounds(live: map<OpId, nat>, k: nat)
    requires forall op :: op in live ==> live[op] <= k
    ensures 0 <= Slack(live, k)
    ensures |live| <= 1 ==> Slack(live, k) <= k
    ensures |live| <= 2 ==> Slack(live, k) <= 2 * k
    decreases |live|
  {
    if live != map[] {
      var op :| op in live;
      SlackRemove(live, k, op);
      assert |live - {op}| == |live| - 1 by { assert (live - {op}).Keys == live.Keys - {op}; }
      SlackBounds(live - {op}, k);
      if |live| == 1 { assert live - {op} == map[]; }
    }
  }

  /** The part of the invariant that the capacity argument needs. */
  ghost predicate Counted(s: State) {
    && s.outstanding == |s.live| && s.live.Keys <= s.used
    && (s.phase.Idle? && s.live == map[] ==> s.lh == [])
    && (!s.phase.Idle? ==> s.live == map[])
  }

  lemma InvCounted(c: Config, s: State)
    requires Inv(c, s) && !s.panicked
    ensures Counted(s)
  {
  }

  lemma RunCounted(c: Config, ts: seq<Step>)
    requires c.Valid() && Runs(c, Start(c), ts) && !After(c, Start(c), ts).panicked
    ensures Counted(After(c, Start(c), ts))
  {
    RunKeepsInv(c, ts);
    InvCounted(c, After(c, Start(c), ts));
  }

  ghost predicate Roomy(c: Config, s: State) {
    && !s.panicked
    && (forall op :: op in s.live ==> s.live[op] <= c.opBlocks)
    && |s.lh| + Slack(s.live, c.opBlocks) <= MAXOPBLOCKS + 2 * c.opBlocks
  }

  lemma BeginOpRoomy(c: Config, s: State, op: OpId)
    requires Counted(s) && Roomy(c, s) && Enabled(c, s, BeginOp(op)) && c.opBlocks <= MAXOPBLOCKS
    ensures Roomy(c, Do(c, s, BeginOp(op)))
  {
    var s' := Do(c, s, BeginOp(op));
    SlackRemove(s'.live, c.opBlocks, op);
    assert s'.live - {op} == s.live;
    SlackBounds(s.live, c.opBlocks);
    assert s.outstanding <= 2;
    if s.outstanding == 0 { assert s.live == map[]; }
  }

  lemma LogWriteRoomy(c: Config, s: State, w: OpWrite)
    requires Counted(s) && Roomy(c, s) && Enabled(c, s, LogWrite(w))
    requires MAXOPBLOCKS + 2 * c.opBlocks < c.Limit()
    ensures Roomy(c, Do(c, s, LogWrite(w)))
  {
    SlackBounds(s.live, c.opBlocks);
    assert |s.live| > 0;
    var s' := Do(c, s, LogWrite(w));
    SlackRemove(s.live, c.opBlocks, w.op);
    SlackRemove(s'.live, c.opBlocks, w.op);
    assert s'.live - {w.op} == s.live - {w.op};
  }

  lemma EndOpRoomy(c: Config, s: State, op: OpId)
    requires Counted(s) && Roomy(c, s) && Enabled(c, s, EndOp(op))
    ensures Roomy(c, Do(c, s, EndOp(op)))
  {
    SlackRemove(s.live, c.opBlocks, op);
  }

  /**
   No panic of `log_write` or `end_op` is reachable when operations add at most `opBlocks`
   distinct blocks each and `MAXOPBLOCKS + 2 * opBlocks` stays below the log's limit.
   */
  lemma {:induction false} NoPanic(c: Config, ts: seq<Step>)
    requires c.Valid() && Runs(c, Start(c), ts)
    requires MAXOPBLOCKS + 2 * c.opBlocks < c.Limit()
    ensures Roomy(c, After(c, Start(c), ts))
    ensures !After(c, Start(c), ts).panicked
    decreases |ts|
  {
    if ts != [] {
      var rest, t := ts[..|ts| - 1], ts[|ts| - 1];
      NoPanic(c, rest);
      RunCounted(c, rest);
      var s := After(c, Start(c), rest);
      match t
      case BeginOp(op) => BeginOpRoomy(c, s, op);
      case LogWrite(w) => LogWriteRoomy(c, s, w);
      case EndOp(op) => EndOpRoomy(c, s, op);
      case _ =>
    }
  }

  // ------------------------------------------- the bound is tight: a run that panics

  const FIRST: OpId := 0
  const LAST: OpId := MAXOPBLOCKS + 1

  function WriteNext(c: Config, op: OpId, n: nat): Step {
    LogWrite(OpWrite(op, c.l.start + c.l.size + n, ZeroBlock()))
  }

  /**
   `n` blocks are logged while operation FIRST stays open: first one block by each of
   MAXOPBLOCKS short operations, then blocks by FIRST, then blocks by LAST.
   */
  ghost predicate Filled(c: Config, n: nat, s: State) {
    && s.phase.Idle? && !s.panicked && |s.view| == c.l.total
    && |s.lh| == n && (forall i :: 0 <= i < n ==> s.lh[i] == c.l.start + c.l.size + i)
    && s.outstanding == |s.live|
    && (if n <= MAXOPBLOCKS
        then s.live.Keys == {FIRST} && s.live[FIRST] == 0 && (forall op :: op in s.used ==> op <= n)
        else
          && s.live.Keys == {FIRST, LAST}
          && s.live[FIRST] == (if n <= MAXOPBLOCKS + c.opBlocks then n - MAXOPBLOCKS else c.opBlocks)
          && s.live[LAST] == (if n <= MAXOPBLOCKS + c.opBlocks then 0 else n - MAXOPBLOCKS - c.opBlocks))
  }

  lemma Extend(c: Config, s0: State, ts: seq<Step>, t: Step)
    requires Runs(c, s0, ts) && Enabled(c, After(c, s0, ts), t)
    ensures Runs(c, s0, ts + [t]) && After(c, s0, ts + [t]) == Do(c, After(c, s0, ts), t)
  {
    assert (ts + [t])[..|ts|] == ts;
  }

  lemma ShortOpFills(c: Config, n: nat, s: State)
    requires 1 <= n <= MAXOPBLOCKS && n <= c.Limit() && 1 <= c.opBlocks
    requires c.l.start + c.l.size + LOGSIZE <= c.l.total && Filled(c, n - 1, s)
    ensures Enabled(c, s, BeginOp(n))
    ensures var s1 := Do(c, s, BeginOp(n));
      && Enabled(c, s1, WriteNext(c, n, n - 1))
      && var s2 := Do(c, s1, WriteNext(c, n, n - 1));
      && Enabled(c, s2, EndOp(n)) && Filled(c, n, Do(c, s2, EndOp(n)))
  {
    var s1 := Do(c, s, BeginOp(n));
    assert |s.live| == |s.live.Keys| == 1;
    var s2 := Do(c, s1, WriteNext(c, n, n - 1));
    assert s2.live.Keys == {FIRST, n};
    assert (s2.live - {n}).Keys == {FIRST};
    assert |s2.live - {n}| == |(s2.live - {n}).Keys|;
  }

  lemma LastFills(c: Config, s: State)
    requires MAXOPBLOCKS < c.Limit() && 1 <= c.opBlocks
    requires c.l.start + c.l.size + LOGSIZE <= c.l.total && Filled(c, MAXOPBLOCKS, s)
    ensures Enabled(c, s, BeginOp(LAST))
    ensures var s1 := Do(c, s, BeginOp(LAST));
      && Enabled(c, s1, WriteNext(c, FIRST, MAXOPBLOCKS))
      && Filled(c, MAXOPBLOCKS + 1, Do(c, s1, WriteNext(c, FIRST, MAXOPBLOCKS)))
  {
    var s1 := Do(c, s, BeginOp(LAST));
    assert |s.live| == |s.live.Keys| == 1;
    var s2 := Do(c, s1, WriteNext(c, FIRST, MAXOPBLOCKS));
    assert |s2.live| == |s2.live.Keys| && s2.live.Keys == {FIRST, LAST};
  }

  lemma WriteFills(c: Config, n: nat, op: OpId, s: State)
    requires MAXOPBLOCKS + 1 < n <= c.Limit() && n <= MAXOPBLOCKS + 2 * c.opBlocks
    requires c.l.start + c.l.size + LOGSIZE <= c.l.total && Filled(c, n - 1, s)
    requires op == if n <= MAXOPBLOCKS + c.opBlocks then FIRST else LAST
    ensures Enabled(c, s, WriteNext(c, op, n - 1))
    ensures Filled(c, n, Do(c, s, WriteNext(c, op, n - 1)))
  {
    assert |s.live| == |s.live.Keys| == 2;
    var s1 := Do(c, s, WriteNext(c, op, n - 1));
    assert |s1.live| == |s1.live.Keys| && s1.live.Keys == {FIRST, LAST};
  }

  lemma Extend2(c: Config, s0: State, ts: seq<Step>, t1: Step, t2: Step) returns (us: seq<Step>)
    requires Runs(c, s0, ts) && Enabled(c, After(c, s0, ts), t1)
    requires Enabled(c, Do(c, After(c, s0, ts), t1), t2)
    ensures Runs(c, s0, us) && After(c, s0, us) == Do(c, Do(c, After(c, s0, ts), t1), t2)
  {
    Extend(c, s0, ts, t1);
    Extend(c, s0, ts + [t1], t2);
    us := ts + [t1] + [t2];
  }

  lemma Extend3(c: Config, s0: State, ts: seq<Step>, t1: Step, t2: Step, t3: Step) returns (us: seq<Step>)
    requires Runs(c, s0, ts) && Enabled(c, After(c, s0, ts), t1)
    requires Enabled(c, Do(c, After(c, s0, ts), t1), t2)
    requires Enabled(c, Do(c, Do(c, After(c, s0, ts), t1), t2), t3)
    ensures Runs(c, s0, us) && After(c, s0, us) == Do(c, Do(c, Do(c, After(c, s0, ts), t1), t2), t3)
  {
    us := Extend2(c, s0, ts, t1, t2);
    Extend(c, s0, us, t3);
    us := us + [t3];
  }

  lemma FillMore(c: Config, n: nat, ts: seq<Step>) returns (us: seq<Step>)
    requires c.opBlocks >= 1 && c.l.start + c.l.size + LOGSIZE <= c.l.total
    requires 1 <= n <= c.Limit() && n <= MAXOPBLOCKS + 2 * c.opBlocks
    requires Runs(c, Start(c), ts) && Filled(c, n - 1, After(c, Start(c), ts))
    ensures Runs(c, Start(c), us) && Filled(c, n, After(c, Start(c), us))
  {
    var s0 := Start(c);
    var s := After(c, s0, ts);
    if n <= MAXOPBLOCKS {
      ShortOpFills(c, n, s);
      us := Extend3(c, s0, ts, BeginOp(n), WriteNext(c, n, n - 1), EndOp(n));
    } else if n == MAXOPBLOCKS + 1 {
      LastFills(c, s);
      us := Extend2(c, s0, ts, BeginOp(LAST), WriteNext(c, FIRST, n - 1));
    } else {
      var op := if n <= MAXOPBLOCKS + c.opBlocks then FIRST else LAST;
      WriteFills(c, n, op, s);
      Extend(c, s0, ts, WriteNext(c, op, n - 1));
      us := ts + [WriteNext(c, op, n - 1)];
    }
  }

  lemma OneLive(op: OpId)
    ensures |map[op := 0]| == 1 && map[op := 0].Keys == {op}
  {
    assert map[op := 0].Keys == {op};
    assert |map[op := 0]| == |map[op := 0].Keys|;
  }

  lemma FirstBegins(c: Config)
    requires |c.init| == c.l.total
    ensures Enabled(c, Start(c), BeginOp(FIRST)) && Filled(c, 0, Do(c, Start(c), BeginOp(FIRST)))
  {
    hide CommitPlan, RecoverPlan, ReadyToCommit;
    OneLive(FIRST);
    var s := Do(c, Start(c), BeginOp(FIRST));
    assert s.live == map[FIRST := 0] && s.used == {FIRST};
  }

  lemma FillNone(c: Config) returns (ts: seq<Step>)
    requires |c.init| == c.l.total
    ensures Runs(c, Start(c), ts) && Filled(c, 0, After(c, Start(c), ts))
  {
    hide Filled, Do, Enabled;
    FirstBegins(c);
    Extend(c, Start(c), [], BeginOp(FIRST));
    ts := [] + [BeginOp(FIRST)];
  }

  lemma {:induction false} Fill(c: Config, n: nat) returns (ts: seq<Step>)
    requires |c.init| == c.l.total && c.opBlocks >= 1 && c.l.start + c.l.size + LOGSIZE <= c.l.total
    requires n <= c.Limit() && n <= MAXOPBLOCKS + 2 * c.opBlocks
    ensures Runs(c, Start(c), ts) && Filled(c, n, After(c, Start(c), ts))
  {
    if n == 0 {
      ts := FillNone(c);
    } else {
      ts := Fill(c, n - 1);
      ts := FillMore(c, n, ts);
    }
  }

  lemma FullLogPanics(c: Config, s: State)
    requires c.opBlocks >= 1 && 1 <= c.l.size && c.l.start + c.l.size + LOGSIZE <= c.l.total
    requires Filled(c, c.Limit(), s)
    ensures Enabled(c, s, WriteNext(c, FIRST, 0)) && Do(c, s, WriteNext(c, FIRST, 0)).panicked
  {
    assert FIRST in s.live;
    if c.Limit() > 0 { assert s.lh[0] == c.l.start + c.l.size; }
  }

  /** The condition of `NoPanic` is exact: where it fails, some run panics in `log_write`. */
  lemma PanicReachable(c: Config) returns (ts: seq<Step>)
    requires |c.init| == c.l.total && 1 <= c.l.size && 1 <= c.opBlocks
    requires c.l.start + c.l.size + LOGSIZE <= c.l.total
    requires MAXOPBLOCKS + 2 * c.opBlocks >= c.Limit()
    ensures Runs(c, Start(c), ts) && After(c, Start(c), ts).panicked
  {
    ts := Fill(c, c.Limit());
    FullLogPanics(c, After(c, Start(c), ts));
    Extend(c, Start(c), ts, WriteNext(c, FIRST, 0));
    ts := ts + [WriteNext(c, FIRST, 0)];
  }

  /**
   The image that mkfs builds has a log of LOGSIZE blocks, header included: operations of
   MAXOPBLOCKS - 1 blocks never panic on it, operations of MAXOPBLOCKS blocks can.
   */
  lemma MkfsLogCapacity(c: Config, ts: seq<Step>)
    requires c.Valid() && c.l == Layout(2, LOGSIZE, 2000)
    ensures c.opBlocks < MAXOPBLOCKS && Runs(c, Start(c), ts) ==> !After(c, Start(c), ts).panicked
    ensures c.opBlocks == MAXOPBLOCKS ==>
              exists us :: Runs(c, Start(c), us) && After(c, Start(c), us).panicked
  {
    if c.opBlocks < MAXOPBLOCKS && Runs(c, Start(c), ts) {
      NoPanic(c, ts);
    }
    if c.opBlocks == MAXOPBLOCKS {
      var us := PanicReachable(c);
    }
  }
}
