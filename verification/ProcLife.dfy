/**
 Runs of the process steps that do happen: nobody on a CPU is stuck but for a lock that somebody else
 holds; a child lives, exits and is reaped by a parent that slept meanwhile; a kill can be lost.
 */
module ProcLife {
  import opened Proc

  // ------------------------------------------------------------------- progress

  /** Waits for a lock that is held. */
  predicate Barred(s: Sys, i: nat)
    requires Sized(s) && i < NPROC
  {
    var pc := s.procs[i].pc;
    || (pc.Reacquire? && pc.l < |s.locks| && s.locks[pc.l] != -1)
    || (pc.Fork2? && s.locks[WAIT] != -1)
    || (pc.Fork3? && pc.child < NPROC && s.procs[pc.child].lock)
    || (pc.Waking? && pc.i < NPROC && pc.i != i && s.procs[pc.i].lock)
    || (pc.Waiting? && pc.i < NPROC && s.procs[pc.i].parent == i && s.procs[pc.i].lock)
  }

  /** What process `i` does next. */
  ghost predicate Goes(s: Sys, i: nat, s': Sys) {
    exists a :: Next(s, a, s') && Sized(s) && Sized(s') && i < NPROC && s'.procs[i].pc != s.procs[i].pc
  }

  lemma ByAct(s: Sys, a: Act, i: nat, s': Sys)
    requires Next(s, a, s') && Sized(s) && Sized(s') && i < NPROC && s'.procs[i].pc != s.procs[i].pc
    ensures Goes(s, i, s')
  {
    hide Next;
  }

  /** A process on a CPU in any kernel path of its own goes on, unless it waits for a lock. */
  lemma GoesOn(s: Sys, i: nat) returns (s': Sys)
    requires Inv(s) && i < NPROC && s.procs[i].on >= 0 && s.procs[i].pc != Code && !Barred(s, i)
    ensures Goes(s, i, s')
  {
    hide Inv, Goes, Pair, NotForgotten;
    Facts(s, i, i);
    var pc := s.procs[i].pc;
    if pc.InYield? || pc.InSleep? || pc.Dropped? || pc.Marked? || pc.Switched? || pc.Resumed? || pc.Reacquire? || pc == Decided {
      s' := SleepsOn(s, i);
    } else if pc.Fork1? || pc.Fork2? || pc.Fork3? {
      s' := ForksOn(s, i);
    } else if pc.Waking? {
      s' := WakesOn(s, i);
    } else if pc.Waiting? {
      s' := WaitsOn(s, i);
    } else {
      s' := ExitsOn(s, i);
    }
  }

  lemma SleepsOn(s: Sys, i: nat) returns (s': Sys)
    requires Sized(s) && i < NPROC && Local(s, i) && s.procs[i].on >= 0 && !Barred(s, i)
    requires var pc := s.procs[i].pc;
      pc.InYield? || pc.InSleep? || pc.Dropped? || pc.Marked? || pc.Switched? || pc.Resumed? || pc.Reacquire? || pc == Decided
    ensures Goes(s, i, s')
  {
    hide Goes, HoldsOnly;
    var a, p := Act(i, 0, 0), s.procs[i];
    var pc := p.pc;
    if pc.InYield? {
      s' := Set(s, i, p.(state := RUNNABLE, pc := Marked(AfterYield(pc.at))));
      assert YieldMark(s, i, s');
    } else if pc.InSleep? {
      s' := SetLock(SetPc(s, i, Dropped(pc.c, pc.l, pc.ret)), pc.l, -1);
      assert SleepDrop(s, i, s');
    } else if pc.Dropped? {
      s' := Set(s, i, p.(chan := pc.c, state := SLEEPING, pc := Marked(AfterSleep(pc.c, pc.l, pc.ret))));
      assert SleepMark(s, i, s');
    } else if pc.Marked? {
      s' := SetPc(s, i, Switched(pc.k));
      assert Switch(s, i, s');
    } else if pc.Switched? {
      s' := Set(s, i, p.(lock := false, on := -1, pc := Parked(pc.k))).(cpus := s.cpus[p.on := -1]);
      assert Unload(s, i, s');
    } else if pc.Resumed? {
      s' := if pc.k.AfterSleep? then Set(s, i, p.(chan := 0, lock := false, pc := Reacquire(pc.k.l, pc.k.ret)))
            else Set(s, i, p.(lock := false, pc := if pc.k.AfterYield? then PcOf(pc.k.at) else Code));
      assert Unlock(s, i, s');
    } else if pc.Reacquire? {
      s' := SetLock(SetPc(s, i, if pc.ret == ToCode then Code else Waiting(0, false)), pc.l, i);
      assert Relock(s, i, s');
    } else {
      s' := Set(s, i, p.(lock := true, pc := InSleep(i, WAIT, ToWait)));
      assert WaitSleep(s, i, s');
    }
    assert Scheduled(s, a, s') || Slept(s, a, s');
    ByAct(s, a, i, s');
  }

  lemma ForksOn(s: Sys, i: nat) returns (s': Sys)
    requires Sized(s) && i < NPROC && Local(s, i) && Forking(s.procs[i].pc) && s.procs[i].on >= 0 && !Barred(s, i)
    requires var pc := s.procs[i].pc; pc.Fork1? || pc.Fork2? || pc.Fork3?
    ensures Goes(s, i, s')
  {
    hide Goes, HoldsOnly;
    var a, p := Act(i, 0, 0), s.procs[i];
    var n := p.pc.child;
    if p.pc.Fork1? {
      s' := Set(SetPc(s, i, Fork2(n)), n, s.procs[n].(lock := false, pc := Parked(Start)));
      assert ForkRelease(s, i, s') && Forked(s, a, s');
    } else if p.pc.Fork2? {
      s' := Set(SetPc(s, i, Fork3(n)), n, s.procs[n].(parent := i));
      assert ForkParent(s, i, s') && Paired(s, a, s');
    } else {
      s' := Set(SetPc(s, i, Code), n, s.procs[n].(state := RUNNABLE));
      assert ForkRun(s, i, s') && Paired(s, a, s');
    }
    ByAct(s, a, i, s');
  }

  lemma WakesOn(s: Sys, i: nat) returns (s': Sys)
    requires Sized(s) && i < NPROC && Local(s, i) && s.procs[i].pc.Waking? && s.procs[i].on >= 0 && !Barred(s, i)
    ensures Goes(s, i, s')
  {
    hide Goes, HoldsOnly;
    var a, p, pc := Act(i, 0, 0), s.procs[i], s.procs[i].pc;
    if pc.i < NPROC {
      s' := SetPc(if pc.i == i then s else Set(s, pc.i, Woken(s.procs[pc.i], pc.c)), i, Waking(pc.c, pc.i + 1, pc.next));
      assert WakeVisit(s, i, s') && Woke(s, a, s');
    } else {
      s' := match pc.next
        case ToCaller => SetPc(s, i, Code)
        case ToReparent(n) => SetPc(s, i, Exiting(n))
        case ToZombie => Set(s, i, p.(lock := true, pc := InExit));
      assert WakeEnd(s, i, s') && Went(s, a, s');
    }
    ByAct(s, a, i, s');
  }

  lemma WaitsOn(s: Sys, i: nat) returns (s': Sys)
    requires Sized(s) && i < NPROC && Local(s, i) && s.procs[i].pc.Waiting? && s.procs[i].on >= 0 && !Barred(s, i)
    ensures Goes(s, i, s')
  {
    hide Goes, HoldsOnly;
    var a, p, n := Act(i, 0, 0), s.procs[i], s.procs[i].pc.i;
    if n == NPROC {
      s' := if !p.pc.kids || p.killed then SetLock(SetPc(s, i, Code), WAIT, -1) else SetPc(s, i, Decided);
      assert WaitEnd(s, i, s') && Went(s, a, s');
    } else if s.procs[n].parent == i && s.procs[n].state == ZOMBIE {
      s' := SetLock(Set(SetPc(s, i, Code), n, NOBODY), WAIT, -1).(reaped := s.reaped + {s.procs[n].pid});
      assert Reap(s, i, s') && Paired(s, a, s');
    } else {
      s' := SetPc(s, i, Waiting(n + 1, s.procs[n].parent == i || p.pc.kids));
      assert WaitPass(s, i, s') && Went(s, a, s');
    }
    ByAct(s, a, i, s');
  }

  lemma ExitsOn(s: Sys, i: nat) returns (s': Sys)
    requires Sized(s) && i < NPROC && Local(s, i) && s.procs[i].on >= 0
    requires var pc := s.procs[i].pc; pc.Exiting? || pc.InExit? || pc.Dead?
    ensures Goes(s, i, s')
  {
    hide Goes, HoldsOnly;
    var a, p := Act(i, 0, 0), s.procs[i];
    if p.pc.InExit? {
      s' := Set(s, i, p.(state := ZOMBIE, pc := Dead));
      assert ExitMark(s, i, s') && Exited(s, a, s');
    } else if p.pc.Dead? {
      s' := SetLock(SetPc(s, i, Marked(Never)), WAIT, -1);
      assert ExitDrop(s, i, s') && Exited(s, a, s');
    } else if p.pc.i == NPROC {
      s' := SetPc(s, i, Waking(p.parent, 0, ToZombie));
      assert ExitWake(s, i, s') && Exited(s, a, s');
    } else if s.procs[p.pc.i].parent == i {
      var n := p.pc.i;
      s' := Set(SetPc(s, i, Waking(INIT, 0, ToReparent(n + 1))), n, s.procs[n].(parent := INIT));
      assert Reparent(s, i, s') && Paired(s, a, s');
    } else {
      s' := SetPc(s, i, Exiting(p.pc.i + 1));
      assert ReparentPass(s, i, s') && Exited(s, a, s');
    }
    ByAct(s, a, i, s');
  }

  /** A runnable process is taken by any CPU without one. */
  lemma Runs(s: Sys, i: nat, c: nat) returns (s': Sys)
    requires Inv(s) && i < NPROC && c < NCPU && s.cpus[c] == -1 && s.procs[i].state == RUNNABLE && !s.procs[i].lock
    ensures Goes(s, i, s') && s'.procs[i].state == RUNNING && s'.cpus[c] == i
  {
    hide Inv, Goes, Pair, NotForgotten;
    Facts(s, i, i);
    s' := Set(s, i, s.procs[i].(state := RUNNING, lock := true, on := c, pc := Resumed(ContOf(s.procs[i].pc))))
          .(cpus := s.cpus[c := i]);
    assert Pick(s, c, i, s') && Scheduled(s, Act(i, c, 0), s');
    ByAct(s, Act(i, c, 0), i, s');
  }

  /** An interrupt handler that holds a lock goes on until it has given it back, unless it waits for a process' lock. */
  lemma HandlerGoesOn(s: Sys, h: nat) returns (a: Act, s': Sys)
    requires Inv(s) && h < NCPU && s.handlers[h] != Calm
    requires s.handlers[h].Wakes? && s.handlers[h].i < NPROC ==> !s.procs[s.handlers[h].i].lock
    ensures Next(s, a, s') && s'.handlers[h] != s.handlers[h]
    ensures s.handlers[h].Holds? ==> s'.handlers[h] == Calm && s'.locks[s.handlers[h].l] == -1
  {
    hide Inv, Local, Pair, NotForgotten;
    HandlerFacts(s, h, 0);
    Facts(s, 0, 0);
    a := Act(h, 0, 0);
    var w := s.handlers[h];
    if w.Holds? {
      s' := SetHandler(SetLock(s, w.l, -1), h, Calm);
      assert HandlerRelease(s, h, s') && Woke(s, a, s');
    } else if w.i == NPROC {
      s' := SetHandler(s, h, Holds(w.l));
      assert HandlerDone(s, h, s') && Woke(s, a, s');
    } else {
      s' := SetHandler(Set(s, w.i, Woken(s.procs[w.i], w.c)), h, Wakes(w.l, w.c, w.i + 1));
      assert HandlerVisit(s, h, s') && Woke(s, a, s');
    }
  }

  // ----------------------------------------------------------------------- runs

  /** A run goes on by one step. */
  lemma Step(ss: seq<Sys>, acts: seq<Act>, a: Act, s': Sys) returns (us: seq<Sys>, bs: seq<Act>)
    requires Run(ss, acts) && Next(ss[|acts|], a, s')
    ensures Run(us, bs) && |us| == |bs| + 1 && us[|bs|] == s'
  {
    hide Next, Boot;
    us, bs := ss + [s'], acts + [a];
  }

  /** Init and its child are `p` and `q`, `wait_lock` is held by `h`, CPU 0 has process `c`, and nothing else goes on. */
  ghost predicate Alone(s: Sys, p: P, q: P, h: int, c: int) {
    && Sized(s) && s.procs[0] == p && s.procs[1] == q && (forall j :: 2 <= j < NPROC ==> s.procs[j] == NOBODY)
    && s.locks[WAIT] == h && (forall l :: 0 <= l < |s.locks| && l != WAIT ==> s.locks[l] == -1)
    && s.cpus[0] == c
  }

  const RUNS := P(RUNNING, 0, -1, 1, false, false, 0, Code, -1)
  const CHILD := P(RUNNABLE, 0, 0, 2, false, false, -1, Parked(Start), 0)
  const IN_WAIT := AfterSleep(0, WAIT, ToWait)
  /** Init asleep in `wait`. */
  const SLEEPS := P(SLEEPING, 0, -1, 1, false, false, -1, Parked(IN_WAIT), -1)
  /** The child on CPU 0, and as a zombie. */
  const LIVES := P(RUNNING, 0, 0, 2, false, false, 0, Code, 0)
  const GONE := P(ZOMBIE, 0, 0, 2, false, false, -1, Parked(Never), 0)

  const BY_INIT := Act(0, 1, 0)
  const BY_CHILD := Act(1, 0, 0)

  lemma Booted() returns (ss: seq<Sys>, acts: seq<Act>)
    ensures Run(ss, acts) && |ss| == |acts| + 1 && ss[|acts|].nextpid == 2 && Alone(ss[|acts|], RUNS, NOBODY, -1, 0)
    ensures ss[|acts|].reaped == {}
  {
    var init := P(RUNNABLE, 0, -1, 1, false, false, -1, Parked(Start), -1);
    var s := Sys(seq(NPROC, j => if j == 0 then init else NOBODY), seq(NCPU, _ => -1), [-1], 2, {}, seq(NCPU, _ => Calm));
    ss, acts := [s], [];
    var s1 := Set(s, 0, init.(state := RUNNING, lock := true, on := 0, pc := Resumed(Start))).(cpus := s.cpus[0 := 0]);
    assert Pick(s, 0, 0, s1);
    ss, acts := Step(ss, acts, Act(0, 0, 0), s1);
    var s2 := Set(s1, 0, RUNS);
    assert Unlock(s1, 0, s2);
    ss, acts := Step(ss, acts, BY_INIT, s2);
  }

  lemma WithChild() returns (ss: seq<Sys>, acts: seq<Act>)
    ensures Run(ss, acts) && |ss| == |acts| + 1 && Alone(ss[|acts|], RUNS, CHILD, -1, 0) && ss[|acts|].reaped == {}
  {
    hide Run;
    ss, acts := Booted();
    var s := ss[|acts|];
    var q := P(USED, 0, -1, 2, false, true, -1, Building, 0);
    var s1 := Set(SetPc(s, 0, Fork1(1)), 1, q).(nextpid := 3);
    assert Alloc(s, 0, 1, s1);
    ss, acts := Step(ss, acts, BY_INIT, s1);
    var s2 := Set(SetPc(s1, 0, Fork2(1)), 1, q.(lock := false, pc := Parked(Start)));
    assert ForkRelease(s1, 0, s2);
    ss, acts := Step(ss, acts, BY_INIT, s2);
    var s3 := Set(SetPc(s2, 0, Fork3(1)), 1, s2.procs[1].(parent := 0));
    assert ForkParent(s2, 0, s3);
    ss, acts := Step(ss, acts, BY_INIT, s3);
    var s4 := Set(SetPc(s3, 0, Code), 1, CHILD);
    assert ForkRun(s3, 0, s4);
    ss, acts := Step(ss, acts, BY_INIT, s4);
  }

  lemma {:induction false} Looked(n: nat) returns (ss: seq<Sys>, acts: seq<Act>)
    requires n <= NPROC
    ensures Run(ss, acts) && |ss| == |acts| + 1 && Alone(ss[|acts|], RUNS.(pc := Waiting(n, n > 1)), CHILD, 0, 0)
    ensures ss[|acts|].reaped == {}
  {
    hide Run;
    if n == 0 {
      ss, acts := WithChild();
      var s := ss[|acts|];
      var s1 := SetLock(SetPc(s, 0, Waiting(0, false)), WAIT, 0);
      assert WaitStart(s, 0, s1);
      ss, acts := Step(ss, acts, BY_INIT, s1);
    } else {
      ss, acts := Looked(n - 1);
      var s := ss[|acts|];
      var s1 := SetPc(s, 0, Waiting(n, n > 1));
      assert WaitPass(s, 0, s1);
      ss, acts := Step(ss, acts, BY_INIT, s1);
    }
  }

  lemma WillSleep() returns (ss: seq<Sys>, acts: seq<Act>)
    ensures Run(ss, acts) && |ss| == |acts| + 1 && Alone(ss[|acts|], RUNS.(pc := Decided), CHILD, 0, 0)
    ensures ss[|acts|].reaped == {}
  {
    hide Run;
    ss, acts := Looked(NPROC);
    var s := ss[|acts|];
    var s1 := SetPc(s, 0, Decided);
    assert WaitEnd(s, 0, s1);
    ss, acts := Step(ss, acts, BY_INIT, s1);
  }

  /** Whether it has been killed meanwhile or not, init falls asleep. */
  lemma FallsAsleep(ss: seq<Sys>, acts: seq<Act>, killed: bool) returns (us: seq<Sys>, bs: seq<Act>)
    requires Run(ss, acts) && |ss| == |acts| + 1
    requires Alone(ss[|acts|], RUNS.(pc := Decided, killed := killed), CHILD, 0, 0)
    ensures Run(us, bs) && |us| == |bs| + 1 && Alone(us[|bs|], SLEEPS.(killed := killed), CHILD, -1, -1)
    ensures us[|bs|].reaped == ss[|acts|].reaped
  {
    hide Run;
    var s := ss[|acts|];
    var s1 := Set(s, 0, s.procs[0].(lock := true, pc := InSleep(0, WAIT, ToWait)));
    assert WaitSleep(s, 0, s1);
    us, bs := Step(ss, acts, BY_INIT, s1);
    var s2 := SetLock(SetPc(s1, 0, Dropped(0, WAIT, ToWait)), WAIT, -1);
    assert SleepDrop(s1, 0, s2);
    us, bs := Step(us, bs, BY_INIT, s2);
    var s3 := Set(s2, 0, s2.procs[0].(chan := 0, state := SLEEPING, pc := Marked(IN_WAIT)));
    assert SleepMark(s2, 0, s3);
    us, bs := Step(us, bs, BY_INIT, s3);
    var s4 := SetPc(s3, 0, Switched(IN_WAIT));
    assert Switch(s3, 0, s4);
    us, bs := Step(us, bs, BY_INIT, s4);
    var s5 := Set(s4, 0, s4.procs[0].(lock := false, on := -1, pc := Parked(IN_WAIT))).(cpus := s4.cpus[0 := -1]);
    assert Unload(s4, 0, s5);
    us, bs := Step(us, bs, BY_INIT, s5);
  }

  /** A run that leaves a killed process asleep in `wait`: it was killed after it had looked. */
  lemma KillLost() returns (ss: seq<Sys>, acts: seq<Act>)
    ensures Run(ss, acts) && Sized(ss[|acts|])
    ensures var p := ss[|acts|].procs[INIT]; p.killed && p.state == SLEEPING && DozingInWait(p) && Lost(p)
  {
    ss, acts := WillSleep();
    var s := ss[|acts|];
    var s1 := Set(s, 0, s.procs[0].(killed := true));
    assert Kill(s, 0, s1);
    ss, acts := Step(ss, acts, BY_INIT, s1);
    ss, acts := FallsAsleep(ss, acts, true);
  }

  // The child exits and is reaped.

  lemma ChildRuns() returns (ss: seq<Sys>, acts: seq<Act>)
    ensures Run(ss, acts) && |ss| == |acts| + 1 && Alone(ss[|acts|], SLEEPS, LIVES.(pc := Exiting(0)), 1, 1)
    ensures ss[|acts|].reaped == {}
  {
    hide Run;
    ss, acts := WillSleep();
    ss, acts := FallsAsleep(ss, acts, false);
    var s := ss[|acts|];
    var s1 := Set(s, 1, CHILD.(state := RUNNING, lock := true, on := 0, pc := Resumed(Start))).(cpus := s.cpus[0 := 1]);
    assert Pick(s, 0, 1, s1);
    ss, acts := Step(ss, acts, BY_CHILD, s1);
    var s2 := Set(s1, 1, LIVES);
    assert Unlock(s1, 1, s2);
    ss, acts := Step(ss, acts, BY_CHILD, s2);
    var s3 := SetLock(SetPc(s2, 1, Exiting(0)), WAIT, 1);
    assert ExitStart(s2, 1, s3);
    ss, acts := Step(ss, acts, BY_CHILD, s3);
  }

  lemma {:induction false} NoChildren(n: nat) returns (ss: seq<Sys>, acts: seq<Act>)
    requires n <= NPROC
    ensures Run(ss, acts) && |ss| == |acts| + 1 && Alone(ss[|acts|], SLEEPS, LIVES.(pc := Exiting(n)), 1, 1)
    ensures ss[|acts|].reaped == {}
  {
    hide Run;
    if n == 0 {
      ss, acts := ChildRuns();
    } else {
      ss, acts := NoChildren(n - 1);
      var s := ss[|acts|];
      var s1 := SetPc(s, 1, Exiting(n));
      assert ReparentPass(s, 1, s1);
      ss, acts := Step(ss, acts, BY_CHILD, s1);
    }
  }

  /** Its `wakeup` has woken init up, and goes through the other slots. */
  lemma {:induction false} InitWoken(n: nat) returns (ss: seq<Sys>, acts: seq<Act>)
    requires n <= NPROC
    ensures Run(ss, acts) && |ss| == |acts| + 1 && ss[|acts|].reaped == {}
    ensures Alone(ss[|acts|], if n == 0 then SLEEPS else SLEEPS.(state := RUNNABLE), LIVES.(pc := Waking(0, n, ToZombie)), 1, 1)
  {
    hide Run;
    if n == 0 {
      ss, acts := NoChildren(NPROC);
      var s := ss[|acts|];
      var s1 := SetPc(s, 1, Waking(0, 0, ToZombie));
      assert ExitWake(s, 1, s1);
      ss, acts := Step(ss, acts, BY_CHILD, s1);
    } else {
      ss, acts := InitWoken(n - 1);
      var s := ss[|acts|];
      var s1 := SetPc(if n == 1 then Set(s, 0, SLEEPS.(state := RUNNABLE)) else s, 1, Waking(0, n, ToZombie));
      assert n != 2 ==> Set(s, n - 1, s1.procs[n - 1]).procs[n - 1] == Woken(s.procs[n - 1], 0);
      assert n > 2 ==> Set(s, n - 1, s.procs[n - 1]) == s;
      assert WakeVisit(s, 1, s1);
      ss, acts := Step(ss, acts, BY_CHILD, s1);
    }
  }

  lemma ChildDead() returns (ss: seq<Sys>, acts: seq<Act>)
    ensures Run(ss, acts) && |ss| == |acts| + 1 && ss[|acts|].reaped == {}
    ensures Alone(ss[|acts|], SLEEPS.(state := RUNNABLE), GONE.(lock := true, on := 0, pc := Marked(Never)), -1, 1)
  {
    hide Run;
    ss, acts := InitWoken(NPROC);
    var s := ss[|acts|];
    var s1 := Set(s, 1, s.procs[1].(lock := true, pc := InExit));
    assert WakeEnd(s, 1, s1);
    ss, acts := Step(ss, acts, BY_CHILD, s1);
    var s2 := Set(s1, 1, s1.procs[1].(state := ZOMBIE, pc := Dead));
    assert ExitMark(s1, 1, s2);
    ss, acts := Step(ss, acts, BY_CHILD, s2);
    var s3 := SetLock(SetPc(s2, 1, Marked(Never)), WAIT, -1);
    assert ExitDrop(s2, 1, s3);
    ss, acts := Step(ss, acts, BY_CHILD, s3);
  }

  /** The child is a zombie, off its CPU. */
  lemma ChildGone() returns (ss: seq<Sys>, acts: seq<Act>)
    ensures Run(ss, acts) && |ss| == |acts| + 1 && Alone(ss[|acts|], SLEEPS.(state := RUNNABLE), GONE, -1, -1)
    ensures ss[|acts|].reaped == {}
  {
    hide Run;
    ss, acts := ChildDead();
    var s := ss[|acts|];
    var s1 := SetPc(s, 1, Switched(Never));
    assert Switch(s, 1, s1);
    ss, acts := Step(ss, acts, BY_CHILD, s1);
    var s2 := Set(s1, 1, GONE).(cpus := s1.cpus[0 := -1]);
    assert Unload(s1, 1, s2);
    ss, acts := Step(ss, acts, BY_CHILD, s2);
  }

  /** Init is in its loop again. */
  lemma LooksAgain() returns (ss: seq<Sys>, acts: seq<Act>)
    ensures Run(ss, acts) && |ss| == |acts| + 1 && Alone(ss[|acts|], RUNS.(pc := Waiting(0, false)), GONE, 0, 0)
    ensures ss[|acts|].reaped == {}
  {
    hide Run;
    ss, acts := ChildGone();
    var s := ss[|acts|];
    var p := s.procs[0].(state := RUNNING, lock := true, on := 0, pc := Resumed(IN_WAIT));
    var s1 := Set(s, 0, p).(cpus := s.cpus[0 := 0]);
    assert Pick(s, 0, 0, s1);
    ss, acts := Step(ss, acts, Act(0, 0, 0), s1);
    var s2 := Set(s1, 0, p.(chan := 0, lock := false, pc := Reacquire(WAIT, ToWait)));
    assert Unlock(s1, 0, s2);
    ss, acts := Step(ss, acts, BY_INIT, s2);
    var s3 := SetLock(SetPc(s2, 0, Waiting(0, false)), WAIT, 0);
    assert Relock(s2, 0, s3);
    ss, acts := Step(ss, acts, BY_INIT, s3);
  }

  /** A whole life: forked, run, exited, and reaped by a parent that its exit woke up. */
  lemma ChildReaped() returns (ss: seq<Sys>, acts: seq<Act>)
    ensures Run(ss, acts) && |ss| == |acts| + 1 && Alone(ss[|acts|], RUNS, NOBODY, -1, 0) && ss[|acts|].reaped == {2}
  {
    hide Run;
    ss, acts := LooksAgain();
    var s := ss[|acts|];
    var s1 := SetPc(s, 0, Waiting(1, false));
    assert WaitPass(s, 0, s1);
    ss, acts := Step(ss, acts, BY_INIT, s1);
    var s2 := SetLock(Set(SetPc(s1, 0, Code), 1, NOBODY), WAIT, -1).(reaped := s1.reaped + {2});
    assert Reap(s1, 0, s2);
    ss, acts := Step(ss, acts, BY_INIT, s2);
  }
}
