/**
 kernel/sleeplock.c on top of the process steps of `Proc`: `sleep` and `wakeup` are the real ones,
 with every interleaving between giving up the spin lock, falling asleep and being woken up. One
 sleep lock is followed; `l` is its spin lock and `c` its channel.
 */
module Sleeplock {
  import opened Proc

  /** How far a process has got with the sleep lock. */
  datatype Role =
    | Out          // neither holds nor wants it
    | Testing      // acquiresleep: has the spin lock, is about to test `locked`
    | Sleeping     // acquiresleep: in `sleep`, from its call to its return
    | Taking       // acquiresleep: has set `locked`
    | Owner        // between acquiresleep and releasesleep
    | Freeing      // releasesleep: has the spin lock
    | Cleared      // releasesleep: has cleared `locked`
    | Calling      // releasesleep: in `wakeup`
    | Called       // releasesleep: `wakeup` has returned
    | Asking(owns: bool) // holdingsleep: has the spin lock, called by an owner or not

  /** `owner` is bookkeeping: the process that holds the sleep lock, -1 for none. */
  datatype State = State(k: Sys, locked: bool, pid: nat, owner: int, roles: seq<Role>)

  predicate HasSpin(r: Role) {
    r.Testing? || r.Taking? || r.Freeing? || r.Cleared? || r.Calling? || r.Called? || r.Asking?
  }

  predicate HasLock(r: Role) {
    r.Taking? || r.Owner? || r.Freeing? || (r.Asking? && r.owns)
  }

  /** In code of the sleep lock that calls nothing. */
  predicate Fixed(r: Role) {
    HasSpin(r) && !r.Calling?
  }

  // ---------------------------------------------- what a step does to one process

  /** In `sleep(c, l)`, perhaps interrupted at its end. */
  predicate OnPath(pc: Pc, c: nat, l: nat) {
    || pc == InSleep(c, l, ToCode) || pc == Dropped(c, l, ToCode)
    || ((pc.Marked? || pc.Switched? || pc.Parked? || pc.Resumed?) && pc.k == AfterSleep(c, l, ToCode))
    || At(pc) == Reacquire(l, ToCode)
  }

  /** In some `sleep` with lock `l`. */
  predicate Uses(pc: Pc, l: nat) {
    || ((pc.InSleep? || pc.Dropped?) && pc.l == l)
    || ((pc.Marked? || pc.Switched? || pc.Parked? || pc.Resumed?) && pc.k.AfterSleep? && pc.k.l == l)
    || (At(pc).Reacquire? && At(pc).l == l)
  }

  predicate Leaving(pc: Pc) {
    || pc.Exiting? || pc.InExit? || pc.Dead? || (pc.Waking? && pc.next != ToCaller)
    || ((pc.Marked? || pc.Switched? || pc.Parked? || pc.Resumed?) && pc.k.Never?)
  }

  predicate Moves(p: P, p': P, c: nat, l: nat) {
    && (OnPath(p.pc, c, l) ==> OnPath(p'.pc, c, l) || p'.pc == Code)
    && (Uses(p'.pc, l) ==> Uses(p.pc, l) || p'.pc.InSleep?)
    && (Dozing(p') ==> Dozing(p) || p.pc.InSleep?)
    && (Alive(p) && !Leaving(p.pc) ==> Alive(p') && p'.pid == p.pid && (Leaving(p'.pc) ==> p'.pc.Exiting?))
  }

  lemma ChildPc(s: Sys, i: nat)
    requires Inv(s) && i < NPROC && s.procs[i].pc.Fork1?
    ensures s.procs[i].pc.child < NPROC && s.procs[s.procs[i].pc.child].pc == Building
    ensures s.procs[s.procs[i].pc.child].state == USED
  {
    hide Inv, NotForgotten;
    Facts(s, i, i);
    Facts(s, i, s.procs[i].pc.child);
  }

  /** Neither in `sleep` nor in `yield`. */
  predicate Quiet(pc: Pc) {
    || pc.Nothing? || pc.Building? || pc.Code? || pc.Waking? || pc.Fork1? || pc.Fork2? || pc.Fork3?
    || pc.Exiting? || pc.InExit? || pc.Dead? || pc.Waiting? || pc.Decided?
    || ((pc.Marked? || pc.Switched? || pc.Parked? || pc.Resumed?) && (pc.k.Never? || pc.k.Start?))
  }

  predicate Lives(p: P, p': P) {
    Alive(p) && !Leaving(p.pc) ==> Alive(p') && p'.pid == p.pid && (Leaving(p'.pc) ==> p'.pc.Exiting?)
  }

  lemma QuietMoves(p: P, p': P, c: nat, l: nat)
    requires Quiet(p.pc) && Quiet(p'.pc) && Lives(p, p')
    ensures Moves(p, p', c, l)
  {
  }

  lemma SameMoves(p: P, p': P, c: nat, l: nat)
    requires p'.pc == p.pc && p'.pid == p.pid && (p'.state == p.state || (p'.state == RUNNABLE && p.state in {SLEEPING, USED}))
    ensures Moves(p, p', c, l)
  {
  }

  lemma SleepMoves(p: P, p': P, c: nat, l: nat)
    requires l > WAIT && Lives(p, p')
    requires
      || (p.pc.Reacquire? && p'.pc == if p.pc.ret == ToCode then Code else Waiting(0, false))
      || (p.pc == Code && p'.pc.InSleep?)
      || (p.pc == Decided && p'.pc.InSleep? && p'.pc.l == WAIT)
      || (p.pc.InSleep? && p'.pc == Dropped(p.pc.c, p.pc.l, p.pc.ret))
      || (p.pc.Dropped? && p'.pc == Marked(AfterSleep(p.pc.c, p.pc.l, p.pc.ret)))
    ensures Moves(p, p', c, l)
  {
  }

  lemma SwitchMoves(p: P, p': P, c: nat, l: nat)
    requires Lives(p, p')
    requires
      || (p.pc.Marked? && p'.pc == Switched(p.pc.k) && p'.state == p.state)
      || (p.pc.Switched? && p'.pc == Parked(p.pc.k) && p'.state == p.state)
      || (p.pc.Parked? && p'.pc == Resumed(p.pc.k))
      || (p.pc.Resumed? && p.pc.k.AfterSleep? && p'.pc == Reacquire(p.pc.k.l, p.pc.k.ret))
      || (p.pc.Resumed? && !p.pc.k.AfterSleep? && p'.pc == if p.pc.k.AfterYield? then PcOf(p.pc.k.at) else Code)
      || ((p.pc == Code || p.pc.Fork2? || p.pc.Fork3? || p.pc.Reacquire?) && p'.pc == InYield(PointOf(p.pc)))
      || (p.pc.InYield? && p'.pc == Marked(AfterYield(p.pc.at)))
    ensures Moves(p, p', c, l)
  {
  }

  lemma ScheduledMoves(s: Sys, a: Act, s': Sys, j: nat, c: nat, l: nat)
    requires Inv(s) && Scheduled(s, a, s') && j < NPROC && l > WAIT
    ensures Sized(s') && Moves(s.procs[j], s'.procs[j], c, l)
  {
    hide Inv, Set, Moves, Dozing, OnPath, Uses;
    if Pick(s, a.x, a.i, s') { LoadsSavedContext(s, a.x, a.i, s'); }
    if j != a.i {
      SameMoves(s.procs[j], s'.procs[j], c, l);
    } else {
      SwitchMoves(s.procs[j], s'.procs[j], c, l);
    }
  }

  lemma SleptMoves(s: Sys, a: Act, s': Sys, j: nat, c: nat, l: nat)
    requires Inv(s) && Slept(s, a, s') && j < NPROC && l > WAIT
    ensures Sized(s') && Moves(s.procs[j], s'.procs[j], c, l)
  {
    hide Inv, Set, Moves, Dozing, OnPath, Uses;
    if j != a.i {
      SameMoves(s.procs[j], s'.procs[j], c, l);
    } else {
      SleepMoves(s.procs[j], s'.procs[j], c, l);
    }
  }

  lemma WokeMoves(s: Sys, a: Act, s': Sys, j: nat, c: nat, l: nat)
    requires Inv(s) && Woke(s, a, s') && j < NPROC && l > WAIT
    ensures Sized(s') && Moves(s.procs[j], s'.procs[j], c, l)
  {
    hide Inv, Set, Moves, Dozing, OnPath, Uses;
    if j == a.i && WakeVisit(s, a.i, s') {
      QuietMoves(s.procs[j], s'.procs[j], c, l);
    } else {
      SameMoves(s.procs[j], s'.procs[j], c, l);
    }
  }

  lemma WentMoves(s: Sys, a: Act, s': Sys, j: nat, c: nat, l: nat)
    requires Inv(s) && Went(s, a, s') && j < NPROC && l > WAIT
    ensures Sized(s') && Moves(s.procs[j], s'.procs[j], c, l)
  {
    hide Inv, Set, Moves, Dozing, OnPath, Uses;
    if j != a.i {
      SameMoves(s.procs[j], s'.procs[j], c, l);
    } else {
      QuietMoves(s.procs[j], s'.procs[j], c, l);
    }
  }

  lemma ExitedMoves(s: Sys, a: Act, s': Sys, j: nat, c: nat, l: nat)
    requires Inv(s) && Exited(s, a, s') && j < NPROC && l > WAIT
    ensures Sized(s') && Moves(s.procs[j], s'.procs[j], c, l)
  {
    hide Inv, Set, Moves, Dozing, OnPath, Uses;
    if j != a.i {
      SameMoves(s.procs[j], s'.procs[j], c, l);
    } else {
      QuietMoves(s.procs[j], s'.procs[j], c, l);
    }
  }

  lemma ForkedMoves(s: Sys, a: Act, s': Sys, j: nat, c: nat, l: nat)
    requires Inv(s) && Forked(s, a, s') && j < NPROC && l > WAIT
    ensures Sized(s') && Moves(s.procs[j], s'.procs[j], c, l)
  {
    hide Inv, Moves, AllocFail, ForkRelease;
    if Alloc(s, a.i, a.x, s') { AllocMoves(s, a.i, a.x, s', j, c, l); } else { ChildMoves(s, a, s', j, c, l); }
  }

  lemma AllocMoves(s: Sys, i: nat, n: nat, s': Sys, j: nat, c: nat, l: nat)
    requires Inv(s) && Alloc(s, i, n, s') && j < NPROC && l > WAIT
    ensures Sized(s') && Moves(s.procs[j], s'.procs[j], c, l)
  {
    hide Inv, Set, Moves, Dozing, OnPath, Uses;
    SlotFacts(s, n);
    if s.procs[j].pc == s'.procs[j].pc {
      SameMoves(s.procs[j], s'.procs[j], c, l);
    } else {
      QuietMoves(s.procs[j], s'.procs[j], c, l);
    }
  }

  lemma ChildMoves(s: Sys, a: Act, s': Sys, j: nat, c: nat, l: nat)
    requires Inv(s) && (AllocFail(s, a.i, s') || ForkRelease(s, a.i, s')) && j < NPROC && l > WAIT
    ensures Sized(s') && Moves(s.procs[j], s'.procs[j], c, l)
  {
    hide Inv, Set, Moves, Dozing, OnPath, Uses;
    if s.procs[a.i].pc.Fork1? { ChildPc(s, a.i); }
    if s.procs[j].pc == s'.procs[j].pc {
      SameMoves(s.procs[j], s'.procs[j], c, l);
    } else {
      QuietMoves(s.procs[j], s'.procs[j], c, l);
    }
  }

  lemma PairedMoves(s: Sys, a: Act, s': Sys, j: nat, c: nat, l: nat)
    requires Inv(s) && Paired(s, a, s') && j < NPROC && l > WAIT
    ensures Sized(s') && Moves(s.procs[j], s'.procs[j], c, l)
  {
    hide Inv, Set, Moves, Dozing, OnPath, Uses;
    if Reap(s, a.i, s') { ZombieParked(s, s.procs[a.i].pc.i); }
    if s.procs[j].pc == s'.procs[j].pc {
      if s'.procs[j].state == RUNNABLE { ChildUsed(s, a.i); }
      SameMoves(s.procs[j], s'.procs[j], c, l);
    } else {
      QuietMoves(s.procs[j], s'.procs[j], c, l);
    }
  }

  lemma NextMoves(s: Sys, a: Act, s': Sys, j: nat, c: nat, l: nat)
    requires Inv(s) && Next(s, a, s') && j < NPROC && l > WAIT
    ensures Sized(s') && Moves(s.procs[j], s'.procs[j], c, l)
  {
    hide Inv, Moves, HandlerStep, HandlerVisit, Pick, Acquire, Release, SleepLock, WakeStart, Alloc, Unlock, Relock;
    hide YieldLock, YieldMark, SleepDrop, SleepMark, Switch, Unload, Kill, ExitStart, ExitDrop, WaitStart, WaitEnd, WaitSleep;
    hide WaitFault, WakeEnd, ExitWake, ExitMark, WaitPass, ReparentPass, WakeVisit, AllocFail, ForkRelease, ForkParent;
    hide ForkRun, Reparent, Reap;
    if Scheduled(s, a, s') {
      ScheduledMoves(s, a, s', j, c, l);
    } else if Slept(s, a, s') {
      SleptMoves(s, a, s', j, c, l);
    } else if Woke(s, a, s') {
      WokeMoves(s, a, s', j, c, l);
    } else if Went(s, a, s') {
      WentMoves(s, a, s', j, c, l);
    } else if Exited(s, a, s') {
      ExitedMoves(s, a, s', j, c, l);
    } else if Forked(s, a, s') {
      ForkedMoves(s, a, s', j, c, l);
    } else {
      PairedMoves(s, a, s', j, c, l);
    }
  }

  // ------------------------------------------------------------------ invariant

  /** What process `j` may be doing. */
  predicate RoleOk(s: State, c: nat, l: nat, j: nat)
    requires Sized(s.k) && l < |s.k.locks| && |s.roles| == NPROC && j < NPROC
  {
    var p, r := s.k.procs[j], s.roles[j];
    && (s.k.locks[l] == j <==> HasSpin(r) || (r.Sleeping? && p.pc.InSleep?))
    && (Fixed(r) ==> p.pc == Code)
    && (r.Calling? ==> p.pc.Waking? && p.pc.c == c && p.pc.next == ToCaller)
    && (r.Sleeping? ==> OnPath(p.pc, c, l) && (p.pc.InSleep? ==> s.locked))
    && (Uses(p.pc, l) ==> r.Sleeping?)
    && (HasLock(r) <==> s.owner == j)
    && (HasLock(r) ==> Alive(p) && !Leaving(p.pc) && p.pid == s.pid)
    && (Dozing(p) && r.Sleeping? ==> s.locked || Wakener(s, l))
  }

  /** The holder of the spin lock has cleared `locked` and not yet finished its `wakeup`. */
  predicate Wakener(s: State, l: nat)
    requires l < |s.k.locks| && |s.roles| == NPROC
  {
    0 <= s.k.locks[l] < NPROC && (s.roles[s.k.locks[l]].Cleared? || s.roles[s.k.locks[l]].Calling?)
  }

  ghost predicate Good(s: State, c: nat, l: nat) {
    && Inv(s.k) && WAIT < l < |s.k.locks| && |s.roles| == NPROC && s.k.locks[l] < NPROC
    && -1 <= s.owner < NPROC && (s.locked <==> s.owner != -1)
    && forall j :: 0 <= j < NPROC ==> RoleOk(s, c, l, j)
  }

  // ---------------------------------------------------------------------- steps

  /** Nobody touches the spin lock but a process that has called `sleep` with it and now gives it up. */
  predicate LeavesLock(s: State, k': Sys, l: nat)
    requires Sized(s.k) && l < |s.k.locks| && |s.roles| == NPROC && l < |k'.locks|
  {
    var h := s.k.locks[l];
    k'.locks[l] == h || (0 <= h < NPROC && s.roles[h].Sleeping? && k'.locks[l] == -1)
  }

  /**
   What process `j` may do in a step that is no step of the sleep lock's code. Inside that code it
   does nothing else; it does not call `sleep` with the spin lock outside, and no owner exits.
   */
  predicate MayDo(r: Role, p: P, p': P, l: nat) {
    && (Fixed(r) ==> p'.pc == p.pc)
    && (r.Calling? && p.pc.Waking? ==> p'.pc.Waking? && p'.pc.c == p.pc.c && p'.pc.next == p.pc.next)
    && (r.Sleeping? ==> p'.pc != Code) && (r.Owner? ==> !p'.pc.Exiting?)
    && (p'.pc.InSleep? && p'.pc.l == l ==> p'.pc == p.pc)
  }

  /** A step of any process, scheduler or handler outside the sleep lock's code. */
  ghost predicate Elsewhere(s: State, a: Act, l: nat, s': State) {
    && Sized(s.k) && WAIT < l < |s.k.locks| && |s.roles| == NPROC
    && Next(s.k, a, s'.k) && Sized(s'.k) && |s'.k.locks| == |s.k.locks| && s' == s.(k := s'.k)
    && LeavesLock(s, s'.k, l)
    && (forall j :: 0 <= j < NPROC ==> MayDo(s.roles[j], s.k.procs[j], s'.k.procs[j], l))
  }

  function Go(s: State, k: Sys, i: nat, r: Role): State
    requires i < |s.roles|
  {
    s.(k := k, roles := s.roles[i := r])
  }

  predicate MayAsk(r: Role) {
    r.Out? || r.Owner?
  }

  function Answered(owns: bool): Role {
    if owns then Owner else Out
  }

  datatype Step = Enter | GoToSleep | Return | Take | Taken | Leave | Clear | Call | Back | Done | Ask | Answer

  /** A step of process `i` in the code of the sleep lock. */
  ghost predicate Inside(s: State, i: nat, a: Step, c: nat, l: nat, s': State) {
    && Sized(s.k) && |s.roles| == NPROC && i < NPROC
    && match a
       case Enter => s.roles[i].Out? && Acquire(s.k, i, l, s'.k) && s' == Go(s, s'.k, i, Testing)
       case GoToSleep => s.roles[i].Testing? && s.locked && SleepLock(s.k, i, c, l, s'.k) && s' == Go(s, s'.k, i, Sleeping)
       case Return => s.roles[i].Sleeping? && Relock(s.k, i, s'.k) && s' == Go(s, s'.k, i, Testing)
       case Take => s.roles[i].Testing? && !s.locked
         && s' == Go(s, s.k, i, Taking).(locked := true, pid := s.k.procs[i].pid, owner := i)
       case Taken => s.roles[i].Taking? && Release(s.k, i, l, s'.k) && s' == Go(s, s'.k, i, Owner)
       case Leave => s.roles[i].Owner? && Acquire(s.k, i, l, s'.k) && s' == Go(s, s'.k, i, Freeing)
       case Clear => s.roles[i].Freeing? && s' == Go(s, s.k, i, Cleared).(locked := false, pid := 0, owner := -1)
       case Call => s.roles[i].Cleared? && WakeStart(s.k, i, c, s'.k) && s' == Go(s, s'.k, i, Calling)
       case Back => s.roles[i].Calling? && WakeEnd(s.k, i, s'.k) && s' == Go(s, s'.k, i, Called)
       case Done => s.roles[i].Called? && Release(s.k, i, l, s'.k) && s' == Go(s, s'.k, i, Out)
       case Ask => MayAsk(s.roles[i]) && Acquire(s.k, i, l, s'.k) && s' == Go(s, s'.k, i, Asking(s.roles[i].Owner?))
       case Answer => s.roles[i].Asking? && Release(s.k, i, l, s'.k) && s' == Go(s, s'.k, i, Answered(s.roles[i].owns))
  }

  // ---------------------------------------------------------------- preservation

  lemma ElsewhereKeeps(s: State, a: Act, c: nat, l: nat, s': State)
    requires Good(s, c, l) && Elsewhere(s, a, l, s')
    ensures Good(s', c, l)
  {
    hide Inv, Next, RoleOk, MayDo;
    NextKeeps(s.k, a, s'.k);
    forall j | 0 <= j < NPROC ensures RoleOk(s', c, l, j) { ElsewhereRole(s, a, c, l, s', j); }
  }

  lemma ElsewhereRole(s: State, a: Act, c: nat, l: nat, s': State, j: nat)
    requires Good(s, c, l) && Elsewhere(s, a, l, s') && Inv(s'.k) && j < NPROC
    ensures RoleOk(s', c, l, j)
  {
    hide Inv, Next, Pair, NotForgotten, OnPath, Uses, Dozing, Leaving;
    assert RoleOk(s, c, l, j);
    var h := s.k.locks[l];
    if 0 <= h < NPROC { assert RoleOk(s, c, l, h); }
    NextMoves(s.k, a, s'.k, j, c, l);
    PathFacts(s'.k, j, c, l);
  }

  /** In `sleep(c, l)` a process holds `l` exactly before it gives it up. */
  lemma PathFacts(k: Sys, j: nat, c: nat, l: nat)
    requires Inv(k) && j < NPROC && l < |k.locks|
    ensures var pc := k.procs[j].pc;
      && (OnPath(pc, c, l) ==> (k.locks[l] == j <==> pc.InSleep?))
      && (Uses(pc, l) && pc.InSleep? ==> pc.l == l)
      && (Dozing(k.procs[j]) && OnPath(pc, c, l) ==> DozeChan(pc) == c && DozeLock(pc) == l)
  {
    hide Inv, Pair, NotForgotten;
    Facts(k, j, j);
  }

  /** One process' role has changed, and perhaps the spin lock with it. */
  lemma InsideKeeps(s: State, i: nat, a: Step, c: nat, l: nat, s': State)
    requires Good(s, c, l) && Inside(s, i, a, c, l, s')
    ensures Good(s', c, l)
  {
    hide Inv, RoleOk, Acquire, Release, SleepLock, Relock, WakeStart, WakeEnd;
    assert RoleOk(s, c, l, i);
    InsideInv(s, i, a, c, l, s');
    InsideOwner(s, i, a, c, l, s');
    Facts(s'.k, i, i);
    forall j | 0 <= j < NPROC ensures RoleOk(s', c, l, j) {
      if j == i { InsideOwn(s, i, a, c, l, s'); } else { InsideOther(s, i, a, c, l, s', j); }
    }
  }

  lemma InsideInv(s: State, i: nat, a: Step, c: nat, l: nat, s': State)
    requires Good(s, c, l) && Inside(s, i, a, c, l, s')
    ensures Inv(s'.k)
  {
    hide Inv, RoleOk, Acquire, Release, SleepLock, Relock, WakeStart, WakeEnd;
    match a
    case Enter => AcquireKeeps(s.k, i, l, s'.k);
    case GoToSleep => SleepLockKeeps(s.k, i, c, l, s'.k);
    case Return => RelockKeeps(s.k, i, s'.k);
    case Taken => ReleaseKeeps(s.k, i, l, s'.k);
    case Leave => AcquireKeeps(s.k, i, l, s'.k);
    case Call => WakeStartKeeps(s.k, i, c, s'.k);
    case Back => WakeEndKeeps(s.k, i, s'.k);
    case Done => ReleaseKeeps(s.k, i, l, s'.k);
    case Ask => AcquireKeeps(s.k, i, l, s'.k);
    case Answer => ReleaseKeeps(s.k, i, l, s'.k);
    case _ =>
  }

  lemma InsideOwner(s: State, i: nat, a: Step, c: nat, l: nat, s': State)
    requires Good(s, c, l) && Inside(s, i, a, c, l, s')
    ensures |s'.k.locks| == |s.k.locks| && |s'.roles| == NPROC && s'.k.locks[l] < NPROC
    ensures -1 <= s'.owner < NPROC && (s'.locked <==> s'.owner != -1)
  {
    hide Inv, Uses, Dozing, Leaving;
    assert RoleOk(s, c, l, i);
  }

  /** A step that takes or gives back the spin lock. */
  predicate Locks(a: Step) {
    a in {Enter, Taken, Leave, Done, Ask, Answer}
  }

  lemma InsideOwn(s: State, i: nat, a: Step, c: nat, l: nat, s': State)
    requires Good(s, c, l) && Inside(s, i, a, c, l, s') && Inv(s'.k)
    requires |s'.k.locks| == |s.k.locks| && |s'.roles| == NPROC
    ensures RoleOk(s', c, l, i)
  {
    hide Inv, RoleOk, Inside;
    if Locks(a) {
      OwnLocks(s, i, a, c, l, s');
    } else if a == GoToSleep || a == Return {
      OwnSleeps(s, i, a, c, l, s');
    } else {
      OwnCalls(s, i, a, c, l, s');
    }
  }

  lemma OwnLocks(s: State, i: nat, a: Step, c: nat, l: nat, s': State)
    requires Good(s, c, l) && Inside(s, i, a, c, l, s') && Inv(s'.k) && Locks(a)
    requires |s'.k.locks| == |s.k.locks| && |s'.roles| == NPROC
    ensures RoleOk(s', c, l, i)
  {
    hide Inv, Local, Pair, NotForgotten, Set, SleepLock, Relock, WakeStart, WakeEnd, OnPath, Uses, Dozing, Leaving;
    assert RoleOk(s, c, l, i);
    Facts(s.k, i, i);
    PathFacts(s.k, i, c, l);
    CodeRuns(s.k, i);
  }

  lemma OwnSleeps(s: State, i: nat, a: Step, c: nat, l: nat, s': State)
    requires Good(s, c, l) && Inside(s, i, a, c, l, s') && Inv(s'.k) && (a == GoToSleep || a == Return)
    requires |s'.k.locks| == |s.k.locks| && |s'.roles| == NPROC
    ensures RoleOk(s', c, l, i)
  {
    hide Inv, Local, Pair, NotForgotten, Set, Acquire, Release, WakeStart, WakeEnd, Leaving;
    assert RoleOk(s, c, l, i);
    PathFacts(s.k, i, c, l);
  }

  lemma OwnCalls(s: State, i: nat, a: Step, c: nat, l: nat, s': State)
    requires Good(s, c, l) && Inside(s, i, a, c, l, s') && Inv(s'.k) && a in {Take, Clear, Call, Back}
    requires |s'.k.locks| == |s.k.locks| && |s'.roles| == NPROC
    ensures RoleOk(s', c, l, i)
  {
    hide Inv, Local, Pair, NotForgotten, Set, Acquire, Release, SleepLock, Relock, OnPath;
    assert RoleOk(s, c, l, i);
    CodeRuns(s.k, i);
  }

  lemma CodeRuns(k: Sys, i: nat)
    requires Inv(k) && i < NPROC
    ensures k.procs[i].pc == Code ==> Alive(k.procs[i])
  {
    hide Inv, Pair, NotForgotten;
    Facts(k, i, i);
  }

  lemma InsideOther(s: State, i: nat, a: Step, c: nat, l: nat, s': State, j: nat)
    requires Good(s, c, l) && Inside(s, i, a, c, l, s') && Inv(s'.k) && j < NPROC && j != i
    requires |s'.k.locks| == |s.k.locks| && |s'.roles| == NPROC
    ensures RoleOk(s', c, l, j)
  {
    hide Inv, Local, Pair, NotForgotten, OnPath, Uses, Dozing, Leaving;
    assert RoleOk(s, c, l, i) && RoleOk(s, c, l, j);
    PathFacts(s.k, j, c, l);
    PathFacts(s.k, i, c, l);
    if a == Back { NoLostWakeup(s.k, i, c, l, j); }
  }

  // ----------------------------------------------------------------------- runs

  datatype Move = In(i: nat, step: Step) | Else(act: Act)

  ghost predicate Moved(s: State, m: Move, c: nat, l: nat, s': State) {
    match m
    case In(i, step) => Inside(s, i, step, c, l, s')
    case Else(act) => Elsewhere(s, act, l, s')
  }

  /** After boot and `initsleeplock`. */
  ghost predicate Initial(s: State, l: nat) {
    && Boot(s.k) && WAIT < l < |s.k.locks| && !s.locked && s.pid == 0 && s.owner == -1
    && |s.roles| == NPROC && forall j :: 0 <= j < NPROC ==> s.roles[j].Out?
  }

  ghost predicate Runs(ss: seq<State>, ms: seq<Move>, c: nat, l: nat) {
    |ss| == |ms| + 1 && Initial(ss[0], l) && forall t :: 0 <= t < |ms| ==> Moved(ss[t], ms[t], c, l, ss[t + 1])
  }

  lemma InitialGood(s: State, c: nat, l: nat)
    requires Initial(s, l)
    ensures Good(s, c, l)
  {
    BootInv(s.k);
  }

  lemma {:induction false} RunsKeep(ss: seq<State>, ms: seq<Move>, c: nat, l: nat)
    requires Runs(ss, ms, c, l)
    ensures Good(ss[|ms|], c, l)
    decreases |ms|
  {
    hide Good, Initial, Inside, Elsewhere;
    var n := |ms|;
    if n == 0 {
      InitialGood(ss[0], c, l);
    } else {
      RunsKeep(ss[..n], ms[..n - 1], c, l);
      match ms[n - 1]
      case In(i, step) => InsideKeeps(ss[n - 1], i, step, c, l, ss[n]);
      case Else(act) => ElsewhereKeeps(ss[n - 1], act, c, l, ss[n]);
    }
  }

  /**
   In every run at most one process owns the lock, and `holdingsleep`, which compares pids, tells
   every process exactly whether it is the one.
   */
  lemma MutualExclusion(ss: seq<State>, ms: seq<Move>, c: nat, l: nat, i: nat, j: nat)
    requires Runs(ss, ms, c, l) && i < NPROC && j < NPROC
    ensures var s := ss[|ms|];
      && Sized(s.k) && |s.roles| == NPROC
      && (HasLock(s.roles[i]) && HasLock(s.roles[j]) ==> i == j)
      && (Alive(s.k.procs[i]) ==> (s.locked && s.pid == s.k.procs[i].pid <==> HasLock(s.roles[i])))
  {
    hide Inv, Local, NotForgotten, Initial, Moved, OnPath, Uses;
    RunsKeep(ss, ms, c, l);
    var s := ss[|ms|];
    Facts(s.k, i, j);
    assert RoleOk(s, c, l, i) && RoleOk(s, c, l, j);
    if s.locked {
      assert RoleOk(s, c, l, s.owner);
      Facts(s.k, i, s.owner);
    }
  }

  /** So `holdingsleep` returns, under the spin lock, whether its caller owns the sleep lock. */
  lemma Holdingsleep(ss: seq<State>, ms: seq<Move>, c: nat, l: nat, i: nat)
    requires Runs(ss, ms, c, l) && i < NPROC && |ss[|ms|].roles| == NPROC && ss[|ms|].roles[i].Asking?
    ensures var s := ss[|ms|];
      Sized(s.k) && ((s.locked && s.pid == s.k.procs[i].pid) <==> s.roles[i].owns)
  {
    hide Inv, Initial, Moved, OnPath, Uses, Dozing, Leaving;
    MutualExclusion(ss, ms, c, l, i, i);
    RunsKeep(ss, ms, c, l);
    assert RoleOk(ss[|ms|], c, l, i);
    CodeRuns(ss[|ms|].k, i);
  }

  /** Whenever both locks are free, nobody that wants the sleep lock is asleep or falling asleep. */
  lemma NobodyLeftAsleep(ss: seq<State>, ms: seq<Move>, c: nat, l: nat, i: nat)
    requires Runs(ss, ms, c, l) && i < NPROC
    ensures var s := ss[|ms|];
      && Sized(s.k) && |s.roles| == NPROC && l < |s.k.locks|
      && (s.k.locks[l] == -1 && !s.locked && s.roles[i].Sleeping? ==> !Dozing(s.k.procs[i]) && !s.k.procs[i].pc.InSleep?)
  {
    hide Inv, Local, Pair, NotForgotten, Initial, Moved, OnPath, Uses;
    RunsKeep(ss, ms, c, l);
    Facts(ss[|ms|].k, i, i);
    assert RoleOk(ss[|ms|], c, l, i);
  }
}
