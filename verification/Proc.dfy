/**
 Processes, scheduling, sleep and wakeup, fork, exit and wait (kernel/proc.c) as one step
 system. A step is what happens between two points where another CPU could interfere; steps of
 all processes, schedulers and interrupt handlers interleave in any order. A lock that a loop
 takes and gives back within one visit is part of that visit's step.
 */
module Proc {

  const NPROC := 64
  const NCPU := 8
  const INIT := 0
  /** `wait_lock` among the spin locks; a process' own lock is a field of it. */
  const WAIT := 0

  datatype RunState = UNUSED | USED | SLEEPING | RUNNABLE | RUNNING | ZOMBIE

  /** Where `sleep` returns to: some code, or the loop of `wait`. */
  datatype Ret = ToCode | ToWait
  /** Where `wakeup` returns to: some code, or one of two places in `exit`. */
  datatype After = ToCaller | ToReparent(n: nat) | ToZombie
  /** What a switched-out process will do: go on after `yield`, after `sleep`, never, or start. */
  datatype Cont = AfterYield(at: Point) | AfterSleep(c: nat, l: nat, ret: Ret) | Never | Start

  /** Where a timer interrupt can make a process yield: it holds no lock there. */
  datatype Point = AtCode | AtFork2(child: nat) | AtFork3(child: nat) | AtReacquire(l: nat, ret: Ret)

  /** How far a process' kernel thread has got. */
  datatype Pc =
    | Nothing                                  // an unused slot
    | Building                                 // made by a fork that holds its lock
    | Code                                     // any other code
    | InYield(at: Point)                       // yield: holds its own lock
    | InSleep(c: nat, l: nat, ret: Ret)        // sleep: holds its own lock and l
    | Dropped(c: nat, l: nat, ret: Ret)        // sleep: has released l
    | Marked(k: Cont)                          // state set, about to switch
    | Switched(k: Cont)                        // context saved, the scheduler has its lock
    | Parked(k: Cont)                          // not on a CPU, lock released
    | Resumed(k: Cont)                         // switched to, holds its own lock
    | Reacquire(l: nat, ret: Ret)              // end of sleep
    | Waking(c: nat, i: nat, next: After)      // wakeup loop
    | Fork1(child: nat) | Fork2(child: nat) | Fork3(child: nat)
    | Exiting(i: nat)                          // reparent loop
    | InExit                                   // exit: holds wait_lock and its own lock
    | Dead                                     // as InExit, state ZOMBIE
    | Waiting(i: nat, kids: bool)              // wait loop
    | Decided                                  // wait: has seen that it is not killed, will sleep

  /** `maker` is bookkeeping: the process whose fork is making this one. */
  datatype P = P(state: RunState, chan: nat, parent: int, pid: nat, killed: bool, lock: bool, on: int, pc: Pc, maker: int)

  /** The interrupt handler of a CPU: not running, holding a lock, or in `wakeup` with it. */
  datatype Handler = Calm | Holds(l: nat) | Wakes(l: nat, c: nat, i: nat)

  /**
   `locks` gives the holder of every spin lock and `cpus` the process on every CPU, -1 for none.
   The handler of CPU `h` holds locks under the number NPROC + h. It runs whether the CPU has a
   process or not.
   */
  datatype Sys = Sys(procs: seq<P>, cpus: seq<int>, locks: seq<int>, nextpid: nat, reaped: set<nat>, handlers: seq<Handler>)

  predicate Sized(s: Sys) {
    |s.procs| == NPROC && |s.cpus| == NCPU && |s.locks| > WAIT && |s.handlers| == NCPU
  }

  function PcOf(at: Point): Pc {
    match at
    case AtCode => Code
    case AtFork2(child) => Fork2(child)
    case AtFork3(child) => Fork3(child)
    case AtReacquire(l, ret) => Reacquire(l, ret)
  }

  function PointOf(pc: Pc): Point {
    match pc
    case Fork2(child) => AtFork2(child)
    case Fork3(child) => AtFork3(child)
    case Reacquire(l, ret) => AtReacquire(l, ret)
    case _ => AtCode
  }

  /** Where a process is, looking through a `yield` that interrupted it. */
  function At(pc: Pc): Pc {
    match pc
    case InYield(at) => PcOf(at)
    case Marked(AfterYield(at)) => PcOf(at)
    case Switched(AfterYield(at)) => PcOf(at)
    case Parked(AfterYield(at)) => PcOf(at)
    case Resumed(AfterYield(at)) => PcOf(at)
    case _ => pc
  }

  predicate Alive(p: P) {
    p.state == SLEEPING || p.state == RUNNABLE || p.state == RUNNING
  }

  /** Fallen or falling asleep in `sleep`, having given up the lock. */
  predicate Dozing(p: P) {
    p.pc.Dropped? || (Sleeper(p.pc) && p.state == SLEEPING)
  }

  predicate Sleeper(pc: Pc) {
    (pc.Marked? || pc.Switched? || pc.Parked?) && pc.k.AfterSleep?
  }

  function DozeChan(pc: Pc): nat
    requires pc.Dropped? || Sleeper(pc)
  {
    if pc.Dropped? then pc.c else pc.k.c
  }

  function DozeLock(pc: Pc): nat
    requires pc.Dropped? || Sleeper(pc)
  {
    if pc.Dropped? then pc.l else pc.k.l
  }

  predicate DozingInWait(p: P) {
    Dozing(p) && (if p.pc.Dropped? then p.pc.ret else p.pc.k.ret) == ToWait
  }

  // ----------------------------------------------------------------- invariant

  /** State, own lock and CPU of a process by how far its thread has got. */
  predicate Shape(p: P) {
    match p.pc
    case Nothing => p.state == UNUSED && !p.lock && p.on == -1
    case Building => p.state == USED && p.lock && p.on == -1
    case Code | Reacquire(_, _) | Waking(_, _, _) | Fork1(_) | Fork2(_) | Fork3(_) | Exiting(_) | Waiting(_, _) | Decided =>
      p.state == RUNNING && !p.lock && p.on >= 0
    case InYield(_) | InSleep(_, _, _) | Dropped(_, _, _) | InExit => p.state == RUNNING && p.lock && p.on >= 0
    case Dead => p.state == ZOMBIE && p.lock && p.on >= 0
    case Marked(k) => MarkedAs(p, k) && k != Start && p.lock && p.on >= 0
    case Switched(k) => MarkedAs(p, k) && k != Start && p.lock && p.on >= 0
    case Parked(k) => !p.lock && p.on == -1 && (MarkedAs(p, k) || (p.state == RUNNABLE && k != Never))
    case Resumed(k) => p.state == RUNNING && p.lock && p.on >= 0 && k != Never
  }

  predicate MarkedAs(p: P, k: Cont) {
    match k
    case AfterYield(_) => p.state == RUNNABLE
    case AfterSleep(c, _, _) => p.state == SLEEPING && p.chan == c
    case Never => p.state == ZOMBIE
    case Start => p.state == USED
  }

  /** Which spin lock a process holds, and what it sleeps on. */
  predicate LockOk(locks: seq<int>, i: nat, pc: Pc)
    requires |locks| > WAIT
  {
    && (pc.InSleep? ==> pc.l < |locks| && locks[pc.l] == i && (pc.ret == ToWait ==> pc.l == WAIT && pc.c == i))
    && (pc.Dropped? ==> pc.l < |locks| && (pc.ret == ToWait ==> pc.l == WAIT && pc.c == i))
    && ((pc.Marked? || pc.Switched? || pc.Parked? || pc.Resumed?) && pc.k.AfterSleep? ==>
          pc.k.l < |locks| && (pc.k.ret == ToWait ==> pc.k.l == WAIT && pc.k.c == i))
    && (At(pc).Reacquire? ==> At(pc).l < |locks| && (At(pc).ret == ToWait ==> At(pc).l == WAIT))
    && (pc.Exiting? || pc.InExit? || pc.Dead? || pc.Waiting? || pc.Decided? || (pc.Waking? && pc.next != ToCaller) ==>
          locks[WAIT] == i)
  }

  /** May a process at this point hold spin lock `l`? */
  predicate MayHold(pc: Pc, l: nat) {
    match pc
    case Code => true
    case InSleep(_, m, _) => l == m
    case Waking(_, _, next) => next == ToCaller || l == WAIT
    case Exiting(_) => l == WAIT
    case InExit => l == WAIT
    case Dead => l == WAIT
    case Waiting(_, _) => l == WAIT
    case Decided => l == WAIT
    case _ => false
  }

  predicate HoldsOnly(locks: seq<int>, i: nat, pc: Pc) {
    forall l :: 0 <= l < |locks| && locks[l] == i ==> MayHold(pc, l)
  }

  /** How many slots `exit` has already taken its children from. */
  function ExitDone(pc: Pc): nat {
    match pc
    case Exiting(n) => n
    case Waking(_, _, ToReparent(n)) => n
    case Waking(_, _, ToZombie) => NPROC
    case InExit => NPROC
    case _ => 0
  }

  /** How many slots `wait` has already found to be no zombie child. */
  function WaitDone(pc: Pc): nat {
    match pc
    case Waiting(n, _) => n
    case Decided => NPROC
    case InSleep(_, _, ToWait) => NPROC
    case _ => 0
  }

  predicate IsFork(pc: Pc, child: nat) {
    At(pc) == Fork1(child) || At(pc) == Fork2(child) || At(pc) == Fork3(child)
  }

  predicate Local(s: Sys, i: nat)
    requires Sized(s) && i < NPROC
  {
    var p := s.procs[i];
    && Shape(p) && LockOk(s.locks, i, p.pc) && HoldsOnly(s.locks, i, p.pc)
    && (p.on >= 0 ==> p.on < NCPU && s.cpus[p.on] == i) && p.on >= -1
    && -1 <= p.parent < NPROC && p.parent != i
    && (p.state == UNUSED ==> p.parent == -1)
    && (i == INIT ==> Alive(p) && p.parent == -1)
    && (i != INIT && (Alive(p) || p.state == ZOMBIE) ==> p.parent >= 0)
    && (p.state != UNUSED ==> p.pid < s.nextpid && p.pid !in s.reaped)
    && (p.state == USED ==> 0 <= p.maker < NPROC && p.maker != i)
    && (Forking(p.pc) ==> At(p.pc).child < NPROC && At(p.pc).child != i)
    && (p.pc.Exiting? || p.pc.InExit? || p.pc.Dead? || (p.pc.Waking? && p.pc.next != ToCaller) ==> i != INIT)
    && (p.pc.Waking? && p.pc.next == ToZombie ==> p.pc.c == p.parent)
    && (p.pc.Waiting? || p.pc.Exiting? || p.pc.Waking? ==> p.pc.i <= NPROC)
    && (p.pc.Waking? && p.pc.next.ToReparent? ==> p.pc.next.n <= NPROC)
  }

  /** Relations between process `i` and process `j`. */
  predicate Pair(s: Sys, i: nat, j: nat)
    requires Sized(s) && i < NPROC && j < NPROC
  {
    PairOf(s.locks, i, s.procs[i], j, s.procs[j])
  }

  predicate PairOf(locks: seq<int>, i: nat, p: P, j: nat, q: P) {
    && (p.parent == j ==> Alive(q))
    && (p.pid == q.pid ==> p.state == UNUSED || q.state == UNUSED)
    && (IsFork(p.pc, j) <==> q.state == USED && q.maker == i)
    && (At(p.pc) == Fork1(j) ==> q.pc == Building && q.parent == -1)
    && (At(p.pc) == Fork2(j) ==> q.pc == Parked(Start) && q.parent == -1)
    && (At(p.pc) == Fork3(j) ==> q.pc == Parked(Start) && q.parent == i)
    && !(p.pc.Waking? && j < p.pc.i && Dozing(q) && DozeChan(q.pc) == p.pc.c
         && DozeLock(q.pc) < |locks| && locks[DozeLock(q.pc)] == i)
    && (j < ExitDone(p.pc) ==> q.parent != i)
    && (p.pc.InExit? && p.parent == j ==> !DozingInWait(q))
    && (j < WaitDone(p.pc) && q.parent == i ==> q.state != ZOMBIE)
  }

  predicate CpuOk(s: Sys, c: nat)
    requires Sized(s) && c < NCPU
  {
    s.cpus[c] == -1 || (0 <= s.cpus[c] < NPROC && s.procs[s.cpus[c]].on == c)
  }

  /** Is the holder of `wait_lock` about to wake up process `i`, having given it new children? */
  predicate WakePending(s: Sys, i: nat)
    requires Sized(s)
  {
    var h := s.locks[WAIT];
    && 0 <= h < NPROC && s.procs[h].pc.Waking? && s.procs[h].pc.c == i && s.procs[h].pc.next.ToReparent?
    && s.procs[h].pc.i <= i
  }

  /** A process asleep in `wait` has no zombie child that nobody will tell it of. */
  predicate NotForgotten(s: Sys, i: nat, j: nat)
    requires Sized(s) && i < NPROC && j < NPROC
  {
    DozingInWait(s.procs[i]) && s.procs[j].parent == i && s.procs[j].state == ZOMBIE ==> WakePending(s, i)
  }

  predicate PidsOk(s: Sys) {
    forall x :: x in s.reaped ==> x < s.nextpid
  }

  /** The handler of CPU `h` holds the lock it says, never `wait_lock`. */
  predicate HandlerLock(s: Sys, h: nat)
    requires Sized(s) && h < NCPU
  {
    && (s.handlers[h] != Calm ==> WAIT < s.handlers[h].l < |s.locks| && s.locks[s.handlers[h].l] == NPROC + h)
    && (s.handlers[h].Wakes? ==> s.handlers[h].i <= NPROC)
  }

  /** Nobody that its `wakeup` has passed is asleep on its channel and lock. */
  predicate Passed(hand: Handler, j: nat, q: P) {
    !(hand.Wakes? && j < hand.i && Dozing(q) && DozeChan(q.pc) == hand.c && DozeLock(q.pc) == hand.l)
  }

  predicate HandlersOk(s: Sys)
    requires Sized(s)
  {
    && (forall h :: 0 <= h < NCPU ==> HandlerLock(s, h))
    && (forall h, j :: 0 <= h < NCPU && 0 <= j < NPROC ==> Passed(s.handlers[h], j, s.procs[j]))
  }

  ghost predicate Inv(s: Sys) {
    && Sized(s) && PidsOk(s) && HandlersOk(s)
    && (forall i :: 0 <= i < NPROC ==> Local(s, i))
    && (forall c :: 0 <= c < NCPU ==> CpuOk(s, c))
    && (forall i, j :: 0 <= i < NPROC && 0 <= j < NPROC && i != j ==> Pair(s, i, j))
    && (forall i, j :: 0 <= i < NPROC && 0 <= j < NPROC ==> NotForgotten(s, i, j))
  }

  lemma Facts(s: Sys, i: nat, j: nat)
    requires Inv(s) && i < NPROC && j < NPROC
    ensures Sized(s) && PidsOk(s) && Local(s, i) && Local(s, j) && NotForgotten(s, i, j)
    ensures i != j ==> Pair(s, i, j) && Pair(s, j, i)
  {
    hide Local, Pair, CpuOk, NotForgotten, HandlersOk;
  }

  lemma Pairs(s: Sys, i: nat, j: nat)
    requires Inv(s) && i < NPROC && j < NPROC
    ensures Sized(s) && (i != j ==> Pair(s, i, j) && Pair(s, j, i))
  {
    hide Local, Pair, CpuOk, NotForgotten, HandlersOk;
  }

  /** What a process is known by to all others. */
  lemma SlotFacts(s: Sys, i: nat)
    requires Inv(s) && i < NPROC
    ensures var p := s.procs[i];
      && (p.state == UNUSED ==> p.parent == -1 && p.pc == Nothing) && (p.state != UNUSED ==> p.pid < s.nextpid)
      && (Forking(p.pc) ==> Alive(p) && At(p.pc).child != i) && (p.pc == Building ==> p.state == USED)
  {
    hide Inv, Pair, NotForgotten;
    Facts(s, i, i);
  }

  /** While `wait_lock` is free nobody is inside `exit` or `wait`. */
  lemma NobodyWaits(s: Sys, i: nat)
    requires Inv(s) && i < NPROC && s.locks[WAIT] == -1
    ensures ExitDone(s.procs[i].pc) == 0 && WaitDone(s.procs[i].pc) == 0 && !s.procs[i].pc.InExit?
  {
    hide Inv, Pair, NotForgotten;
    Facts(s, i, i);
  }

  lemma CpuFacts(s: Sys)
    requires Inv(s)
    ensures forall c :: 0 <= c < NCPU && s.cpus[c] >= 0 ==> s.cpus[c] < NPROC && s.procs[s.cpus[c]].on == c
  {
    hide Local, Pair, NotForgotten, HandlersOk;
    forall c | 0 <= c < NCPU && s.cpus[c] >= 0
      ensures s.cpus[c] < NPROC && s.procs[s.cpus[c]].on == c
    {
      assert CpuOk(s, c);
    }
  }

  // --------------------------------------------------------------------- steps

  /** Process `i` becomes `p`. */
  function Set(s: Sys, i: nat, p: P): (r: Sys)
    requires i < |s.procs|
    ensures |r.procs| == |s.procs| && r.procs[i] == p
    ensures forall j :: 0 <= j < |r.procs| && j != i ==> r.procs[j] == s.procs[j]
    ensures r.cpus == s.cpus && r.locks == s.locks && r.nextpid == s.nextpid && r.reaped == s.reaped
    ensures r.handlers == s.handlers
  {
    s.(procs := s.procs[i := p])
  }

  // A step changes few processes, and locks and CPUs only where it holds them or nobody does.

  predicate Owns(x: int, i: nat) {
    x == -1 || x == i
  }

  predicate LocksBy(s: Sys, i: nat, s': Sys) {
    && |s'.locks| == |s.locks|
    && forall l :: 0 <= l < |s.locks| ==> s'.locks[l] == s.locks[l] || (Owns(s.locks[l], i) && Owns(s'.locks[l], i))
  }

  predicate CpusBy(s: Sys, i: nat, s': Sys) {
    && |s'.cpus| == |s.cpus|
    && forall c :: 0 <= c < |s.cpus| ==> s'.cpus[c] == s.cpus[c] || (Owns(s.cpus[c], i) && Owns(s'.cpus[c], i))
  }

  /** What a step of process `i` starts from. */
  lemma Own(s: Sys, i: nat)
    requires Inv(s) && i < NPROC
    ensures Sized(s) && Local(s, i) && forall c :: 0 <= c < NCPU && s.cpus[c] == i ==> s.procs[i].on == c
  {
    hide Pair, NotForgotten, HandlersOk;
    CpuFacts(s);
  }

  /** Only process `i` has changed, to what `Local` allows. */
  ghost predicate OnlyOne(s: Sys, i: nat, s': Sys) {
    && Sized(s) && Sized(s') && i < NPROC && LocksBy(s, i, s') && CpusBy(s, i, s')
    && (forall j :: 0 <= j < NPROC && j != i ==> s'.procs[j] == s.procs[j])
    && s'.nextpid == s.nextpid && s'.reaped == s.reaped && s'.handlers == s.handlers && Local(s', i)
    && (forall c :: 0 <= c < NCPU && s'.cpus[c] == i ==> s'.procs[i].on == c)
  }

  lemma OthersLocal(s: Sys, i: nat, s': Sys)
    requires Inv(s) && OnlyOne(s, i, s')
    ensures forall j :: 0 <= j < NPROC ==> Local(s', j)
    ensures forall c :: 0 <= c < NCPU ==> CpuOk(s', c)
  {
    hide Shape, Pair, NotForgotten, HandlersOk;
    forall j | 0 <= j < NPROC ensures Local(s', j) { assert Local(s, j); }
    forall c | 0 <= c < NCPU ensures CpuOk(s', c) { assert CpuOk(s, c); }
  }

  predicate Forking(pc: Pc) {
    At(pc).Fork1? || At(pc).Fork2? || At(pc).Fork3?
  }

  /** A change that no other process can notice, but for a sleeper that is no longer one. */
  predicate Neutral(p: P, p': P) {
    && p'.parent == p.parent && p'.pid == p.pid && p'.maker == p.maker && Alive(p') == Alive(p)
    && (p'.state == USED <==> p.state == USED) && (p'.state == ZOMBIE <==> p.state == ZOMBIE)
    && (p'.state == UNUSED <==> p.state == UNUSED)
    && (Forking(p.pc) || Forking(p'.pc) ==> At(p'.pc) == At(p.pc)) && (p.state == USED ==> p'.pc == p.pc)
    && (Dozing(p') ==> Dozing(p) && DozeChan(p'.pc) == DozeChan(p.pc) && DozeLock(p'.pc) == DozeLock(p.pc))
    && (DozingInWait(p') ==> DozingInWait(p))
    && (ExitDone(p'.pc) == 0 || ExitDone(p'.pc) == ExitDone(p.pc)) && (p'.pc.InExit? ==> p.pc.InExit?)
    && (WaitDone(p'.pc) == 0 || WaitDone(p'.pc) == WaitDone(p.pc))
    && (p'.pc.Waking? ==> p.pc == p'.pc || p'.pc.i == 0)
    && (p.pc.Waking? && p.pc.next.ToReparent? && p.pc.i < NPROC ==> p'.pc == p.pc)
  }

  /** Handlers are not affected by locks they do not hold, nor by who falls asleep with such a lock. */
  lemma HandlersKeep(s: Sys, s': Sys)
    requires Inv(s) && Sized(s') && s'.handlers == s.handlers && |s'.locks| == |s.locks|
    requires forall l :: 0 <= l < |s.locks| && s.locks[l] >= NPROC ==> s'.locks[l] == s.locks[l]
    requires forall j :: 0 <= j < NPROC ==> Drowsy(s, s.procs[j], s'.procs[j])
    ensures HandlersOk(s')
  {
    hide Local, Pair, CpuOk, NotForgotten;
    forall h, j | 0 <= h < NCPU && 0 <= j < NPROC ensures Passed(s'.handlers[h], j, s'.procs[j]) {
      assert HandlerLock(s, h) && Passed(s.handlers[h], j, s.procs[j]) && Drowsy(s, s.procs[j], s'.procs[j]);
    }
    forall h | 0 <= h < NCPU ensures HandlerLock(s', h) { assert HandlerLock(s, h); }
  }

  /** A sleeper was one already, on the same channel and lock, or sleeps with a lock that no handler had. */
  predicate Drowsy(s: Sys, p: P, p': P) {
    Dozing(p') ==>
      || (Dozing(p) && DozeChan(p'.pc) == DozeChan(p.pc) && DozeLock(p'.pc) == DozeLock(p.pc))
      || (DozeLock(p'.pc) < |s.locks| && s.locks[DozeLock(p'.pc)] < NPROC)
  }

  lemma NeutralKeeps(s: Sys, i: nat, s': Sys)
    requires Inv(s) && OnlyOne(s, i, s') && Neutral(s.procs[i], s'.procs[i])
    requires s'.locks == s.locks || !s'.procs[i].pc.Waking?
    requires s.procs[i].pc.Waking? ==> s'.locks == s.locks
    ensures Inv(s')
  {
    hide Local, Shape, CpuOk, HandlersOk;
    OthersLocal(s, i, s');
    HandlersKeep(s, s');
    forall j, k | 0 <= j < NPROC && 0 <= k < NPROC && j != k ensures Pair(s', j, k) { assert Pair(s, j, k); }
    forall j, k | 0 <= j < NPROC && 0 <= k < NPROC ensures NotForgotten(s', j, k) { assert NotForgotten(s, j, k); }
  }

  // ------------------------------------------------- scheduling and sleeping

  function SetPc(s: Sys, i: nat, pc: Pc): Sys
    requires i < |s.procs|
  {
    Set(s, i, s.procs[i].(pc := pc))
  }

  function SetLock(s: Sys, l: nat, holder: int): Sys
    requires l < |s.locks|
  {
    s.(locks := s.locks[l := holder])
  }

  function ContOf(pc: Pc): Cont {
    if pc.Parked? then pc.k else Never
  }

  /** The scheduler of CPU `c` takes the lock of `i`, finds it runnable and switches to it. */
  ghost predicate Pick(s: Sys, c: nat, i: nat, s': Sys) {
    && Sized(s) && i < NPROC
    && c < NCPU && s.cpus[c] == -1 && !s.procs[i].lock && s.procs[i].state == RUNNABLE
    && s' == Set(s, i, s.procs[i].(state := RUNNING, lock := true, on := c, pc := Resumed(ContOf(s.procs[i].pc))))
              .(cpus := s.cpus[c := i])
  }

  lemma PickKeeps(s: Sys, c: nat, i: nat, s': Sys)
    requires Inv(s) && Pick(s, c, i, s')
    ensures Inv(s')
  {
    hide Inv, Pair, NotForgotten;
    Own(s, i);
    NeutralKeeps(s, i, s');
  }

  /** Back from the switch: `sleep` forgets its channel, and all release their own lock. */
  ghost predicate Unlock(s: Sys, i: nat, s': Sys) {
    && Sized(s) && i < NPROC
    && s.procs[i].pc.Resumed?
    && var k := s.procs[i].pc.k;
    s' == if k.AfterSleep?
          then Set(s, i, s.procs[i].(chan := 0, lock := false, pc := Reacquire(k.l, k.ret)))
          else Set(s, i, s.procs[i].(lock := false, pc := if k.AfterYield? then PcOf(k.at) else Code))
  }

  lemma UnlockKeeps(s: Sys, i: nat, s': Sys)
    requires Inv(s) && Unlock(s, i, s')
    ensures Inv(s')
  {
    hide Inv, Pair, NotForgotten;
    Own(s, i);
    NeutralKeeps(s, i, s');
  }

  /** The end of `sleep`. */
  ghost predicate Relock(s: Sys, i: nat, s': Sys) {
    && Sized(s) && i < NPROC
    && s.procs[i].pc.Reacquire?
    && var l := s.procs[i].pc.l;
    && l < |s.locks| && s.locks[l] == -1
    && s' == SetLock(SetPc(s, i, if s.procs[i].pc.ret == ToCode then Code else Waiting(0, false)), l, i)
  }

  lemma RelockKeeps(s: Sys, i: nat, s': Sys)
    requires Inv(s) && Relock(s, i, s')
    ensures Inv(s')
  {
    hide Inv, Pair, NotForgotten;
    Own(s, i);
    NeutralKeeps(s, i, s');
  }

  /** `acquire` and `release` of a spin lock other than `wait_lock`. */
  ghost predicate Acquire(s: Sys, i: nat, l: nat, s': Sys) {
    && Sized(s) && i < NPROC
    && s.procs[i].pc == Code && WAIT < l < |s.locks| && s.locks[l] == -1 && s' == SetLock(s, l, i)
  }

  lemma AcquireKeeps(s: Sys, i: nat, l: nat, s': Sys)
    requires Inv(s) && Acquire(s, i, l, s')
    ensures Inv(s')
  {
    hide Inv, Pair, NotForgotten;
    Own(s, i);
    NeutralKeeps(s, i, s');
  }

  /** The counterpart of `Acquire`. */
  ghost predicate Release(s: Sys, i: nat, l: nat, s': Sys) {
    && Sized(s) && i < NPROC
    && s.procs[i].pc == Code && WAIT < l < |s.locks| && s.locks[l] == i && s' == SetLock(s, l, -1)
  }

  lemma ReleaseKeeps(s: Sys, i: nat, l: nat, s': Sys)
    requires Inv(s) && Release(s, i, l, s')
    ensures Inv(s')
  {
    hide Inv, Pair, NotForgotten;
    Own(s, i);
    NeutralKeeps(s, i, s');
  }

  /** `yield`, called or forced by a timer interrupt where no lock is held, takes the process' own lock. */
  ghost predicate YieldLock(s: Sys, i: nat, s': Sys) {
    && Sized(s) && i < NPROC
    && var pc := s.procs[i].pc;
    && (pc == Code || pc.Fork2? || pc.Fork3? || pc.Reacquire?)
    && !s.procs[i].lock && HoldsNone(s, i)
    && s' == Set(s, i, s.procs[i].(lock := true, pc := InYield(PointOf(pc))))
  }

  predicate HoldsNone(s: Sys, i: nat) {
    forall l :: 0 <= l < |s.locks| ==> s.locks[l] != i
  }

  lemma YieldLockKeeps(s: Sys, i: nat, s': Sys)
    requires Inv(s) && YieldLock(s, i, s')
    ensures Inv(s')
  {
    hide Inv, Pair, NotForgotten;
    Own(s, i);
    NeutralKeeps(s, i, s');
  }

  /** `yield` gives up the CPU. */
  ghost predicate YieldMark(s: Sys, i: nat, s': Sys) {
    && Sized(s) && i < NPROC
    && s.procs[i].pc.InYield?
    && s' == Set(s, i, s.procs[i].(state := RUNNABLE, pc := Marked(AfterYield(s.procs[i].pc.at))))
  }

  lemma YieldMarkKeeps(s: Sys, i: nat, s': Sys)
    requires Inv(s) && YieldMark(s, i, s')
    ensures Inv(s')
  {
    hide Inv, Pair, NotForgotten;
    Own(s, i);
    NeutralKeeps(s, i, s');
  }

  /** `sleep(c, l)` is called with `l` held and no other lock, and takes the process' own lock. */
  ghost predicate SleepLock(s: Sys, i: nat, c: nat, l: nat, s': Sys) {
    && Sized(s) && i < NPROC
    && s.procs[i].pc == Code && WAIT < l < |s.locks| && s.locks[l] == i && !s.procs[i].lock
    && (forall m :: 0 <= m < |s.locks| && m != l ==> s.locks[m] != i)
    && s' == Set(s, i, s.procs[i].(lock := true, pc := InSleep(c, l, ToCode)))
  }

  lemma SleepLockKeeps(s: Sys, i: nat, c: nat, l: nat, s': Sys)
    requires Inv(s) && SleepLock(s, i, c, l, s')
    ensures Inv(s')
  {
    hide Inv, Pair, NotForgotten;
    Own(s, i);
    NeutralKeeps(s, i, s');
  }

  /** `sleep` releases `l`. */
  ghost predicate SleepDrop(s: Sys, i: nat, s': Sys) {
    && Sized(s) && i < NPROC
    && s.procs[i].pc.InSleep? && s.procs[i].pc.l < |s.locks|
    && var pc := s.procs[i].pc; s' == SetLock(SetPc(s, i, Dropped(pc.c, pc.l, pc.ret)), pc.l, -1)
  }

  /** `sleep` records channel and state. */
  ghost predicate SleepMark(s: Sys, i: nat, s': Sys) {
    && Sized(s) && i < NPROC
    && s.procs[i].pc.Dropped?
    && var pc := s.procs[i].pc;
    s' == Set(s, i, s.procs[i].(chan := pc.c, state := SLEEPING, pc := Marked(AfterSleep(pc.c, pc.l, pc.ret))))
  }

  lemma SleepMarkKeeps(s: Sys, i: nat, s': Sys)
    requires Inv(s) && SleepMark(s, i, s')
    ensures Inv(s')
  {
    hide Inv, Pair, NotForgotten;
    Own(s, i);
    NeutralKeeps(s, i, s');
  }

  /** `sched` saves the context. */
  ghost predicate Switch(s: Sys, i: nat, s': Sys) {
    && Sized(s) && i < NPROC
    && s.procs[i].pc.Marked? && s' == SetPc(s, i, Switched(s.procs[i].pc.k))
  }

  lemma SwitchKeeps(s: Sys, i: nat, s': Sys)
    requires Inv(s) && Switch(s, i, s')
    ensures Inv(s')
  {
    hide Inv, Pair, NotForgotten;
    Own(s, i);
    NeutralKeeps(s, i, s');
  }

  /** The scheduler is back: its CPU is free again, and so is the process' lock. */
  ghost predicate Unload(s: Sys, i: nat, s': Sys) {
    && Sized(s) && i < NPROC
    && s.procs[i].pc.Switched? && 0 <= s.procs[i].on < NCPU
    && s' == Set(s, i, s.procs[i].(lock := false, on := -1, pc := Parked(s.procs[i].pc.k)))
              .(cpus := s.cpus[s.procs[i].on := -1])
  }

  lemma UnloadKeeps(s: Sys, i: nat, s': Sys)
    requires Inv(s) && Unload(s, i, s')
    ensures Inv(s')
  {
    hide Inv, Pair, NotForgotten;
    Own(s, i);
    NeutralKeeps(s, i, s');
  }

  /** `kill` visits process `i`. */
  ghost predicate Kill(s: Sys, i: nat, s': Sys) {
    && Sized(s) && i < NPROC
    && !s.procs[i].lock
    && var state := if s.procs[i].state == SLEEPING then RUNNABLE else s.procs[i].state;
    s' == Set(s, i, s.procs[i].(killed := true, state := state))
  }

  lemma KillKeeps(s: Sys, i: nat, s': Sys)
    requires Inv(s) && Kill(s, i, s')
    ensures Inv(s')
  {
    hide Inv, Pair, NotForgotten;
    Own(s, i);
    NeutralKeeps(s, i, s');
  }

  /** `wakeup(c)` begins. */
  ghost predicate WakeStart(s: Sys, i: nat, c: nat, s': Sys) {
    && Sized(s) && i < NPROC
    && s.procs[i].pc == Code && s' == SetPc(s, i, Waking(c, 0, ToCaller))
  }

  lemma WakeStartKeeps(s: Sys, i: nat, c: nat, s': Sys)
    requires Inv(s) && WakeStart(s, i, c, s')
    ensures Inv(s')
  {
    hide Inv, Pair, NotForgotten;
    Own(s, i);
    NeutralKeeps(s, i, s');
  }

  /** `exit` begins; init may not. */
  ghost predicate ExitStart(s: Sys, i: nat, s': Sys) {
    && Sized(s) && i < NPROC
    && s.procs[i].pc == Code && i != INIT && HoldsNone(s, i) && s.locks[WAIT] == -1
    && s' == SetLock(SetPc(s, i, Exiting(0)), WAIT, i)
  }

  lemma ExitStartKeeps(s: Sys, i: nat, s': Sys)
    requires Inv(s) && ExitStart(s, i, s')
    ensures Inv(s')
  {
    hide Inv, Pair, NotForgotten;
    Own(s, i);
    NeutralKeeps(s, i, s');
  }

  /** `exit` releases `wait_lock`, its own lock still held. */
  ghost predicate ExitDrop(s: Sys, i: nat, s': Sys) {
    && Sized(s) && i < NPROC
    && s.procs[i].pc == Dead && s' == SetLock(SetPc(s, i, Marked(Never)), WAIT, -1)
  }

  lemma ExitDropKeeps(s: Sys, i: nat, s': Sys)
    requires Inv(s) && ExitDrop(s, i, s')
    ensures Inv(s')
  {
    hide Inv, Pair, NotForgotten;
    Own(s, i);
    NeutralKeeps(s, i, s');
  }

  /** `wait` begins. */
  ghost predicate WaitStart(s: Sys, i: nat, s': Sys) {
    && Sized(s) && i < NPROC
    && s.procs[i].pc == Code && HoldsNone(s, i) && s.locks[WAIT] == -1
    && s' == SetLock(SetPc(s, i, Waiting(0, false)), WAIT, i)
  }

  lemma WaitStartKeeps(s: Sys, i: nat, s': Sys)
    requires Inv(s) && WaitStart(s, i, s')
    ensures Inv(s')
  {
    hide Inv, Pair, NotForgotten;
    Own(s, i);
    NeutralKeeps(s, i, s');
  }

  /** `wait` has looked at all slots: without children, or killed, it returns; else it is going to sleep. */
  ghost predicate WaitEnd(s: Sys, i: nat, s': Sys) {
    && Sized(s) && i < NPROC
    && s.procs[i].pc.Waiting? && s.procs[i].pc.i == NPROC
    && if !s.procs[i].pc.kids || s.procs[i].killed
       then s' == SetLock(SetPc(s, i, Code), WAIT, -1)
       else !s.procs[i].lock && s' == SetPc(s, i, Decided)
  }

  /** `wait` calls `sleep`, which takes the process' own lock. */
  ghost predicate WaitSleep(s: Sys, i: nat, s': Sys) {
    && Sized(s) && i < NPROC
    && s.procs[i].pc == Decided && !s.procs[i].lock
    && s' == Set(s, i, s.procs[i].(lock := true, pc := InSleep(i, WAIT, ToWait)))
  }

  lemma WaitSleepKeeps(s: Sys, i: nat, s': Sys)
    requires Inv(s) && WaitSleep(s, i, s')
    ensures Inv(s')
  {
    hide Inv, Pair, NotForgotten;
    Own(s, i);
    NeutralKeeps(s, i, s');
  }

  lemma WaitEndKeeps(s: Sys, i: nat, s': Sys)
    requires Inv(s) && WaitEnd(s, i, s')
    ensures Inv(s')
  {
    hide Inv, Pair, NotForgotten;
    Own(s, i);
    NeutralKeeps(s, i, s');
  }

  /** `wait` cannot store the status of the zombie it found, and returns. */
  ghost predicate WaitFault(s: Sys, i: nat, s': Sys) {
    && Sized(s) && i < NPROC
    && s.procs[i].pc.Waiting? && s.procs[i].pc.i < NPROC
    && var n := s.procs[i].pc.i;
    && s.procs[n].parent == i && !s.procs[n].lock && s.procs[n].state == ZOMBIE
    && s' == SetLock(SetPc(s, i, Code), WAIT, -1)
  }

  lemma WaitFaultKeeps(s: Sys, i: nat, s': Sys)
    requires Inv(s) && WaitFault(s, i, s')
    ensures Inv(s')
    ensures var n := s.procs[i].pc.i;
      s'.procs[n] == s.procs[n] && s.procs[n].state == ZOMBIE && s.procs[n].parent == i && s'.locks[WAIT] == -1
  {
    hide Inv, Pair, NotForgotten;
    Own(s, i);
    NeutralKeeps(s, i, s');
  }

  // ------------------------------------------------------- telling others

  /** A change of one process that others may notice, checked against each of them. */
  lemma OneKeeps(s: Sys, i: nat, s': Sys)
    requires Inv(s) && OnlyOne(s, i, s')
    requires !(s.procs[i].pc.Waking? && s.procs[i].pc.next.ToReparent?)
    requires forall j :: 0 <= j < NPROC && j != i ==> Pair(s', i, j) && Pair(s', j, i)
    requires forall j :: 0 <= j < NPROC ==> NotForgotten(s', i, j) && NotForgotten(s', j, i)
    requires Drowsy(s, s.procs[i], s'.procs[i])
    ensures Inv(s')
  {
    hide Local, Shape, CpuOk, HandlersOk;
    OthersLocal(s, i, s');
    HandlersKeep(s, s');
    forall j, k | 0 <= j < NPROC && 0 <= k < NPROC && j != k ensures Pair(s', j, k) {
      if j != i && k != i { assert Pair(s, j, k); }
    }
    forall j, k | 0 <= j < NPROC && 0 <= k < NPROC ensures NotForgotten(s', j, k) {
      if j != i && k != i { assert NotForgotten(s, j, k); }
    }
  }

  lemma OnlyI(s: Sys, i: nat, s': Sys)
    requires Inv(s) && Sized(s') && i < NPROC && LocksBy(s, i, s') && s'.cpus == s.cpus && Local(s', i)
    requires s'.nextpid == s.nextpid && s'.reaped == s.reaped && s'.handlers == s.handlers
    requires s'.procs[i].on == s.procs[i].on
    requires forall j :: 0 <= j < NPROC && j != i ==> s'.procs[j] == s.procs[j]
    ensures OnlyOne(s, i, s')
  {
    hide Local, Pair, NotForgotten, HandlersOk;
    CpuFacts(s);
  }

  lemma SleepDropKeeps(s: Sys, i: nat, s': Sys)
    requires Inv(s) && SleepDrop(s, i, s')
    ensures Inv(s')
  {
    hide Inv;
    Facts(s, i, i);
    OnlyI(s, i, s');
    forall j | 0 <= j < NPROC && j != i ensures Pair(s', i, j) && Pair(s', j, i) { Facts(s, i, j); }
    forall j | 0 <= j < NPROC
      ensures NotForgotten(s', i, j) && NotForgotten(s', j, i)
    {
      Facts(s, i, j);
      Facts(s, j, i);
    }
    OneKeeps(s, i, s');
  }

  /** `wakeup` returns; `exit` then takes the process' own lock. */
  ghost predicate WakeEnd(s: Sys, i: nat, s': Sys) {
    && Sized(s) && i < NPROC
    && s.procs[i].pc.Waking? && s.procs[i].pc.i == NPROC
    && match s.procs[i].pc.next
       case ToCaller => s' == SetPc(s, i, Code)
       case ToReparent(n) => s' == SetPc(s, i, Exiting(n))
       case ToZombie => !s.procs[i].lock && s' == Set(s, i, s.procs[i].(lock := true, pc := InExit))
  }

  lemma WakeEndKeeps(s: Sys, i: nat, s': Sys)
    requires Inv(s) && WakeEnd(s, i, s')
    ensures Inv(s')
  {
    hide Inv;
    Facts(s, i, i);
    OnlyI(s, i, s');
    if s.procs[i].pc.next == ToZombie {
      forall j | 0 <= j < NPROC && j != i ensures Pair(s', i, j) && Pair(s', j, i) { Facts(s, i, j); }
      forall j | 0 <= j < NPROC
        ensures NotForgotten(s', i, j) && NotForgotten(s', j, i)
      {
        Facts(s, i, j);
        Facts(s, j, i);
      }
      OneKeeps(s, i, s');
    } else {
      NeutralKeeps(s, i, s');
    }
  }

  /** All children given away, `exit` wakes up the parent. */
  ghost predicate ExitWake(s: Sys, i: nat, s': Sys) {
    && Sized(s) && i < NPROC
    && s.procs[i].pc == Exiting(NPROC) && s.procs[i].parent >= 0
    && s' == SetPc(s, i, Waking(s.procs[i].parent, 0, ToZombie))
  }

  lemma ExitWakeKeeps(s: Sys, i: nat, s': Sys)
    requires Inv(s) && ExitWake(s, i, s')
    ensures Inv(s')
  {
    hide Inv;
    Facts(s, i, i);
    OnlyI(s, i, s');
    NeutralKeeps(s, i, s');
  }

  /** `exit` becomes a zombie. */
  ghost predicate ExitMark(s: Sys, i: nat, s': Sys) {
    && Sized(s) && i < NPROC
    && s.procs[i].pc == InExit && s' == Set(s, i, s.procs[i].(state := ZOMBIE, pc := Dead))
  }

  lemma ExitMarkKeeps(s: Sys, i: nat, s': Sys)
    requires Inv(s) && ExitMark(s, i, s')
    ensures Inv(s')
  {
    hide Inv;
    Facts(s, i, i);
    OnlyI(s, i, s');
    forall j | 0 <= j < NPROC && j != i ensures Pair(s', i, j) && Pair(s', j, i) { Facts(s, i, j); }
    forall j | 0 <= j < NPROC
      ensures NotForgotten(s', i, j) && NotForgotten(s', j, i)
    {
      Facts(s, i, j);
      Facts(s, j, i);
    }
    OneKeeps(s, i, s');
  }

  /** `wait` passes a slot that is not a child's, or one of a child that is no zombie. */
  ghost predicate WaitPass(s: Sys, i: nat, s': Sys) {
    && Sized(s) && i < NPROC
    && s.procs[i].pc.Waiting? && s.procs[i].pc.i < NPROC
    && var n := s.procs[i].pc.i;
    if s.procs[n].parent == i
    then !s.procs[n].lock && s.procs[n].state != ZOMBIE && s' == SetPc(s, i, Waiting(n + 1, true))
    else s' == SetPc(s, i, Waiting(n + 1, s.procs[i].pc.kids))
  }

  lemma WaitPassKeeps(s: Sys, i: nat, s': Sys)
    requires Inv(s) && WaitPass(s, i, s')
    ensures Inv(s')
  {
    hide Inv;
    Facts(s, i, i);
    OnlyI(s, i, s');
    forall j | 0 <= j < NPROC && j != i ensures Pair(s', i, j) && Pair(s', j, i) { Facts(s, i, j); }
    forall j | 0 <= j < NPROC
      ensures NotForgotten(s', i, j) && NotForgotten(s', j, i)
    {
      Facts(s, i, j);
      Facts(s, j, i);
    }
    OneKeeps(s, i, s');
  }

  /** `reparent` passes a slot that is no child's. */
  ghost predicate ReparentPass(s: Sys, i: nat, s': Sys) {
    && Sized(s) && i < NPROC
    && s.procs[i].pc.Exiting? && s.procs[i].pc.i < NPROC && s.procs[s.procs[i].pc.i].parent != i
    && s' == SetPc(s, i, Exiting(s.procs[i].pc.i + 1))
  }

  lemma ReparentPassKeeps(s: Sys, i: nat, s': Sys)
    requires Inv(s) && ReparentPass(s, i, s')
    ensures Inv(s')
  {
    hide Inv;
    Facts(s, i, i);
    OnlyI(s, i, s');
    forall j | 0 <= j < NPROC && j != i ensures Pair(s', i, j) && Pair(s', j, i) { Facts(s, i, j); }
    forall j | 0 <= j < NPROC
      ensures NotForgotten(s', i, j) && NotForgotten(s', j, i)
    {
      Facts(s, i, j);
      Facts(s, j, i);
    }
    OneKeeps(s, i, s');
  }

  /** `wakeup` visits the next slot, unless it is its own. */
  ghost predicate WakeVisit(s: Sys, i: nat, s': Sys) {
    && Sized(s) && i < NPROC
    && s.procs[i].pc.Waking? && s.procs[i].pc.i < NPROC
    && var pc := s.procs[i].pc;
    && (pc.i != i ==> !s.procs[pc.i].lock)
    && s' == SetPc(if pc.i == i then s else Set(s, pc.i, Woken(s.procs[pc.i], pc.c)), i, Waking(pc.c, pc.i + 1, pc.next))
  }

  function Woken(p: P, c: nat): P {
    if p.state == SLEEPING && p.chan == c then p.(state := RUNNABLE) else p
  }

  lemma WakeVisitKeeps(s: Sys, i: nat, s': Sys)
    requires Inv(s) && WakeVisit(s, i, s')
    ensures Inv(s')
  {
    hide Inv, Local, Pair, NotForgotten;
    var pc := s.procs[i].pc;
    if pc.i == i {
      WakeAdvance(s, i, s');
    } else {
      var s1 := Set(s, pc.i, Woken(s.procs[pc.i], pc.c));
      WokenKeeps(s, pc.i, pc.c, s1);
      WakeAdvance(s1, i, s');
    }
  }

  lemma WokenKeeps(s: Sys, n: nat, c: nat, s': Sys)
    requires Inv(s) && n < NPROC && !s.procs[n].lock && s' == Set(s, n, Woken(s.procs[n], c))
    ensures Inv(s')
  {
    hide Inv, Pair, NotForgotten;
    Facts(s, n, n);
    OnlyI(s, n, s');
    NeutralKeeps(s, n, s');
  }

  /** The slot just visited does not sleep on the channel any more. */
  lemma WakeAdvance(s: Sys, i: nat, s': Sys)
    requires Advanced(s, i, s')
    ensures Inv(s')
  {
    hide Inv, Pair, NotForgotten;
    Facts(s, i, i);
    OnlyI(s, i, s');
    OthersLocal(s, i, s');
    HandlersKeep(s, s');
    forall j, k | 0 <= j < NPROC && 0 <= k < NPROC && j != k ensures Pair(s', j, k) { AdvancePair(s, i, s', j, k); }
    forall j, k | 0 <= j < NPROC && 0 <= k < NPROC
      ensures NotForgotten(s', j, k)
    {
      AdvanceNotForgotten(s, i, s', j, k);
    }
    Assemble(s');
  }

  ghost predicate Advanced(s: Sys, i: nat, s': Sys) {
    && Inv(s) && i < NPROC && s.procs[i].pc.Waking? && s.procs[i].pc.i < NPROC
    && var pc := s.procs[i].pc;
    && (pc.i != i ==> !s.procs[pc.i].lock && Woken(s.procs[pc.i], pc.c) == s.procs[pc.i])
    && s' == SetPc(s, i, Waking(pc.c, pc.i + 1, pc.next))
  }

  lemma AdvancePair(s: Sys, i: nat, s': Sys, j: nat, k: nat)
    requires Advanced(s, i, s') && j < NPROC && k < NPROC && j != k
    ensures Pair(s', j, k)
  {
    hide Inv;
    Facts(s, j, k);
  }

  lemma AdvanceNotForgotten(s: Sys, i: nat, s': Sys, j: nat, k: nat)
    requires Advanced(s, i, s') && j < NPROC && k < NPROC
    ensures NotForgotten(s', j, k)
  {
    hide Inv, Pair;
    Facts(s, j, k);
    Facts(s, i, s.procs[i].pc.i);
  }

  lemma Assemble(s: Sys)
    requires Sized(s) && PidsOk(s) && HandlersOk(s)
    requires (forall i :: 0 <= i < NPROC ==> Local(s, i)) && (forall c :: 0 <= c < NCPU ==> CpuOk(s, c))
    requires forall i, j :: 0 <= i < NPROC && 0 <= j < NPROC && i != j ==> Pair(s, i, j)
    requires forall i, j :: 0 <= i < NPROC && 0 <= j < NPROC ==> NotForgotten(s, i, j)
    ensures Inv(s)
  {
    hide Local, Pair, CpuOk, NotForgotten, HandlersOk;
  }

  // ------------------------------------------------------- parents and children

  lemma CpusSame(s: Sys, s': Sys)
    requires Inv(s) && Sized(s') && s'.cpus == s.cpus
    requires forall j :: 0 <= j < NPROC ==> s.procs[j].on >= 0 ==> s'.procs[j].on == s.procs[j].on
    ensures forall c :: 0 <= c < NCPU ==> CpuOk(s', c)
  {
    hide Local, Pair, NotForgotten, HandlersOk;
    forall c | 0 <= c < NCPU ensures CpuOk(s', c) { assert CpuOk(s, c); }
  }

  const NOBODY := P(UNUSED, 0, -1, 0, false, false, -1, Nothing, -1)

  /** A process that is not in `yield` is where its counter says. */
  lemma Plain(n: nat, pc: Pc)
    ensures At(Code) == Code && At(Nothing) == Nothing && At(Building) == Building && At(Parked(Start)) == Parked(Start)
    ensures At(Fork1(n)) == Fork1(n) && At(Fork2(n)) == Fork2(n) && At(Fork3(n)) == Fork3(n)
    ensures pc == Parked(Never) || pc.Waiting? ==> At(pc) == pc
  {
  }

  /** `fork` finds an unused slot `n` in `allocproc`, and keeps its lock. */
  ghost predicate Alloc(s: Sys, i: nat, n: nat, s': Sys) {
    && Sized(s) && i < NPROC
    && n < NPROC && s.procs[i].pc == Code && HoldsNone(s, i) && !s.procs[n].lock && s.procs[n].state == UNUSED
    && s' == Set(SetPc(s, i, Fork1(n)), n,
                 s.procs[n].(state := USED, pid := s.nextpid, lock := true, pc := Building, maker := i))
              .(nextpid := s.nextpid + 1)
  }

  lemma AllocKeeps(s: Sys, i: nat, n: nat, s': Sys)
    requires Inv(s) && Alloc(s, i, n, s')
    ensures Inv(s')
  {
    hide Inv, Pair, NotForgotten;
    Facts(s, i, n);
    CpusSame(s, s');
    HandlersKeep(s, s');
    forall j | 0 <= j < NPROC ensures Local(s', j) { AllocLocal(s, i, n, s', j); }
    forall j, k | 0 <= j < NPROC && 0 <= k < NPROC && j != k ensures Pair(s', j, k) { AllocPair(s, i, n, s', j, k); }
    forall j, k | 0 <= j < NPROC && 0 <= k < NPROC ensures NotForgotten(s', j, k) { AllocTold(s, i, n, s', j, k); }
    Assemble(s');
  }

  lemma AllocLocal(s: Sys, i: nat, n: nat, s': Sys, j: nat)
    requires Inv(s) && Alloc(s, i, n, s') && j < NPROC
    ensures Local(s', j)
  {
    hide Inv, NotForgotten;
    Facts(s, i, j);
    Facts(s, i, n);
    Facts(s, j, n);
  }

  lemma AllocPair(s: Sys, i: nat, n: nat, s': Sys, j: nat, k: nat)
    requires Inv(s) && Alloc(s, i, n, s') && j < NPROC && k < NPROC && j != k
    ensures Pair(s', j, k)
  {
    hide Inv, NotForgotten, Set, Local, At;
    Plain(n, Code);
    Pairs(s, j, k);
    Pairs(s, i, n);
    SlotFacts(s, n);
    SlotFacts(s, j);
    SlotFacts(s, k);
    if j != n { Pairs(s, j, n); }
  }

  lemma AllocTold(s: Sys, i: nat, n: nat, s': Sys, j: nat, k: nat)
    requires Inv(s) && Alloc(s, i, n, s') && j < NPROC && k < NPROC
    ensures NotForgotten(s', j, k)
  {
    hide Inv;
    Facts(s, j, k);
    Facts(s, i, n);
  }

  /** `fork` runs out of memory and frees the slot again. */
  ghost predicate AllocFail(s: Sys, i: nat, s': Sys) {
    && Sized(s) && i < NPROC
    && s.procs[i].pc.Fork1? && s.procs[i].pc.child < NPROC && s' == Set(SetPc(s, i, Code), s.procs[i].pc.child, NOBODY)
  }

  lemma AllocFailKeeps(s: Sys, i: nat, s': Sys)
    requires Inv(s) && AllocFail(s, i, s')
    ensures Inv(s')
  {
    hide Inv, Pair, NotForgotten;
    ChildBuilding(s, i);
    Facts(s, i, s.procs[i].pc.child);
    CpusSame(s, s');
    HandlersKeep(s, s');
    forall j | 0 <= j < NPROC ensures Local(s', j) { AllocFailLocal(s, i, s', j); }
    forall j, k | 0 <= j < NPROC && 0 <= k < NPROC && j != k ensures Pair(s', j, k) { AllocFailPair(s, i, s', j, k); }
    forall j, k | 0 <= j < NPROC && 0 <= k < NPROC ensures NotForgotten(s', j, k) { AllocFailTold(s, i, s', j, k); }
    Assemble(s');
  }

  lemma AllocFailLocal(s: Sys, i: nat, s': Sys, j: nat)
    requires Inv(s) && AllocFail(s, i, s') && j < NPROC
    ensures Local(s', j)
  {
    hide Inv, NotForgotten;
    Facts(s, i, j);
    Facts(s, i, s.procs[i].pc.child);
    Facts(s, j, s.procs[i].pc.child);
  }

  lemma AllocFailPair(s: Sys, i: nat, s': Sys, j: nat, k: nat)
    requires Inv(s) && AllocFail(s, i, s') && j < NPROC && k < NPROC && j != k
    ensures Pair(s', j, k)
  {
    hide Inv, NotForgotten, Set, Local, At;
    Plain(s.procs[i].pc.child, Code);
    var n := s.procs[i].pc.child;
    Pairs(s, j, k);
    Pairs(s, i, n);
    SlotFacts(s, n);
    SlotFacts(s, i);
    if j != n { Pairs(s, j, n); }
  }

  lemma AllocFailTold(s: Sys, i: nat, s': Sys, j: nat, k: nat)
    requires Inv(s) && AllocFail(s, i, s') && j < NPROC && k < NPROC
    ensures NotForgotten(s', j, k)
  {
    hide Inv;
    Facts(s, j, k);
    Facts(s, i, s.procs[i].pc.child);
  }

  /** `fork` releases the new process' lock. */
  ghost predicate ForkRelease(s: Sys, i: nat, s': Sys) {
    && Sized(s) && i < NPROC
    && s.procs[i].pc.Fork1? && s.procs[i].pc.child < NPROC
    && var n := s.procs[i].pc.child; s' == Set(SetPc(s, i, Fork2(n)), n, s.procs[n].(lock := false, pc := Parked(Start)))
  }

  lemma ForkReleaseKeeps(s: Sys, i: nat, s': Sys)
    requires Inv(s) && ForkRelease(s, i, s')
    ensures Inv(s')
  {
    hide Inv, Pair, NotForgotten;
    Facts(s, i, s.procs[i].pc.child);
    CpusSame(s, s');
    HandlersKeep(s, s');
    forall j | 0 <= j < NPROC ensures Local(s', j) { ForkReleaseLocal(s, i, s', j); }
    forall j, k | 0 <= j < NPROC && 0 <= k < NPROC && j != k ensures Pair(s', j, k) { ForkReleasePair(s, i, s', j, k); }
    forall j, k | 0 <= j < NPROC && 0 <= k < NPROC ensures NotForgotten(s', j, k) { ForkReleaseTold(s, i, s', j, k); }
    Assemble(s');
  }

  lemma ForkReleaseLocal(s: Sys, i: nat, s': Sys, j: nat)
    requires Inv(s) && ForkRelease(s, i, s') && j < NPROC
    ensures Local(s', j)
  {
    hide Inv, NotForgotten;
    Facts(s, i, j);
    Facts(s, i, s.procs[i].pc.child);
    Facts(s, j, s.procs[i].pc.child);
  }

  lemma ForkReleasePair(s: Sys, i: nat, s': Sys, j: nat, k: nat)
    requires Inv(s) && ForkRelease(s, i, s') && j < NPROC && k < NPROC && j != k
    ensures Pair(s', j, k)
  {
    hide Inv, NotForgotten, Set, Local, At;
    Plain(s.procs[i].pc.child, Code);
    Pairs(s, j, k);
    Pairs(s, i, s.procs[i].pc.child);
    SlotFacts(s, i);
  }

  lemma ForkReleaseTold(s: Sys, i: nat, s': Sys, j: nat, k: nat)
    requires Inv(s) && ForkRelease(s, i, s') && j < NPROC && k < NPROC
    ensures NotForgotten(s', j, k)
  {
    hide Inv;
    Facts(s, j, k);
    Facts(s, i, s.procs[i].pc.child);
  }

  /** `fork` becomes the parent, under `wait_lock`. */
  ghost predicate ForkParent(s: Sys, i: nat, s': Sys) {
    && Sized(s) && i < NPROC
    && s.procs[i].pc.Fork2? && s.procs[i].pc.child < NPROC && s.locks[WAIT] == -1
    && var n := s.procs[i].pc.child; s' == Set(SetPc(s, i, Fork3(n)), n, s.procs[n].(parent := i))
  }

  lemma ForkParentKeeps(s: Sys, i: nat, s': Sys)
    requires Inv(s) && ForkParent(s, i, s')
    ensures Inv(s')
  {
    hide Inv, Pair, NotForgotten;
    Facts(s, i, s.procs[i].pc.child);
    CpusSame(s, s');
    HandlersKeep(s, s');
    forall j | 0 <= j < NPROC ensures Local(s', j) { ForkParentLocal(s, i, s', j); }
    forall j, k | 0 <= j < NPROC && 0 <= k < NPROC && j != k ensures Pair(s', j, k) { ForkParentPair(s, i, s', j, k); }
    forall j, k | 0 <= j < NPROC && 0 <= k < NPROC ensures NotForgotten(s', j, k) { ForkParentTold(s, i, s', j, k); }
    Assemble(s');
  }

  lemma ForkParentLocal(s: Sys, i: nat, s': Sys, j: nat)
    requires Inv(s) && ForkParent(s, i, s') && j < NPROC
    ensures Local(s', j)
  {
    hide Inv, NotForgotten;
    Facts(s, i, j);
    Facts(s, i, s.procs[i].pc.child);
    Facts(s, j, s.procs[i].pc.child);
  }

  lemma ForkParentPair(s: Sys, i: nat, s': Sys, j: nat, k: nat)
    requires Inv(s) && ForkParent(s, i, s') && j < NPROC && k < NPROC && j != k
    ensures Pair(s', j, k)
  {
    hide Inv, NotForgotten, Set, Local, At;
    Plain(s.procs[i].pc.child, Code);
    var n := s.procs[i].pc.child;
    Pairs(s, j, k);
    Pairs(s, i, n);
    SlotFacts(s, i);
    NobodyWaits(s, j);
  }

  lemma ForkParentTold(s: Sys, i: nat, s': Sys, j: nat, k: nat)
    requires Inv(s) && ForkParent(s, i, s') && j < NPROC && k < NPROC
    ensures NotForgotten(s', j, k)
  {
    hide Inv;
    Facts(s, j, k);
    Facts(s, i, s.procs[i].pc.child);
  }

  /** `fork` makes the new process runnable. */
  ghost predicate ForkRun(s: Sys, i: nat, s': Sys) {
    && Sized(s) && i < NPROC
    && s.procs[i].pc.Fork3? && s.procs[i].pc.child < NPROC
    && var n := s.procs[i].pc.child; !s.procs[n].lock && s' == Set(SetPc(s, i, Code), n, s.procs[n].(state := RUNNABLE))
  }

  lemma ForkRunKeeps(s: Sys, i: nat, s': Sys)
    requires Inv(s) && ForkRun(s, i, s')
    ensures Inv(s')
  {
    hide Inv, Pair, NotForgotten;
    Facts(s, i, s.procs[i].pc.child);
    CpusSame(s, s');
    HandlersKeep(s, s');
    forall j | 0 <= j < NPROC ensures Local(s', j) { ForkRunLocal(s, i, s', j); }
    forall j, k | 0 <= j < NPROC && 0 <= k < NPROC && j != k ensures Pair(s', j, k) { ForkRunPair(s, i, s', j, k); }
    forall j, k | 0 <= j < NPROC && 0 <= k < NPROC ensures NotForgotten(s', j, k) { ForkRunTold(s, i, s', j, k); }
    Assemble(s');
  }

  lemma ForkRunLocal(s: Sys, i: nat, s': Sys, j: nat)
    requires Inv(s) && ForkRun(s, i, s') && j < NPROC
    ensures Local(s', j)
  {
    hide Inv, NotForgotten;
    Facts(s, i, j);
    Facts(s, i, s.procs[i].pc.child);
    Facts(s, j, s.procs[i].pc.child);
  }

  lemma ForkRunPair(s: Sys, i: nat, s': Sys, j: nat, k: nat)
    requires Inv(s) && ForkRun(s, i, s') && j < NPROC && k < NPROC && j != k
    ensures Pair(s', j, k)
  {
    hide Inv, NotForgotten, Set, Local, At;
    var n := s.procs[i].pc.child;
    Plain(n, Code);
    Pairs(s, j, k);
    Pairs(s, i, n);
    SlotFacts(s, i);
    if j != n && j != i { Pairs(s, j, n); }
  }

  lemma ForkRunTold(s: Sys, i: nat, s': Sys, j: nat, k: nat)
    requires Inv(s) && ForkRun(s, i, s') && j < NPROC && k < NPROC
    ensures NotForgotten(s', j, k)
  {
    hide Inv;
    Facts(s, j, k);
    Facts(s, i, s.procs[i].pc.child);
  }

  /** `reparent` gives a child to init and wakes init up. */
  ghost predicate Reparent(s: Sys, i: nat, s': Sys) {
    && Sized(s) && i < NPROC
    && s.procs[i].pc.Exiting? && s.procs[i].pc.i < NPROC
    && var n := s.procs[i].pc.i;
    && s.procs[n].parent == i
    && s' == Set(SetPc(s, i, Waking(INIT, 0, ToReparent(n + 1))), n, s.procs[n].(parent := INIT))
  }

  lemma ReparentKeeps(s: Sys, i: nat, s': Sys)
    requires Inv(s) && Reparent(s, i, s')
    ensures Inv(s')
  {
    hide Inv, Pair, NotForgotten;
    Facts(s, i, s.procs[i].pc.i);
    CpusSame(s, s');
    HandlersKeep(s, s');
    forall j | 0 <= j < NPROC ensures Local(s', j) { ReparentLocal(s, i, s', j); }
    forall j, k | 0 <= j < NPROC && 0 <= k < NPROC && j != k ensures Pair(s', j, k) { ReparentPair(s, i, s', j, k); }
    forall j, k | 0 <= j < NPROC && 0 <= k < NPROC ensures NotForgotten(s', j, k) { ReparentTold(s, i, s', j, k); }
    Assemble(s');
  }

  lemma ReparentLocal(s: Sys, i: nat, s': Sys, j: nat)
    requires Inv(s) && Reparent(s, i, s') && j < NPROC
    ensures Local(s', j)
  {
    hide Inv, NotForgotten;
    Facts(s, i, j);
    Facts(s, i, s.procs[i].pc.i);
    Facts(s, j, s.procs[i].pc.i);
  }

  lemma ReparentPair(s: Sys, i: nat, s': Sys, j: nat, k: nat)
    requires Inv(s) && Reparent(s, i, s') && j < NPROC && k < NPROC && j != k
    ensures Pair(s', j, k)
  {
    hide Inv, NotForgotten, Set, Local;
    Facts(s, j, k);
    Facts(s, i, s.procs[i].pc.i);
    if i != j { OthersIdle(s, i, j); }
    InitAlive(s);
    ExitingNotInit(s, i);
    var n := s.procs[i].pc.i;
    GivenAway(s.locks, i, n, j, s.procs[j], k, s.procs[k]);
    assert s.procs[i].(pc := Waking(INIT, 0, ToReparent(n + 1))) == s'.procs[i];
  }

  lemma ReparentTold(s: Sys, i: nat, s': Sys, j: nat, k: nat)
    requires Inv(s) && Reparent(s, i, s') && j < NPROC && k < NPROC
    ensures NotForgotten(s', j, k)
  {
    hide Inv;
    Facts(s, j, k);
    Facts(s, i, s.procs[i].pc.i);
  }

  /** `wait` finds a zombie child, frees its slot and returns its pid. */
  ghost predicate Reap(s: Sys, i: nat, s': Sys) {
    && Sized(s) && i < NPROC
    && s.procs[i].pc.Waiting? && s.procs[i].pc.i < NPROC
    && var n := s.procs[i].pc.i;
    && s.procs[n].parent == i && !s.procs[n].lock && s.procs[n].state == ZOMBIE
    && s' == SetLock(Set(SetPc(s, i, Code), n, NOBODY), WAIT, -1).(reaped := s.reaped + {s.procs[n].pid})
  }

  lemma ReapKeeps(s: Sys, i: nat, s': Sys)
    requires Inv(s) && Reap(s, i, s')
    ensures Inv(s')
  {
    hide Inv, Pair, NotForgotten;
    Facts(s, i, s.procs[i].pc.i);
    CpusSame(s, s');
    HandlersKeep(s, s');
    forall j | 0 <= j < NPROC ensures Local(s', j) { ReapLocal(s, i, s', j); }
    forall j, k | 0 <= j < NPROC && 0 <= k < NPROC && j != k ensures Pair(s', j, k) { ReapPair(s, i, s', j, k); }
    forall j, k | 0 <= j < NPROC && 0 <= k < NPROC ensures NotForgotten(s', j, k) { ReapTold(s, i, s', j, k); }
    Assemble(s');
  }

  lemma ReapLocal(s: Sys, i: nat, s': Sys, j: nat)
    requires Inv(s) && Reap(s, i, s') && j < NPROC
    ensures Local(s', j)
  {
    hide Inv, NotForgotten;
    Facts(s, i, j);
    Facts(s, i, s.procs[i].pc.i);
    Facts(s, j, s.procs[i].pc.i);
  }

  lemma ReapPair(s: Sys, i: nat, s': Sys, j: nat, k: nat)
    requires Inv(s) && Reap(s, i, s') && j < NPROC && k < NPROC && j != k
    ensures Pair(s', j, k)
  {
    hide Inv, NotForgotten, Set, Local, At, PairOf;
    var n := s.procs[i].pc.i;
    ZombieParked(s, n);
    Pairs(s, j, k);
    if j == n || k == n {
      ReapedPair(s.locks, s'.locks, n, s.procs[n], if j == n then k else j, s.procs[if j == n then k else j]);
      if i == j || i == k { BackInCode(s'.locks, i, s.procs[i], n, NOBODY); }
    } else {
      StillPair(s.locks, s'.locks, j, s.procs[j], k, s.procs[k]);
      if i == j || i == k { BackInCode(s'.locks, i, s.procs[i], if i == j then k else j, s.procs[if i == j then k else j]); }
    }
  }

  /** Nobody but the parent has anything to do with a zombie, and its slot with nobody. */
  lemma ReapedPair(locks: seq<int>, locks': seq<int>, n: nat, z: P, k: nat, q: P)
    requires PairOf(locks, n, z, k, q) && PairOf(locks, k, q, n, z) && z.pc == Parked(Never) && z.state == ZOMBIE
    ensures PairOf(locks', n, NOBODY, k, q) && PairOf(locks', k, q, n, NOBODY)
  {
  }

  /** `wait_lock` is released. */
  lemma StillPair(locks: seq<int>, locks': seq<int>, j: nat, p: P, k: nat, q: P)
    requires PairOf(locks, j, p, k, q) && |locks'| == |locks|
    requires forall l :: 0 <= l < |locks| ==> locks'[l] == locks[l] || locks'[l] == -1
    ensures PairOf(locks', j, p, k, q)
  {
  }

  /** The return from `wait`. */
  lemma BackInCode(locks: seq<int>, i: nat, p: P, k: nat, q: P)
    requires p.pc.Waiting?
    ensures PairOf(locks, i, p, k, q) ==> PairOf(locks, i, p.(pc := Code), k, q)
    ensures PairOf(locks, k, q, i, p) ==> PairOf(locks, k, q, i, p.(pc := Code))
  {
  }

  lemma ReapTold(s: Sys, i: nat, s': Sys, j: nat, k: nat)
    requires Inv(s) && Reap(s, i, s') && j < NPROC && k < NPROC
    ensures NotForgotten(s', j, k)
  {
    hide Inv;
    Facts(s, j, k);
    Facts(s, i, s.procs[i].pc.i);
  }

  /** Only one process at a time is inside `exit` or `wait`. */
  lemma OthersIdle(s: Sys, i: nat, j: nat)
    requires Inv(s) && i < NPROC && j < NPROC && i != j && (s.procs[i].pc.Exiting? || s.procs[i].pc.Waiting?)
    ensures ExitDone(s.procs[j].pc) == 0 && WaitDone(s.procs[j].pc) == 0 && !s.procs[j].pc.InExit?
  {
    hide Inv, Pair, NotForgotten;
    Facts(s, i, j);
  }

  /** Process `n`, a child of the exiting `i`, changes its parent, and `i` goes on to the next slot. */
  lemma GivenAway(locks: seq<int>, i: nat, n: nat, j: nat, p: P, k: nat, q: P)
    requires PairOf(locks, j, p, k, q) && PairOf(locks, k, q, j, p) && j != k && i != INIT && i != n
    requires (j == INIT ==> Alive(p)) && (k == INIT ==> Alive(q))
    requires (j == i ==> p.pc == Exiting(n)) && (k == i ==> q.pc == Exiting(n))
    requires j != i ==> ExitDone(p.pc) == 0 && WaitDone(p.pc) == 0 && !p.pc.InExit?
    requires (j == n ==> p.parent == i) && (k == n ==> q.parent == i)
    ensures PairOf(locks, j, Given(p, j, i, n), k, Given(q, k, i, n))
  {
    if j == i {
    } else if k == i {
    }
  }

  function Given(p: P, j: nat, i: nat, n: nat): P {
    if j == n then p.(parent := INIT) else if j == i then p.(pc := Waking(INIT, 0, ToReparent(n + 1))) else p
  }

  lemma ExitingNotInit(s: Sys, i: nat)
    requires Inv(s) && i < NPROC && s.procs[i].pc.Exiting?
    ensures i != INIT && s.procs[i].parent != i
  {
    hide Inv, Pair, NotForgotten;
    Facts(s, i, i);
  }

  lemma ChildBuilding(s: Sys, i: nat)
    requires Inv(s) && i < NPROC && s.procs[i].pc.Fork1?
    ensures s.procs[i].pc.child < NPROC && s.procs[s.procs[i].pc.child].on == -1
  {
    hide Inv, NotForgotten;
    Facts(s, i, i);
    Facts(s, i, s.procs[i].pc.child);
  }

  lemma InitAlive(s: Sys)
    requires Inv(s)
    ensures Alive(s.procs[INIT]) && s.procs[INIT].parent == -1
  {
    hide Pair, NotForgotten;
    assert Local(s, INIT);
  }

  /** A zombie whose lock is free is off its CPU for good. */
  lemma ZombieParked(s: Sys, n: nat)
    requires Inv(s) && n < NPROC && s.procs[n].state == ZOMBIE && !s.procs[n].lock
    ensures s.procs[n].pc == Parked(Never) && s.procs[n].on == -1
  {
    hide Inv, Pair, NotForgotten;
    Facts(s, n, n);
  }

  // ------------------------------------------------------- interrupt handlers

  function SetHandler(s: Sys, h: nat, hand: Handler): Sys
    requires h < |s.handlers|
  {
    s.(handlers := s.handlers[h := hand])
  }

  /** The handler of CPU `h` takes a lock, as `clockintr` and `virtio_disk_intr` do. */
  ghost predicate HandlerAcquire(s: Sys, h: nat, l: nat, s': Sys) {
    && Sized(s) && h < NCPU && s.handlers[h] == Calm && WAIT < l < |s.locks| && s.locks[l] == -1
    && s' == SetHandler(SetLock(s, l, NPROC + h), h, Holds(l))
  }

  ghost predicate HandlerRelease(s: Sys, h: nat, s': Sys) {
    && Sized(s) && h < NCPU && s.handlers[h].Holds? && s.handlers[h].l < |s.locks|
    && s' == SetHandler(SetLock(s, s.handlers[h].l, -1), h, Calm)
  }

  /** It calls `wakeup(c)`. */
  ghost predicate HandlerWake(s: Sys, h: nat, c: nat, s': Sys) {
    && Sized(s) && h < NCPU && s.handlers[h].Holds?
    && s' == SetHandler(s, h, Wakes(s.handlers[h].l, c, 0))
  }

  /**
   `wakeup` visits the next slot. It passes over the process it interrupted; that one is running
   with its lock free, so a visit would change nothing.
   */
  ghost predicate HandlerVisit(s: Sys, h: nat, s': Sys) {
    && Sized(s) && h < NCPU && s.handlers[h].Wakes? && s.handlers[h].i < NPROC
    && var w := s.handlers[h];
    && !s.procs[w.i].lock && s' == SetHandler(Set(s, w.i, Woken(s.procs[w.i], w.c)), h, Wakes(w.l, w.c, w.i + 1))
  }

  ghost predicate HandlerDone(s: Sys, h: nat, s': Sys) {
    && Sized(s) && h < NCPU && s.handlers[h].Wakes? && s.handlers[h].i == NPROC
    && s' == SetHandler(s, h, Holds(s.handlers[h].l))
  }

  /** Only the handler of CPU `h` has changed, and a lock that it takes or gives back. */
  ghost predicate OnlyHandler(s: Sys, h: nat, s': Sys) {
    && Sized(s) && Sized(s') && h < NCPU
    && s' == s.(locks := s'.locks, handlers := s'.handlers) && LocksBy(s, NPROC + h, s')
    && (forall k :: 0 <= k < NCPU && k != h ==> s'.handlers[k] == s.handlers[k])
    && HandlerLock(s', h)
    && s'.locks[WAIT] == s.locks[WAIT]
  }

  lemma HandlerKeeps(s: Sys, h: nat, s': Sys)
    requires Inv(s) && OnlyHandler(s, h, s') && forall j :: 0 <= j < NPROC ==> Passed(s'.handlers[h], j, s'.procs[j])
    ensures Inv(s')
  {
    hide Inv;
    forall j | 0 <= j < NPROC ensures Local(s', j) { Facts(s, j, j); }
    forall c | 0 <= c < NCPU ensures CpuOk(s', c) { CpuFact(s, c); }
    forall j, k | 0 <= j < NPROC && 0 <= k < NPROC && j != k ensures Pair(s', j, k) { Facts(s, j, k); }
    forall j, k | 0 <= j < NPROC && 0 <= k < NPROC ensures NotForgotten(s', j, k) { Facts(s, j, k); }
    OtherHandlers(s, h, s');
    Facts(s, 0, 0);
    Assemble(s');
  }

  lemma CpuFact(s: Sys, c: nat)
    requires Inv(s) && c < NCPU
    ensures CpuOk(s, c)
  {
    hide Local, Pair, NotForgotten, HandlersOk;
  }

  lemma OtherHandlers(s: Sys, h: nat, s': Sys)
    requires Inv(s) && OnlyHandler(s, h, s') && forall j :: 0 <= j < NPROC ==> Passed(s'.handlers[h], j, s'.procs[j])
    ensures HandlersOk(s')
  {
    hide Local, Pair, CpuOk, NotForgotten;
    forall k, j | 0 <= k < NCPU && 0 <= j < NPROC ensures Passed(s'.handlers[k], j, s'.procs[j]) {
      assert Passed(s.handlers[k], j, s.procs[j]);
    }
    forall k | 0 <= k < NCPU ensures HandlerLock(s', k) { assert HandlerLock(s, k); }
  }

  lemma HandlerFacts(s: Sys, h: nat, j: nat)
    requires Inv(s) && h < NCPU && j < NPROC
    ensures HandlerLock(s, h) && Passed(s.handlers[h], j, s.procs[j])
  {
    hide Local, Pair, CpuOk, NotForgotten;
  }

  /** Every step of a handler but a visit of `wakeup`. */
  ghost predicate HandlerStep(s: Sys, h: nat, x: nat, s': Sys) {
    HandlerAcquire(s, h, x, s') || HandlerRelease(s, h, s') || HandlerWake(s, h, x, s') || HandlerDone(s, h, s')
  }

  lemma HandlerStepKeeps(s: Sys, h: nat, x: nat, s': Sys)
    requires Inv(s) && HandlerStep(s, h, x, s')
    ensures Inv(s')
  {
    hide Inv;
    HandlerFacts(s, h, 0);
    HandlerKeeps(s, h, s');
  }

  lemma HandlerVisitKeeps(s: Sys, h: nat, s': Sys)
    requires Inv(s) && HandlerVisit(s, h, s')
    ensures Inv(s')
  {
    hide Inv, Local;
    var w := s.handlers[h];
    var s1 := Set(s, w.i, Woken(s.procs[w.i], w.c));
    WokenKeeps(s, w.i, w.c, s1);
    VisitedAwake(s1, w.i, w.c);
    HandlerFacts(s1, h, 0);
    forall j | 0 <= j < NPROC ensures Passed(s'.handlers[h], j, s'.procs[j]) {
      HandlerFacts(s1, h, j);
    }
    HandlerKeeps(s1, h, s');
  }

  lemma VisitedAwake(s: Sys, j: nat, c: nat)
    requires Inv(s) && j < NPROC && !s.procs[j].lock && Woken(s.procs[j], c) == s.procs[j]
    ensures Dozing(s.procs[j]) ==> DozeChan(s.procs[j].pc) != c
  {
    hide Inv, Pair, NotForgotten;
    Facts(s, j, j);
  }

  // ---------------------------------------------------------------------- runs

  /** Which process or handler moves, with the CPU, channel, lock or slot it picks. */
  datatype Act = Act(i: nat, x: nat, y: nat)

  /** Scheduling and `yield`. */
  ghost predicate Scheduled(s: Sys, a: Act, s': Sys) {
    || Pick(s, a.x, a.i, s')
    || Unlock(s, a.i, s')
    || YieldLock(s, a.i, s')
    || YieldMark(s, a.i, s')
    || Switch(s, a.i, s')
    || Unload(s, a.i, s')
  }

  /** `sleep`, and `wait` that goes to sleep. */
  ghost predicate Slept(s: Sys, a: Act, s': Sys) {
    || Relock(s, a.i, s')
    || SleepLock(s, a.i, a.x, a.y, s')
    || SleepDrop(s, a.i, s')
    || SleepMark(s, a.i, s')
    || WaitSleep(s, a.i, s')
  }

  /** Spin locks, `wakeup`, `kill` and the rest of `wait`. */
  ghost predicate Woke(s: Sys, a: Act, s': Sys) {
    || HandlerStep(s, a.i, a.x, s')
    || HandlerVisit(s, a.i, s')
    || Acquire(s, a.i, a.x, s')
    || Release(s, a.i, a.x, s')
    || WakeVisit(s, a.i, s')
    || Kill(s, a.i, s')
  }

  /** `wakeup` begins or ends, and `wait`. */
  ghost predicate Went(s: Sys, a: Act, s': Sys) {
    || WakeStart(s, a.i, a.x, s')
    || WakeEnd(s, a.i, s')
    || WaitStart(s, a.i, s')
    || WaitPass(s, a.i, s')
    || WaitFault(s, a.i, s')
    || WaitEnd(s, a.i, s')
  }

  /** `exit`. */
  ghost predicate Exited(s: Sys, a: Act, s': Sys) {
    || ExitStart(s, a.i, s')
    || ExitDrop(s, a.i, s')
    || ExitWake(s, a.i, s')
    || ExitMark(s, a.i, s')
    || ReparentPass(s, a.i, s')
  }

  /** `fork`. */
  ghost predicate Forked(s: Sys, a: Act, s': Sys) {
    || Alloc(s, a.i, a.x, s')
    || AllocFail(s, a.i, s')
    || ForkRelease(s, a.i, s')
  }

  /** The end of `fork`, `reparent`, and `wait` that finds a zombie. */
  ghost predicate Paired(s: Sys, a: Act, s': Sys) {
    || ForkParent(s, a.i, s')
    || ForkRun(s, a.i, s')
    || Reparent(s, a.i, s')
    || Reap(s, a.i, s')
  }

  ghost predicate Next(s: Sys, a: Act, s': Sys) {
    || Scheduled(s, a, s')
    || Slept(s, a, s')
    || Woke(s, a, s')
    || Went(s, a, s')
    || Exited(s, a, s')
    || Forked(s, a, s')
    || Paired(s, a, s')
  }

  lemma NextKeeps(s: Sys, a: Act, s': Sys)
    requires Inv(s) && Next(s, a, s')
    ensures Inv(s')
  {
    hide Inv, HandlerStep, HandlerVisit, Pick, Acquire, Release, SleepLock, WakeStart, Alloc, Unlock, Relock;
    hide YieldLock, YieldMark, SleepDrop, SleepMark, Switch, Unload, Kill, ExitStart, ExitDrop, WaitStart, WaitEnd, WaitSleep;
    hide WaitFault, WakeEnd, ExitWake, ExitMark, WaitPass, ReparentPass, WakeVisit, AllocFail, ForkRelease, ForkParent;
    hide ForkRun, Reparent, Reap;
    if HandlerStep(s, a.i, a.x, s') {
      HandlerStepKeeps(s, a.i, a.x, s');
    } else if HandlerVisit(s, a.i, s') {
      HandlerVisitKeeps(s, a.i, s');
    } else if Pick(s, a.x, a.i, s') {
      PickKeeps(s, a.x, a.i, s');
    } else if Acquire(s, a.i, a.x, s') {
      AcquireKeeps(s, a.i, a.x, s');
    } else if Release(s, a.i, a.x, s') {
      ReleaseKeeps(s, a.i, a.x, s');
    } else if SleepLock(s, a.i, a.x, a.y, s') {
      SleepLockKeeps(s, a.i, a.x, a.y, s');
    } else if WakeStart(s, a.i, a.x, s') {
      WakeStartKeeps(s, a.i, a.x, s');
    } else if Alloc(s, a.i, a.x, s') {
      AllocKeeps(s, a.i, a.x, s');
    } else if Unlock(s, a.i, s') {
      UnlockKeeps(s, a.i, s');
    } else if Relock(s, a.i, s') {
      RelockKeeps(s, a.i, s');
    } else if YieldLock(s, a.i, s') {
      YieldLockKeeps(s, a.i, s');
    } else if YieldMark(s, a.i, s') {
      YieldMarkKeeps(s, a.i, s');
    } else if SleepDrop(s, a.i, s') {
      SleepDropKeeps(s, a.i, s');
    } else if SleepMark(s, a.i, s') {
      SleepMarkKeeps(s, a.i, s');
    } else if Switch(s, a.i, s') {
      SwitchKeeps(s, a.i, s');
    } else if Unload(s, a.i, s') {
      UnloadKeeps(s, a.i, s');
    } else if Kill(s, a.i, s') {
      KillKeeps(s, a.i, s');
    } else if ExitStart(s, a.i, s') {
      ExitStartKeeps(s, a.i, s');
    } else if ExitDrop(s, a.i, s') {
      ExitDropKeeps(s, a.i, s');
    } else if WaitStart(s, a.i, s') {
      WaitStartKeeps(s, a.i, s');
    } else if WaitEnd(s, a.i, s') {
      WaitEndKeeps(s, a.i, s');
    } else if WaitSleep(s, a.i, s') {
      WaitSleepKeeps(s, a.i, s');
    } else if WaitFault(s, a.i, s') {
      WaitFaultKeeps(s, a.i, s');
    } else if WakeEnd(s, a.i, s') {
      WakeEndKeeps(s, a.i, s');
    } else if ExitWake(s, a.i, s') {
      ExitWakeKeeps(s, a.i, s');
    } else if ExitMark(s, a.i, s') {
      ExitMarkKeeps(s, a.i, s');
    } else if WaitPass(s, a.i, s') {
      WaitPassKeeps(s, a.i, s');
    } else if ReparentPass(s, a.i, s') {
      ReparentPassKeeps(s, a.i, s');
    } else if WakeVisit(s, a.i, s') {
      WakeVisitKeeps(s, a.i, s');
    } else if AllocFail(s, a.i, s') {
      AllocFailKeeps(s, a.i, s');
    } else if ForkRelease(s, a.i, s') {
      ForkReleaseKeeps(s, a.i, s');
    } else if ForkParent(s, a.i, s') {
      ForkParentKeeps(s, a.i, s');
    } else if ForkRun(s, a.i, s') {
      ForkRunKeeps(s, a.i, s');
    } else if Reparent(s, a.i, s') {
      ReparentKeeps(s, a.i, s');
    } else if Reap(s, a.i, s') {
      ReapKeeps(s, a.i, s');
    }
  }

  /** After boot: only init, runnable, and no lock is held. */
  ghost predicate Boot(s: Sys) {
    && Sized(s) && s.reaped == {} && s.nextpid == 2
    && s.procs[INIT] == P(RUNNABLE, 0, -1, 1, false, false, -1, Parked(Start), -1)
    && (forall j :: 0 <= j < NPROC && j != INIT ==> s.procs[j] == NOBODY)
    && (forall c :: 0 <= c < NCPU ==> s.cpus[c] == -1 && s.handlers[c] == Calm)
    && (forall l :: 0 <= l < |s.locks| ==> s.locks[l] == -1)
  }

  lemma BootInv(s: Sys)
    requires Boot(s)
    ensures Inv(s)
  {
  }

  ghost predicate Run(ss: seq<Sys>, acts: seq<Act>) {
    |ss| == |acts| + 1 && Boot(ss[0]) && forall t :: 0 <= t < |acts| ==> Next(ss[t], acts[t], ss[t + 1])
  }

  lemma {:induction false} EveryRun(ss: seq<Sys>, acts: seq<Act>)
    requires Run(ss, acts)
    ensures Inv(ss[|acts|])
    decreases |acts|
  {
    hide Inv, Next, Boot;
    var n := |acts|;
    if n == 0 {
      BootInv(ss[0]);
    } else {
      EveryRun(ss[..n], acts[..n - 1]);
      NextKeeps(ss[n - 1], acts[n - 1], ss[n]);
    }
  }

  // ---------------------------------------------------------- what this gives

  /** No process is on two CPUs. */
  lemma OneCpuEach(s: Sys, c: nat, d: nat)
    requires Inv(s) && c < NCPU && d < NCPU && c != d && s.cpus[c] >= 0
    ensures s.cpus[d] != s.cpus[c]
  {
    hide Local, Pair, NotForgotten, HandlersOk;
    CpuFacts(s);
  }

  /** A scheduler only loads a context that was saved after its last use, or a new one. */
  lemma LoadsSavedContext(s: Sys, c: nat, i: nat, s': Sys)
    requires Inv(s) && Pick(s, c, i, s')
    ensures s.procs[i].on == -1 && s.procs[i].pc.Parked? && s.procs[i].pc.k != Never
    ensures s'.procs[i].pc == Resumed(s.procs[i].pc.k)
  {
    hide Inv, Pair, NotForgotten;
    Facts(s, i, i);
  }

  /** As `sched` checks: a process about to switch away holds its own lock and no other and is not marked running. */
  lemma SchedChecks(s: Sys, i: nat, s': Sys)
    requires Inv(s) && Switch(s, i, s')
    ensures s.procs[i].lock && s.procs[i].state != RUNNING && 0 <= s.procs[i].on < NCPU && s.cpus[s.procs[i].on] == i
    ensures HoldsNone(s, i)
  {
    hide Inv, Pair, NotForgotten;
    Facts(s, i, i);
  }

  /** When `wakeup(c)` returns to a caller that holds `l`, nobody who slept on `c` with `l` is asleep any more. */
  lemma NoLostWakeup(s: Sys, q: nat, c: nat, l: nat, j: nat)
    requires Inv(s) && q < NPROC && j < NPROC && j != q && l < |s.locks| && s.locks[l] == q
    requires s.procs[q].pc.Waking? && s.procs[q].pc.c == c && s.procs[q].pc.i == NPROC
    ensures !(Dozing(s.procs[j]) && DozeChan(s.procs[j].pc) == c && DozeLock(s.procs[j].pc) == l)
    ensures !(s.procs[j].pc.InSleep? && s.procs[j].pc.l == l)
  {
    hide Inv, NotForgotten;
    Facts(s, q, j);
  }

  /** The same for the `wakeup` of an interrupt handler. */
  lemma NoLostInterrupt(s: Sys, h: nat, j: nat)
    requires Inv(s) && h < NCPU && j < NPROC && s.handlers[h].Wakes? && s.handlers[h].i == NPROC
    ensures s.handlers[h].l < |s.locks| && s.locks[s.handlers[h].l] == NPROC + h
    ensures !(Dozing(s.procs[j]) && DozeChan(s.procs[j].pc) == s.handlers[h].c && DozeLock(s.procs[j].pc) == s.handlers[h].l)
    ensures !(s.procs[j].pc.InSleep? && s.procs[j].pc.l == s.handlers[h].l)
  {
    hide Inv, Pair, NotForgotten;
    HandlerFacts(s, h, j);
    Facts(s, j, j);
  }

  /** A parent is neither unused nor a zombie, and every process but init that may run has one. */
  lemma ParentAlive(s: Sys, i: nat)
    requires Inv(s) && i < NPROC
    ensures s.procs[i].parent >= 0 ==> s.procs[i].parent < NPROC && Alive(s.procs[s.procs[i].parent])
    ensures i != INIT && (Alive(s.procs[i]) || s.procs[i].state == ZOMBIE) ==> s.procs[i].parent >= 0
    ensures s.procs[i].parent < 0 && i != INIT && s.procs[i].state != UNUSED ==>
      0 <= s.procs[i].maker < NPROC && Forking(s.procs[s.procs[i].maker].pc)
  {
    hide Inv, NotForgotten;
    Facts(s, i, i);
    if s.procs[i].parent >= 0 {
      Facts(s, i, s.procs[i].parent);
    }
    if s.procs[i].state == USED {
      Facts(s, i, s.procs[i].maker);
    }
  }

  /** A zombie is reaped by its parent, off every CPU, and no process with its pid was or will be. */
  lemma ReapedOnce(s: Sys, i: nat, s': Sys)
    requires Inv(s) && Reap(s, i, s')
    ensures var z := s.procs[s.procs[i].pc.i];
      z.parent == i && z.pc == Parked(Never) && z.on == -1 && z.pid !in s.reaped && s'.reaped == s.reaped + {z.pid}
    ensures forall j :: 0 <= j < NPROC && s'.procs[j].state != UNUSED ==>
      s'.procs[j].pid != s.procs[s.procs[i].pc.i].pid
  {
    hide Inv, Pair, NotForgotten;
    ReapKeeps(s, i, s');
    ZombieParked(s, s.procs[i].pc.i);
    Facts(s, i, s.procs[i].pc.i);
    forall j | 0 <= j < NPROC && s'.procs[j].state != UNUSED ensures s'.procs[j].pid != s.procs[s.procs[i].pc.i].pid {
      Facts(s', j, j);
    }
  }

  /** `reaped` gains the pid that `wait` returns and nothing else. */
  lemma Reaped(s: Sys, a: Act, s': Sys)
    requires Next(s, a, s')
    ensures s.reaped <= s'.reaped
    ensures s'.reaped != s.reaped ==> Reap(s, a.i, s')
  {
  }

  lemma {:induction false} ReapedGrows(ss: seq<Sys>, acts: seq<Act>, t: nat, u: nat)
    requires Run(ss, acts) && t <= u <= |acts|
    ensures ss[t].reaped <= ss[u].reaped
    decreases u
  {
    hide Boot, Next;
    if t < u {
      ReapedGrows(ss, acts, t, u - 1);
      Reaped(ss[u - 1], acts[u - 1], ss[u]);
    }
  }

  /** In every run a pid that `wait` returned never belongs to a process again, and is not returned again. */
  lemma NeverAgain(ss: seq<Sys>, acts: seq<Act>, t: nat, u: nat, j: nat)
    requires Run(ss, acts) && t < u <= |acts| && j < NPROC && Reap(ss[t], acts[t].i, ss[t + 1])
    ensures var pid := ss[t].procs[ss[t].procs[acts[t].i].pc.i].pid;
      && (Sized(ss[u]) && ss[u].procs[j].state != UNUSED ==> ss[u].procs[j].pid != pid)
      && (u < |acts| && Reap(ss[u], acts[u].i, ss[u + 1]) ==> ss[u].procs[ss[u].procs[acts[u].i].pc.i].pid != pid)
  {
    hide Inv, Pair, NotForgotten, Boot, Next;
    EveryRun(ss[..u + 1], acts[..u]);
    ReapedGrows(ss, acts, t + 1, u);
    Facts(ss[u], j, j);
    if u < |acts| && Reap(ss[u], acts[u].i, ss[u + 1]) {
      var z := ss[u].procs[acts[u].i].pc.i;
      Facts(ss[u], z, z);
    }
  }

  // ---------------------------------------------------------------------- kill

  /** A killed process that is asleep in `wait`, or on its way there without looking again. */
  predicate Lost(p: P) {
    p.killed && Sleepy(p)
  }

  predicate Sleepy(p: P) {
    p.pc == Decided || (p.pc.InSleep? && p.pc.ret == ToWait) || DozingInWait(p)
  }

  /** `kill` sets the flag and leaves nobody asleep, and nothing else changes. It is lost exactly on its way to sleep. */
  lemma KillWakes(s: Sys, i: nat, s': Sys)
    requires Inv(s) && Kill(s, i, s')
    ensures s'.procs[i].killed && s'.procs[i].state != SLEEPING
    ensures s.procs[i].state == SLEEPING ==> s'.procs[i].state == RUNNABLE
    ensures s' == s.(procs := s.procs[i := s.procs[i].(killed := true, state := s'.procs[i].state)])
    ensures s.procs[i].state != SLEEPING ==> s'.procs[i].state == s.procs[i].state
    ensures Lost(s'.procs[i]) <==> s.procs[i].pc == Decided
  {
    hide Inv, Pair, NotForgotten;
    Facts(s, i, i);
  }

  /** At the end of a round of `wait` a killed process returns. */
  lemma KilledReturns(s: Sys, i: nat, s': Sys)
    requires Inv(s) && WaitEnd(s, i, s') && s.procs[i].killed
    ensures s'.procs[i] == s.procs[i].(pc := Code) && s'.locks[WAIT] == -1
  {
  }

  /** What becomes of a slot in one step, as far as `kill` is concerned. */
  ghost predicate Minds(s: Sys, p: P, p': P) {
    && (p.killed ==> p'.killed || p' == NOBODY)
    && (p'.state != UNUSED ==> p'.pid == s.nextpid || (p.state != UNUSED && p'.pid == p.pid))
    && (p.state != UNUSED && p.pid < s.nextpid && p'.pid == p.pid && p'.state != UNUSED && p.killed && !Lost(p) ==> !Lost(p'))
  }

  /** Nothing has changed for `kill`, and the process is where it was, or not on its way to sleep in `wait`. */
  lemma SameMinds(s: Sys, p: P, p': P)
    requires p'.killed == p.killed && p'.pid == p.pid && (p'.state == UNUSED <==> p.state == UNUSED)
    requires
      || (p'.pc == p.pc && (p'.state == p.state || p'.state != SLEEPING))
      || Upright(p'.pc) || (p'.pc == Decided && !p.killed) || Drifts(p.pc, p'.pc)
    requires p.state == SLEEPING || p'.state != SLEEPING || p.pc.Dropped?
    ensures Minds(s, p, p')
  {
  }

  predicate Upright(pc: Pc) {
    || pc.Nothing? || pc.Building? || pc.Code? || pc.InYield? || pc.Resumed? || pc.Reacquire? || pc.Waking? || pc.Fork1?
    || pc.Fork2? || pc.Fork3? || pc.Exiting? || pc.InExit? || pc.Dead? || pc.Waiting?
    || (pc.InSleep? && pc.ret == ToCode) || ((pc.Marked? || pc.Switched? || pc.Parked?) && !pc.k.AfterSleep?)
  }

  /** The next point in `sleep`. */
  predicate Drifts(pc: Pc, pc': Pc) {
    || (pc == Decided && pc'.InSleep?)
    || (pc.InSleep? && pc' == Dropped(pc.c, pc.l, pc.ret))
    || (pc.Dropped? && pc' == Marked(AfterSleep(pc.c, pc.l, pc.ret)))
    || (pc.Marked? && pc' == Switched(pc.k)) || (pc.Switched? && pc' == Parked(pc.k))
  }

  lemma NextMinds(s: Sys, a: Act, s': Sys, j: nat)
    requires Inv(s) && Next(s, a, s') && j < NPROC
    ensures Sized(s') && Minds(s, s.procs[j], s'.procs[j]) && s'.nextpid >= s.nextpid
    ensures s.procs[j].killed && !s'.procs[j].killed ==> Reap(s, a.i, s') || AllocFail(s, a.i, s')
  {
    hide Inv, Minds, Scheduled, Slept, Woke, Went, Exited, Forked, Paired;
    if Scheduled(s, a, s') {
      ScheduledMinds(s, a, s', j);
    } else if Slept(s, a, s') {
      SleptMinds(s, a, s', j);
    } else if Woke(s, a, s') {
      WokeMinds(s, a, s', j);
    } else if Went(s, a, s') {
      WentMinds(s, a, s', j);
    } else if Exited(s, a, s') {
      ExitedMinds(s, a, s', j);
    } else if Forked(s, a, s') {
      ForkedMinds(s, a, s', j);
    } else {
      PairedMinds(s, a, s', j);
    }
  }

  lemma ScheduledMinds(s: Sys, a: Act, s': Sys, j: nat)
    requires Inv(s) && Scheduled(s, a, s') && j < NPROC
    ensures Sized(s') && Minds(s, s.procs[j], s'.procs[j]) && s'.nextpid >= s.nextpid
    ensures s.procs[j].killed ==> s'.procs[j].killed
  {
    hide Inv, Minds, Pick, Unlock, YieldLock, YieldMark, Switch, Unload;
    if Pick(s, a.x, a.i, s') || Unlock(s, a.i, s') || YieldLock(s, a.i, s') {
      LoadMinds(s, a, s', j);
    } else {
      LeaveMinds(s, a, s', j);
    }
  }

  lemma LoadMinds(s: Sys, a: Act, s': Sys, j: nat)
    requires Inv(s) && (Pick(s, a.x, a.i, s') || Unlock(s, a.i, s') || YieldLock(s, a.i, s')) && j < NPROC
    ensures Sized(s') && Minds(s, s.procs[j], s'.procs[j]) && s'.nextpid >= s.nextpid
    ensures s.procs[j].killed ==> s'.procs[j].killed
  {
    hide Inv, Set, Minds, Sleepy;
    SlotFacts(s, j);
    SameMinds(s, s.procs[j], s'.procs[j]);
  }

  lemma LeaveMinds(s: Sys, a: Act, s': Sys, j: nat)
    requires Inv(s) && (YieldMark(s, a.i, s') || Switch(s, a.i, s') || Unload(s, a.i, s')) && j < NPROC
    ensures Sized(s') && Minds(s, s.procs[j], s'.procs[j]) && s'.nextpid >= s.nextpid
    ensures s.procs[j].killed ==> s'.procs[j].killed
  {
    hide Inv, Set, Minds, Sleepy;
    SlotFacts(s, j);
    SameMinds(s, s.procs[j], s'.procs[j]);
  }

  lemma SleptMinds(s: Sys, a: Act, s': Sys, j: nat)
    requires Inv(s) && Slept(s, a, s') && j < NPROC
    ensures Sized(s') && Minds(s, s.procs[j], s'.procs[j]) && s'.nextpid >= s.nextpid
    ensures s.procs[j].killed ==> s'.procs[j].killed
  {
    hide Inv, Set, Minds, Sleepy;
    SlotFacts(s, j);
    SameMinds(s, s.procs[j], s'.procs[j]);
  }

  lemma WokeMinds(s: Sys, a: Act, s': Sys, j: nat)
    requires Inv(s) && Woke(s, a, s') && j < NPROC
    ensures Sized(s') && Minds(s, s.procs[j], s'.procs[j]) && s'.nextpid >= s.nextpid
    ensures s.procs[j].killed ==> s'.procs[j].killed
  {
    hide Inv, Set, Minds, Sleepy, HandlerStep, HandlerVisit, Acquire, Release, WakeVisit, Kill;
    if Kill(s, a.i, s') {
      KillMinds(s, a.i, s', j);
    } else {
      VisitMinds(s, a, s', j);
    }
  }

  lemma KillMinds(s: Sys, i: nat, s': Sys, j: nat)
    requires Inv(s) && Kill(s, i, s') && j < NPROC
    ensures Sized(s') && Minds(s, s.procs[j], s'.procs[j]) && s'.nextpid == s.nextpid && (s.procs[j].killed ==> s'.procs[j].killed)
  {
    hide Inv;
    SlotFacts(s, j);
    KillWakes(s, i, s');
  }

  lemma VisitMinds(s: Sys, a: Act, s': Sys, j: nat)
    requires Inv(s) && Woke(s, a, s') && !Kill(s, a.i, s') && j < NPROC
    ensures Sized(s') && Minds(s, s.procs[j], s'.procs[j]) && s'.nextpid >= s.nextpid
    ensures s.procs[j].killed ==> s'.procs[j].killed
  {
    hide Inv, Set, Minds, Sleepy, Kill;
    SlotFacts(s, j);
    if s'.procs[j] == s.procs[j] {
      SameMinds(s, s.procs[j], s'.procs[j]);
    } else {
      SameMinds(s, s.procs[j], s'.procs[j]);
    }
  }

  lemma WentMinds(s: Sys, a: Act, s': Sys, j: nat)
    requires Inv(s) && Went(s, a, s') && j < NPROC
    ensures Sized(s') && Minds(s, s.procs[j], s'.procs[j]) && s'.nextpid >= s.nextpid
    ensures s.procs[j].killed ==> s'.procs[j].killed
  {
    hide Inv, Minds, WakeStart, WakeEnd, WaitStart, WaitPass, WaitFault, WaitEnd;
    if WakeStart(s, a.i, a.x, s') || WakeEnd(s, a.i, s') || WaitStart(s, a.i, s') {
      StartMinds(s, a, s', j);
    } else {
      RoundMinds(s, a, s', j);
    }
  }

  lemma StartMinds(s: Sys, a: Act, s': Sys, j: nat)
    requires Inv(s) && (WakeStart(s, a.i, a.x, s') || WakeEnd(s, a.i, s') || WaitStart(s, a.i, s')) && j < NPROC
    ensures Sized(s') && Minds(s, s.procs[j], s'.procs[j]) && s'.nextpid >= s.nextpid
    ensures s.procs[j].killed ==> s'.procs[j].killed
  {
    hide Inv, Set, Minds, Sleepy;
    SlotFacts(s, j);
    SameMinds(s, s.procs[j], s'.procs[j]);
  }

  lemma RoundMinds(s: Sys, a: Act, s': Sys, j: nat)
    requires Inv(s) && (WaitPass(s, a.i, s') || WaitFault(s, a.i, s') || WaitEnd(s, a.i, s')) && j < NPROC
    ensures Sized(s') && Minds(s, s.procs[j], s'.procs[j]) && s'.nextpid >= s.nextpid
    ensures s.procs[j].killed ==> s'.procs[j].killed
  {
    hide Inv, Set, Minds, Sleepy;
    SlotFacts(s, j);
    SameMinds(s, s.procs[j], s'.procs[j]);
  }

  lemma ExitedMinds(s: Sys, a: Act, s': Sys, j: nat)
    requires Inv(s) && Exited(s, a, s') && j < NPROC
    ensures Sized(s') && Minds(s, s.procs[j], s'.procs[j]) && s'.nextpid >= s.nextpid
    ensures s.procs[j].killed ==> s'.procs[j].killed
  {
    hide Inv, Set, Minds, Sleepy;
    SlotFacts(s, j);
    SameMinds(s, s.procs[j], s'.procs[j]);
  }

  lemma ForkedMinds(s: Sys, a: Act, s': Sys, j: nat)
    requires Inv(s) && Forked(s, a, s') && j < NPROC
    ensures Sized(s') && Minds(s, s.procs[j], s'.procs[j]) && s'.nextpid >= s.nextpid
    ensures s.procs[j].killed && !s'.procs[j].killed ==> AllocFail(s, a.i, s')
  {
    hide Inv, Set, Sleepy;
    SlotFacts(s, j);
    if s'.procs[j] != NOBODY && s.procs[j].state != UNUSED {
      SameMinds(s, s.procs[j], s'.procs[j]);
    }
  }

  lemma ChildUsed(s: Sys, i: nat)
    requires Inv(s) && i < NPROC
    ensures s.procs[i].pc.Fork3? && s.procs[i].pc.child < NPROC ==> s.procs[s.procs[i].pc.child].state == USED
  {
    hide Inv, NotForgotten;
    Facts(s, i, i);
    if s.procs[i].pc.Fork3? && s.procs[i].pc.child < NPROC {
      Facts(s, i, s.procs[i].pc.child);
    }
  }

  lemma PairedMinds(s: Sys, a: Act, s': Sys, j: nat)
    requires Inv(s) && Paired(s, a, s') && j < NPROC
    ensures Sized(s') && Minds(s, s.procs[j], s'.procs[j]) && s'.nextpid >= s.nextpid
    ensures s.procs[j].killed && !s'.procs[j].killed ==> Reap(s, a.i, s')
  {
    hide Inv, Minds, ForkParent, ForkRun, Reparent, Reap;
    if Reap(s, a.i, s') { ReapMinds(s, a.i, s', j); } else { ParentMinds(s, a, s', j); }
  }

  lemma ReapMinds(s: Sys, i: nat, s': Sys, j: nat)
    requires Inv(s) && Reap(s, i, s') && j < NPROC
    ensures Sized(s') && Minds(s, s.procs[j], s'.procs[j]) && s'.nextpid == s.nextpid
  {
    hide Inv, Set, Sleepy;
    SlotFacts(s, j);
    if s'.procs[j] != NOBODY {
      SameMinds(s, s.procs[j], s'.procs[j]);
    }
  }

  lemma ParentMinds(s: Sys, a: Act, s': Sys, j: nat)
    requires Inv(s) && (ForkParent(s, a.i, s') || ForkRun(s, a.i, s') || Reparent(s, a.i, s')) && j < NPROC
    ensures Sized(s') && Minds(s, s.procs[j], s'.procs[j]) && s'.nextpid >= s.nextpid
    ensures s.procs[j].killed ==> s'.procs[j].killed
  {
    hide Inv, Set, Minds, Sleepy;
    SlotFacts(s, j);
    ChildUsed(s, a.i);
    SameMinds(s, s.procs[j], s'.procs[j]);
  }

  /**
   In every run: a process that has been killed stays so until its slot is freed. If it was not just on
   its way to sleep in `wait` when it was killed, it is never asleep there again.
   */
  lemma {:induction false} KilledForGood(ss: seq<Sys>, acts: seq<Act>, t: nat, u: nat, j: nat)
    requires Run(ss, acts) && t < u <= |acts| && j < NPROC && Kill(ss[t], j, ss[t + 1])
    requires ss[t].procs[j].state != UNUSED
    ensures Sized(ss[t]) && Sized(ss[u]) && ss[t].procs[j].pid < ss[u].nextpid
    ensures var p, q := ss[t].procs[j], ss[u].procs[j];
      q.state != UNUSED && q.pid == p.pid ==> q.killed && (p.pc != Decided ==> !Lost(q))
    decreases u
  {
    hide Inv, Next, Boot, Lost, Minds;
    EveryRun(ss[..u], acts[..u - 1]);
    if u == t + 1 {
      KillWakes(ss[t], j, ss[u]);
      SlotFacts(ss[t], j);
      NextMinds(ss[t], acts[t], ss[u], j);
    } else {
      KilledForGood(ss, acts, t, u - 1, j);
      NextMinds(ss[u - 1], acts[u - 1], ss[u], j);
      MindsKilled(ss[u - 1], ss[t].procs[j], ss[u - 1].procs[j], ss[u].procs[j]);
    }
  }

  lemma MindsKilled(s: Sys, p: P, q: P, q': P)
    requires Minds(s, q, q') && p.pid < s.nextpid
    requires q.state != UNUSED && q.pid == p.pid ==> q.killed && (p.pc != Decided ==> !Lost(q))
    ensures q'.state != UNUSED && q'.pid == p.pid ==> q'.killed && (p.pc != Decided ==> !Lost(q'))
  {
    hide Lost;
  }

  /** While `wait_lock` is free, nobody sleeps in `wait` on a zombie child. */
  lemma NoZombieForgotten(s: Sys, i: nat, j: nat)
    requires Inv(s) && i < NPROC && j < NPROC && s.locks[WAIT] == -1
    requires DozingInWait(s.procs[i]) && s.procs[j].parent == i
    ensures s.procs[j].state != ZOMBIE
  {
    hide Inv, Pair;
    Facts(s, i, j);
  }
}
