/** kernel/virtio_disk.c: the driver's operations, between two of which the lock is free. */
module Virtio {
  import opened Blocks
  import opened VirtioSpec

  datatype Outcome = Done | Panic

  /** The descriptors in `idx` are taken. */
  function TakeAll(free: seq<bool>, idx: seq<nat>): (r: seq<bool>)
    ensures |r| == |free| && forall j :: 0 <= j < |free| ==> r[j] == (free[j] && j !in idx)
  {
    seq(|free|, j requires 0 <= j < |free| => free[j] && j !in idx)
  }

  /** Distinct descriptors, all of them free. */
  ghost predicate FreeOnes(free: seq<bool>, idx: seq<nat>) {
    && (forall i :: 0 <= i < |idx| ==> idx[i] < |free| && free[idx[i]])
    && (forall i, j :: 0 <= i < j < |idx| ==> idx[i] != idx[j])
  }

  /** Clearing descriptors that are free changes nothing that matters. */
  ghost predicate SameButFree(s: State, s': State) {
    && Shape(s) && Shape(s') && s' == s.(mem := s'.mem) && s'.mem == s.mem.(desc := s'.mem.desc)
    && forall i :: 0 <= i < NUM && !s.free[i] ==> s'.mem.desc[i] == s.mem.desc[i]
  }

  lemma SameButFreeKeeps(s: State, v: View, s': State)
    requires Inv(s, v) && SameButFree(s, s')
    ensures Inv(s', v)
  {
    hide Available, Completed, Buffers;
    forall h | h in v.chains ensures Described(s'.mem, h, v.chains[h], v.reqs[h]) {
      assert Owns(v.chains, h, h) && Owns(v.chains, h, v.chains[h].i1) && Owns(v.chains, h, v.chains[h].i2);
    }
  }

  /** With none left after taking `idx`, no more than these were free. */
  lemma AllTaken(free: seq<bool>, idx: seq<nat>)
    requires FreeOnes(free, idx) && forall j :: 0 <= j < |free| ==> !TakeAll(free, idx)[j]
    ensures |FreeSet(free)| == |idx|
  {
    HeadSetSize(idx);
    forall x ensures x in FreeSet(free) <==> x in HeadSet(idx) {
      if x in FreeSet(free) { assert !TakeAll(free, idx)[x]; }
      if x in idx {
        var i :| 0 <= i < |idx| && idx[i] == x;
        assert idx[i] < |free| && free[idx[i]];
      }
    }
    assert FreeSet(free) == HeadSet(idx);
  }

  /** Freeing the first of the descriptors taken. */
  lemma PutOne(free: seq<bool>, idx: seq<nat>, j: nat)
    requires FreeOnes(free, idx) && j < |idx|
    ensures idx[j] < |free| && free[idx[j]] && !TakeAll(free, idx[j..])[idx[j]]
    ensures TakeAll(free, idx[j..])[idx[j] := true] == TakeAll(free, idx[j + 1..])
  {
    hide TakeAll;
    assert idx[j..] == [idx[j]] + idx[j + 1..];
  }

  class Disk {
    var s: State
    ghost var v: View

    ghost predicate Valid()
      reads this
    {
      Inv(s, v)
    }

    /** After `virtio_disk_init`: all descriptors free, both rings empty. */
    constructor (data: map<nat, Block>, disk: seq<Byte>)
      ensures Valid() && v.reqs == map[] && s.data == data && s.disk == disk
    {
      var mem := Shared(seq(NUM, _ => ZERO_DESC), seq(NUM, _ => Op(false, 0)), seq(NUM, _ => 0), seq(NUM, _ => 0));
      s := State(seq(NUM, _ => true), mem, {}, 0, seq(NUM, _ => 0), 0, seq(NUM, _ => 0), 0, 0, data, disk);
      v := View(map[], map[], map[], map[], [], 0, [], 0);
    }

    /** `alloc_desc`: the first free descriptor, -1 if there is none. */
    method AllocDesc() returns (i: int)
      requires Shape(s)
      modifies this`s
      ensures i < 0 ==> s == old(s) && forall j :: 0 <= j < NUM ==> !s.free[j]
      ensures i >= 0 ==> i < NUM && old(s).free[i] && s == old(s).(free := old(s).free[i := false])
    {
      for k := 0 to NUM
        invariant s == old(s) && forall j :: 0 <= j < k ==> !s.free[j]
      {
        if s.free[k] {
          s := s.(free := s.free[k := false]);
          return k;
        }
      }
      return -1;
    }

    /** `free_desc`. */
    method FreeDesc(i: nat) returns (r: Outcome)
      requires Shape(s)
      modifies this`s
      ensures r.Panic? <==> i >= NUM || old(s).free[i]
      ensures r.Panic? ==> s == old(s)
      ensures r.Done? ==>
        s == old(s).(free := old(s).free[i := true], mem := old(s).mem.(desc := old(s).mem.desc[i := ZERO_DESC]))
    {
      if i >= NUM {
        return Panic;
      }
      if s.free[i] {
        return Panic;
      }
      s := s.(mem := s.mem.(desc := s.mem.desc[i := ZERO_DESC]), free := s.free[i := true]);
      return Done;
    }

    /** `alloc3_desc`: three descriptors, or none, exactly if fewer than three are free. */
    method Alloc3() returns (idx: seq<nat>, r: Outcome)
      requires Shape(s)
      modifies this`s
      ensures r.Done? && (|idx| == 3 <==> |FreeSet(old(s).free)| >= 3) && (|idx| == 3 || idx == [])
      ensures |idx| == 3 ==> FreeOnes(old(s).free, idx) && s == old(s).(free := TakeAll(old(s).free, idx))
      ensures idx == [] ==> SameButFree(old(s), s)
    {
      ghost var s0 := s;
      idx := [];
      for i := 0 to 3
        invariant |idx| == i && FreeOnes(s0.free, idx) && s == s0.(free := TakeAll(s0.free, idx))
      {
        ghost var before := s.free;
        var k := AllocDesc();
        if k < 0 {
          AllTaken(s0.free, idx);
          r := PutBack(idx, s0);
          return [], r;
        }
        assert before[k] && k !in idx;
        idx := idx + [k];
      }
      HeadSetSize(idx);
      SubsetSize(HeadSet(idx), FreeSet(s0.free));
      return idx, Done;
    }

    /** The failure path of `alloc3_desc`: the descriptors got so far are freed again. */
    method PutBack(idx: seq<nat>, ghost s0: State) returns (r: Outcome)
      requires Shape(s0) && FreeOnes(s0.free, idx) && s == s0.(free := TakeAll(s0.free, idx))
      modifies this`s
      ensures r.Done? && SameButFree(s0, s)
    {
      hide TakeAll, FreeOnes;
      r := Done;
      for j := 0 to |idx|
        invariant r.Done? && Shape(s) && s == s0.(free := TakeAll(s0.free, idx[j..]), mem := s.mem)
        invariant s.mem == s0.mem.(desc := s.mem.desc)
        invariant forall i :: 0 <= i < NUM && !s0.free[i] ==> s.mem.desc[i] == s0.mem.desc[i]
      {
        PutOne(s0.free, idx, j);
        r := FreeDesc(idx[j]);
      }
      assert idx[|idx|..] == [] && TakeAll(s0.free, []) == s0.free;
    }

    /** The first part of `virtio_disk_rw`, up to its first wait: publish the request, or wait for descriptors. */
    method Submit(b: nat, blockno: nat, write: bool) returns (idx: seq<nat>, r: Outcome)
      requires Valid() && b !in v.bufs && b in s.data
      modifies this
      ensures Valid() && r.Done? && (idx == [] || |idx| == 3)
      ensures idx == [] <==> |FreeSet(old(s).free)| < 3
      ensures idx == [] ==> v == old(v) && SameButFree(old(s), s)
      ensures s.data == old(s).data && s.disk == old(s).disk
      ensures |idx| == 3 ==>
        && ThreeOf(idx[0], Chain(idx[1], idx[2])) && old(s).free[idx[0]] && old(s).free[idx[1]] && old(s).free[idx[2]]
        && idx[0] in v.reqs && v == SubmittedView(old(v), idx[0], Chain(idx[1], idx[2]), b, v.reqs[idx[0]].sector, write)
        && v.reqs[idx[0]].sector == SectorOf(blockno)
        && (v.reqs[idx[0]].sector * 512 == blockno * 1024 <==> blockno < 0x8000_0000)
    {
      hide Inv;
      ghost var s0 := s;
      var sector := blockno * (BSIZE / SECTOR) % WORD_LIMIT;
      SectorRight(blockno);
      ShapeOf(s, v);
      idx, r := Alloc3();
      if idx == [] {
        SameButFreeKeeps(s0, v, s);
        return;
      }
      var c := Chain(idx[1], idx[2]);
      assert CanSubmit(s0, v, idx[0], c, b);
      SubmitKeeps(s0, v, idx[0], c, b, sector, write);
      s := s.(mem := s.mem.(ops := s.mem.ops[idx[0] := Op(write, sector)]));
      s := s.(mem := s.mem.(desc := s.mem.desc[idx[0] := Desc(OpOf(idx[0]), HEADER, F_NEXT, idx[1])]));
      var flags := (if write then 0 else F_WRITE) + F_NEXT;
      s := s.(mem := s.mem.(desc := s.mem.desc[idx[1] := Desc(DataOf(b), BSIZE, flags, idx[2])]));
      s := s.(mem := s.mem.(status := s.mem.status[idx[0] := 0xff]));
      s := s.(mem := s.mem.(desc := s.mem.desc[idx[2] := Desc(StatusOf(idx[0]), 1, F_WRITE, 0)]));
      s := s.(waiting := s.waiting + {b}, mem := s.mem.(infoBuf := s.mem.infoBuf[idx[0] := b]));
      s := s.(availRing := s.availRing[s.availIdx % NUM := idx[0]]);
      s := s.(availIdx := (s.availIdx + 1) % IDX);
      ThreeTaken(s0.free, idx);
      assert s == Submitted(s0, idx[0], c, b, sector, write);
      v := SubmittedView(v, idx[0], c, b, sector, write);
    }

    /** `free_chain` of a request: it follows the chain and frees all three descriptors. */
    method FreeChain(h: nat, ghost c: Chain) returns (r: Outcome)
      requires Shape(s) && ThreeOf(h, c) && Chained(s.mem, h, c) && !s.free[h] && !s.free[c.i1] && !s.free[c.i2]
      modifies this`s
      ensures r.Done? && s == old(s).(free := old(s).free[h := true][c.i1 := true][c.i2 := true],
        mem := old(s).mem.(desc := old(s).mem.desc[h := ZERO_DESC][c.i1 := ZERO_DESC][c.i2 := ZERO_DESC]))
    {
      var i := h;
      ghost var n := 0;
      ghost var s0 := s;
      while true
        invariant 0 <= n < 3 && i == (if n == 0 then h else if n == 1 then c.i1 else c.i2)
        invariant s == ChainFreed(s0, h, c, n)
        decreases 3 - n
      {
        var flag, nxt := s.mem.desc[i].flags, s.mem.desc[i].next;
        r := FreeDesc(i);
        n := n + 1;
        if flag % 2 == F_NEXT {
          i := nxt;
        } else {
          break;
        }
      }
    }

    /**
     The last part of `virtio_disk_rw`, each time it wakes up: go on waiting, or return. It returns
     only after the handler has seen this very request completed; the data has then been moved.
     */
    method Finish(b: nat, h: nat) returns (finished: bool, r: Outcome)
      requires Valid() && h in v.reqs && v.reqs[h].buf == b
      modifies this
      ensures Valid() && r.Done?
      ensures finished <==> old(v).reqs[h].phase == Seen
      ensures !finished ==> s == old(s) && v == old(v)
      ensures finished ==> v == ReclaimedView(old(v), h) && h in old(v).chains
      ensures finished ==>
        s.data == old(s).data && b in s.data && s.data[b] == old(v).reqs[h].value && old(v).reqs[h].status == 0
    {
      hide Inv;
      ReturnsWhenSeen(s, v, h);
      if b in s.waiting {
        return false, Done;
      }
      ghost var s0 := s;
      ReclaimKeeps(s, v, h);
      ChainOf(s, v, h);
      s := s.(mem := s.mem.(infoBuf := s.mem.infoBuf[h := 0]));
      r := FreeChain(h, v.chains[h]);
      assert s == ReclaimedState(s0, h, v.chains[h]);
      v := ReclaimedView(v, h);
      return true, r;
    }

    /** `virtio_disk_intr`: every completion so far is consumed, once and in order, unless the device reported an error. */
    method Intr() returns (r: Outcome)
      requires Valid()
      modifies this
      ensures Valid() && v.done == old(v).done && v.pub == old(v).pub && v.seen >= old(v).seen
      ensures r.Done? ==> v.seen == |v.done|
      ensures r.Panic? ==> v.seen < |v.done| && v.done[v.seen] in v.reqs && v.reqs[v.done[v.seen]].status != 0
      ensures forall k :: old(v).seen <= k < v.seen ==> v.done[k] in v.reqs && v.reqs[v.done[k]].phase == Seen
      ensures v.reqs.Keys == old(v).reqs.Keys && s.data == old(s).data
    {
      hide Inv;
      ghost var v0 := v;
      NextCompleted(s, v);
      SeenBound(s, v);
      while s.seenIdx != s.usedIdx
        invariant Valid() && v.done == v0.done && v.pub == v0.pub && v0.seen <= v.seen <= |v.done|
        invariant s.seenIdx != s.usedIdx <==> v.seen < |v.done|
        invariant forall k :: v0.seen <= k < v.seen ==> v.done[k] in v.reqs && v.reqs[v.done[k]].phase == Seen
        invariant v.reqs.Keys == v0.reqs.Keys && s.data == old(s).data
        decreases |v.done| - v.seen
      {
        ShapeOf(s, v);
        NextCompleted(s, v);
        var id := s.usedRing[s.seenIdx % NUM];
        if s.mem.status[id] != 0 {
          return Panic;
        }
        SeeKeeps(s, v);
        var b := s.mem.infoBuf[id];
        s := s.(waiting := s.waiting - {b});
        s := s.(seenIdx := (s.seenIdx + 1) % IDX);
        v := SeenView(v, id);
        NextCompleted(s, v);
        SeenBound(s, v);
      }
      return Done;
    }
  }

  lemma ShapeOf(s: State, v: View)
    requires Inv(s, v)
    ensures Shape(s)
  {
    hide Chains, Formatted, Available, Completed, Buffers;
  }

  lemma SeenBound(s: State, v: View)
    requires Inv(s, v)
    ensures v.seen <= |v.done|
  {
    hide Chains, Formatted, Available, Buffers;
  }

  lemma ThreeTaken(free: seq<bool>, idx: seq<nat>)
    requires |free| == NUM && FreeOnes(free, idx) && |idx| == 3
    ensures TakeAll(free, idx) == free[idx[0] := false][idx[1] := false][idx[2] := false]
  {
    assert forall j :: j in idx <==> j == idx[0] || j == idx[1] || j == idx[2];
  }

  /** The three descriptors lead from one to the next, and the last one ends the chain. */
  ghost predicate Chained(m: Shared, h: nat, c: Chain)
    requires Sized(m) && ThreeOf(h, c)
  {
    && m.desc[h].flags % 2 == F_NEXT && m.desc[h].next == c.i1
    && m.desc[c.i1].flags % 2 == F_NEXT && m.desc[c.i1].next == c.i2 && m.desc[c.i2].flags % 2 != F_NEXT
  }

  ghost function ChainFreed(s: State, h: nat, c: Chain, n: nat): State
    requires Shape(s) && ThreeOf(h, c) && n <= 3
  {
    var f, d := s.free, s.mem.desc;
    var f1, d1 := if n > 0 then f[h := true] else f, if n > 0 then d[h := ZERO_DESC] else d;
    var f2, d2 := if n > 1 then f1[c.i1 := true] else f1, if n > 1 then d1[c.i1 := ZERO_DESC] else d1;
    var f3, d3 := if n > 2 then f2[c.i2 := true] else f2, if n > 2 then d2[c.i2 := ZERO_DESC] else d2;
    s.(free := f3, mem := s.mem.(desc := d3))
  }

  lemma ChainOf(s: State, v: View, h: nat)
    requires Inv(s, v) && h in v.reqs && h in v.chains && ThreeOf(h, v.chains[h])
    ensures Shape(s) && Chained(s.mem, h, v.chains[h]) && !s.free[h] && !s.free[v.chains[h].i1]
    ensures !s.free[v.chains[h].i2]
  {
    hide Available, Completed, Buffers;
    var c := v.chains[h];
    assert Owns(v.chains, h, h) && Owns(v.chains, h, c.i1) && Owns(v.chains, h, c.i2);
  }

  /** A buffer is no longer busy exactly if its own request has been seen completed. */
  lemma ReturnsWhenSeen(s: State, v: View, h: nat)
    requires Inv(s, v) && h in v.reqs
    ensures v.reqs[h].buf !in s.waiting <==> v.reqs[h].phase == Seen
    ensures v.reqs[h].phase == Seen ==>
      v.reqs[h].status == 0 && v.reqs[h].buf in s.data && s.data[v.reqs[h].buf] == v.reqs[h].value
  {
    hide Chains, Formatted, Available, Completed;
  }

  // ---------------------------------------------------------------------- runs

  /** The steps of the driver's callers, of the device and of the handler, in any order. */
  datatype Step = Publish(h: nat, c: Chain, b: nat, sector: nat, write: bool) | Take | Complete(head: nat, st: nat)
                | See | Reclaim(req: nat)
  datatype Config = Config(s: State, v: View)

  /** What a step does. The heads it meets are those of requests, and their chains are sound, in every reachable state. */
  ghost predicate Next(x: Config, a: Step, y: Config) {
    && Shape(x.s)
    && match a
       case Publish(h, c, b, sector, write) =>
         && ThreeOf(h, c) && x.s.free[h] && x.s.free[c.i1] && x.s.free[c.i2] && b !in x.v.bufs && b in x.s.data
         && y == Config(Submitted(x.s, h, c, b, sector, write), SubmittedView(x.v, h, c, b, sector, write))
       case Take =>
         var h := x.s.availRing[x.s.devIdx % NUM];
         x.s.devIdx != x.s.availIdx && h in x.v.reqs && y == Config(TakenState(x.s), TakenView(x.v, h))
       case Complete(h, st) =>
         && h in x.v.reqs && x.v.reqs[h].phase == Taken && (st == 0 ==> Feasible(x.s, OrderAt(x.s.mem, h)))
         && y.s == CompletedState(x.s, h, st) && y.v == CompletedView(x.v, h, st, DataAt(y.s.data, x.v.reqs[h].buf))
       case See =>
         var h := x.s.usedRing[x.s.seenIdx % NUM];
         && x.s.seenIdx != x.s.usedIdx && h in x.v.reqs && h < NUM && x.s.mem.status[h] == 0
         && y == Config(SeenState(x.s), SeenView(x.v, h))
       case Reclaim(h) =>
         && h in x.v.reqs && x.v.reqs[h].buf !in x.s.waiting && h in x.v.chains && ThreeOf(h, x.v.chains[h])
         && y == Config(ReclaimedState(x.s, h, x.v.chains[h]), ReclaimedView(x.v, h))
  }

  ghost predicate Run(xs: seq<Config>, steps: seq<Step>) {
    |xs| == |steps| + 1 && forall i :: 0 <= i < |steps| ==> Next(xs[i], steps[i], xs[i + 1])
  }

  lemma NextKeeps(x: Config, a: Step, y: Config)
    requires Inv(x.s, x.v) && Next(x, a, y)
    ensures Inv(y.s, y.v)
    ensures x.v.pub <= y.v.pub && x.v.done <= y.v.done && x.v.taken <= y.v.taken && x.v.seen <= y.v.seen
  {
    hide Inv, Submitted, CompletedState, ReclaimedState, SeenState, TakenState;
    match a {
      case Publish(h, c, b, sector, write) => SubmitKeeps(x.s, x.v, h, c, b, sector, write);
      case Take => NextPublished(x.s, x.v); TakeKeeps(x.s, x.v);
      case Complete(h, st) => CompleteKeeps(x.s, x.v, h, st);
      case See => NextCompleted(x.s, x.v); SeeKeeps(x.s, x.v);
      case Reclaim(h) => ReturnsWhenSeen(x.s, x.v, h); ReclaimKeeps(x.s, x.v, h);
    }
  }

  /**
   At the end of every run: free descriptors and three per unreclaimed request are NUM, neither
   ring has been overrun, and what was published and completed is still on record in that order.
   */
  lemma {:induction false} EveryRun(xs: seq<Config>, steps: seq<Step>)
    requires Run(xs, steps) && Inv(xs[0].s, xs[0].v)
    ensures var x, y := xs[0], xs[|steps|];
      && Inv(y.s, y.v) && |FreeSet(y.s.free)| + 3 * |y.v.reqs| == NUM
      && 3 * (|y.v.pub| - y.v.taken) <= NUM && 3 * (|y.v.done| - y.v.seen) <= NUM
      && x.v.pub <= y.v.pub && x.v.done <= y.v.done && x.v.taken <= y.v.taken && x.v.seen <= y.v.seen <= |y.v.done|
    decreases |steps|
  {
    hide Inv, Next;
    var n := |steps|;
    if n > 0 {
      EveryRun(xs[..n], steps[..n - 1]);
      NextKeeps(xs[n - 1], steps[n - 1], xs[n]);
    }
    FewQueued(xs[n].s, xs[n].v);
    SeenBound(xs[n].s, xs[n].v);
    AddUp(xs[n].s, xs[n].v);
  }

  lemma AddUp(s: State, v: View)
    requires Inv(s, v)
    ensures |FreeSet(s.free)| + 3 * |v.reqs| == NUM
  {
    hide Formatted, Available, Completed, Buffers, Chains;
    DescriptorsAddUp(s.free, v);
  }
}
