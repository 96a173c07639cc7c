/**
 The virtio block driver of kernel/virtio_disk.c and the device it talks to, over the split
 virtqueue of section 2.6 and the block requests of section 5.2 of VIRTIO v1.1. Driver and
 device are one state machine; each runs any of its steps at any time. Ring indices are 16
 bits wide; the ghost view counts without bound.
 */
module VirtioSpec {
  import opened Blocks

  const NUM := 8
  const IDX := 0x1_0000
  const F_NEXT := 1
  const F_WRITE := 2
  /** The unit of the numbers in a request, and the size of its header. */
  const SECTOR := 512
  const HEADER := 16

  /** What a physical address in a descriptor denotes. */
  datatype Addr = Null | OpOf(i: nat) | DataOf(b: nat) | StatusOf(i: nat)
  datatype Desc = Desc(addr: Addr, len: nat, flags: nat, next: nat)
  datatype Op = Op(write: bool, sector: nat)

  /** Descriptors, request headers and status bytes, which the device reads and writes; `info[].b` beside them. */
  datatype Shared = Shared(desc: seq<Desc>, ops: seq<Op>, infoBuf: seq<nat>, status: seq<nat>)

  /**
   Driver state, the rings, the device's own index, and the two ends of a transfer: buffers and
   the bytes of the disk. `waiting` holds the buffers with `b->disk == 1`.
   */
  datatype State = State(
    free: seq<bool>, mem: Shared, waiting: set<nat>, seenIdx: nat,
    availRing: seq<nat>, availIdx: nat, usedRing: seq<nat>, usedIdx: nat,
    devIdx: nat, data: map<nat, Block>, disk: seq<Byte>)

  /** A request is published, then taken by the device, completed, and seen by the interrupt handler. */
  datatype Phase = Queued(k: nat) | Taken | Used(k: nat) | Seen
  datatype Req = Req(buf: nat, sector: nat, write: bool, phase: Phase, status: nat, value: Block)

  /** The other two descriptors of a chain. */
  datatype Chain = Chain(i1: nat, i2: nat)

  /**
   The unreclaimed requests and their chains by head descriptor, the request each descriptor and
   each buffer is used for, and all heads ever published and ever completed, with how many of them the other
   side has consumed.
   */
  datatype View = View(reqs: map<nat, Req>, chains: map<nat, Chain>, owner: map<nat, nat>, bufs: map<nat, nat>,
                       pub: seq<nat>, taken: nat, done: seq<nat>, seen: nat)

  ghost predicate Shape(s: State) {
    |s.free| == NUM && Sized(s.mem) && |s.availRing| == NUM && |s.usedRing| == NUM
  }

  predicate Sized(m: Shared) {
    |m.desc| == NUM && |m.ops| == NUM && |m.infoBuf| == NUM && |m.status| == NUM
  }

  predicate ThreeOf(h: nat, c: Chain) {
    h < NUM && c.i1 < NUM && c.i2 < NUM && h != c.i1 && h != c.i2 && c.i1 != c.i2
  }

  predicate Owns(chains: map<nat, Chain>, h: nat, i: nat) {
    h in chains && (i == h || i == chains[h].i1 || i == chains[h].i2)
  }

  /** The chains are disjoint and have three descriptors each. */
  ghost predicate Disjoint(chains: map<nat, Chain>, owner: map<nat, nat>) {
    && (forall h :: h in chains ==> ThreeOf(h, chains[h]))
    && (forall h, i :: Owns(chains, h, i) ==> i in owner && owner[i] == h)
    && (forall i :: i in owner ==> i < NUM && Owns(chains, owner[i], i))
  }

  /** Every descriptor is free or in exactly one chain. */
  ghost predicate Chains(free: seq<bool>, v: View) {
    && |free| == NUM && Disjoint(v.chains, v.owner) && v.chains.Keys == v.reqs.Keys
    && (forall i :: 0 <= i < NUM ==> (free[i] <==> i !in v.owner))
  }

  /** The descriptors of a request say what it asks for; nobody has overwritten them. */
  ghost predicate Described(s: Shared, h: nat, c: Chain, r: Req)
    requires Sized(s) && ThreeOf(h, c)
  {
    && s.desc[h] == Desc(OpOf(h), HEADER, F_NEXT, c.i1)
    && s.desc[c.i1] == Desc(DataOf(r.buf), BSIZE, (if r.write then 0 else F_WRITE) + F_NEXT, c.i2)
    && s.desc[c.i2] == Desc(StatusOf(h), 1, F_WRITE, 0)
    && s.ops[h] == Op(r.write, r.sector) && s.infoBuf[h] == r.buf && (r.phase.Used? ==> s.status[h] == r.status)
  }

  ghost predicate Formatted(s: Shared, v: View)
    requires Sized(s)
  {
    forall h :: h in v.chains ==> h in v.reqs && ThreeOf(h, v.chains[h]) && Described(s, h, v.chains[h], v.reqs[h])
  }

  /** Published and not yet taken: the ring holds exactly these, in order. */
  ghost predicate Available(ring: seq<nat>, idx: nat, devIdx: nat, v: View) {
    && |ring| == NUM && v.taken <= |v.pub| && idx == |v.pub| % IDX && devIdx == v.taken % IDX
    && (forall k :: v.taken <= k < |v.pub| ==> v.pub[k] in v.reqs && v.reqs[v.pub[k]].phase == Queued(k))
    && (forall k :: v.taken <= k < |v.pub| ==> ring[k % NUM] == v.pub[k])
    && (forall h :: h in v.reqs && v.reqs[h].phase.Queued? ==>
          v.taken <= v.reqs[h].phase.k < |v.pub| && v.pub[v.reqs[h].phase.k] == h)
  }

  /** Completed and not yet seen: likewise. */
  ghost predicate Completed(ring: seq<nat>, idx: nat, seenIdx: nat, v: View) {
    && |ring| == NUM && v.seen <= |v.done| && idx == |v.done| % IDX && seenIdx == v.seen % IDX
    && (forall k :: v.seen <= k < |v.done| ==> v.done[k] in v.reqs && v.reqs[v.done[k]].phase == Used(k))
    && (forall k :: v.seen <= k < |v.done| ==> ring[k % NUM] == v.done[k])
    && (forall h :: h in v.reqs && v.reqs[h].phase.Used? ==>
          v.seen <= v.reqs[h].phase.k < |v.done| && v.done[v.reqs[h].phase.k] == h)
  }

  /** A completion without error has moved the value; only such a one counts as seen. */
  predicate Delivered(data: map<nat, Block>, r: Req) {
    && (r.phase.Seen? ==> r.status == 0)
    && ((r.phase.Used? || r.phase.Seen?) && r.status == 0 ==> r.buf in data && data[r.buf] == r.value)
  }

  /** A buffer is in one request at most, marked busy until its completion has been seen. */
  ghost predicate Buffers(waiting: set<nat>, data: map<nat, Block>, v: View) {
    && (forall h :: h in v.reqs ==> v.reqs[h].buf in v.bufs && v.bufs[v.reqs[h].buf] == h)
    && (forall b :: b in v.bufs ==> v.bufs[b] in v.reqs && v.reqs[v.bufs[b]].buf == b)
    && (forall b :: b in waiting <==> b in v.bufs && !v.reqs[v.bufs[b]].phase.Seen?)
    && (forall h :: h in v.reqs ==> v.reqs[h].buf in data)
    && (forall h :: h in v.reqs ==> Delivered(data, v.reqs[h]))
  }

  ghost predicate Inv(s: State, v: View) {
    && Shape(s) && Chains(s.free, v) && Formatted(s.mem, v)
    && Available(s.availRing, s.availIdx, s.devIdx, v) && Completed(s.usedRing, s.usedIdx, s.seenIdx, v)
    && Buffers(s.waiting, s.data, v)
  }

  // ------------------------------------------------------------------ counting

  ghost function Range(n: nat): (s: set<nat>)
    ensures |s| == n && forall i :: i in s <==> 0 <= i < n
  {
    if n == 0 then {} else Range(n - 1) + {n - 1}
  }

  lemma SubsetSize(a: set<nat>, b: set<nat>)
    requires a <= b
    ensures |a| <= |b|
  {
    assert b == a + (b - a);
  }

  /** Three descriptors per chain are not free. */
  lemma {:induction false} ThreeEach(chains: map<nat, Chain>, owner: map<nat, nat>)
    requires Disjoint(chains, owner)
    ensures |owner| == 3 * |chains|
    decreases |chains|
  {
    hide Disjoint, Owns;
    if chains == map[] {
      NoChains(chains, owner);
    } else {
      var h :| h in chains;
      var three := {h, chains[h].i1, chains[h].i2};
      WithoutChain(chains, owner, h);
      ThreeEach(chains - {h}, owner - three);
      assert chains.Keys == (chains - {h}).Keys + {h};
      assert owner.Keys == (owner - three).Keys + three;
    }
  }

  lemma NoChains(chains: map<nat, Chain>, owner: map<nat, nat>)
    requires Disjoint(chains, owner) && chains == map[]
    ensures owner == map[]
  {
    assert owner.Keys == {};
  }

  /** Reclaiming a chain. */
  lemma WithoutChain(chains: map<nat, Chain>, owner: map<nat, nat>, h: nat)
    requires Disjoint(chains, owner) && h in chains
    ensures ThreeOf(h, chains[h]) && {h, chains[h].i1, chains[h].i2} <= owner.Keys
    ensures Disjoint(chains - {h}, owner - {h, chains[h].i1, chains[h].i2})
  {
    var c := chains[h];
    assert Owns(chains, h, h) && Owns(chains, h, c.i1) && Owns(chains, h, c.i2);
    var chains', owner' := chains - {h}, owner - {h, c.i1, c.i2};
    forall g: nat, i: nat | Owns(chains', g, i) ensures i in owner' && owner'[i] == g { assert Owns(chains, g, i); }
    forall i | i in owner' ensures Owns(chains', owner'[i], i) { assert Owns(chains, owner[i], i); }
  }

  /** Free descriptors and three per unreclaimed request are all there are. */
  lemma DescriptorsAddUp(free: seq<bool>, v: View)
    requires Chains(free, v)
    ensures |FreeSet(free)| + 3 * |v.reqs| == NUM
  {
    ThreeEach(v.chains, v.owner);
    assert |v.chains.Keys| == |v.reqs.Keys|;
    Complement(FreeSet(free), v.owner.Keys);
  }

  lemma Complement(a: set<nat>, b: set<nat>)
    requires forall i :: i in b ==> i < NUM
    requires forall i :: i in a <==> 0 <= i < NUM && i !in b
    ensures |a| + |b| == NUM
  {
    assert a + b == Range(NUM) && a !! b;
  }

  ghost function FreeSet(free: seq<bool>): set<nat> {
    set i | 0 <= i < |free| && free[i]
  }

  /** Distinct heads of unreclaimed requests are at most NUM / 3. */
  lemma FewHeads(free: seq<bool>, v: View, heads: seq<nat>)
    requires Chains(free, v) && (forall i :: 0 <= i < |heads| ==> heads[i] in v.reqs)
    requires forall i, j :: 0 <= i < j < |heads| ==> heads[i] != heads[j]
    ensures 3 * |heads| <= NUM
  {
    DescriptorsAddUp(free, v);
    HeadSetSize(heads);
    SubsetSize(HeadSet(heads), v.reqs.Keys);
  }

  ghost function HeadSet(heads: seq<nat>): set<nat> {
    set x | x in heads
  }

  lemma {:induction false} HeadSetSize(heads: seq<nat>)
    requires forall i, j :: 0 <= i < j < |heads| ==> heads[i] != heads[j]
    ensures |HeadSet(heads)| == |heads|
  {
    if heads != [] {
      var last := |heads| - 1;
      HeadSetSize(heads[..last]);
      assert HeadSet(heads) == HeadSet(heads[..last]) + {heads[last]};
    }
  }

  /** The rings never hold more than NUM / 3 unconsumed entries. */
  lemma FewQueued(s: State, v: View)
    requires Inv(s, v)
    ensures 3 * (|v.pub| - v.taken) <= NUM && 3 * (|v.done| - v.seen) <= NUM
  {
    hide Chains, Formatted, Buffers;
    var q, u := v.pub[v.taken..], v.done[v.seen..];
    forall i | 0 <= i < |q| ensures q[i] in v.reqs && v.reqs[q[i]].phase == Queued(v.taken + i) { }
    forall i | 0 <= i < |u| ensures u[i] in v.reqs && v.reqs[u[i]].phase == Used(v.seen + i) { }
    FewHeads(s.free, v, q);
    FewHeads(s.free, v, u);
  }

  // --------------------------------------------------------------------- steps

  lemma Wrapped(k: nat)
    ensures k % IDX % NUM == k % NUM && (k % IDX + 1) % IDX == (k + 1) % IDX
  {
    assert k == k / IDX * IDX + k % IDX;
    assert k == (k / IDX * (IDX / NUM) + k % IDX / NUM) * NUM + k % IDX % NUM;
  }

  /** Different entries at most NUM apart are in different slots. */
  lemma SlotsDiffer(j: nat, k: nat)
    requires j < k < j + NUM
    ensures j % NUM != k % NUM
  {
  }

  function FormattedMem(m: Shared, h: nat, c: Chain, b: nat, sector: nat, write: bool): Shared
    requires Sized(m) && ThreeOf(h, c)
  {
    Shared(m.desc[h := Desc(OpOf(h), HEADER, F_NEXT, c.i1)]
           [c.i1 := Desc(DataOf(b), BSIZE, (if write then 0 else F_WRITE) + F_NEXT, c.i2)]
           [c.i2 := Desc(StatusOf(h), 1, F_WRITE, 0)],
           m.ops[h := Op(write, sector)], m.infoBuf[h := b], m.status[h := 0xff])
  }

  /** The driver formats and publishes a request with three free descriptors. */
  function Submitted(s: State, h: nat, c: Chain, b: nat, sector: nat, write: bool): State
    requires Shape(s) && ThreeOf(h, c)
  {
    s.(free := s.free[h := false][c.i1 := false][c.i2 := false],
       mem := FormattedMem(s.mem, h, c, b, sector, write),
       waiting := s.waiting + {b},
       availRing := s.availRing[s.availIdx % NUM := h], availIdx := (s.availIdx + 1) % IDX)
  }

  ghost function SubmittedView(v: View, h: nat, c: Chain, b: nat, sector: nat, write: bool): View {
    v.(reqs := v.reqs[h := Req(b, sector, write, Queued(|v.pub|), 0xff, ZeroBlock())], chains := v.chains[h := c],
       owner := v.owner[h := h][c.i1 := h][c.i2 := h], bufs := v.bufs[b := h], pub := v.pub + [h])
  }

  ghost predicate CanSubmit(s: State, v: View, h: nat, c: Chain, b: nat) {
    && Inv(s, v) && ThreeOf(h, c) && s.free[h] && s.free[c.i1] && s.free[c.i2] && b !in v.bufs && b in s.data
  }

  lemma SubmitKeeps(s: State, v: View, h: nat, c: Chain, b: nat, sector: nat, write: bool)
    requires CanSubmit(s, v, h, c, b)
    ensures Inv(Submitted(s, h, c, b, sector, write), SubmittedView(v, h, c, b, sector, write))
  {
    hide Chains, Formatted, Available, Completed, Buffers;
    HeadIsNew(s.free, v, h);
    SubmitChains(s, v, h, c, b, sector, write);
    SubmitFormatted(s, v, h, c, b, sector, write);
    SubmitAvailable(s, v, h, c, b, sector, write);
    SubmitCompleted(s, v, h, c, b, sector, write);
    SubmitBuffers(s, v, h, c, b, sector, write);
  }

  lemma HeadIsNew(free: seq<bool>, v: View, h: nat)
    requires Chains(free, v) && h < NUM && free[h]
    ensures h !in v.reqs && h !in v.chains && h !in v.owner
  {
    assert h in v.chains ==> Owns(v.chains, h, h);
  }

  lemma SubmitChains(s: State, v: View, h: nat, c: Chain, b: nat, sector: nat, write: bool)
    requires CanSubmit(s, v, h, c, b)
    ensures Chains(Submitted(s, h, c, b, sector, write).free, SubmittedView(v, h, c, b, sector, write))
  {
    hide Formatted, Available, Completed, Buffers, Disjoint;
    HeadIsNew(s.free, v, h);
    AddChain(v.chains, v.owner, h, c);
  }

  lemma AddChain(chains: map<nat, Chain>, owner: map<nat, nat>, h: nat, c: Chain)
    requires Disjoint(chains, owner) && ThreeOf(h, c) && h !in chains && h !in owner && c.i1 !in owner && c.i2 !in owner
    ensures Disjoint(chains[h := c], owner[h := h][c.i1 := h][c.i2 := h])
  {
    var chains', owner' := chains[h := c], owner[h := h][c.i1 := h][c.i2 := h];
    forall g: nat, i: nat | Owns(chains', g, i) ensures i in owner' && owner'[i] == g {
      if g != h { assert Owns(chains, g, i); }
    }
    forall i | i in owner' ensures i < NUM && Owns(chains', owner'[i], i) {
      if i != h && i != c.i1 && i != c.i2 { assert Owns(chains, owner[i], i); }
    }
  }

  /** A free descriptor is in no chain. */
  lemma FreeNotInChain(free: seq<bool>, v: View, i: nat, g: nat)
    requires Chains(free, v) && i < NUM && free[i] && g in v.chains
    ensures i != g && i != v.chains[g].i1 && i != v.chains[g].i2 && ThreeOf(g, v.chains[g])
  {
    assert Owns(v.chains, g, g) && Owns(v.chains, g, v.chains[g].i1) && Owns(v.chains, g, v.chains[g].i2);
  }

  lemma SubmitFormatted(s: State, v: View, h: nat, c: Chain, b: nat, sector: nat, write: bool)
    requires CanSubmit(s, v, h, c, b)
    ensures Formatted(Submitted(s, h, c, b, sector, write).mem, SubmittedView(v, h, c, b, sector, write))
  {
    hide Chains, Available, Completed, Buffers;
    var s', v' := Submitted(s, h, c, b, sector, write), SubmittedView(v, h, c, b, sector, write);
    forall g | g in v'.chains
      ensures g in v'.reqs && ThreeOf(g, v'.chains[g]) && Described(s'.mem, g, v'.chains[g], v'.reqs[g])
    {
      if g != h {
        FreeNotInChain(s.free, v, h, g);
        FreeNotInChain(s.free, v, c.i1, g);
        FreeNotInChain(s.free, v, c.i2, g);
      }
    }
  }

  lemma SubmitAvailable(s: State, v: View, h: nat, c: Chain, b: nat, sector: nat, write: bool)
    requires CanSubmit(s, v, h, c, b) && h !in v.reqs
    ensures var s', v' := Submitted(s, h, c, b, sector, write), SubmittedView(v, h, c, b, sector, write);
      Available(s'.availRing, s'.availIdx, s'.devIdx, v')
  {
    hide Chains, Formatted, Completed, Buffers, Described;
    FewQueued(s, v);
    Wrapped(|v.pub|);
    forall k | v.taken <= k < |v.pub| ensures k % NUM != |v.pub| % NUM { SlotsDiffer(k, |v.pub|); }
  }

  lemma SubmitCompleted(s: State, v: View, h: nat, c: Chain, b: nat, sector: nat, write: bool)
    requires CanSubmit(s, v, h, c, b) && h !in v.reqs
    ensures var s', v' := Submitted(s, h, c, b, sector, write), SubmittedView(v, h, c, b, sector, write);
      Completed(s'.usedRing, s'.usedIdx, s'.seenIdx, v')
  {
    hide Chains, Formatted, Available, Buffers, Described;
  }

  lemma SubmitBuffers(s: State, v: View, h: nat, c: Chain, b: nat, sector: nat, write: bool)
    requires CanSubmit(s, v, h, c, b) && h !in v.reqs
    ensures var s', v' := Submitted(s, h, c, b, sector, write), SubmittedView(v, h, c, b, sector, write);
      Buffers(s'.waiting, s'.data, v')
  {
    hide Chains, Formatted, Available, Completed, Described;
  }

  // ---------------------------------------------------------------- the device

  /** The device takes the next published head. */
  function TakenState(s: State): State {
    s.(devIdx := (s.devIdx + 1) % IDX)
  }

  ghost function TakenView(v: View, h: nat): View
    requires h in v.reqs
  {
    v.(reqs := v.reqs[h := v.reqs[h].(phase := Taken)], taken := v.taken + 1)
  }

  /** The 16-bit indices differ exactly if something is published and not taken; the ring has it. */
  lemma NextPublished(s: State, v: View)
    requires Inv(s, v)
    ensures s.devIdx != s.availIdx <==> v.taken < |v.pub|
    ensures v.taken < |v.pub| ==> s.availRing[s.devIdx % NUM] == v.pub[v.taken] && v.pub[v.taken] in v.reqs
  {
    hide Chains, Formatted, Completed, Buffers;
    FewQueued(s, v);
    Wrapped(v.taken);
    IndicesDiffer(v.taken, |v.pub|);
  }

  lemma IndicesDiffer(a: nat, b: nat)
    requires a <= b < a + IDX
    ensures a % IDX == b % IDX <==> a == b
  {
  }

  lemma TakeKeeps(s: State, v: View)
    requires Inv(s, v) && v.taken < |v.pub|
    ensures v.pub[v.taken] in v.reqs && Inv(TakenState(s), TakenView(v, v.pub[v.taken]))
  {
    hide Chains, Formatted, Completed, Buffers, Available;
    NextPublished(s, v);
    Wrapped(v.taken);
    var h := v.pub[v.taken];
    HeadInRange(s, v, h);
    PhaseChains(s, v, h, v.reqs[h].(phase := Taken), TakenView(v, h));
    TakeAvailable(s, v);
    TakeCompleted(s, v);
    TakeBuffers(s, v);
  }

  lemma HeadInRange(s: State, v: View, h: nat)
    requires Chains(s.free, v) && h in v.reqs
    ensures h < NUM
  {
    assert h in v.chains;
  }

  /** Chains and descriptors do not depend on how far a request has got. */
  lemma PhaseChains(s: State, v: View, h: nat, r: Req, v': View)
    requires Sized(s.mem) && Chains(s.free, v) && Formatted(s.mem, v) && h in v.reqs && h < NUM
    requires v'.chains == v.chains && v'.owner == v.owner && v'.reqs == v.reqs[h := r]
    requires r.buf == v.reqs[h].buf && r.sector == v.reqs[h].sector && r.write == v.reqs[h].write && !r.phase.Used?
    ensures Chains(s.free, v') && Formatted(s.mem, v')
  {
    hide Disjoint;
  }

  lemma TakeAvailable(s: State, v: View)
    requires Inv(s, v) && v.taken < |v.pub| && v.pub[v.taken] in v.reqs
    ensures Available(s.availRing, s.availIdx, (s.devIdx + 1) % IDX, TakenView(v, v.pub[v.taken]))
  {
    hide Chains, Formatted, Completed, Buffers;
    Wrapped(v.taken);
  }

  lemma TakeCompleted(s: State, v: View)
    requires Inv(s, v) && v.taken < |v.pub| && v.pub[v.taken] in v.reqs
    ensures Completed(s.usedRing, s.usedIdx, s.seenIdx, TakenView(v, v.pub[v.taken]))
  {
    hide Chains, Formatted, Buffers;
    assert v.reqs[v.pub[v.taken]].phase == Queued(v.taken);
  }

  lemma TakeBuffers(s: State, v: View)
    requires Inv(s, v) && v.taken < |v.pub| && v.pub[v.taken] in v.reqs
    ensures Buffers(s.waiting, s.data, TakenView(v, v.pub[v.taken]))
  {
    hide Chains, Formatted, Completed;
    assert v.reqs[v.pub[v.taken]].phase == Queued(v.taken);
  }

  /**
   What a chain asks the device for: the request, the buffer and how many of its bytes, whether the
   device may write there, and where the status goes.
   */
  datatype Order = Nothing | Order(op: Op, buf: nat, len: nat, writable: bool, status: nat)

  predicate HasNext(d: Desc) {
    d.flags % 2 == F_NEXT
  }

  predicate Writable(d: Desc) {
    d.flags / 2 % 2 == 1
  }

  /** What the device finds when it follows the chain at `h`: three descriptors of the right kinds, or nothing it can do. */
  function OrderAt(m: Shared, h: nat): (o: Order)
    ensures o.Order? ==> o.status < |m.status|
  {
    if h >= |m.desc| then Nothing else
    var d0 := m.desc[h];
    if !HasNext(d0) || d0.next >= |m.desc| || !d0.addr.OpOf? || d0.len != HEADER || Writable(d0) then Nothing else
    var d1 := m.desc[d0.next];
    if !HasNext(d1) || d1.next >= |m.desc| || !d1.addr.DataOf? then Nothing else
    var d2 := m.desc[d1.next];
    if HasNext(d2) || !d2.addr.StatusOf? || d2.len != 1 || !Writable(d2) then Nothing else
    if d0.addr.i >= |m.ops| || d2.addr.i >= |m.status| then Nothing else
    Order(m.ops[d0.addr.i], d1.addr.b, d1.len, Writable(d1), d2.addr.i)
  }

  /** The chain of every unreclaimed request reads as the request was made. */
  lemma DeviceSees(s: State, v: View, h: nat)
    requires Inv(s, v) && h in v.reqs
    ensures h < NUM
    ensures var r := v.reqs[h]; OrderAt(s.mem, h) == Order(Op(r.write, r.sector), r.buf, BSIZE, !r.write, h)
  {
    hide Available, Completed, Buffers;
    assert h in v.chains;
  }

  function DataAt(m: map<nat, Block>, x: nat): Block {
    if x in m then m[x] else ZeroBlock()
  }

  /** Bytes `p..p + |bytes|` replaced. */
  function Overlay(s: seq<Byte>, p: nat, bytes: seq<Byte>): (t: seq<Byte>)
    requires p + |bytes| <= |s|
    ensures |t| == |s| && t[p..p + |bytes|] == bytes
    ensures forall k :: 0 <= k < |s| && !(p <= k < p + |bytes|) ==> t[k] == s[k]
  {
    s[..p] + bytes + s[p + |bytes|..]
  }

  /** The device can do what it is asked for: the disk has the sectors, and the buffer is open the right way. */
  predicate Feasible(s: State, o: Order) {
    && o.Order? && o.len <= BSIZE && o.len % SECTOR == 0 && o.op.sector * SECTOR + o.len <= |s.disk|
    && o.writable == !o.op.write
  }

  function MovedData(s: State, o: Order): map<nat, Block>
    requires Feasible(s, o)
  {
    var p := o.op.sector * SECTOR;
    if o.op.write then s.data else s.data[o.buf := Overlay(DataAt(s.data, o.buf), 0, s.disk[p..p + o.len])]
  }

  function MovedDisk(s: State, o: Order): seq<Byte>
    requires Feasible(s, o)
  {
    if o.op.write then Overlay(s.disk, o.op.sector * SECTOR, DataAt(s.data, o.buf)[..o.len]) else s.disk
  }

  /** The device completes the chain at `h` with status `st`, moving the data if there was no error. */
  function CompletedState(s: State, h: nat, st: nat): State
    requires Shape(s) && (st == 0 ==> Feasible(s, OrderAt(s.mem, h)))
  {
    var o := OrderAt(s.mem, h);
    s.(usedRing := s.usedRing[s.usedIdx % NUM := h], usedIdx := (s.usedIdx + 1) % IDX,
       mem := if o.Order? then s.mem.(status := s.mem.status[o.status := st]) else s.mem,
       data := if st == 0 then MovedData(s, o) else s.data, disk := if st == 0 then MovedDisk(s, o) else s.disk)
  }

  ghost function CompletedView(v: View, h: nat, st: nat, x: Block): View
    requires h in v.reqs
  {
    v.(reqs := v.reqs[h := v.reqs[h].(phase := Used(|v.done|), status := st, value := x)], done := v.done + [h])
  }

  /** The disk has the bytes of a request. */
  predicate OnDisk(s: State, r: Req) {
    r.sector * SECTOR + BSIZE <= |s.disk|
  }

  /**
   What a completion has moved: nothing if there was an error, else the BSIZE bytes of the buffer, in the
   direction of the request.
   */
  ghost predicate Transferred(s: State, r: Req, st: nat, s': State) {
    && r.buf in s.data
    && if st != 0 then s'.data == s.data && s'.disk == s.disk else
       && OnDisk(s, r)
       && var p := r.sector * SECTOR;
       && s'.data == (if r.write then s.data else s.data[r.buf := s.disk[p..p + BSIZE]])
       && s'.disk == (if r.write then Overlay(s.disk, p, s.data[r.buf]) else s.disk)
  }

  /** A completion without error is possible exactly if the disk has the bytes. */
  lemma CanComplete(s: State, v: View, h: nat)
    requires Inv(s, v) && h in v.reqs
    ensures Feasible(s, OrderAt(s.mem, h)) <==> OnDisk(s, v.reqs[h])
  {
    hide Inv, OrderAt;
    DeviceSees(s, v, h);
  }

  lemma CompleteKeeps(s: State, v: View, h: nat, st: nat)
    requires Inv(s, v) && h in v.reqs && v.reqs[h].phase == Taken && (st == 0 ==> Feasible(s, OrderAt(s.mem, h)))
    ensures var s' := CompletedState(s, h, st);
      Inv(s', CompletedView(v, h, st, DataAt(s'.data, v.reqs[h].buf))) && Transferred(s, v.reqs[h], st, s')
  {
    hide Chains, Formatted, Available, Completed, Buffers, OrderAt, Overlay;
    DeviceSees(s, v, h);
    BufferThere(s, v, h);
    var r, s' := v.reqs[h], CompletedState(s, h, st);
    WholeBlock(s.disk, r.sector * SECTOR, s.data[r.buf]);
    var x := DataAt(s'.data, r.buf);
    CompleteFormatted(s, v, h, st, x);
    CompleteAvailable(s, v, h, st, x);
    CompleteCompleted(s, v, h, st, x);
    CompleteBuffers(s, v, h, st, s'.data);
  }

  lemma BufferThere(s: State, v: View, h: nat)
    requires Inv(s, v) && h in v.reqs
    ensures v.reqs[h].buf in s.data
  {
    hide Chains, Formatted, Available, Completed;
  }

  lemma WholeBlock(disk: seq<Byte>, p: nat, b: Block)
    ensures b[..BSIZE] == b
    ensures p + BSIZE <= |disk| ==> Overlay(b, 0, disk[p..p + BSIZE]) == disk[p..p + BSIZE]
  {
  }

  lemma CompleteFormatted(s: State, v: View, h: nat, st: nat, x: Block)
    requires Inv(s, v) && h in v.reqs && h < NUM
    ensures Chains(s.free, CompletedView(v, h, st, x))
    ensures Formatted(s.mem.(status := s.mem.status[h := st]), CompletedView(v, h, st, x))
  {
    hide Available, Completed, Buffers, Disjoint;
  }

  lemma CompleteAvailable(s: State, v: View, h: nat, st: nat, x: Block)
    requires Inv(s, v) && h in v.reqs && v.reqs[h].phase == Taken
    ensures Available(s.availRing, s.availIdx, s.devIdx, CompletedView(v, h, st, x))
  {
    hide Chains, Formatted, Buffers, Completed;
  }

  lemma CompleteCompleted(s: State, v: View, h: nat, st: nat, x: Block)
    requires Inv(s, v) && h in v.reqs && v.reqs[h].phase == Taken
    ensures Completed(s.usedRing[s.usedIdx % NUM := h], (s.usedIdx + 1) % IDX, s.seenIdx, CompletedView(v, h, st, x))
  {
    hide Chains, Formatted, Buffers, Available;
    FewQueued(s, v);
    Wrapped(|v.done|);
    forall k | v.seen <= k < |v.done| ensures k % NUM != |v.done| % NUM { SlotsDiffer(k, |v.done|); }
  }

  lemma CompleteBuffers(s: State, v: View, h: nat, st: nat, data: map<nat, Block>)
    requires Inv(s, v) && h in v.reqs && v.reqs[h].phase == Taken
    requires v.reqs[h].buf in data && (data == s.data || data == s.data[v.reqs[h].buf := data[v.reqs[h].buf]])
    ensures Buffers(s.waiting, data, CompletedView(v, h, st, data[v.reqs[h].buf]))
  {
    hide Chains, Formatted, Available, Completed;
  }

  // ------------------------------------------------------------ blocks on disk

  /** The number that `virtio_disk_rw` puts in a request, in 32 bits. */
  function SectorOf(blockno: nat): nat {
    blockno * (BSIZE / SECTOR) % WORD_LIMIT
  }

  /** It is where the block is, exactly below 2^31 blocks. */
  lemma SectorRight(blockno: nat)
    ensures SectorOf(blockno) * SECTOR == blockno * BSIZE <==> blockno < 0x8000_0000
  {
    if blockno >= 0x8000_0000 { assert SectorOf(blockno) < WORD_LIMIT; }
  }

  /** Block `n` of a disk. */
  function BlockAt(disk: seq<Byte>, n: nat): Block
    requires (n + 1) * BSIZE <= |disk|
  {
    disk[n * BSIZE..(n + 1) * BSIZE]
  }

  function SectorAt(disk: seq<Byte>, k: nat): seq<Byte>
    requires (k + 1) * SECTOR <= |disk|
  {
    disk[k * SECTOR..(k + 1) * SECTOR]
  }

  /** The sectors of different blocks are different, and those of a block are all its bytes. */
  lemma SectorsOfBlock(disk: seq<Byte>, n: nat, m: nat)
    requires (n + 1) * BSIZE <= |disk| && n < 0x8000_0000 && m < 0x8000_0000
    ensures BlockAt(disk, n) == SectorAt(disk, SectorOf(n)) + SectorAt(disk, SectorOf(n) + 1)
    ensures n != m ==> SectorOf(m) + 1 < SectorOf(n) || SectorOf(n) + 1 < SectorOf(m)
  {
    SectorRight(n);
    SectorRight(m);
  }

  /**
   A request for block `n` that completes without error: the buffer and the block agree; a write changes
   this block and no other byte of the disk, a read changes this buffer and no other.
   */
  lemma BlockMoved(s: State, r: Req, s': State, n: nat, m: nat)
    requires Transferred(s, r, 0, s') && r.sector == SectorOf(n) && n < 0x8000_0000 && (m + 1) * BSIZE <= |s.disk|
    ensures |s'.disk| == |s.disk| && r.buf in s'.data && (n + 1) * BSIZE <= |s.disk|
    ensures BlockAt(s'.disk, m) == if r.write && m == n then s.data[r.buf] else BlockAt(s.disk, m)
    ensures s'.data == if r.write then s.data else s.data[r.buf := BlockAt(s.disk, n)]
    ensures s'.data[r.buf] == BlockAt(s'.disk, n)
  {
    SectorRight(n);
    if m != n {
      BlocksApart(n, m);
      assert BlockAt(s'.disk, m) == BlockAt(s.disk, m);
    }
  }

  lemma BlocksApart(n: nat, m: nat)
    requires n != m
    ensures (n + 1) * BSIZE <= m * BSIZE || (m + 1) * BSIZE <= n * BSIZE
  {
  }

  // ------------------------------------------------------ interrupt and reclaim

  /** The handler consumes the next completion. */
  function SeenState(s: State): State
    requires Shape(s) && s.usedRing[s.seenIdx % NUM] < NUM
  {
    s.(waiting := s.waiting - {s.mem.infoBuf[s.usedRing[s.seenIdx % NUM]]}, seenIdx := (s.seenIdx + 1) % IDX)
  }

  ghost function SeenView(v: View, h: nat): View
    requires h in v.reqs
  {
    v.(reqs := v.reqs[h := v.reqs[h].(phase := Seen)], seen := v.seen + 1)
  }

  /** The 16-bit indices differ exactly if there is a completion to consume; the ring has its head. */
  lemma NextCompleted(s: State, v: View)
    requires Inv(s, v)
    ensures s.seenIdx != s.usedIdx <==> v.seen < |v.done|
    ensures v.seen < |v.done| ==>
      && s.usedRing[s.seenIdx % NUM] == v.done[v.seen] < NUM && v.done[v.seen] in v.reqs
      && var r := v.reqs[v.done[v.seen]];
      r.phase.Used? && s.mem.status[v.done[v.seen]] == r.status && s.mem.infoBuf[v.done[v.seen]] == r.buf
  {
    hide Chains, Available, Buffers;
    FewQueued(s, v);
    Wrapped(v.seen);
    IndicesDiffer(v.seen, |v.done|);
    if v.seen < |v.done| {
      HeadInRange(s, v, v.done[v.seen]);
      HasChain(s, v, v.done[v.seen]);
    }
  }

  lemma HasChain(s: State, v: View, h: nat)
    requires Chains(s.free, v) && h in v.reqs
    ensures h in v.chains
  {
  }

  lemma SeeKeeps(s: State, v: View)
    requires Inv(s, v) && v.seen < |v.done| && v.done[v.seen] in v.reqs && v.reqs[v.done[v.seen]].status == 0
    ensures s.usedRing[s.seenIdx % NUM] < NUM && Inv(SeenState(s), SeenView(v, v.done[v.seen]))
  {
    hide Chains, Formatted, Available, Completed, Buffers;
    var h := v.done[v.seen];
    NextCompleted(s, v);
    PhaseChains(s, v, h, v.reqs[h].(phase := Seen), SeenView(v, h));
    SeeRings(s, v, h);
    SeeBuffers(s, v, h);
  }

  lemma SeeRings(s: State, v: View, h: nat)
    requires Inv(s, v) && v.seen < |v.done| && h == v.done[v.seen] && h in v.reqs && v.reqs[h].phase.Used?
    ensures Available(s.availRing, s.availIdx, s.devIdx, SeenView(v, h))
    ensures Completed(s.usedRing, s.usedIdx, (s.seenIdx + 1) % IDX, SeenView(v, h))
  {
    hide Chains, Formatted, Buffers;
    Wrapped(v.seen);
  }

  lemma SeeBuffers(s: State, v: View, h: nat)
    requires Inv(s, v) && h in v.reqs && v.reqs[h].phase.Used? && v.reqs[h].status == 0
    ensures Buffers(s.waiting - {v.reqs[h].buf}, s.data, SeenView(v, h))
  {
    hide Chains, Formatted, Available, Completed;
  }

  const ZERO_DESC := Desc(Null, 0, 0, 0)

  /** The caller takes its request back: three descriptors are free again. */
  function ReclaimedState(s: State, h: nat, c: Chain): State
    requires Shape(s) && ThreeOf(h, c)
  {
    s.(free := s.free[h := true][c.i1 := true][c.i2 := true],
       mem := s.mem.(desc := s.mem.desc[h := ZERO_DESC][c.i1 := ZERO_DESC][c.i2 := ZERO_DESC],
                     infoBuf := s.mem.infoBuf[h := 0]))
  }

  ghost function ReclaimedView(v: View, h: nat): View
    requires h in v.reqs && h in v.chains
  {
    v.(reqs := v.reqs - {h}, chains := v.chains - {h}, owner := v.owner - {h, v.chains[h].i1, v.chains[h].i2},
       bufs := v.bufs - {v.reqs[h].buf})
  }

  lemma ReclaimKeeps(s: State, v: View, h: nat)
    requires Inv(s, v) && h in v.reqs && v.reqs[h].phase == Seen
    ensures h in v.chains && ThreeOf(h, v.chains[h]) && Inv(ReclaimedState(s, h, v.chains[h]), ReclaimedView(v, h))
  {
    hide Formatted, Available, Completed, Buffers, Disjoint;
    WithoutChain(v.chains, v.owner, h);
    ReclaimFormatted(s, v, h);
    ReclaimRings(s, v, h);
    ReclaimBuffers(s, v, h);
  }

  lemma ReclaimFormatted(s: State, v: View, h: nat)
    requires Inv(s, v) && h in v.reqs && h in v.chains && ThreeOf(h, v.chains[h])
    ensures Formatted(ReclaimedState(s, h, v.chains[h]).mem, ReclaimedView(v, h))
  {
    hide Chains, Available, Completed, Buffers;
    forall g | g in v.chains && g != h
      ensures ChainsApart(h, v.chains[h], g, v.chains[g])
    {
      TwoChains(s.free, v, h, g);
    }
  }

  predicate ChainsApart(h: nat, c: Chain, g: nat, d: Chain) {
    g !in {h, c.i1, c.i2} && d.i1 !in {h, c.i1, c.i2} && d.i2 !in {h, c.i1, c.i2}
  }

  lemma TwoChains(free: seq<bool>, v: View, h: nat, g: nat)
    requires Chains(free, v) && h in v.chains && g in v.chains && g != h
    ensures ChainsApart(h, v.chains[h], g, v.chains[g])
  {
    var c, d := v.chains[h], v.chains[g];
    assert Owns(v.chains, g, g) && Owns(v.chains, g, d.i1) && Owns(v.chains, g, d.i2);
    assert Owns(v.chains, h, h) && Owns(v.chains, h, c.i1) && Owns(v.chains, h, c.i2);
  }

  lemma ReclaimRings(s: State, v: View, h: nat)
    requires Inv(s, v) && h in v.reqs && h in v.chains && v.reqs[h].phase == Seen
    ensures Available(s.availRing, s.availIdx, s.devIdx, ReclaimedView(v, h))
    ensures Completed(s.usedRing, s.usedIdx, s.seenIdx, ReclaimedView(v, h))
  {
    hide Chains, Formatted, Buffers;
  }

  lemma ReclaimBuffers(s: State, v: View, h: nat)
    requires Inv(s, v) && h in v.reqs && h in v.chains && v.reqs[h].phase == Seen
    ensures Buffers(s.waiting, s.data, ReclaimedView(v, h))
  {
    hide Chains, Formatted, Available, Completed;
  }
}
