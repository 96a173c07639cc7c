/**
 kernel/pipe.c. Every method is what one process does from getting the pipe's lock to giving it
 up again, by returning or by going to sleep; between two of them any other process may run.
 */
module Pipe {
  import opened Blocks

  const PIPESIZE := 512
  const WORD := WORD_LIMIT

  /**
   The ring with its 32-bit counters, the processes asleep on `nread` and on `nwrite`, and, as
   bookkeeping, all bytes ever put in and taken out.
   */
  datatype State = State(data: seq<Byte>, nread: nat, nwrite: nat, readopen: bool, writeopen: bool,
                         readers: set<nat>, writers: set<nat>, put: seq<Byte>, got: seq<Byte>)

  /** What was taken out is a prefix of what was put in; the rest, at most PIPESIZE bytes, is in the ring. */
  ghost predicate Fifo(s: State) {
    && |s.data| == PIPESIZE && |s.got| <= |s.put| <= |s.got| + PIPESIZE && s.got == s.put[..|s.got|]
    && s.nwrite == |s.put| % WORD && s.nread == |s.got| % WORD
    && forall k :: |s.got| <= k < |s.put| ==> s.data[k % PIPESIZE] == s.put[k]
  }

  predicate Empty(s: State) {
    s.nread == s.nwrite
  }

  predicate Full(s: State) {
    s.nwrite == (s.nread + PIPESIZE) % WORD
  }

  /** The 32-bit tests mean what they should, however often the counters have wrapped. */
  lemma WrappedTests(s: State)
    requires Fifo(s)
    ensures Empty(s) <==> |s.put| == |s.got|
    ensures Full(s) <==> |s.put| == |s.got| + PIPESIZE
  {
    Apart(|s.got|, |s.put|);
    Shifted(|s.got|);
    Apart(|s.put|, |s.got| + PIPESIZE);
  }

  lemma Apart(a: nat, b: nat)
    requires a <= b < a + WORD
    ensures a % WORD == b % WORD <==> a == b
  {
  }

  lemma Shifted(a: nat)
    ensures (a % WORD + PIPESIZE) % WORD == (a + PIPESIZE) % WORD
  {
  }

  lemma Slots(k: nat)
    ensures k % WORD % PIPESIZE == k % PIPESIZE && (k % WORD + 1) % WORD == (k + 1) % WORD
  {
    assert k == k / WORD * WORD + k % WORD;
    assert k == (k / WORD * (WORD / PIPESIZE) + k % WORD / PIPESIZE) * PIPESIZE + k % WORD % PIPESIZE;
  }

  lemma SlotsDiffer(j: nat, k: nat)
    requires j < k < j + PIPESIZE
    ensures j % PIPESIZE != k % PIPESIZE
  {
  }

  function Stored(s: State, ch: Byte): State
    requires |s.data| == PIPESIZE
  {
    s.(data := s.data[s.nwrite % PIPESIZE := ch], nwrite := (s.nwrite + 1) % WORD, put := s.put + [ch])
  }

  lemma StoreKeeps(s: State, ch: Byte)
    requires Fifo(s) && !Full(s)
    ensures Fifo(Stored(s, ch))
  {
    WrappedTests(s);
    Slots(|s.put|);
    var s' := Stored(s, ch);
    forall k | |s.got| <= k < |s'.put| ensures s'.data[k % PIPESIZE] == s'.put[k] {
      if k < |s.put| { SlotsDiffer(k, |s.put|); }
    }
  }

  function Taken(s: State): State
    requires |s.data| == PIPESIZE
  {
    s.(nread := (s.nread + 1) % WORD, got := s.got + [s.data[s.nread % PIPESIZE]])
  }

  lemma TakeKeeps(s: State)
    requires Fifo(s) && !Empty(s)
    ensures Fifo(Taken(s)) && s.data[s.nread % PIPESIZE] == s.put[|s.got|]
  {
    WrappedTests(s);
    Slots(|s.got|);
  }

  /** A writer sleeps only on a full pipe that somebody may still read. */
  predicate WritersOk(s: State) {
    s.writers != {} ==> Full(s) && s.readopen
  }

  /** A reader sleeps only on an empty pipe that somebody may still write to. */
  predicate ReadersOk(s: State) {
    s.readers != {} ==> Empty(s) && s.writeopen
  }

  datatype Outcome = Returns(n: int) | Sleeps

  class Pipe {
    var s: State

    ghost predicate Valid()
      reads this
    {
      Fifo(s) && WritersOk(s)
    }

    /** `pipealloc`. */
    constructor (junk: seq<Byte>)
      requires |junk| == PIPESIZE
      ensures Valid() && ReadersOk(s) && s.put == [] && s.got == [] && s.readopen && s.writeopen
      ensures s.readers == {} && s.writers == {}
    {
      s := State(junk, 0, 0, true, true, {}, {}, [], []);
    }

    /**
     `pipewrite` of process `me`, from byte `i` on: `killed` is what it sees at every byte, and
     `readable` how much of its buffer it can read. It gets to the first byte `j` that it cannot
     put in; all bytes before are in, in order. The exit of a killed writer does not wake readers
     up, every other end of a turn does.
     */
    method Write(me: nat, src: seq<Byte>, i: nat, killed: seq<bool>, readable: nat) returns (r: Outcome, j: nat)
      requires Valid() && i <= |src| && |killed| == |src| && me !in s.writers
      modifies this
      ensures Valid() && i <= j <= |src| && s.put == old(s).put + src[i..j] && s.got == old(s).got
      ensures s.readopen == old(s).readopen && s.writeopen == old(s).writeopen
      ensures j > i ==> s.readopen && j <= readable
      ensures forall m :: i <= m < j ==> !killed[m]
      ensures r == Returns(-1) <==> j < |src| && (!s.readopen || killed[j])
      ensures r == Sleeps <==> j < |src| && s.readopen && !killed[j] && Full(s)
      ensures r == Returns(j) <==> j == |src| || (s.readopen && !killed[j] && !Full(s))
      ensures r == Returns(j) && j < |src| ==> j >= readable
      ensures s.readers == if r == Returns(-1) then old(s).readers else {}
      ensures s.writers == old(s).writers + if r == Sleeps then {me} else {}
      ensures old(ReadersOk(s)) ==> (ReadersOk(s) <==> !Forgets(old(s), src, i, killed, readable))
    {
      hide Fifo, Forgets;
      j := i;
      ghost var s0 := s;
      assert src[i..i] == [];
      while j < |src|
        invariant Valid() && i <= j <= |src| && s.put == s0.put + src[i..j]
        invariant s == s0.(data := s.data, nwrite := s.nwrite, put := s.put)
        invariant j > i ==> s.writers == {}
        invariant j == i ==> s == s0
        invariant (j > i ==> s.readopen && j <= readable) && forall m :: i <= m < j ==> !killed[m]
      {
        if !s.readopen || killed[j] {
          KilledForgets(s0, s, src, i, j, killed, readable);
          return Returns(-1), j;
        }
        if Full(s) {
          OthersTell(s0, s, src, i, j, killed, readable);
          SleepersApart(s, {}, s.writers + {me});
          s := s.(readers := {});
          s := s.(writers := s.writers + {me});
          return Sleeps, j;
        }
        if j >= readable {
          break;
        }
        StoreKeeps(s, src[j]);
        RingSize(s);
        s := s.(data := s.data[s.nwrite % PIPESIZE := src[j]], nwrite := (s.nwrite + 1) % WORD, put := s.put + [src[j]]);
        j := j + 1;
        assert src[i..j] == src[i..j - 1] + [src[j - 1]];
      }
      OthersTell(s0, s, src, i, j, killed, readable);
      SleepersApart(s, {}, s.writers);
      s := s.(readers := {});
      return Returns(j), j;
    }

    /**
     `piperead` of process `me`: sleeps on an empty pipe with an open write end, else takes up to
     `n` bytes; `writable` says how many of them it can store. A byte that it cannot store is lost.
     */
    method Read(me: nat, n: nat, killed: bool, writable: nat) returns (r: Outcome, out: seq<Byte>)
      requires Valid() && me !in s.readers
      modifies this
      ensures Valid() && s.put == old(s).put && s.readopen == old(s).readopen && s.writeopen == old(s).writeopen
      ensures r == Sleeps <==> old(Empty(s)) && s.writeopen && !killed
      ensures r == Returns(-1) <==> old(Empty(s)) && s.writeopen && killed
      ensures r == Returns(|out|) <==> !(old(Empty(s)) && s.writeopen)
      ensures r != Returns(|out|) ==> out == [] && s == old(s).(readers := s.readers)
      ensures r == Returns(|out|) ==> ReadDone(old(s), n, writable, out, s)
      ensures s.readers == old(s).readers + if r == Sleeps then {me} else {}
      ensures old(ReadersOk(s)) ==> ReadersOk(s)
    {
      hide Fifo;
      out := [];
      SleepersApart(s, s.readers + {me}, s.writers);
      if Empty(s) && s.writeopen {
        if killed {
          return Returns(-1), out;
        }
        s := s.(readers := s.readers + {me});
        return Sleeps, out;
      }
      out := TakeBytes(n, writable);
      SleepersApart(s, s.readers, {});
      s := s.(writers := {});
      return Returns(|out|), out;
    }

    /** Its loop. */
    method TakeBytes(n: nat, writable: nat) returns (out: seq<Byte>)
      requires Fifo(s)
      modifies this
      ensures Fifo(s) && ReadDone(old(s).(writers := {}), n, writable, out, s.(writers := {}))
      ensures s.writers == old(s).writers
      ensures old(Empty(s)) ==> s == old(s)
    {
      hide Fifo, ReadDone;
      ghost var s0 := s;
      out := [];
      while |out| < n
        invariant |out| <= n && |out| <= writable && Fifo(s) && s.got == s0.got + out
        invariant s == s0.(nread := s.nread, got := s.got) && (Empty(s0) ==> s == s0)
        decreases n - |out|
      {
        if Empty(s) {
          break;
        }
        TakeKeeps(s);
        RingSize(s);
        ghost var s1 := s;
        var ch := s.data[s.nread % PIPESIZE];
        s := s.(nread := (s.nread + 1) % WORD, got := s.got + [ch]);
        if |out| == writable {
          LastLost(s0, s1, n, out, s);
          return;
        }
        out := out + [ch];
      }
      AllStored(s0, n, writable, out, s);
    }

    /** `kill` of a process that may be asleep here: it becomes runnable, and its loop goes on with the next turn. */
    method Kill(me: nat)
      requires Valid()
      modifies this
      ensures Valid() && s == old(s).(readers := old(s).readers - {me}, writers := old(s).writers - {me})
      ensures old(ReadersOk(s)) ==> ReadersOk(s)
    {
      hide Fifo;
      SleepersApart(s, s.readers - {me}, s.writers - {me});
      s := s.(readers := s.readers - {me}, writers := s.writers - {me});
    }

    /** `pipeclose` of one end; nobody is asleep at an end that gets closed. */
    method Close(writable: bool) returns (freed: bool)
      requires Valid() && (if writable then s.writers == {} else s.readers == {})
      modifies this
      ensures Valid() && s.put == old(s).put && s.got == old(s).got
      ensures s.writeopen == (old(s).writeopen && !writable) && s.readopen == (old(s).readopen && writable)
      ensures freed <==> !s.readopen && !s.writeopen
      ensures if writable then s.readers == {} else s.writers == {}
      ensures old(ReadersOk(s)) ==> ReadersOk(s)
    {
      if writable {
        s := s.(writeopen := false, readers := {});
      } else {
        s := s.(readopen := false, writers := {});
      }
      return !s.readopen && !s.writeopen;
    }
  }

  /** A reader that was asleep when it was killed: its next turn fails on an empty pipe, and reads what came in meanwhile. */
  method KilledReader(p: Pipe, me: nat, n: nat) returns (r: Outcome, out: seq<Byte>)
    requires p.Valid() && me in p.s.readers
    modifies p
    ensures p.Valid() && me !in p.s.readers && r != Sleeps
    ensures r == Returns(-1) <==> old(Empty(p.s) && p.s.writeopen)
    ensures r != Returns(-1) ==> p.s.got == old(p.s).got + out && r == Returns(|out|)
    ensures old(ReadersOk(p.s)) ==> r == Returns(-1) && p.s.got == old(p.s).got
  {
    p.Kill(me);
    r, out := p.Read(me, n, true, n);
  }

  lemma SleepersApart(s: State, readers: set<nat>, writers: set<nat>)
    requires Fifo(s)
    ensures Fifo(s.(readers := readers, writers := writers))
  {
  }

  lemma RingSize(s: State)
    requires Fifo(s)
    ensures |s.data| == PIPESIZE
  {
  }

  /** A writer killed after its first byte leaves a reader asleep on a pipe that is not empty. */
  method KilledWriterForgets(junk: seq<Byte>, reader: nat, writer: nat, src: seq<Byte>) returns (p: Pipe, w: Outcome)
    requires |junk| == PIPESIZE && |src| == 2
    ensures p.Valid() && w == Returns(-1) && p.s.put == src[..1] && p.s.got == [] && p.s.readopen && p.s.writeopen
    ensures p.s.readers == {reader} && !Empty(p.s) && !ReadersOk(p.s)
  {
    p := new Pipe(junk);
    var r, out := p.Read(reader, 1, false, 1);
    assert Forgets(p.s, src, 0, [false, true], 2) by { assert KilledFirst([false, true], 0, 1); }
    var j;
    w, j := p.Write(writer, src, 0, [false, true], 2);
    assert src[0..1] == src[..1];
  }

  /** The writer finds itself killed at byte `k` and not before. */
  ghost predicate KilledFirst(killed: seq<bool>, i: nat, k: nat) {
    i <= k < |killed| && killed[k] && forall m :: i <= m < k ==> !killed[m]
  }

  /**
   When a writer will forget the readers: some are asleep, and it is killed after its first byte
   but before the ring is full, its buffer ends or all its bytes are in.
   */
  ghost predicate Forgets(s: State, src: seq<Byte>, i: nat, killed: seq<bool>, readable: nat) {
    s.readers != {} && s.readopen && exists k ::
      i < k < |src| && k <= i + PIPESIZE && k <= readable && KilledFirst(killed, i, k)
  }

  /** A writer on its way from byte `i` to byte `j`. */
  ghost predicate Halfway(s0: State, s: State, src: seq<Byte>, i: nat, j: nat, killed: seq<bool>, readable: nat) {
    && Fifo(s0) && Fifo(s) && i <= j <= |src| == |killed| && |s.put| == |s0.put| + j - i
    && s == s0.(data := s.data, nwrite := s.nwrite, put := s.put) && (j == i ==> s == s0)
    && (j > i ==> s.readopen && j <= readable) && forall m :: i <= m < j ==> !killed[m]
  }

  lemma KilledForgets(s0: State, s: State, src: seq<Byte>, i: nat, j: nat, killed: seq<bool>, readable: nat)
    requires Halfway(s0, s, src, i, j, killed, readable) && j < |src| && (!s.readopen || killed[j])
    ensures ReadersOk(s0) ==> (ReadersOk(s) <==> !Forgets(s0, src, i, killed, readable))
  {
    WrappedTests(s0);
    WrappedTests(s);
    if j > i && killed[j] {
      assert KilledFirst(killed, i, j);
    } else {
      assert forall k :: i < k ==> !KilledFirst(killed, i, k) || !s.readopen;
    }
  }

  lemma OthersTell(s0: State, s: State, src: seq<Byte>, i: nat, j: nat, killed: seq<bool>, readable: nat)
    requires Halfway(s0, s, src, i, j, killed, readable)
    requires j < |src| ==> !killed[j] && (Full(s) || j >= readable)
    ensures ReadersOk(s0) ==> !Forgets(s0, src, i, killed, readable)
  {
    WrappedTests(s0);
    WrappedTests(s);
    if s0.readers != {} && ReadersOk(s0) {
      forall k | i < k < |src| && k <= i + PIPESIZE && k <= readable ensures !KilledFirst(killed, i, k) {
      }
    }
  }

  function Least(a: nat, b: nat): nat {
    if a < b then a else b
  }

  /** The oldest bytes have gone to the reader, and one more is lost if it could not be stored. */
  ghost predicate ReadDone(s: State, n: nat, writable: nat, out: seq<Byte>, s': State) {
    && |s.got| <= |s.put|
    && var want := Least(n, |s.put| - |s.got|);
    && out == s.put[|s.got|..|s.got| + Least(want, writable)]
    && s'.got == s.put[..|s.got| + if writable < want then writable + 1 else want]
    && s' == s.(nread := s'.nread, got := s'.got, writers := {})
  }

  /** What a reader gets is what has gone, in order, but for one byte at most; it gets all it can. */
  lemma ReadGets(s: State, n: nat, writable: nat, out: seq<Byte>, s': State)
    requires Fifo(s) && ReadDone(s, n, writable, out, s')
    ensures s.got + out <= s'.got <= s.put && |s'.got| <= |s.got| + |out| + 1
    ensures |out| <= n && |out| <= writable && (|out| < n && |out| < writable ==> s'.got == s.put)
    ensures writable >= n ==> s'.got == s.got + out
  {
  }

  lemma AllStored(s0: State, n: nat, writable: nat, out: seq<Byte>, s: State)
    requires Fifo(s0) && Fifo(s) && s == s0.(nread := s.nread, got := s.got) && s.got == s0.got + out
    requires |out| <= n && |out| <= writable && (|out| == n || Empty(s))
    ensures ReadDone(s0.(writers := {}), n, writable, out, s.(writers := {}))
  {
    WrappedTests(s);
  }

  lemma LastLost(s0: State, s1: State, n: nat, out: seq<Byte>, s: State)
    requires Fifo(s0) && Fifo(s1) && s1 == s0.(nread := s1.nread, got := s1.got) && s1.got == s0.got + out && |out| < n
    requires !Empty(s1) && Fifo(s) && s == s0.(nread := s.nread, got := s.got) && |s.got| == |s1.got| + 1
    ensures ReadDone(s0.(writers := {}), n, |out|, out, s.(writers := {}))
  {
    WrappedTests(s1);
  }
}
