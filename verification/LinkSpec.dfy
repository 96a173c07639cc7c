/**
 Directories and link counts (kernel/sysfile.c, kernel/fs.c) on values: what `create`, `link`
 and `unlink` keep. A directory is its sequence of entries; an entry with inode number 0 is
 empty. `pending` counts, by inode, the `link` calls that have raised the count and not yet
 made their entry.
 */
module LinkSpec {

  const DIRSIZ := 14
  const ROOTINO := 1
  /** The largest value of the 16-bit `nlink`. */
  const MAXLINK := 0x7FFF

  /** `nlink++` on a 16-bit field. */
  function Inc16(n: int): int {
    if n == MAXLINK then -0x8000 else n + 1
  }

  datatype Kind = Free | File | Dir | Device
  datatype Entry = Entry(inum: nat, name: string)
  datatype Inode = Inode(kind: Kind, nlink: int, ents: seq<Entry>)
  datatype State = State(ino: map<nat, Inode>, pending: multiset<nat>)

  const EMPTY := Entry(0, "")
  const FREED := Inode(Free, 0, [])

  /** What `strncmp` and `strncpy` with DIRSIZ see of a name. */
  function Short(name: string): string {
    if |name| <= DIRSIZ then name else name[..DIRSIZ]
  }

  /** A directory that can still be reached. */
  predicate Live(s: State, d: nat) {
    d in s.ino && s.ino[d].kind == Dir && s.ino[d].nlink > 0
  }

  /** Slot `k` of live directory `d` counts as a link to `i`. */
  predicate Refers(s: State, d: nat, k: nat, i: nat) {
    Live(s, d) && k < |s.ino[d].ents| && s.ino[d].ents[k].inum == i && s.ino[d].ents[k].name != "."
  }

  ghost function Refs(s: State, i: nat): set<(nat, nat)> {
    set d, k | d in s.ino && 0 <= k < |s.ino[d].ents| && Refers(s, d, k, i) :: (d, k)
  }

  ghost predicate Counted(s: State, i: nat) {
    i in s.ino && s.ino[i].kind != Free ==> s.ino[i].nlink == |Refs(s, i)| + s.pending[i]
  }

  /** No name twice, and none that would be cut. */
  ghost predicate UniqueNames(ents: seq<Entry>) {
    && (forall k :: 0 <= k < |ents| ==> |ents[k].name| <= DIRSIZ)
    && (forall j, k :: 0 <= j < k < |ents| && ents[j].inum != 0 && ents[k].inum != 0 ==> ents[j].name != ents[k].name)
  }

  /** "." and ".." come first; a directory that cannot be reached any more has nothing else. */
  ghost predicate DirShape(s: State, d: nat)
    requires d in s.ino
  {
    var ents := s.ino[d].ents;
    && |ents| >= 2 && ents[0] == Entry(d, ".") && ents[1].name == ".." && ents[1].inum != 0 && UniqueNames(ents)
    && (s.ino[d].nlink == 0 ==> forall k :: 2 <= k < |ents| ==> ents[k].inum == 0)
  }

  /**
   An entry of a live directory names an inode in use; if that is a directory and the entry is
   not "." or "..", it is the only one and the ".." there leads back.
   */
  ghost predicate EntryOk(s: State, d: nat, k: nat)
    requires Live(s, d) && k < |s.ino[d].ents|
  {
    var ents, e := s.ino[d].ents, s.ino[d].ents[k].inum;
    e != 0 ==>
      && e in s.ino && s.ino[e].kind != Free
      && (k >= 2 && s.ino[e].kind == Dir ==>
            && e != d && |s.ino[e].ents| >= 2 && s.ino[e].ents[1].inum == d
            && forall j :: 2 <= j < |ents| && j != k ==> ents[j].inum != e)
  }

  ghost predicate Holds(s: State, d: nat, e: nat) {
    Live(s, d) && exists k :: 2 <= k < |s.ino[d].ents| && s.ino[d].ents[k].inum == e
  }

  /** A live directory is the root, or its ".." is a live directory with an entry for it. */
  ghost predicate Anchored(s: State, d: nat)
    requires d in s.ino && |s.ino[d].ents| >= 2
  {
    var up := s.ino[d].ents[1].inum;
    if d == ROOTINO then up == ROOTINO else Holds(s, up, d)
  }

  /** Where ".." of a directory leads. */
  ghost function Up(s: State, d: nat): nat {
    if d in s.ino && |s.ino[d].ents| >= 2 then s.ino[d].ents[1].inum else 0
  }

  /** The directory `n` levels of ".." above. */
  ghost function Above(s: State, d: nat, n: nat): nat
    decreases n
  {
    if n == 0 then d else Above(s, Up(s, d), n - 1)
  }

  /** From every live directory ".." leads up to the root. */
  ghost predicate Rooted(s: State) {
    forall d :: Live(s, d) ==> exists n: nat :: Above(s, d, n) == ROOTINO
  }

  ghost predicate Inv(s: State) {
    && 0 !in s.ino && Live(s, ROOTINO)
    && (forall i :: i in s.ino ==> 0 <= s.ino[i].nlink <= MAXLINK && Counted(s, i))
    && (forall d :: d in s.ino && s.ino[d].kind == Dir ==> DirShape(s, d))
    && (forall i :: i in s.pending ==> i in s.ino && (s.ino[i].kind == File || s.ino[i].kind == Device))
    && (forall d, k :: Live(s, d) && 0 <= k < |s.ino[d].ents| ==> EntryOk(s, d, k))
    && (forall d :: Live(s, d) ==> |s.ino[d].ents| >= 2 && Anchored(s, d)) && Rooted(s)
  }

  // ----------------------------------------------------------------- the way up

  ghost predicate AllAnchored(s: State) {
    forall d :: Live(s, d) ==> |s.ino[d].ents| >= 2 && Anchored(s, d)
  }

  /** Live directories have the parent they had, or are new in a directory that was there. */
  ghost predicate SameParents(s: State, s': State) {
    && Live(s, ROOTINO)
    && (forall d :: Live(s', d) && Live(s, d) ==> Up(s', d) == Up(s, d))
    && (forall d :: Live(s', d) && !Live(s, d) ==> Live(s, Up(s', d)))
  }

  lemma {:induction false} SameWay(s: State, s': State, d: nat, n: nat)
    requires AllAnchored(s) && AllAnchored(s') && SameParents(s, s') && Live(s, d) && Live(s', d)
    requires Above(s, d, n) == ROOTINO
    ensures Above(s', d, n) == ROOTINO
    decreases n
  {
    if n > 0 {
      assert Anchored(s, d) && Anchored(s', d);
      SameWay(s, s', Up(s, d), n - 1);
    }
  }

  lemma RootedKept(s: State, s': State)
    requires AllAnchored(s) && AllAnchored(s') && SameParents(s, s') && Rooted(s)
    ensures Rooted(s')
  {
    forall d: nat | Live(s', d) ensures exists n: nat :: Above(s', d, n) == ROOTINO {
      var e := if Live(s, d) then d else Up(s', d);
      var n: nat :| Above(s, e, n) == ROOTINO;
      assert Anchored(s', d);
      SameWay(s, s', e, n);
      assert e != d ==> Above(s', d, n + 1) == Above(s', e, n);
    }
  }

  lemma {:induction false} AboveSum(s: State, d: nat, m: nat, n: nat)
    ensures Above(s, d, m + n) == Above(s, Above(s, d, m), n)
    decreases m
  {
    if m > 0 { AboveSum(s, Up(s, d), m - 1, n); }
  }

  /** The way up from a live directory never comes back to it. */
  lemma NoLoop(s: State, d: nat, k: nat)
    requires Inv(s) && Live(s, d) && k > 0 && Above(s, d, k) == d
    ensures d == ROOTINO
  {
    hide Counted, DirShape, EntryOk;
    assert Anchored(s, ROOTINO);
    var n: nat :| Above(s, d, n) == ROOTINO;
    LoopsToRoot(s, d, k, n);
  }

  lemma {:induction false} LoopsToRoot(s: State, d: nat, k: nat, n: nat)
    requires Up(s, ROOTINO) == ROOTINO && k > 0 && Above(s, d, k) == d && Above(s, d, n) == ROOTINO
    ensures d == ROOTINO
    decreases n
  {
    if n <= k {
      AboveSum(s, d, n, k - n);
      RootStays(s, k - n);
    } else {
      AboveSum(s, d, k, n - k);
      LoopsToRoot(s, d, k, n - k);
    }
  }

  lemma {:induction false} RootStays(s: State, n: nat)
    requires Up(s, ROOTINO) == ROOTINO
    ensures Above(s, ROOTINO, n) == ROOTINO
  {
    if n > 0 { RootStays(s, n - 1); }
  }

  // ------------------------------------------------------------------- counting

  lemma RefsAre(s: State, i: nat, d: nat, k: nat)
    ensures (d, k) in Refs(s, i) <==> Refers(s, d, k, i)
  {
  }

  lemma SameRefs(s: State, s': State, i: nat)
    requires forall d: nat, k: nat :: Refers(s', d, k, i) <==> Refers(s, d, k, i)
    ensures Refs(s', i) == Refs(s, i)
  {
    forall x ensures x in Refs(s', i) <==> x in Refs(s, i) {
      RefsAre(s, i, x.0, x.1);
      RefsAre(s', i, x.0, x.1);
    }
  }

  lemma OneMore(s: State, s': State, i: nat, e: nat, m: nat)
    requires !Refers(s, e, m, i)
    requires forall d: nat, k: nat :: Refers(s', d, k, i) <==> Refers(s, d, k, i) || (d == e && k == m)
    ensures |Refs(s', i)| == |Refs(s, i)| + 1
  {
    assert Refs(s', i) == Refs(s, i) + {(e, m)} by {
      forall x ensures x in Refs(s', i) <==> x in Refs(s, i) + {(e, m)} {
        RefsAre(s, i, x.0, x.1);
        RefsAre(s', i, x.0, x.1);
      }
    }
    RefsAre(s, i, e, m);
  }

  lemma OneLess(s: State, s': State, i: nat, e: nat, m: nat)
    requires Refers(s, e, m, i)
    requires forall d: nat, k: nat :: Refers(s', d, k, i) <==> Refers(s, d, k, i) && !(d == e && k == m)
    ensures |Refs(s', i)| == |Refs(s, i)| - 1
  {
    OneMore(s', s, i, e, m);
  }

  // -------------------------------------------------------------------- entries

  /** Slot `k` gets an entry, at the end if there is no such slot yet. */
  function Put(ents: seq<Entry>, k: nat, e: Entry): (r: seq<Entry>)
    requires k <= |ents|
    ensures |r| == (if k < |ents| then |ents| else |ents| + 1) && r[k] == e
    ensures forall j :: 0 <= j < |ents| && j != k ==> r[j] == ents[j]
  {
    if k < |ents| then ents[k := e] else ents + [e]
  }

  function PutIn(s: State, d: nat, k: nat, e: Entry): State
    requires d in s.ino && k <= |s.ino[d].ents|
  {
    s.(ino := s.ino[d := s.ino[d].(ents := Put(s.ino[d].ents, k, e))])
  }

  /** Where `dirlink` may put a new entry. */
  ghost predicate Room(s: State, d: nat, k: nat, name: string) {
    && Live(s, d) && 2 <= k <= |s.ino[d].ents| && (k < |s.ino[d].ents| ==> s.ino[d].ents[k].inum == 0)
    && |name| <= DIRSIZ && name != "."
    && (forall j :: 0 <= j < |s.ino[d].ents| && s.ino[d].ents[j].inum != 0 ==> s.ino[d].ents[j].name != name)
  }

  /** A new entry for a file that had a `link` pending. */
  ghost function Attached(s: State, d: nat, k: nat, name: string, i: nat): State
    requires d in s.ino && k <= |s.ino[d].ents|
  {
    PutIn(s, d, k, Entry(i, name)).(pending := s.pending - multiset{i})
  }

  lemma AttachKeeps(s: State, d: nat, k: nat, name: string, i: nat)
    requires Inv(s) && Room(s, d, k, name) && i in s.pending
    ensures Inv(Attached(s, d, k, name, i))
  {
    hide Counted, DirShape, EntryOk, Anchored, Rooted, SameParents;
    var s' := Attached(s, d, k, name, i);
    AttachParents(s, d, k, name, i);
    forall x | x in s'.ino ensures Counted(s', x) { AttachCounted(s, d, k, name, i, x); }
    forall x | x in s'.ino && s'.ino[x].kind == Dir ensures DirShape(s', x) { AttachShape(s, d, k, name, i, x); }
    forall x, j | Live(s', x) && 0 <= j < |s'.ino[x].ents|
      ensures EntryOk(s', x, j)
    {
      AttachEntry(s, d, k, name, i, x, j);
    }
    forall x | Live(s', x) ensures |s'.ino[x].ents| >= 2 && Anchored(s', x) { AttachAnchored(s, d, k, name, i, x); }
    RootedKept(s, s');
  }

  lemma AttachParents(s: State, d: nat, k: nat, name: string, i: nat)
    requires Inv(s) && Room(s, d, k, name)
    ensures SameParents(s, Attached(s, d, k, name, i))
    ensures forall x :: Live(Attached(s, d, k, name, i), x) <==> Live(s, x)
  {
    hide Counted, DirShape, EntryOk, Anchored, Rooted, Put;
  }

  lemma AttachCounted(s: State, d: nat, k: nat, name: string, i: nat, x: nat)
    requires Inv(s) && Room(s, d, k, name) && i in s.pending && x in s.ino
    ensures Counted(Attached(s, d, k, name, i), x)
  {
    hide Refers, Refs, DirShape, EntryOk, Anchored, Rooted;
    var s' := Attached(s, d, k, name, i);
    assert Counted(s, x);
    PutRefers(s, d, k, Entry(i, name), s');
    if x == i {
      OneMore(s, s', i, d, k);
    } else {
      SameRefs(s, s', x);
    }
  }

  /** Putting an entry into an empty slot, seen from all inodes. */
  lemma PutRefers(s: State, d: nat, k: nat, e: Entry, s': State)
    requires 0 !in s.ino && Room(s, d, k, e.name) && (forall y :: y in s'.ino <==> y in s.ino)
    requires forall y :: Live(s', y) <==> Live(s, y)
    requires s'.ino[d].ents == Put(s.ino[d].ents, k, e)
    requires forall y :: Live(s, y) && y != d ==> s'.ino[y].ents == s.ino[y].ents
    ensures forall dd: nat, kk: nat, x :: x in s.ino ==>
      (Refers(s', dd, kk, x) <==> Refers(s, dd, kk, x) || (dd == d && kk == k && x == e.inum))
    ensures forall x :: x in s.ino ==> !Refers(s, d, k, x)
  {
    hide Put;
  }

  lemma AttachShape(s: State, d: nat, k: nat, name: string, i: nat, x: nat)
    requires Inv(s) && Room(s, d, k, name) && i in s.pending && x in s.ino && s.ino[x].kind == Dir
    ensures DirShape(Attached(s, d, k, name, i), x)
  {
    hide Counted, EntryOk, Anchored, Rooted;
    assert DirShape(s, x);
  }

  lemma AttachEntry(s: State, d: nat, k: nat, name: string, i: nat, x: nat, j: nat)
    requires Inv(s) && Room(s, d, k, name) && i in s.pending
    requires var s' := Attached(s, d, k, name, i); Live(s', x) && j < |s'.ino[x].ents|
    ensures EntryOk(Attached(s, d, k, name, i), x, j)
  {
    hide Counted, Anchored, DirShape, Rooted;
    assert Live(s, x);
    if x != d || j != k { assert EntryOk(s, x, j); }
    if x == d && j != k && s.ino[x].ents[j].inum != 0 { assert s.ino[x].ents[j].inum in s.ino; }
    ShapeSize(s, s.ino[x].ents);
  }

  lemma ShapeSize(s: State, ents: seq<Entry>)
    requires Inv(s)
    ensures forall x :: x in s.ino && s.ino[x].kind == Dir ==> |s.ino[x].ents| >= 2
  {
    hide Counted, EntryOk, Anchored, Rooted;
    forall x | x in s.ino && s.ino[x].kind == Dir ensures |s.ino[x].ents| >= 2 { assert DirShape(s, x); }
  }

  lemma AttachAnchored(s: State, d: nat, k: nat, name: string, i: nat, x: nat)
    requires Inv(s) && Room(s, d, k, name) && i in s.pending && Live(s, x)
    ensures var s' := Attached(s, d, k, name, i); |s'.ino[x].ents| >= 2 && Anchored(s', x)
  {
    hide Counted, EntryOk, DirShape, Rooted;
    var s' := Attached(s, d, k, name, i);
    assert Anchored(s, x);
    if x != ROOTINO {
      var up := s.ino[x].ents[1].inum;
      var m :| 2 <= m < |s.ino[up].ents| && s.ino[up].ents[m].inum == x;
      assert s'.ino[up].ents[m].inum == x;
    }
  }

  /** The entry in slot `k` is cleared; the file's count is still to be lowered. */
  ghost function Detached(s: State, d: nat, k: nat): State
    requires d in s.ino && k < |s.ino[d].ents|
  {
    PutIn(s, d, k, EMPTY).(pending := s.pending + multiset{s.ino[d].ents[k].inum})
  }

  ghost predicate FileEntry(s: State, d: nat, k: nat) {
    && Live(s, d) && 2 <= k < |s.ino[d].ents| && s.ino[d].ents[k].inum in s.ino
    && (s.ino[s.ino[d].ents[k].inum].kind == File || s.ino[s.ino[d].ents[k].inum].kind == Device)
  }

  lemma DetachKeeps(s: State, d: nat, k: nat)
    requires Inv(s) && FileEntry(s, d, k)
    ensures Inv(Detached(s, d, k))
  {
    hide Counted, DirShape, EntryOk, Anchored, Rooted, SameParents;
    var s' := Detached(s, d, k);
    DetachParents(s, d, k);
    forall x | x in s'.ino ensures Counted(s', x) { DetachCounted(s, d, k, x); }
    forall x | x in s'.ino && s'.ino[x].kind == Dir ensures DirShape(s', x) { DetachShape(s, d, k, x); }
    forall x, j | Live(s', x) && 0 <= j < |s'.ino[x].ents| ensures EntryOk(s', x, j) { DetachEntry(s, d, k, x, j); }
    forall x | Live(s', x) ensures |s'.ino[x].ents| >= 2 && Anchored(s', x) { DetachAnchored(s, d, k, x); }
    RootedKept(s, s');
  }

  lemma DetachParents(s: State, d: nat, k: nat)
    requires Inv(s) && FileEntry(s, d, k)
    ensures SameParents(s, Detached(s, d, k)) && forall x :: Live(Detached(s, d, k), x) <==> Live(s, x)
  {
    hide Counted, DirShape, EntryOk, Anchored, Rooted, Put;
  }

  lemma DetachCounted(s: State, d: nat, k: nat, x: nat)
    requires Inv(s) && FileEntry(s, d, k) && x in s.ino
    ensures Counted(Detached(s, d, k), x)
  {
    hide Refers, Refs, EntryOk, Anchored, Rooted;
    var s' := Detached(s, d, k);
    assert Counted(s, x) && DirShape(s, d);
    var i := s.ino[d].ents[k].inum;
    ClearRefers(s, d, k, s');
    if x == i {
      OneLess(s, s', i, d, k);
    } else {
      SameRefs(s, s', x);
    }
  }

  /** Clearing an entry, seen from all inodes. */
  lemma ClearRefers(s: State, d: nat, k: nat, s': State)
    requires 0 !in s.ino && Live(s, d) && 0 < k < |s.ino[d].ents| && DirShape(s, d) && (forall y :: y in s'.ino <==> y in s.ino)
    requires s.ino[d].ents[k].inum != 0
    requires forall y :: Live(s', y) <==> Live(s, y)
    requires s'.ino[d].ents == Put(s.ino[d].ents, k, EMPTY)
    requires forall y :: Live(s, y) && y != d ==> s'.ino[y].ents == s.ino[y].ents
    ensures forall dd: nat, kk: nat, x :: x in s.ino ==>
      (Refers(s', dd, kk, x) <==> Refers(s, dd, kk, x) && !(dd == d && kk == k))
    ensures forall x :: Refers(s, d, k, x) <==> x == s.ino[d].ents[k].inum
  {
    hide Put;
    assert s.ino[d].ents[0].name == ".";
  }

  lemma DetachShape(s: State, d: nat, k: nat, x: nat)
    requires Inv(s) && FileEntry(s, d, k) && x in s.ino && s.ino[x].kind == Dir
    ensures DirShape(Detached(s, d, k), x)
  {
    hide Counted, EntryOk, Anchored, Rooted;
    assert DirShape(s, x);
  }

  lemma DetachEntry(s: State, d: nat, k: nat, x: nat, j: nat)
    requires Inv(s) && FileEntry(s, d, k)
    requires var s' := Detached(s, d, k); Live(s', x) && j < |s'.ino[x].ents|
    ensures EntryOk(Detached(s, d, k), x, j)
  {
    hide Counted, Anchored, DirShape, Rooted;
    assert Live(s, x);
    assert EntryOk(s, x, j);
  }

  lemma DetachAnchored(s: State, d: nat, k: nat, x: nat)
    requires Inv(s) && FileEntry(s, d, k) && Live(s, x)
    ensures var s' := Detached(s, d, k); |s'.ino[x].ents| >= 2 && Anchored(s', x)
  {
    hide Counted, EntryOk, DirShape, Rooted;
    var s' := Detached(s, d, k);
    assert Anchored(s, x);
    if x != ROOTINO {
      var up := s.ino[x].ents[1].inum;
      var m :| 2 <= m < |s.ino[up].ents| && s.ino[up].ents[m].inum == x;
      assert s'.ino[up].ents[m].inum == x;
    }
  }

  // ------------------------------------------------------------------ counts alone

  /** Only inode `i`, which is no directory before or after, and the pending links to it have changed. */
  ghost predicate OnlyFile(s: State, i: nat, s': State) {
    && (forall x :: x in s'.ino <==> x in s.ino) && (forall x :: x in s.ino && x != i ==> s'.ino[x] == s.ino[x])
    && i in s.ino && s.ino[i].kind != Dir && s'.ino[i].kind != Dir && 0 <= s'.ino[i].nlink <= MAXLINK
    && (forall x :: x != i ==> s'.pending[x] == s.pending[x])
    && (i in s'.pending ==> s'.ino[i].kind != Free)
  }

  lemma OnlyFileKeeps(s: State, i: nat, s': State)
    requires Inv(s) && OnlyFile(s, i, s')
    requires s'.ino[i].kind == Free ==> Refs(s, i) == {}
    requires s'.ino[i].kind != Free ==> s'.ino[i].nlink == |Refs(s, i)| + s'.pending[i]
    ensures Inv(s')
  {
    hide DirShape, EntryOk, Anchored, Refs, Rooted;
    assert forall x :: Live(s', x) <==> Live(s, x);
    assert forall x :: Live(s, x) ==> s'.ino[x] == s.ino[x];
    forall x | x in s'.ino ensures Counted(s', x) {
      assert Counted(s, x);
      SameRefs(s, s', x);
    }
    forall x | x in s'.ino && s'.ino[x].kind == Dir ensures DirShape(s', x) { SameShape(s, s', x); }
    forall x, j | Live(s', x) && 0 <= j < |s'.ino[x].ents| ensures EntryOk(s', x, j) { OnlyFileEntry(s, i, s', x, j); }
    forall x | Live(s', x) ensures |s'.ino[x].ents| >= 2 && Anchored(s', x) { OnlyFileAnchored(s, i, s', x); }
    RootedKept(s, s');
  }

  lemma SameShape(s: State, s': State, x: nat)
    requires Inv(s) && x in s.ino && s.ino[x].kind == Dir && x in s'.ino && s'.ino[x] == s.ino[x]
    ensures DirShape(s', x)
  {
    hide Counted, EntryOk, Anchored, Rooted;
    assert DirShape(s, x);
  }

  lemma OnlyFileEntry(s: State, i: nat, s': State, x: nat, j: nat)
    requires Inv(s) && OnlyFile(s, i, s') && Live(s', x) && j < |s'.ino[x].ents|
    requires (s'.ino[i].kind == Free ==> Refs(s, i) == {})
    ensures EntryOk(s', x, j)
  {
    hide Counted, Anchored, Rooted;
    assert Live(s, x) && EntryOk(s, x, j) && DirShape(s, x);
    if s.ino[x].ents[j].inum == i {
      RefsAre(s, i, x, j);
      assert s.ino[x].ents[j].name == "." ==> j == 0;
    }
  }

  lemma OnlyFileAnchored(s: State, i: nat, s': State, x: nat)
    requires Inv(s) && OnlyFile(s, i, s') && Live(s', x)
    ensures |s'.ino[x].ents| >= 2 && Anchored(s', x)
  {
    hide Counted, EntryOk, DirShape, Rooted;
    assert Live(s, x) && Anchored(s, x);
    if x != ROOTINO {
      var up := s.ino[x].ents[1].inum;
      var m :| 2 <= m < |s.ino[up].ents| && s.ino[up].ents[m].inum == x;
      assert s'.ino[up].ents[m].inum == x;
    }
  }

  // ----------------------------------------------------------------- directories

  /** `mkdir`: a new directory `i` in slot `k` of `d`; its ".." is one more link to `d`. */
  ghost function WithDir(s: State, d: nat, k: nat, name: string, i: nat): State
    requires d in s.ino && k <= |s.ino[d].ents|
  {
    s.(ino := s.ino[d := s.ino[d].(nlink := Inc16(s.ino[d].nlink), ents := Put(s.ino[d].ents, k, Entry(i, name)))]
                   [i := Inode(Dir, 1, [Entry(i, "."), Entry(d, "..")])])
  }

  ghost predicate CanMkdir(s: State, d: nat, k: nat, name: string, i: nat) {
    && Inv(s) && Room(s, d, k, name) && name != ".." && s.ino[d].nlink < MAXLINK
    && i in s.ino && s.ino[i].kind == Free && i !in s.pending
  }

  lemma WithDirRefers(s: State, d: nat, k: nat, name: string, i: nat)
    requires CanMkdir(s, d, k, name, i)
    ensures var s' := WithDir(s, d, k, name, i);
      && (forall dd: nat, kk: nat, x :: x in s.ino ==>
            (Refers(s', dd, kk, x) <==>
               Refers(s, dd, kk, x) || (dd == d && kk == k && x == i) || (dd == i && kk == 1 && x == d)))
      && forall x :: x in s.ino ==> !Refers(s, d, k, x) && !Refers(s, i, 1, x)
  {
    hide Counted, DirShape, EntryOk, Anchored, Put, Rooted;
  }

  lemma WithDirKeeps(s: State, d: nat, k: nat, name: string, i: nat)
    requires CanMkdir(s, d, k, name, i)
    ensures Inv(WithDir(s, d, k, name, i))
  {
    hide Counted, DirShape, EntryOk, Anchored, Rooted, SameParents, Put;
    var s' := WithDir(s, d, k, name, i);
    WithDirParents(s, d, k, name, i);
    forall x | x in s'.ino ensures Counted(s', x) { WithDirCounted(s, d, k, name, i, x); }
    forall x | x in s'.ino && s'.ino[x].kind == Dir ensures DirShape(s', x) { WithDirShape(s, d, k, name, i, x); }
    forall x, j | Live(s', x) && 0 <= j < |s'.ino[x].ents|
      ensures EntryOk(s', x, j)
    {
      WithDirEntry(s, d, k, name, i, x, j);
    }
    forall x | Live(s', x) ensures |s'.ino[x].ents| >= 2 && Anchored(s', x) { WithDirAnchored(s, d, k, name, i, x); }
    RootedKept(s, s');
  }

  lemma WithDirParents(s: State, d: nat, k: nat, name: string, i: nat)
    requires CanMkdir(s, d, k, name, i)
    ensures SameParents(s, WithDir(s, d, k, name, i))
    ensures forall x :: Live(WithDir(s, d, k, name, i), x) <==> Live(s, x) || x == i
  {
    hide Counted, DirShape, EntryOk, Anchored, Rooted, Put;
  }

  lemma WithDirCounted(s: State, d: nat, k: nat, name: string, i: nat, x: nat)
    requires CanMkdir(s, d, k, name, i) && x in s.ino
    ensures Counted(WithDir(s, d, k, name, i), x)
  {
    hide Refers, Refs, DirShape, EntryOk, Anchored, Rooted;
    var s' := WithDir(s, d, k, name, i);
    assert Counted(s, x) && i != d;
    WithDirRefers(s, d, k, name, i);
    if x == i {
      FreeUnnamed(s, i);
      OneMore(s, s', i, d, k);
    } else if x == d {
      OneMore(s, s', d, i, 1);
    } else {
      SameRefs(s, s', x);
    }
  }

  /** A free inode is named nowhere. */
  lemma FreeUnnamed(s: State, i: nat)
    requires Inv(s) && i in s.ino && s.ino[i].kind == Free
    ensures Refs(s, i) == {}
  {
    hide Counted, DirShape, Anchored, Rooted;
    forall d: nat, k: nat ensures !Refers(s, d, k, i) {
      if Live(s, d) && k < |s.ino[d].ents| { assert EntryOk(s, d, k); }
    }
  }

  lemma WithDirShape(s: State, d: nat, k: nat, name: string, i: nat, x: nat)
    requires CanMkdir(s, d, k, name, i) && x in s.ino && WithDir(s, d, k, name, i).ino[x].kind == Dir
    ensures DirShape(WithDir(s, d, k, name, i), x)
  {
    hide Counted, EntryOk, Anchored, Rooted;
    assert i != d;
    if x != i { assert DirShape(s, x); }
  }

  lemma WithDirEntry(s: State, d: nat, k: nat, name: string, i: nat, x: nat, j: nat)
    requires CanMkdir(s, d, k, name, i)
    requires var s' := WithDir(s, d, k, name, i); Live(s', x) && j < |s'.ino[x].ents|
    ensures EntryOk(WithDir(s, d, k, name, i), x, j)
  {
    hide Counted, Anchored, DirShape, Rooted;
    assert i != d;
    ShapeSize(s, []);
    if x == d {
      if j != k { assert EntryOk(s, d, j); }
      forall m | 0 <= m < |s.ino[d].ents| ensures s.ino[d].ents[m].inum != i { assert EntryOk(s, d, m); }
    } else if x != i {
      assert EntryOk(s, x, j);
    }
  }

  lemma WithDirAnchored(s: State, d: nat, k: nat, name: string, i: nat, x: nat)
    requires CanMkdir(s, d, k, name, i) && Live(WithDir(s, d, k, name, i), x)
    ensures var s' := WithDir(s, d, k, name, i); |s'.ino[x].ents| >= 2 && Anchored(s', x)
  {
    hide Counted, EntryOk, DirShape, Rooted;
    var s' := WithDir(s, d, k, name, i);
    assert i != d && i != ROOTINO;
    if x == i {
      assert s'.ino[d].ents[k].inum == i && Live(s', d);
    } else {
      assert Anchored(s, x);
      if x != ROOTINO {
        var up := s.ino[x].ents[1].inum;
        var m :| 2 <= m < |s.ino[up].ents| && s.ino[up].ents[m].inum == x;
        assert s'.ino[up].ents[m].inum == x && Live(s', up);
      }
    }
  }

  /** `rmdir`: the entry of an empty directory is cleared, and with it goes its ".." as a link to `d`. */
  ghost function WithoutDir(s: State, d: nat, k: nat): State
    requires d in s.ino && k < |s.ino[d].ents| && s.ino[d].ents[k].inum in s.ino && s.ino[d].ents[k].inum != d
  {
    var i := s.ino[d].ents[k].inum;
    s.(ino := s.ino[d := s.ino[d].(nlink := s.ino[d].nlink - 1, ents := Put(s.ino[d].ents, k, EMPTY))]
                   [i := s.ino[i].(nlink := s.ino[i].nlink - 1)])
  }

  ghost predicate Hollow(ents: seq<Entry>) {
    forall m :: 2 <= m < |ents| ==> ents[m].inum == 0
  }

  ghost predicate CanRmdir(s: State, d: nat, k: nat) {
    && Inv(s) && Live(s, d) && 2 <= k < |s.ino[d].ents| && s.ino[d].ents[k].inum in s.ino
    && s.ino[s.ino[d].ents[k].inum].kind == Dir && Hollow(s.ino[s.ino[d].ents[k].inum].ents)
  }

  /** The only link to an empty directory is the entry in its parent; the parent has another one than its "..". */
  lemma SoleLink(s: State, d: nat, k: nat)
    requires CanRmdir(s, d, k)
    ensures var i := s.ino[d].ents[k].inum;
      && i != d && i != ROOTINO && Refs(s, i) == {(d, k)} && s.ino[i].nlink == 1
      && |s.ino[i].ents| >= 2 && s.ino[i].ents[1] == Entry(d, "..") && s.ino[d].nlink >= 2
  {
    hide Refers, Refs;
    var i := s.ino[d].ents[k].inum;
    assert EntryOk(s, d, k) && DirShape(s, i) && DirShape(s, d) && Anchored(s, ROOTINO) && Anchored(s, d);
    OneLink(s, d, k);
    assert Counted(s, i);
    TwoLinks(s, d, i);
  }

  lemma OneLink(s: State, d: nat, k: nat)
    requires CanRmdir(s, d, k) && s.ino[d].ents[k].inum != d && DirShape(s, d)
    ensures Refs(s, s.ino[d].ents[k].inum) == {(d, k)} && Live(s, s.ino[d].ents[k].inum)
  {
    hide Counted, Rooted;
    var i := s.ino[d].ents[k].inum;
    assert EntryOk(s, d, k);
    RefsAre(s, i, d, k);
    forall x | x in Refs(s, i) ensures x == (d, k) {
      var (e, m) := x;
      RefsAre(s, i, e, m);
      assert EntryOk(s, e, m) && DirShape(s, e) && Anchored(s, e) && DirShape(s, i);
    }
    assert Counted(s, i) && DirShape(s, i);
    CountOf(s, i);
  }

  lemma CountOf(s: State, i: nat)
    requires Inv(s) && i in s.ino && s.ino[i].kind == Dir
    ensures s.ino[i].nlink == |Refs(s, i)|
  {
    hide DirShape, EntryOk, Anchored, Refs, Rooted;
    assert Counted(s, i);
    assert i !in s.pending;
  }

  /** A directory with a subdirectory has two links: from above and from below. */
  lemma TwoLinks(s: State, d: nat, i: nat)
    requires Inv(s) && Live(s, d) && Live(s, i) && i != d && |s.ino[i].ents| >= 2 && s.ino[i].ents[1] == Entry(d, "..")
    ensures s.ino[d].nlink >= 2
  {
    hide Counted, EntryOk, Rooted;
    assert Anchored(s, d) && DirShape(s, d);
    RefsAre(s, d, i, 1);
    var up := s.ino[d].ents[1].inum;
    if d == ROOTINO {
      RefsAre(s, d, d, 1);
      TwoOf(Refs(s, d), (i, 1), (d, 1));
    } else {
      assert DirShape(s, up);
      var m :| 2 <= m < |s.ino[up].ents| && s.ino[up].ents[m].inum == d;
      RefsAre(s, d, up, m);
      TwoOf(Refs(s, d), (i, 1), (up, m));
    }
    CountOf(s, d);
  }

  lemma TwoOf(a: set<(nat, nat)>, x: (nat, nat), y: (nat, nat))
    requires x in a && y in a && x != y
    ensures |a| >= 2
  {
    assert a == {x, y} + (a - {x, y});
  }

  lemma WithoutDirRefers(s: State, d: nat, k: nat)
    requires CanRmdir(s, d, k)
    ensures s.ino[d].ents[k].inum != d
    ensures var s', i := WithoutDir(s, d, k), s.ino[d].ents[k].inum;
      && (forall x :: Live(s', x) <==> Live(s, x) && x != i)
      && (forall dd: nat, kk: nat, x :: x in s.ino ==>
            (Refers(s', dd, kk, x) <==>
               Refers(s, dd, kk, x) && !(dd == d && kk == k && x == i) && !(dd == i && kk == 1 && x == d)))
      && Refers(s, d, k, i) && Refers(s, i, 1, d)
  {
    hide Counted, EntryOk, Anchored, Put, Refs, Rooted;
    SoleLink(s, d, k);
    var i := s.ino[d].ents[k].inum;
    assert DirShape(s, d) && DirShape(s, i);
    assert 0 !in s.ino;
  }

  lemma WithoutDirKeeps(s: State, d: nat, k: nat)
    requires CanRmdir(s, d, k)
    ensures s.ino[d].ents[k].inum != d && Inv(WithoutDir(s, d, k))
  {
    hide Counted, DirShape, EntryOk, Anchored, Refs, Rooted;
    SoleLink(s, d, k);
    WithoutDirRefers(s, d, k);
    var s' := WithoutDir(s, d, k);
    forall x | x in s'.ino ensures Counted(s', x) { WithoutDirCounted(s, d, k, x); }
    forall x | x in s'.ino && s'.ino[x].kind == Dir ensures DirShape(s', x) { WithoutDirShape(s, d, k, x); }
    forall x, j | Live(s', x) && 0 <= j < |s'.ino[x].ents| ensures EntryOk(s', x, j) { WithoutDirEntry(s, d, k, x, j); }
    forall x | Live(s', x) ensures |s'.ino[x].ents| >= 2 && Anchored(s', x) { WithoutDirAnchored(s, d, k, x); }
    RootedKept(s, s');
  }

  lemma WithoutDirCounted(s: State, d: nat, k: nat, x: nat)
    requires CanRmdir(s, d, k) && x in s.ino && s.ino[d].ents[k].inum != d
    ensures Counted(WithoutDir(s, d, k), x)
  {
    hide Refers, Refs, DirShape, EntryOk, Anchored, Rooted;
    var s', i := WithoutDir(s, d, k), s.ino[d].ents[k].inum;
    assert Counted(s, x);
    WithoutDirRefers(s, d, k);
    if x == i {
      OneLess(s, s', i, d, k);
    } else if x == d {
      OneLess(s, s', d, i, 1);
    } else {
      SameRefs(s, s', x);
    }
  }

  lemma WithoutDirShape(s: State, d: nat, k: nat, x: nat)
    requires CanRmdir(s, d, k) && x in s.ino && s.ino[x].kind == Dir && s.ino[d].ents[k].inum != d
    ensures DirShape(WithoutDir(s, d, k), x)
  {
    hide Counted, EntryOk, Anchored, Refs, Rooted;
    SoleLink(s, d, k);
    assert DirShape(s, x);
  }

  lemma WithoutDirEntry(s: State, d: nat, k: nat, x: nat, j: nat)
    requires CanRmdir(s, d, k) && s.ino[d].ents[k].inum != d
    requires var s' := WithoutDir(s, d, k); Live(s', x) && j < |s'.ino[x].ents|
    ensures EntryOk(WithoutDir(s, d, k), x, j)
  {
    hide Counted, Anchored, DirShape, Refs, Rooted;
    WithoutDirRefers(s, d, k);
    assert EntryOk(s, x, j);
  }

  lemma WithoutDirAnchored(s: State, d: nat, k: nat, x: nat)
    requires CanRmdir(s, d, k) && s.ino[d].ents[k].inum != d && Live(WithoutDir(s, d, k), x)
    ensures var s' := WithoutDir(s, d, k); |s'.ino[x].ents| >= 2 && Anchored(s', x)
  {
    hide Counted, EntryOk, Refs, DirShape, Rooted;
    WithoutDirRefers(s, d, k);
    var s', i := WithoutDir(s, d, k), s.ino[d].ents[k].inum;
    assert Anchored(s, x);
    if x != ROOTINO {
      var up := s.ino[x].ents[1].inum;
      var m :| 2 <= m < |s.ino[up].ents| && s.ino[up].ents[m].inum == x;
      assert up != i && s'.ino[up].ents[m].inum == x;
    }
  }

  /** `iput` of the last reference to an inode without links: it is free, and nobody names it. */
  ghost function WithFreed(s: State, i: nat): State {
    s.(ino := s.ino[i := FREED])
  }

  lemma FreeKeeps(s: State, i: nat)
    requires Inv(s) && i in s.ino && s.ino[i].nlink == 0
    ensures Inv(WithFreed(s, i))
  {
    hide Counted, DirShape, EntryOk, Anchored, Refs, Rooted;
    var s' := WithFreed(s, i);
    assert forall x :: Live(s', x) <==> Live(s, x);
    assert i !in s.pending by { NoLinks(s, i); }
    forall x | x in s'.ino ensures Counted(s', x) { FreeCounted(s, i, x); }
    forall x | x in s'.ino && s'.ino[x].kind == Dir ensures DirShape(s', x) { SameShape(s, s', x); }
    forall x, j | Live(s', x) && 0 <= j < |s'.ino[x].ents| ensures EntryOk(s', x, j) { FreeEntry(s, i, x, j); }
    forall x | Live(s', x) ensures |s'.ino[x].ents| >= 2 && Anchored(s', x) { FreeAnchored(s, i, x); }
    RootedKept(s, s');
  }

  lemma NoLinks(s: State, i: nat)
    requires Inv(s) && i in s.ino && s.ino[i].nlink == 0
    ensures Refs(s, i) == {} && i !in s.pending
  {
    hide DirShape, EntryOk, Anchored, Rooted;
    assert Counted(s, i);
    if s.ino[i].kind == Free { FreeUnnamed(s, i); }
  }

  lemma FreeCounted(s: State, i: nat, x: nat)
    requires Inv(s) && i in s.ino && s.ino[i].nlink == 0 && x in s.ino
    ensures Counted(WithFreed(s, i), x)
  {
    hide DirShape, EntryOk, Anchored, Refs, Rooted;
    assert Counted(s, x);
    SameRefs(s, WithFreed(s, i), x);
  }

  lemma FreeEntry(s: State, i: nat, x: nat, j: nat)
    requires Inv(s) && i in s.ino && s.ino[i].nlink == 0 && Live(s, x) && j < |s.ino[x].ents|
    ensures EntryOk(WithFreed(s, i), x, j)
  {
    hide Counted, Anchored, Rooted;
    assert EntryOk(s, x, j) && DirShape(s, x);
    NoLinks(s, i);
    RefsAre(s, i, x, j);
    assert s.ino[x].ents[j].name == "." && s.ino[x].ents[j].inum != 0 ==> j == 0;
  }

  lemma FreeAnchored(s: State, i: nat, x: nat)
    requires Inv(s) && i in s.ino && s.ino[i].nlink == 0 && Live(s, x)
    ensures |s.ino[x].ents| >= 2 && Anchored(WithFreed(s, i), x)
  {
    hide Counted, EntryOk, DirShape, Rooted;
    assert Anchored(s, x);
    if x != ROOTINO {
      var up := s.ino[x].ents[1].inum;
      var m :| 2 <= m < |s.ino[up].ents| && s.ino[up].ents[m].inum == x;
      assert WithFreed(s, i).ino[up].ents[m].inum == x;
    }
  }
}
