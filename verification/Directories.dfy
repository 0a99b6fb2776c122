/**
 The directory tree: link, unlink and create, and the link counts they keep.

 A directory is a sequence of slots; a slot with inode number 0 is empty.  `live` is the
 set of directories that are still in the tree, as opposed to removed ones that some
 process still uses, and `depth` their distance from the root.
 */
module Directories {
  import opened Common

  const ROOTINO: nat := 1
  const DIRSIZ: nat := 14
  const MAXSLOTS: nat := 4480          // 140 blocks of 32 entries
  const SHORT_MAX: int := 32767

  datatype Kind = Unused | File | Device | Directory

  datatype Entry = Entry(inum: nat, name: string)

  datatype Node = Node(kind: Kind, nlink: int, slots: seq<Entry>)

  datatype NS = NS(nodes: seq<Node>, live: set<nat>, depth: seq<nat>)

  /** What namecmp and dirlink see of a name: its first DIRSIZ characters. */
  function Key(name: string): string {
    if |name| > DIRSIZ then name[..DIRSIZ] else name
  }

  /** A character of a C string, which ends in a NUL. */
  function CharAt(name: string, i: nat): char {
    if i < |name| then name[i] else '\0'
  }

  /** namecmp compares the first DIRSIZ characters, up to a NUL. */
  lemma {:induction false} KeyIsPrefix(a: string, b: string)
    requires '\0' !in a && '\0' !in b
    ensures Key(a) == Key(b) <==> forall i: nat :: i < DIRSIZ ==> CharAt(a, i) == CharAt(b, i)
  {
    if Key(a) == Key(b) {
      forall i: nat | i < DIRSIZ ensures CharAt(a, i) == CharAt(b, i) {
        assert i < |Key(a)| ==> Key(a)[i] == a[i] && Key(b)[i] == b[i];
      }
    } else {
      var m, n := |Key(a)|, |Key(b)|;
      if m < n {
        assert b[m] in b && CharAt(a, m) != CharAt(b, m);
      } else if n < m {
        assert a[n] in a && CharAt(a, n) != CharAt(b, n);
      } else {
        var i :| 0 <= i < m && Key(a)[i] != Key(b)[i];
        assert CharAt(a, i) != CharAt(b, i);
      }
    }
  }

  /** nlink is a short. */
  function Short(n: int): int {
    if n > SHORT_MAX then n - 0x1_0000 else n
  }

  // ------------------------------------------------------------------
  // References.

  predicate IsDir(s: NS, d: nat) {
    d < |s.nodes| && s.nodes[d].kind == Directory
  }

  /** Slot k of directory d names inode i, and is not the directory's own ".".  Inode 0 means empty. */
  predicate Names(s: NS, d: nat, k: nat, i: nat) {
    i != 0 && d < |s.nodes| && 0 < k < |s.nodes[d].slots| && s.nodes[d].slots[k].inum == i
  }

  function Width(s: NS, d: nat): nat {
    if d < |s.nodes| then |s.nodes[d].slots| else 0
  }

  /** The entries of live directories that name inode i, not counting ".". */
  ghost function Refs(s: NS, i: nat): set<(nat, nat)> {
    set d, k | d in s.live && 0 <= k < Width(s, d) && Names(s, d, k, i) :: (d, k)
  }

  lemma InRefs(s: NS, i: nat, d: nat, k: nat)
    ensures (d, k) in Refs(s, i) <==> d in s.live && Names(s, d, k, i)
  {
    if d in s.live && Names(s, d, k, i) {
      assert 0 <= k < Width(s, d);
    }
  }

  /** The link count is the number of references; an unused inode has none. */
  ghost predicate Counted(s: NS, i: nat)
    requires i < |s.nodes|
  {
    if s.nodes[i].kind == Unused then Refs(s, i) == {} else s.nodes[i].nlink == |Refs(s, i)|
  }

  // ------------------------------------------------------------------
  // The shape of directories and of the tree.

  predicate UniqueNames(slots: seq<Entry>) {
    forall j, k :: 0 <= j < k < |slots| && slots[j].inum != 0 && slots[k].inum != 0 ==> slots[j].name != slots[k].name
  }

  /** Slots 0 and 1 are "." and "..", and no name occurs twice. */
  predicate DirOk(s: NS, d: nat)
    requires d < |s.nodes|
  {
    var slots := s.nodes[d].slots;
    && 2 <= |slots| <= MAXSLOTS
    && slots[0] == Entry(d, ".") && slots[1].name == ".." && 0 < slots[1].inum < |s.nodes|
    && UniqueNames(slots)
    && (forall k :: 0 <= k < |slots| ==> |slots[k].name| <= DIRSIZ)
  }

  predicate Emptied(slots: seq<Entry>) {
    forall k :: 2 <= k < |slots| ==> slots[k].inum == 0
  }

  function Parent(s: NS, d: nat): nat
    requires d < |s.nodes| && |s.nodes[d].slots| >= 2
  {
    s.nodes[d].slots[1].inum
  }

  /** A live directory hangs below its "..", in exactly one slot, one level deeper. */
  ghost predicate Hangs(s: NS, d: nat)
    requires d < |s.nodes| && |s.nodes[d].slots| >= 2
  {
    var p := Parent(s, d);
    if d == ROOTINO then p == ROOTINO
    else
      && p in s.live && d < |s.depth| && p < |s.depth| && s.depth[d] == s.depth[p] + 1
      && exists k :: k >= 2 && Names(s, p, k, d)
  }

  /** A used slot of a live directory names a used inode; a directory is named by its parent only, once. */
  ghost predicate SlotOk(s: NS, d: nat, k: nat)
    requires d < |s.nodes| && 2 <= k < |s.nodes[d].slots|
  {
    var t := s.nodes[d].slots[k].inum;
    t != 0 ==>
      && t < |s.nodes| && s.nodes[t].kind != Unused
      && (s.nodes[t].kind == Directory ==>
            && t in s.live && t != ROOTINO && |s.nodes[t].slots| >= 2 && Parent(s, t) == d
            && OnlyAt(s, d, t, k))
  }

  ghost predicate OnlyAt(s: NS, d: nat, t: nat, k: nat) {
    forall j: nat :: j >= 2 && Names(s, d, j, t) ==> j == k
  }

  ghost predicate NodeOk(s: NS, d: nat)
    requires d < |s.nodes|
  {
    && Counted(s, d) && s.nodes[d].nlink <= SHORT_MAX
    && (s.nodes[d].kind == Directory ==>
          && DirOk(s, d)
          && (d !in s.live ==> Emptied(s.nodes[d].slots) && s.nodes[d].nlink == 0)
          && (d in s.live ==> Hangs(s, d) && forall k: nat :: 2 <= k < |s.nodes[d].slots| ==> SlotOk(s, d, k)))
  }

  ghost predicate Inv(s: NS) {
    && |s.depth| == |s.nodes| && |s.nodes| > ROOTINO && ROOTINO in s.live && s.nodes[0].kind == Unused
    && (forall d :: d in s.live ==> IsDir(s, d))
    && forall d: nat :: d < |s.nodes| ==> NodeOk(s, d)
  }

  /** The directory reached by following ".." n times. */
  function Ancestor(s: NS, d: nat, n: nat): nat
    decreases n
  {
    if n == 0 || d >= |s.nodes| || |s.nodes[d].slots| < 2 then d else Ancestor(s, Parent(s, d), n - 1)
  }

  /** Live directories form a tree: from each of them ".." leads to the root in finitely many steps. */
  lemma {:induction false} EveryDirectoryReachesRoot(s: NS, d: nat) returns (n: nat)
    requires Inv(s) && d in s.live && d < |s.depth|
    ensures Ancestor(s, d, n) == ROOTINO && n <= s.depth[d]
    decreases s.depth[d]
  {
    assert NodeOk(s, d);
    if d == ROOTINO {
      n := 0;
    } else {
      n := EveryDirectoryReachesRoot(s, Parent(s, d));
      n := n + 1;
    }
  }

  // ------------------------------------------------------------------
  // Directory lookup and slots.

  /** Slot k of directory d carries this name. */
  predicate Matches(slots: seq<Entry>, k: nat, name: string) {
    k < |slots| && slots[k].inum != 0 && slots[k].name == Key(name)
  }

  predicate HasName(slots: seq<Entry>, name: string) {
    exists k :: 0 <= k < |slots| && Matches(slots, k, name)
  }

  /** The slot dirlink writes to: the first empty one, or a new one at the end. */
  predicate IsFirstEmpty(slots: seq<Entry>, k: nat) {
    && k <= |slots| && (k < |slots| ==> slots[k].inum == 0)
    && forall j :: 0 <= j < k ==> slots[j].inum != 0
  }

  function PutSlot(slots: seq<Entry>, k: nat, e: Entry): seq<Entry>
    requires k <= |slots|
  {
    if k < |slots| then slots[k := e] else slots + [e]
  }

  function SetNode(s: NS, i: nat, n: Node): NS
    requires i < |s.nodes|
  {
    s.(nodes := s.nodes[i := n])
  }

  /** Slot k of d, empty or just past the end in s, is e in s'; other live directories are the same. */
  ghost predicate SlotPut(s: NS, s': NS, d: nat, k: nat, e: Entry) {
    && d < |s.nodes| == |s'.nodes| && 0 < k <= |s.nodes[d].slots| && (k < |s.nodes[d].slots| ==> s.nodes[d].slots[k].inum == 0)
    && s'.nodes[d].slots == PutSlot(s.nodes[d].slots, k, e)
    && forall c :: c in s.live && c < |s.nodes| && c != d ==> s'.nodes[c].slots == s.nodes[c].slots
  }

  lemma {:induction false} PutRefs(s: NS, s': NS, d: nat, k: nat, e: Entry, j: nat)
    requires SlotPut(s, s', d, k, e) && s'.live == s.live
    ensures (d, k) !in Refs(s, j)
    ensures Refs(s', j) == if j == e.inum && j != 0 && d in s.live then Refs(s, j) + {(d, k)} else Refs(s, j)
  {
    forall c: nat, n: nat
      ensures d in s.live && (c, n) == (d, k) && j == e.inum && j != 0 ==> (c, n) in Refs(s', j)
      ensures (c, n) != (d, k) ==> ((c, n) in Refs(s', j) <==> (c, n) in Refs(s, j))
      ensures (c, n) == (d, k) && (j != e.inum || j == 0 || d !in s.live) ==> (c, n) !in Refs(s', j)
    {
      InRefs(s, j, c, n);
      InRefs(s', j, c, n);
    }
    InRefs(s, j, d, k);
  }

  // ------------------------------------------------------------------
  // link

  ghost function Linked(s: NS, i: nat, d: nat, k: nat, name: string): NS
    requires i < |s.nodes| && d < |s.nodes| && i != d && k <= |s.nodes[d].slots|
  {
    var s1 := SetNode(s, i, s.nodes[i].(nlink := Short(s.nodes[i].nlink + 1)));
    SetNode(s1, d, s.nodes[d].(slots := PutSlot(s.nodes[d].slots, k, Entry(i, Key(name)))))
  }

  /** The facts under which dirlink(d, name, i) writes slot k. */
  ghost predicate CanPut(s: NS, d: nat, k: nat, name: string) {
    && Inv(s) && IsDir(s, d) && !HasName(s.nodes[d].slots, name)
    && IsFirstEmpty(s.nodes[d].slots, k) && k < MAXSLOTS
  }

  lemma PutKeepsDirOk(s: NS, d: nat, k: nat, name: string, i: nat)
    requires CanPut(s, d, k, name) && i != 0
    ensures k >= 2
    ensures DirOk(SetNode(s, d, s.nodes[d].(slots := PutSlot(s.nodes[d].slots, k, Entry(i, Key(name))))), d)
  {
    assert NodeOk(s, d);
    var slots := s.nodes[d].slots;
    var slots' := PutSlot(slots, k, Entry(i, Key(name)));
    forall a, b | 0 <= a < b < |slots'| && slots'[a].inum != 0 && slots'[b].inum != 0 ensures slots'[a].name != slots'[b].name {
      if b == k {
        assert !Matches(slots, a, name);
      } else if a == k {
        assert !Matches(slots, b, name);
      }
    }
  }

  /** Putting an entry into an empty slot leaves the place of a directory in the tree. */
  lemma {:induction false} PutKeepsHangs(s: NS, s': NS, d: nat, k: nat, e: Entry, j: nat)
    requires SlotPut(s, s', d, k, e) && k >= 2 && s.live <= s'.live && |s.depth| <= |s'.depth|
    requires j < |s.nodes| && |s.nodes[j].slots| >= 2 && |s'.nodes[j].slots| >= 2 && Hangs(s, j)
    requires forall c :: c in s.live && c < |s.depth| ==> s'.depth[c] == s.depth[c]
    requires j in s.live
    ensures Hangs(s', j)
  {
    var p := Parent(s, j);
    if j != ROOTINO {
      var n :| n >= 2 && Names(s, p, n, j);
      assert Names(s', p, n, j);
    }
  }

  /** It also leaves every other used slot in order, if the new entry does not name a directory twice. */
  lemma {:induction false} PutKeepsSlot(s: NS, s': NS, d: nat, k: nat, e: Entry, j: nat, n: nat)
    requires SlotPut(s, s', d, k, e) && k >= 2 && s.live <= s'.live
    requires j < |s.nodes| && j in s.live && 2 <= n < |s.nodes[j].slots| && SlotOk(s, j, n) && (j, n) != (d, k)
    requires var t := s.nodes[j].slots[n].inum;
             t != 0 ==> s'.nodes[t].kind == s.nodes[t].kind && (e.inum == t ==> s.nodes[t].kind != Directory)
    ensures n < |s'.nodes[j].slots| && SlotOk(s', j, n)
  {
    var t := s.nodes[j].slots[n].inum;
    if t != 0 && s.nodes[t].kind == Directory {
      forall m: nat | m >= 2 && Names(s', j, m, t) ensures Names(s, j, m, t) {
      }
    }
  }

  /** An entry was put in, and used inodes and live directories are otherwise what they were. */
  ghost predicate Entered(s: NS, s': NS, d: nat, k: nat, e: Entry) {
    && SlotPut(s, s', d, k, e) && k >= 2 && s.live <= s'.live && |s.depth| == |s'.depth| == |s.nodes|
    && (forall c :: c in s.live && c < |s.depth| ==> s'.depth[c] == s.depth[c])
    && forall t: nat :: t < |s.nodes| && s.nodes[t].kind != Unused ==> s'.nodes[t].kind == s.nodes[t].kind
  }

  /** Then live directories keep their place and their slots, if the new one is in order. */
  lemma {:induction false} EnteredKeepsDir(s: NS, s': NS, d: nat, k: nat, e: Entry, j: nat)
    requires Inv(s) && Entered(s, s', d, k, e) && j in s.live && j < |s.nodes| && |s'.nodes[j].slots| >= 2
    requires e.inum < |s.nodes| && s.nodes[e.inum].kind != Directory
    requires k < |s'.nodes[d].slots| && SlotOk(s', d, k)
    ensures Hangs(s', j) && forall n: nat :: 2 <= n < |s'.nodes[j].slots| ==> SlotOk(s', j, n)
  {
    assert NodeOk(s, j);
    PutKeepsHangs(s, s', d, k, e, j);
    forall n: nat | 2 <= n < |s'.nodes[j].slots| ensures SlotOk(s', j, n) {
      if (j, n) != (d, k) {
        assert SlotOk(s, j, n);
        PutKeepsSlot(s, s', d, k, e, j, n);
      }
    }
  }

  lemma {:induction false} LinkKeepsCount(s: NS, i: nat, d: nat, k: nat, name: string, j: nat)
    requires CanPut(s, d, k, name) && 0 < i < |s.nodes| && s.nodes[i].kind in {File, Device}
    requires d in s.live && s.nodes[i].nlink < SHORT_MAX && j < |s.nodes|
    ensures Counted(Linked(s, i, d, k, name), j)
  {
    PutKeepsDirOk(s, d, k, name, i);
    assert NodeOk(s, j) && NodeOk(s, i);
    PutRefs(s, Linked(s, i, d, k, name), d, k, Entry(i, Key(name)), j);
  }

  lemma {:induction false} LinkEnters(s: NS, i: nat, d: nat, k: nat, name: string)
    requires CanPut(s, d, k, name) && 0 < i < |s.nodes| && s.nodes[i].kind in {File, Device}
    ensures var s' := Linked(s, i, d, k, name);
            Entered(s, s', d, k, Entry(i, Key(name))) && DirOk(s', d) && k < |s'.nodes[d].slots| && SlotOk(s', d, k)
  {
    PutKeepsDirOk(s, d, k, name, i);
  }

  lemma {:induction false} LinkKeepsNode(s: NS, i: nat, d: nat, k: nat, name: string, j: nat)
    requires CanPut(s, d, k, name) && 0 < i < |s.nodes| && s.nodes[i].kind in {File, Device}
    requires d in s.live && s.nodes[i].nlink < SHORT_MAX && j < |s.nodes|
    ensures NodeOk(Linked(s, i, d, k, name), j)
  {
    var s' := Linked(s, i, d, k, name);
    LinkEnters(s, i, d, k, name);
    LinkKeepsCount(s, i, d, k, name, j);
    assert NodeOk(s, j);
    if s.nodes[j].kind == Directory && j in s.live {
      EnteredKeepsDir(s, s', d, k, Entry(i, Key(name)), j);
    }
  }

  /** A directory is in the tree exactly as long as it has a link. */
  lemma {:induction false} LiveIsLinked(s: NS, d: nat)
    requires Inv(s) && IsDir(s, d)
    ensures d in s.live <==> s.nodes[d].nlink > 0
  {
    assert NodeOk(s, d) && d != 0;
    if d in s.live && Refs(s, d) == {} {
      LiveIsReferenced(s, d);
    }
  }

  /**
   link keeps every link count right exactly when the directory it adds the entry to is
   still linked and the count of the inode does not overflow its 16 bits.
   */
  lemma {:induction false} LinkIsExact(s: NS, i: nat, d: nat, k: nat, name: string)
    requires CanPut(s, d, k, name) && 0 < i < |s.nodes| && s.nodes[i].kind in {File, Device}
    ensures Inv(Linked(s, i, d, k, name)) <==> s.nodes[d].nlink > 0 && s.nodes[i].nlink < SHORT_MAX
  {
    var s' := Linked(s, i, d, k, name);
    LiveIsLinked(s, d);
    assert NodeOk(s, i) && NodeOk(s, d);
    if d in s.live && s.nodes[i].nlink < SHORT_MAX {
      forall j: nat | j < |s.nodes| ensures NodeOk(s', j) {
        LinkKeepsNode(s, i, d, k, name, j);
      }
    } else {
      PutKeepsDirOk(s, d, k, name, i);
      PutRefs(s, s', d, k, Entry(i, Key(name)), i);
      assert s'.nodes[i].nlink != |Refs(s', i)|;
      assert !NodeOk(s', i);
    }
  }

  // ------------------------------------------------------------------
  // create

  function NewNode(kind: Kind, i: nat, d: nat): Node {
    Node(kind, 1, if kind == Directory then [Entry(i, "."), Entry(d, "..")] else [])
  }

  /** Everything create does except that a new directory is not yet counted as live. */
  ghost function Added(s: NS, i: nat, kind: Kind, d: nat, k: nat, name: string): NS
    requires i < |s.nodes| && d < |s.nodes| && i != d && k <= |s.nodes[d].slots|
  {
    var nlink := if kind == Directory then Short(s.nodes[d].nlink + 1) else s.nodes[d].nlink;
    var n := Node(s.nodes[d].kind, nlink, PutSlot(s.nodes[d].slots, k, Entry(i, Key(name))));
    SetNode(SetNode(s, i, NewNode(kind, i, d)), d, n)
  }

  ghost function Created(s: NS, i: nat, kind: Kind, d: nat, k: nat, name: string): NS
    requires i < |s.nodes| == |s.depth| && d < |s.nodes| && i != d && k <= |s.nodes[d].slots|
  {
    var s1 := Added(s, i, kind, d, k, name);
    if kind == Directory && d in s.live then s1.(live := s.live + {i}, depth := s.depth[i := s.depth[d] + 1]) else s1
  }

  /** A new live directory adds the reference of its "..". */
  lemma {:induction false} LiveRefs(s: NS, s': NS, i: nat, d: nat, j: nat)
    requires i < |s.nodes| && s'.nodes == s.nodes && i !in s.live && s'.live == s.live + {i}
    requires s.nodes[i].slots == [Entry(i, "."), Entry(d, "..")]
    ensures (i, 1) !in Refs(s, j)
    ensures Refs(s', j) == if j == d && j != 0 then Refs(s, j) + {(i, 1)} else Refs(s, j)
  {
    forall c: nat, n: nat
      ensures (c, n) != (i, 1) ==> ((c, n) in Refs(s', j) <==> (c, n) in Refs(s, j))
      ensures (c, n) == (i, 1) ==> ((c, n) in Refs(s', j) <==> j == d && j != 0)
    {
      InRefs(s, j, c, n);
      InRefs(s', j, c, n);
    }
    InRefs(s, j, i, 1);
  }

  /** Inode i is free, and slot k of d the first free one. */
  ghost predicate CanCreate(s: NS, i: nat, kind: Kind, d: nat, k: nat, name: string) {
    CanPut(s, d, k, name) && 0 < i < |s.nodes| && s.nodes[i].kind == Unused && kind != Unused
  }

  lemma NotLive(s: NS, i: nat)
    requires Inv(s) && i < |s.nodes| && s.nodes[i].kind != Directory
    ensures i !in s.live
  {
  }

  /** How many references to inode j create adds: the entry, and the ".." of a new directory. */
  function Gains(i: nat, kind: Kind, d: nat, j: nat): nat {
    (if j == i then 1 else 0) + (if kind == Directory && j == d then 1 else 0)
  }

  lemma {:induction false} CreateRefCount(s: NS, i: nat, kind: Kind, d: nat, k: nat, name: string, j: nat)
    requires CanCreate(s, i, kind, d, k, name) && d in s.live
    ensures |Refs(Created(s, i, kind, d, k, name), j)| == |Refs(s, j)| + Gains(i, kind, d, j)
  {
    var s1, s' := Added(s, i, kind, d, k, name), Created(s, i, kind, d, k, name);
    NotLive(s, i);
    PutKeepsDirOk(s, d, k, name, i);
    PutRefs(s, s1, d, k, Entry(i, Key(name)), j);
    if kind == Directory {
      LiveRefs(s1, s', i, d, j);
    }
  }

  lemma {:induction false} CreateCounts(s: NS, i: nat, kind: Kind, d: nat, k: nat, name: string, j: nat)
    requires CanCreate(s, i, kind, d, k, name) && j < |s.nodes|
    requires d in s.live && (kind == Directory ==> s.nodes[d].nlink < SHORT_MAX)
    ensures Counted(Created(s, i, kind, d, k, name), j)
  {
    var s' := Created(s, i, kind, d, k, name);
    CreateRefCount(s, i, kind, d, k, name, j);
    assert Counted(s, j) by { assert NodeOk(s, j); }
    assert j != i ==> s'.nodes[j].kind == s.nodes[j].kind && s'.nodes[j].nlink == s.nodes[j].nlink + Gains(i, kind, d, j);
  }

  /** The new inode has one entry in its parent. */
  lemma {:induction false} NamedOnce(s: NS, i: nat, kind: Kind, d: nat, k: nat, name: string)
    requires CanCreate(s, i, kind, d, k, name) && d in s.live
    ensures forall m: nat :: m >= 2 && Names(Created(s, i, kind, d, k, name), d, m, i) ==> m == k
  {
    var s' := Created(s, i, kind, d, k, name);
    PutKeepsDirOk(s, d, k, name, i);
    assert NodeOk(s, i);
    forall m: nat | m >= 2 && Names(s', d, m, i) ensures m == k {
      InRefs(s, i, d, m);
      assert m != k ==> Names(s, d, m, i);
    }
  }

  lemma {:induction false} CreateKeepsNode(s: NS, i: nat, kind: Kind, d: nat, k: nat, name: string, j: nat)
    requires CanCreate(s, i, kind, d, k, name) && j < |s.nodes|
    requires d in s.live && (kind == Directory ==> s.nodes[d].nlink < SHORT_MAX)
    ensures NodeOk(Created(s, i, kind, d, k, name), j)
  {
    if j == i {
      CreatedNodeOk(s, i, kind, d, k, name);
    } else {
      CreateKeepsOther(s, i, kind, d, k, name, j);
    }
  }

  lemma {:induction false} CreatedNodeOk(s: NS, i: nat, kind: Kind, d: nat, k: nat, name: string)
    requires CanCreate(s, i, kind, d, k, name)
    requires d in s.live && (kind == Directory ==> s.nodes[d].nlink < SHORT_MAX)
    ensures NodeOk(Created(s, i, kind, d, k, name), i)
  {
    var s' := Created(s, i, kind, d, k, name);
    NotLive(s, i);
    PutKeepsDirOk(s, d, k, name, i);
    CreateCounts(s, i, kind, d, k, name, i);
    assert Names(s', d, k, i);
  }

  lemma {:induction false} CreateEnters(s: NS, i: nat, kind: Kind, d: nat, k: nat, name: string)
    requires CanCreate(s, i, kind, d, k, name) && d in s.live
    ensures var s' := Created(s, i, kind, d, k, name);
            Entered(s, s', d, k, Entry(i, Key(name))) && DirOk(s', d) && k < |s'.nodes[d].slots| && SlotOk(s', d, k)
  {
    NotLive(s, i);
    PutKeepsDirOk(s, d, k, name, i);
    NamedOnce(s, i, kind, d, k, name);
  }

  lemma {:induction false} CreateKeepsOther(s: NS, i: nat, kind: Kind, d: nat, k: nat, name: string, j: nat)
    requires CanCreate(s, i, kind, d, k, name) && j < |s.nodes| && j != i
    requires d in s.live && (kind == Directory ==> s.nodes[d].nlink < SHORT_MAX)
    ensures NodeOk(Created(s, i, kind, d, k, name), j)
  {
    var s' := Created(s, i, kind, d, k, name);
    CreateEnters(s, i, kind, d, k, name);
    CreateCounts(s, i, kind, d, k, name, j);
    assert NodeOk(s, j);
    if s.nodes[j].kind == Directory && j in s.live {
      EnteredKeepsDir(s, s', d, k, Entry(i, Key(name)), j);
    }
  }

  /**
   create keeps the tree and every link count right exactly when the parent directory is
   still linked and, for a new directory, its count does not overflow.
   */
  lemma {:induction false} CreateIsExact(s: NS, i: nat, kind: Kind, d: nat, k: nat, name: string)
    requires CanCreate(s, i, kind, d, k, name)
    ensures Inv(Created(s, i, kind, d, k, name)) <==>
            s.nodes[d].nlink > 0 && (kind == Directory ==> s.nodes[d].nlink < SHORT_MAX)
  {
    var s', e := Created(s, i, kind, d, k, name), Entry(i, Key(name));
    LiveIsLinked(s, d);
    NotLive(s, i);
    PutKeepsDirOk(s, d, k, name, i);
    assert NodeOk(s, i) && NodeOk(s, d);
    if d in s.live && (kind == Directory ==> s.nodes[d].nlink < SHORT_MAX) {
      forall j: nat | j < |s.nodes| ensures NodeOk(s', j) {
        CreateKeepsNode(s, i, kind, d, k, name, j);
      }
    } else if d !in s.live {
      PutRefs(s, s', d, k, e, i);
      assert !NodeOk(s', i);
    } else {
      assert s'.nodes[d].nlink < 0;
      assert !NodeOk(s', d);
    }
  }

  // ------------------------------------------------------------------
  // A directory as a map from names to inodes.

  /** Looking up this name in directory d gives inode i. */
  predicate Resolves(s: NS, d: nat, name: string, i: nat) {
    d < |s.nodes| && Lists(s.nodes[d].slots, name, i)
  }

  predicate Lists(slots: seq<Entry>, name: string, i: nat) {
    exists k :: 0 <= k < |slots| && Matches(slots, k, name) && slots[k].inum == i
  }

  lemma {:induction false} PutResolves(slots: seq<Entry>, k: nat, e: Entry, name: string, other: string, j: nat)
    requires IsFirstEmpty(slots, k) && e.name == Key(name) && e.inum != 0 && !HasName(slots, name)
    ensures Lists(PutSlot(slots, k, e), other, j) <==> if Key(other) == Key(name) then j == e.inum else Lists(slots, other, j)
  {
    var slots' := PutSlot(slots, k, e);
    assert slots'[k] == e;
    forall n | 0 <= n < |slots'| && n != k ensures n < |slots| && slots'[n] == slots[n] {
    }
    if Key(other) == Key(name) {
      assert Matches(slots', k, other);
      forall n | 0 <= n < |slots'| && Matches(slots', n, other) ensures n == k {
        assert n != k ==> Matches(slots, n, name);
      }
    } else if n :| 0 <= n < |slots| && Matches(slots, n, other) && slots[n].inum == j {
      assert n != k && Matches(slots', n, other);
    }
  }

  /** link adds the one name and changes no other lookup anywhere. */
  lemma {:induction false} LinkResolves(s: NS, i: nat, d: nat, k: nat, name: string, e: nat, other: string, j: nat)
    requires CanPut(s, d, k, name) && 0 < i < |s.nodes| && i != d && e < |s.nodes|
    ensures Resolves(Linked(s, i, d, k, name), e, other, j) <==>
            if e == d && Key(other) == Key(name) then j == i else Resolves(s, e, other, j)
    ensures var n, n' := s.nodes[e], Linked(s, i, d, k, name).nodes[e];
            n'.kind == n.kind && n'.nlink == if e != i then n.nlink else if n.nlink == 32767 then -32768 else n.nlink + 1
  {
    assert NodeOk(s, e);
    if e == d {
      PutResolves(s.nodes[d].slots, k, Entry(i, Key(name)), name, other, j);
    }
  }

  /** create adds the one name and, in a new directory, exactly the dots. */
  lemma {:induction false} CreateResolves(s: NS, i: nat, kind: Kind, d: nat, k: nat, name: string, e: nat, other: string, j: nat)
    requires CanCreate(s, i, kind, d, k, name) && e < |s.nodes|
    ensures Resolves(Created(s, i, kind, d, k, name), e, other, j) <==>
            if e == d && Key(other) == Key(name) then j == i
            else if e == i then kind == Directory && ((Key(other) == "." && j == i) || (Key(other) == ".." && j == d))
            else Resolves(s, e, other, j)
    ensures var n, n' := s.nodes[e], Created(s, i, kind, d, k, name).nodes[e];
            && n'.kind == (if e == i then kind else n.kind)
            && n'.nlink == if e == i then 1
                           else if e == d && kind == Directory then (if n.nlink == 32767 then -32768 else n.nlink + 1)
                           else n.nlink
  {
    assert NodeOk(s, e);
    var s' := Created(s, i, kind, d, k, name);
    if e == d {
      PutResolves(s.nodes[d].slots, k, Entry(i, Key(name)), name, other, j);
    } else if e == i && kind == Directory {
      var slots := s'.nodes[i].slots;
      assert slots == [Entry(i, "."), Entry(d, "..")] && d != 0;
      assert Matches(slots, 0, other) <==> Key(other) == ".";
      assert Matches(slots, 1, other) <==> Key(other) == "..";
    }
  }

  /** unlink removes the one name and changes no other lookup anywhere. */
  lemma {:induction false} UnlinkResolves(s: NS, d: nat, k: nat, name: string, e: nat, other: string, j: nat)
    requires CanUnlink(s, d, k) && Matches(s.nodes[d].slots, k, name) && e < |s.nodes|
    ensures Resolves(Unlinked(s, d, k), e, other, j) <==>
            !(e == d && Key(other) == Key(name)) && Resolves(s, e, other, j)
    ensures var n, n', t := s.nodes[e], Unlinked(s, d, k).nodes[e], s.nodes[d].slots[k].inum;
            && n'.kind == n.kind
            && n'.nlink == if e == t || (e == d && s.nodes[t].kind == Directory) then n.nlink - 1 else n.nlink
  {
    var s' := Unlinked(s, d, k);
    UnlinkTarget(s, d, k);
    if e == d {
      assert NodeOk(s, d);
      ClearResolves(s.nodes[d].slots, k, name, other, j);
      assert s'.nodes[d].slots == s.nodes[d].slots[k := Entry(0, "")];
    } else {
      assert s'.nodes[e].slots == s.nodes[e].slots;
    }
  }

  lemma {:induction false} ClearResolves(slots: seq<Entry>, k: nat, name: string, other: string, j: nat)
    requires UniqueNames(slots) && k < |slots| && Matches(slots, k, name)
    ensures Lists(slots[k := Entry(0, "")], other, j) <==> Key(other) != Key(name) && Lists(slots, other, j)
  {
    var slots' := slots[k := Entry(0, "")];
    if n :| 0 <= n < |slots| && Matches(slots', n, other) && slots'[n].inum == j {
      assert n != k && Matches(slots, n, other);
    }
    if n :| 0 <= n < |slots| && Matches(slots, n, other) && slots[n].inum == j && Key(other) != Key(name) {
      assert n != k && Matches(slots', n, other) && slots'[n].inum == j;
    }
  }

  // ------------------------------------------------------------------
  // unlink

  ghost function Unlinked(s: NS, d: nat, k: nat): NS
    requires d < |s.nodes| && k < |s.nodes[d].slots| && s.nodes[d].slots[k].inum < |s.nodes|
  {
    var t := s.nodes[d].slots[k].inum;
    var isDir := s.nodes[t].kind == Directory;
    var n := s.nodes[d].(slots := s.nodes[d].slots[k := Entry(0, "")], nlink := s.nodes[d].nlink - if isDir then 1 else 0);
    var s1 := SetNode(s, d, n);
    SetNode(s1, t, s1.nodes[t].(nlink := s1.nodes[t].nlink - 1)).(live := if isDir then s.live - {t} else s.live)
  }

  /** The entry names something, and not a directory with entries of its own. */
  predicate Removable(s: NS, d: nat, k: nat) {
    && d < |s.nodes| && k < |s.nodes[d].slots| && 0 < s.nodes[d].slots[k].inum < |s.nodes|
    && var t := s.nodes[s.nodes[d].slots[k].inum]; t.kind == Directory ==> Emptied(t.slots)
  }

  /** What sys_unlink has checked when it clears slot k of directory d. */
  ghost predicate CanUnlink(s: NS, d: nat, k: nat) {
    && Inv(s) && IsDir(s, d) && 2 <= k < |s.nodes[d].slots| && s.nodes[d].slots[k].inum != 0
    && var t := s.nodes[d].slots[k].inum;
    t < |s.nodes| && (s.nodes[t].kind == Directory ==> Emptied(s.nodes[t].slots))
  }

  lemma {:induction false} UnlinkTarget(s: NS, d: nat, k: nat)
    requires CanUnlink(s, d, k)
    ensures var t := s.nodes[d].slots[k].inum;
            && d in s.live && s.nodes[t].kind != Unused && t != d && s.nodes[t].nlink >= 1 && (d, k) in Refs(s, t)
            && (s.nodes[t].kind == Directory ==> t in s.live && t != ROOTINO && |s.nodes[t].slots| >= 2 && Parent(s, t) == d && (t, 1) in Refs(s, d))
  {
    var t := s.nodes[d].slots[k].inum;
    assert NodeOk(s, d) && NodeOk(s, t);
    assert d in s.live;
    assert SlotOk(s, d, k);
    InRefs(s, t, d, k);
    InRefs(s, d, t, 1);
  }

  lemma {:induction false} UnlinkRefs(s: NS, d: nat, k: nat, j: nat)
    requires CanUnlink(s, d, k)
    ensures var t := s.nodes[d].slots[k].inum;
            Refs(Unlinked(s, d, k), j) == Refs(s, j) - {(d, k)} - (if s.nodes[t].kind == Directory then {(t, 1)} else {})
  {
    var t, s' := s.nodes[d].slots[k].inum, Unlinked(s, d, k);
    UnlinkTarget(s, d, k);
    forall c: nat, n: nat ensures (c, n) in Refs(s', j) <==> (c, n) in Refs(s, j) && (c, n) != (d, k) && !(s.nodes[t].kind == Directory && (c, n) == (t, 1)) {
      InRefs(s, j, c, n);
      InRefs(s', j, c, n);
      if c == t && s.nodes[t].kind == Directory && n >= 2 {
        assert Emptied(s.nodes[t].slots);
      }
    }
  }

  /** How many references to inode j go away with the entry. */
  ghost function Lost(s: NS, d: nat, k: nat, j: nat): nat
    requires d < |s.nodes| && k < |s.nodes[d].slots| && s.nodes[d].slots[k].inum < |s.nodes|
  {
    var t := s.nodes[d].slots[k].inum;
    (if j == t then 1 else 0) + (if j == d && s.nodes[t].kind == Directory then 1 else 0)
  }

  lemma {:induction false} UnlinkRefCount(s: NS, d: nat, k: nat, j: nat)
    requires CanUnlink(s, d, k)
    ensures |Refs(Unlinked(s, d, k), j)| == |Refs(s, j)| - Lost(s, d, k, j)
  {
    var t := s.nodes[d].slots[k].inum;
    UnlinkTarget(s, d, k);
    UnlinkRefs(s, d, k, j);
    InRefs(s, j, d, k);
    InRefs(s, j, t, 1);
    TwoFewer(Refs(s, j), (d, k), (t, 1));
  }

  lemma {:induction false} UnlinkCounts(s: NS, d: nat, k: nat, j: nat)
    requires CanUnlink(s, d, k) && j < |s.nodes|
    ensures Counted(Unlinked(s, d, k), j)
  {
    var s' := Unlinked(s, d, k);
    UnlinkTarget(s, d, k);
    UnlinkRefCount(s, d, k, j);
    assert NodeOk(s, j);
    assert s'.nodes[j].kind == s.nodes[j].kind && s'.nodes[j].nlink == s.nodes[j].nlink - Lost(s, d, k, j);
  }

  lemma {:induction false} TwoFewer<T>(r: set<T>, x: T, y: T)
    requires x != y
    ensures |r - {x}| == |r| - if x in r then 1 else 0
    ensures |r - {x} - {y}| == |r| - (if x in r then 1 else 0) - (if y in r then 1 else 0)
  {
    assert x !in r ==> r - {x} == r;
    var r1 := r - {x};
    assert y !in r1 ==> r1 - {y} == r1;
  }

  /** A live directory other than the one removed keeps its place: its parent was not empty. */
  lemma {:induction false} UnlinkKeepsHangs(s: NS, d: nat, k: nat, j: nat)
    requires CanUnlink(s, d, k) && j in Unlinked(s, d, k).live && j < |s.nodes|
    ensures j in s.live && |Unlinked(s, d, k).nodes[j].slots| >= 2 && Hangs(Unlinked(s, d, k), j)
  {
    var t, s' := s.nodes[d].slots[k].inum, Unlinked(s, d, k);
    UnlinkTarget(s, d, k);
    assert NodeOk(s, j) && NodeOk(s, t);
    if j != ROOTINO {
      var p := Parent(s, j);
      var n :| n >= 2 && Names(s, p, n, j);
      assert p != t;
      assert Names(s', p, n, j);
    }
  }

  lemma {:induction false} UnlinkKeepsSlot(s: NS, d: nat, k: nat, j: nat, n: nat)
    requires CanUnlink(s, d, k) && j in Unlinked(s, d, k).live && j < |s.nodes| && 2 <= n < |s.nodes[j].slots|
    ensures SlotOk(Unlinked(s, d, k), j, n)
  {
    var t, s' := s.nodes[d].slots[k].inum, Unlinked(s, d, k);
    UnlinkTarget(s, d, k);
    assert NodeOk(s, j) && NodeOk(s, d);
    assert SlotOk(s, j, n) && SlotOk(s, d, k);
    var u := s.nodes[j].slots[n].inum;
    if (j, n) != (d, k) && u != 0 && s.nodes[u].kind == Directory {
      assert Names(s, j, n, u);
      assert u != t;
      forall m: nat | m >= 2 && Names(s', j, m, u) ensures Names(s, j, m, u) {
      }
    }
  }

  /** unlink keeps the tree and every link count right. */
  lemma {:induction false} UnlinkKeepsInv(s: NS, d: nat, k: nat)
    requires CanUnlink(s, d, k)
    ensures Inv(Unlinked(s, d, k))
  {
    var t, s' := s.nodes[d].slots[k].inum, Unlinked(s, d, k);
    UnlinkTarget(s, d, k);
    forall j: nat | j < |s.nodes| ensures NodeOk(s', j) {
      UnlinkKeepsNode(s, d, k, j);
    }
  }

  lemma {:induction false} UnlinkKeepsDir(s: NS, d: nat, k: nat, j: nat)
    requires CanUnlink(s, d, k) && j < |s.nodes| && s.nodes[j].kind == Directory
    ensures DirOk(Unlinked(s, d, k), j)
  {
    UnlinkTarget(s, d, k);
    assert NodeOk(s, j);
  }

  lemma {:induction false} UnlinkKeepsNode(s: NS, d: nat, k: nat, j: nat)
    requires CanUnlink(s, d, k) && j < |s.nodes|
    ensures NodeOk(Unlinked(s, d, k), j)
  {
    var t, s' := s.nodes[d].slots[k].inum, Unlinked(s, d, k);
    UnlinkTarget(s, d, k);
    assert NodeOk(s, j);
    UnlinkCounts(s, d, k, j);
    if s.nodes[j].kind == Directory {
      UnlinkKeepsDir(s, d, k, j);
    }
    if j in s'.live {
      UnlinkKeepsHangs(s, d, k, j);
      forall n: nat | 2 <= n < |s'.nodes[j].slots| ensures SlotOk(s', j, n) {
        UnlinkKeepsSlot(s, d, k, j, n);
      }
    } else if j == t && s.nodes[t].kind == Directory {
      UnlinkedDirHasNoLinks(s, d, k);
    }
  }

  lemma {:induction false} UnlinkedDirHasNoLinks(s: NS, d: nat, k: nat)
    requires CanUnlink(s, d, k) && s.nodes[s.nodes[d].slots[k].inum].kind == Directory
    ensures s.nodes[s.nodes[d].slots[k].inum].nlink == 1
  {
    var t := s.nodes[d].slots[k].inum;
    UnlinkTarget(s, d, k);
    assert NodeOk(s, t) && NodeOk(s, d);
    assert SlotOk(s, d, k);
    forall c: nat, n: nat | (c, n) in Refs(s, t) ensures (c, n) == (d, k) {
      InRefs(s, t, c, n);
      assert NodeOk(s, c);
      if n >= 2 {
        assert SlotOk(s, c, n);
      }
    }
    assert Refs(s, t) == {(d, k)};
  }

  /** An inode whose count is zero, once nobody uses it any more, is freed by iput. */
  ghost function Reclaimed(s: NS, i: nat): NS
    requires i < |s.nodes|
  {
    SetNode(s, i, Node(Unused, s.nodes[i].nlink, []))
  }

  lemma {:induction false} ReclaimKeepsInv(s: NS, i: nat)
    requires Inv(s) && 0 < i < |s.nodes| && s.nodes[i].kind != Unused && s.nodes[i].nlink == 0
    ensures i !in s.live && Inv(Reclaimed(s, i))
  {
    var s' := Reclaimed(s, i);
    assert NodeOk(s, i);
    assert Refs(s, i) == {};
    LiveIsReferenced(s, i);
    forall j: nat | j < |s.nodes| ensures NodeOk(s', j) {
      assert NodeOk(s, j);
      forall c: nat, n: nat ensures (c, n) in Refs(s', j) <==> (c, n) in Refs(s, j) {
        InRefs(s, j, c, n);
        InRefs(s', j, c, n);
      }
      assert Refs(s', j) == Refs(s, j);
      if j != i && s.nodes[j].kind == Directory && j in s.live {
        ReclaimKeepsDir(s, i, j);
      }
    }
  }

  lemma {:induction false} LiveIsReferenced(s: NS, i: nat)
    requires Inv(s) && 0 < i < |s.nodes| && Refs(s, i) == {}
    ensures i !in s.live
  {
    if i in s.live {
      assert NodeOk(s, i);
      if i == ROOTINO {
        InRefs(s, i, i, 1);
      } else {
        var p := Parent(s, i);
        var k :| k >= 2 && Names(s, p, k, i);
        InRefs(s, i, p, k);
      }
    }
  }

  lemma {:induction false} ReclaimKeepsDir(s: NS, i: nat, j: nat)
    requires Inv(s) && 0 < i < |s.nodes| && i !in s.live && Refs(s, i) == {}
    requires j < |s.nodes| && j in s.live && s.nodes[j].kind == Directory
    ensures var s' := Reclaimed(s, i);
            j != i && |s'.nodes[j].slots| >= 2 && Hangs(s', j) && forall n: nat :: 2 <= n < |s'.nodes[j].slots| ==> SlotOk(s', j, n)
  {
    var s' := Reclaimed(s, i);
    assert NodeOk(s, j);
    if j != ROOTINO {
      var p := Parent(s, j);
      var k :| k >= 2 && Names(s, p, k, j);
      assert Names(s', p, k, j);
    }
    forall n: nat | 2 <= n < |s'.nodes[j].slots| ensures SlotOk(s', j, n) {
      assert SlotOk(s, j, n);
      var t := s.nodes[j].slots[n].inum;
      InRefs(s, i, j, n);
      assert t != i;
      if t != 0 && s.nodes[t].kind == Directory {
        forall m: nat | m >= 2 && Names(s', j, m, t) ensures Names(s, j, m, t) {
        }
      }
    }
  }

  // ------------------------------------------------------------------
  // The first tree, and how a removed directory spoils the counts.

  /** The tree mkfs makes: a root that is its own parent, with one link. */
  ghost function FirstTree(n: nat): NS {
    NS(seq(n, i => if i == ROOTINO then Node(Directory, 1, [Entry(ROOTINO, "."), Entry(ROOTINO, "..")]) else Node(Unused, 0, [])),
       {ROOTINO}, seq(n, _ => 0))
  }

  lemma {:induction false} FirstTreeIsGood(n: nat)
    requires n > ROOTINO
    ensures Inv(FirstTree(n))
  {
    var s := FirstTree(n);
    forall i: nat | i < n ensures NodeOk(s, i) {
      forall c: nat, m: nat ensures (c, m) in Refs(s, i) <==> i == ROOTINO && (c, m) == (ROOTINO, 1) {
        InRefs(s, i, c, m);
      }
      assert Refs(s, i) == if i == ROOTINO then {(ROOTINO, 1)} else {};
    }
  }

  /** The first tree with a directory "a" made and removed again, while somebody still has it open. */
  ghost function WithOrphan(n: nat): NS
    requires n > 3
  {
    Unlinked(Created(FirstTree(n), 2, Directory, ROOTINO, 2, "a"), ROOTINO, 2)
  }

  lemma {:induction false} OrphanIsReached(n: nat)
    requires n > 3
    ensures CanCreate(FirstTree(n), 2, Directory, ROOTINO, 2, "a")
    ensures CanUnlink(Created(FirstTree(n), 2, Directory, ROOTINO, 2, "a"), ROOTINO, 2)
    ensures Inv(WithOrphan(n)) && IsDir(WithOrphan(n), 2) && WithOrphan(n).nodes[2].nlink == 0
  {
    var s := FirstTree(n);
    FirstTreeIsGood(n);
    CreateIsExact(s, 2, Directory, ROOTINO, 2, "a");
    UnlinkKeepsInv(Created(s, 2, Directory, ROOTINO, 2, "a"), ROOTINO, 2);
  }

  /** create in the removed directory succeeds, and its file has a count but no reference. */
  lemma {:induction false} OrphanSpoilsCounts(n: nat)
    requires n > 3
    ensures CanCreate(WithOrphan(n), 3, File, 2, 2, "b")
    ensures var s := Created(WithOrphan(n), 3, File, 2, 2, "b");
            !Inv(s) && s.nodes[3].nlink == 1 && Refs(s, 3) == {}
  {
    var s0 := WithOrphan(n);
    OrphanIsReached(n);
    CreateIsExact(s0, 3, File, 2, 2, "b");
    assert NodeOk(s0, 3);
    PutRefs(s0, Created(s0, 3, File, 2, 2, "b"), 2, 2, Entry(3, Key("b")), 3);
  }

  // ------------------------------------------------------------------
  // The system calls.  Paths have been resolved to inode numbers.

  class Namespace {
    var nodes: seq<Node>
    ghost var live: set<nat>
    ghost var depth: seq<nat>

    ghost function View(): NS
      reads this
    {
      NS(nodes, live, depth)
    }

    /** The tree mkfs makes: a root that is its own parent, with one link. */
    constructor (n: nat)
      requires n > ROOTINO
      ensures View() == FirstTree(n) && Inv(View())
    {
      var root := Node(Directory, 1, [Entry(ROOTINO, "."), Entry(ROOTINO, "..")]);
      nodes := seq(n, i => if i == ROOTINO then root else Node(Unused, 0, []));
      live := {ROOTINO};
      depth := seq(n, _ => 0);
      new;
      FirstTreeIsGood(n);
    }

    /** dirlookup: the slot with this name, if there is one. */
    method DirLookup(d: nat, name: string) returns (k: Option<nat>)
      requires d < |nodes|
      ensures k.Some? ==> Matches(nodes[d].slots, k.value, name)
      ensures k.None? <==> !HasName(nodes[d].slots, name)
    {
      var slots := nodes[d].slots;
      for off := 0 to |slots|
        invariant forall j :: 0 <= j < off ==> !Matches(slots, j, name)
      {
        if slots[off].inum != 0 && Key(name) == slots[off].name {
          assert Matches(slots, off, name);
          return Some(off);
        }
      }
      return None;
    }

    /** The slot dirlink will use. */
    method FindEmpty(d: nat) returns (k: nat)
      requires d < |nodes|
      ensures IsFirstEmpty(nodes[d].slots, k)
    {
      k := 0;
      while k < |nodes[d].slots| && nodes[d].slots[k].inum != 0
        invariant k <= |nodes[d].slots|
        invariant forall j :: 0 <= j < k ==> nodes[d].slots[j].inum != 0
      {
        k := k + 1;
      }
    }

    /** dirlink; a full directory makes it panic. */
    method DirLink(d: nat, name: string, i: nat) returns (st: Status, k: nat)
      requires d < |nodes|
      modifies this`nodes
      ensures IsFirstEmpty(old(nodes)[d].slots, k)
      ensures st.Error? <==> HasName(old(nodes)[d].slots, name)
      ensures st.Panic? <==> !HasName(old(nodes)[d].slots, name) && k >= MAXSLOTS
      ensures nodes == if st.Done? then old(nodes)[d := old(nodes)[d].(slots := PutSlot(old(nodes)[d].slots, k, Entry(i, Key(name))))]
                       else old(nodes)
    {
      var found := DirLookup(d, name);
      k := FindEmpty(d);
      if found.Some? {
        return Error, k;
      }
      if k >= MAXSLOTS {
        return Panic, k;
      }
      nodes := nodes[d := nodes[d].(slots := PutSlot(nodes[d].slots, k, Entry(i, Key(name))))];
      return Done, k;
    }

    method IsDirEmpty(d: nat) returns (empty: bool)
      requires d < |nodes|
      ensures empty <==> Emptied(nodes[d].slots)
    {
      var off := 2;
      while off < |nodes[d].slots|
        invariant 2 <= off
        invariant forall k :: 2 <= k < off && k < |nodes[d].slots| ==> nodes[d].slots[k].inum == 0
      {
        if nodes[d].slots[off].inum != 0 {
          return false;
        }
        off := off + 1;
      }
      return true;
    }

    /**
     sys_link: i is the inode of the old path and d the parent directory of the new one,
     if that path leads to one.  A call that fails leaves everything as it was.
     */
    method SysLink(i: nat, d: Option<nat>, name: string) returns (st: Status, ghost k: nat)
      requires Inv(View()) && 0 < i < |nodes| && nodes[i].kind != Unused
      requires d.Some? ==> IsDir(View(), d.value)
      modifies this
      ensures st.Error? <==> old(nodes)[i].kind == Directory || d.None? || HasName(old(nodes)[d.value].slots, name)
      ensures st.Error? ==> View() == old(View())
      ensures st.Panic? ==> IsFirstEmpty(old(nodes)[d.value].slots, k) && k >= MAXSLOTS
      ensures st.Done? ==> (Inv(View()) <==> old(nodes)[d.value].nlink > 0 && old(nodes)[i].nlink < SHORT_MAX)
      ensures st.Done? ==> i != d.value && IsFirstEmpty(old(nodes)[d.value].slots, k) && View() == Linked(old(View()), i, d.value, k, name)
      ensures st.Done? ==> |nodes| == |old(nodes)| && HasName(nodes[d.value].slots, name)
    {
      k := 0;
      if nodes[i].kind == Directory {
        return Error, k;
      }
      nodes := nodes[i := nodes[i].(nlink := Short(nodes[i].nlink + 1))];
      if d.Some? {
        var at;
        st, at := DirLink(d.value, name, i);
        k := at;
        if st.Panic? {
          return;
        }
        if st.Done? {
          LinkIsExact(old(View()), i, d.value, k, name);
          assert View() == Linked(old(View()), i, d.value, k, name);
          assert Matches(nodes[d.value].slots, k, name);
          return;
        }
      }
      ShortBack(old(nodes)[i].nlink, old(View()), i);
      nodes := nodes[i := nodes[i].(nlink := Unshort(nodes[i].nlink - 1))];
      return Error, k;
    }

    /** ialloc's scan for a free inode. */
    method FindUnused() returns (i: Option<nat>)
      ensures i.Some? ==> 0 < i.value < |nodes| && nodes[i.value].kind == Unused
      ensures i.None? ==> forall j :: 0 < j < |nodes| ==> nodes[j].kind != Unused
    {
      var inum := 1;
      while inum < |nodes|
        invariant 1 <= inum
        invariant forall j :: 0 < j < inum && j < |nodes| ==> nodes[j].kind != Unused
      {
        if nodes[inum].kind == Unused {
          return Some(inum);
        }
        inum := inum + 1;
      }
      return None;
    }

    /** The "." and ".." entries of a new directory. */
    method MakeDots(i: nat, d: nat)
      requires 0 < i < |nodes| && nodes[i].slots == []
      modifies this`nodes
      ensures nodes == old(nodes)[i := old(nodes)[i].(slots := [Entry(i, "."), Entry(d, "..")])]
    {
      var st, k := DirLink(i, ".", i);
      assert nodes[i].slots == [Entry(i, ".")];
      st, k := DirLink(i, "..", d);
      assert k == 1 && nodes[i].slots == [Entry(i, "."), Entry(d, "..")];
    }

    /**
     create in directory d.  `made` says that a new inode was made; otherwise an existing
     file of that name is returned.  k is the slot of the entry.
     */
    method Create(d: nat, name: string, kind: Kind) returns (st: Status, i: nat, made: bool, ghost k: nat)
      requires Inv(View()) && IsDir(View(), d) && kind != Unused
      modifies this
      ensures st.Error? || (st.Done? && !made) ==> View() == old(View())
      ensures st.Error? || (st.Done? && !made) ==>
                Matches(nodes[d].slots, k, name) && nodes[d].slots[k].inum == i && i < |nodes| && (st.Done? <==> kind == File && nodes[i].kind == File)
      ensures st.Done? && made ==>
                (Inv(View()) <==> old(nodes)[d].nlink > 0 && (kind == Directory ==> old(nodes)[d].nlink < SHORT_MAX))
      ensures st.Panic? ==> || (forall j :: 0 < j < |old(nodes)| ==> old(nodes)[j].kind != Unused)
                            || (IsFirstEmpty(old(nodes)[d].slots, k) && k >= MAXSLOTS)
      ensures st.Done? && made ==> !HasName(old(nodes)[d].slots, name)
      ensures st.Done? && made ==> CanCreate(old(View()), i, kind, d, k, name) && View() == Created(old(View()), i, kind, d, k, name)
      ensures st.Done? && made ==> |nodes| == |old(nodes)| && HasName(nodes[d].slots, name) && nodes[i].kind == kind
    {
      i, made, k := 0, false, 0;
      var found := DirLookup(d, name);
      if found.Some? {
        i := nodes[d].slots[found.value].inum;
        SlotInRange(View(), d, found.value);
        if kind == File && nodes[i].kind == File {
          return Done, i, false, found.value;
        }
        return Error, i, false, found.value;
      }
      var free := FindUnused();
      if free.None? {
        return Panic, 0, false, 0;
      }
      i, made := free.value, true;
      st, k := MakeInode(d, name, kind, i);
    }

    /** The inode and, for a directory, its entries and the link from its "..". */
    method FillInode(d: nat, kind: Kind, i: nat)
      requires 0 < i < |nodes| && d < |nodes| && i != d
      modifies this`nodes
      ensures |nodes| == |old(nodes)|
      ensures nodes == old(nodes)[i := NewNode(kind, i, d)][d := old(nodes)[d].(nlink := nodes[d].nlink)]
      ensures nodes[d].nlink == if kind == Directory then Short(old(nodes)[d].nlink + 1) else old(nodes)[d].nlink
    {
      nodes := nodes[i := Node(kind, 1, [])];
      if kind == Directory {
        nodes := nodes[d := nodes[d].(nlink := Short(nodes[d].nlink + 1))];
        MakeDots(i, d);
      }
    }

    /** The inode, the entries of a new directory, and the entry in the parent. */
    method MakeInode(d: nat, name: string, kind: Kind, i: nat) returns (st: Status, ghost k: nat)
      requires Inv(View()) && IsDir(View(), d) && kind != Unused && !HasName(nodes[d].slots, name)
      requires 0 < i < |nodes| && nodes[i].kind == Unused
      modifies this
      ensures !st.Error? && |nodes| == |old(nodes)|
      ensures st.Panic? ==> IsFirstEmpty(old(nodes)[d].slots, k) && k >= MAXSLOTS
      ensures st.Done? ==> (Inv(View()) <==> old(nodes)[d].nlink > 0 && (kind == Directory ==> old(nodes)[d].nlink < SHORT_MAX))
      ensures st.Done? ==> CanCreate(old(View()), i, kind, d, k, name) && View() == Created(old(View()), i, kind, d, k, name)
      ensures st.Done? ==> HasName(nodes[d].slots, name) && nodes[i].kind == kind
    {
      FillInode(d, kind, i);
      var at;
      st, at := DirLink(d, name, i);
      k := at;
      if st.Done? {
        ghost var s, s' := old(View()), Created(old(View()), i, kind, d, k, name);
        CreateIsExact(s, i, kind, d, k, name);
        live, depth := s'.live, s'.depth;
        assert View() == s';
        assert Matches(nodes[d].slots, k, name);
      }
    }

    /** sys_unlink of a name in directory d. */
    method SysUnlink(d: nat, name: string) returns (st: Status, ghost slot: nat)
      requires Inv(View()) && IsDir(View(), d)
      modifies this
      ensures st.Error? ==> View() == old(View())
      ensures st.Error? <==> || Key(name) in {".", ".."} || !HasName(old(nodes)[d].slots, name)
                             || (Matches(old(nodes)[d].slots, slot, name) && !Removable(old(View()), d, slot))
      ensures st.Done? ==> Matches(old(nodes)[d].slots, slot, name) && Removable(old(View()), d, slot)
      ensures st.Done? ==> View() == Unlinked(old(View()), d, slot)
      ensures st.Done? ==> Inv(View()) && |nodes| == |old(nodes)| && !HasName(nodes[d].slots, name)
      ensures !st.Panic?
    {
      slot := 0;
      if Key(name) == "." || Key(name) == ".." {
        return Error, slot;
      }
      var found := DirLookup(d, name);
      if found.None? {
        return Error, slot;
      }
      var k := found.value;
      slot := k;
      NamedSlot(View(), d, k, name);
      var t := nodes[d].slots[k].inum;
      if nodes[t].kind == Directory {
        var empty := IsDirEmpty(t);
        if !empty {
          return Error, slot;
        }
      }
      RemoveEntry(d, k, name);
      return Done, slot;
    }

    /** The entry is cleared and the link counts lowered. */
    method RemoveEntry(d: nat, k: nat, ghost name: string)
      requires CanUnlink(View(), d, k) && Matches(nodes[d].slots, k, name)
      modifies this
      ensures View() == Unlinked(old(View()), d, k)
      ensures Inv(View()) && |nodes| == |old(nodes)| && !HasName(nodes[d].slots, name)
    {
      var t := nodes[d].slots[k].inum;
      ghost var s, s' := View(), Unlinked(View(), d, k);
      UnlinkTarget(s, d, k);
      UnlinkKeepsInv(s, d, k);
      nodes := nodes[d := nodes[d].(slots := nodes[d].slots[k := Entry(0, "")])];
      if nodes[t].kind == Directory {
        nodes := nodes[d := nodes[d].(nlink := nodes[d].nlink - 1)];
      }
      nodes := nodes[t := nodes[t].(nlink := nodes[t].nlink - 1)];
      live := s'.live;
      assert View() == s';
      GoneAfterUnlink(s, d, k, name);
    }
  }

  /** Decrement of a short */
  function Unshort(n: int): int {
    if n < -SHORT_MAX - 1 then n + 0x1_0000 else n
  }

  lemma ShortBack(n: int, s: NS, i: nat)
    requires Inv(s) && i < |s.nodes| && s.nodes[i].kind != Unused && n == s.nodes[i].nlink
    ensures Unshort(Short(n + 1) - 1) == n
  {
    assert NodeOk(s, i);
  }

  /** A name other than the two dots is found in a later slot, of a live directory. */
  lemma NamedSlot(s: NS, d: nat, k: nat, name: string)
    requires Inv(s) && IsDir(s, d) && Matches(s.nodes[d].slots, k, name) && Key(name) != "." && Key(name) != ".."
    ensures k >= 2 && d in s.live && s.nodes[d].slots[k].inum < |s.nodes|
  {
    assert NodeOk(s, d);
    assert d in s.live;
    assert SlotOk(s, d, k);
  }

  lemma SlotInRange(s: NS, d: nat, k: nat)
    requires Inv(s) && IsDir(s, d) && k < |s.nodes[d].slots| && s.nodes[d].slots[k].inum != 0
    ensures s.nodes[d].slots[k].inum < |s.nodes|
  {
    assert NodeOk(s, d);
    if k >= 2 {
      assert d in s.live;
      assert SlotOk(s, d, k);
    }
  }

  lemma GoneAfterUnlink(s: NS, d: nat, k: nat, name: string)
    requires CanUnlink(s, d, k) && Matches(s.nodes[d].slots, k, name)
    ensures d < |Unlinked(s, d, k).nodes| && !HasName(Unlinked(s, d, k).nodes[d].slots, name)
  {
    UnlinkTarget(s, d, k);
    assert NodeOk(s, d);
    var slots, slots' := s.nodes[d].slots, Unlinked(s, d, k).nodes[d].slots;
    forall j | 0 <= j < |slots'| ensures !Matches(slots', j, name) {
      assert j != k ==> slots'[j] == slots[j];
    }
  }
}
