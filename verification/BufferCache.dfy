/**
 The buffer cache: a doubly linked list of all buffers in order of last release, the most
 recent first, anchored at a head that is no buffer; and the contents of the buffers
 against those of the disk.

 `contents` is what was last put into each block by the process that held its buffer.
 bread always gives these, however often the block was evicted and read again.

 Methods are the sections of bget and brelse that run under the cache's lock; waiting
 for a buffer's own sleep-lock happens outside of them.  Buffers are numbered
 0..NBUF-1 and the head is number NBUF.
 */
module BufferCache {
  import opened Common
  import opened Blocks

  const NBUF: nat := 30
  const HEAD: nat := NBUF

  type Proc = nat

  /** A buffer or the head. */
  type Index = i: nat | i <= NBUF witness 0

  // ------------------------------------------------------------------
  // Doubly linked rings.

  function Pred(ring: seq<Index>, i: nat): nat
    requires i < |ring|
  {
    if i == 0 then |ring| - 1 else i - 1
  }

  type Links = l: seq<Index> | |l| == NBUF + 1 witness seq(NBUF + 1, _ => 0)

  /** Element i points forward and backward to its neighbours. */
  ghost predicate LinkAt(ring: seq<Index>, next: Links, prev: Links, i: nat)
    requires i < |ring|
  {
    next[ring[i]] == ring[Succ(ring, i)] && prev[ring[i]] == ring[Pred(ring, i)]
  }

  ghost predicate Linked(ring: seq<Index>, next: Links, prev: Links) {
    && |ring| > 0 && Distinct(ring)
    && forall i :: 0 <= i < |ring| ==> LinkAt(ring, next, prev, i)
  }

  /** `b->next->prev = b->prev; b->prev->next = b->next` */
  lemma {:induction false} UnlinkKeepsLinked(ring: seq<Index>, next: Links, prev: Links, k: nat)
    requires Linked(ring, next, prev) && 0 < k < |ring|
    ensures var b := ring[k];
            Linked(Without(ring, k), next[prev[b] := next[b]], prev[next[b] := prev[b]])
  {
    var b, ring' := ring[k], Without(ring, k);
    assert LinkAt(ring, next, prev, k);
    WithoutIsRest(ring, k);
    var next', prev' := next[prev[b] := next[b]], prev[next[b] := prev[b]];
    forall i | 0 <= i < |ring'| ensures ring'[i] == ring[if i < k then i else i + 1] {
    }
    forall i | 0 <= i < |ring'| ensures LinkAt(ring', next', prev', i) {
      assert LinkAt(ring, next, prev, if i < k then i else i + 1);
    }
  }

  ghost function PushedFront(ring: seq<Index>, b: Index): seq<Index>
    requires |ring| > 0
  {
    [ring[0], b] + ring[1..]
  }

  /** `b->next = head.next; b->prev = &head; head.next->prev = b; head.next = b` */
  lemma {:induction false} PushKeepsLinked(ring: seq<Index>, next: Links, prev: Links, b: Index)
    requires Linked(ring, next, prev) && b !in ring
    ensures var h := ring[0];
            Linked(PushedFront(ring, b), next[b := next[h]][h := b], prev[b := h][next[h] := b])
  {
    var h, ring' := ring[0], PushedFront(ring, b);
    assert LinkAt(ring, next, prev, 0);
    var next', prev' := next[b := next[h]][h := b], prev[b := h][next[h] := b];
    forall i | 0 <= i < |ring| ensures ring[i] != b {
      assert ring[i] in ring;
    }
    forall i | 0 <= i < |ring'| ensures LinkAt(ring', next', prev', i) {
      if i != 1 {
        assert LinkAt(ring, next, prev, if i == 0 then 0 else i - 1);
      }
    }
  }

  // ------------------------------------------------------------------
  // The cache as a value.

  /** Blocks by device and number; one that is not listed holds zeros. */
  type Store = map<(nat, nat), Block>

  function Stored(m: Store, dev: nat, blockno: nat): Block {
    if (dev, blockno) in m then m[(dev, blockno)] else ZeroBlock()
  }

  datatype State = State(
    next: Links,
    prev: Links,
    dev: seq<nat>,
    blockno: seq<nat>,
    valid: seq<bool>,
    dirty: seq<bool>,
    refcnt: seq<nat>,
    order: seq<Index>,            // the list, most recently released first
    released: seq<int>,           // when each buffer was last released by its last user
    clock: int,
    users: seq<multiset<Proc>>,   // who holds or waits for each buffer
    data: seq<Block>,
    disk: Store,
    contents: Store)              // what was last put into each block

  ghost predicate Sized(s: State) {
    && |s.dev| == |s.blockno| == |s.valid| == |s.dirty| == |s.refcnt| == |s.released| == |s.users| == |s.data| == NBUF
  }

  /** The list holds every buffer exactly once. */
  ghost predicate AllBuffers(order: seq<Index>) {
    && |order| == NBUF && Distinct(order) && HEAD !in order
    && forall b: nat :: b < NBUF ==> b in order
  }

  lemma {:induction false} DescendingIsAll(order: seq<Index>)
    requires |order| == NBUF && forall i :: 0 <= i < NBUF ==> order[i] == NBUF - 1 - i
    ensures AllBuffers(order)
  {
    forall b: nat | b < NBUF ensures b in order {
      assert order[NBUF - 1 - b] == b;
    }
  }

  ghost predicate ByRelease(s: State)
    requires Sized(s) && HEAD !in s.order
  {
    && (forall i: nat | i < |s.order| :: s.order[i] < NBUF)
    && (forall i, j :: 0 <= i < j < |s.order| ==> s.released[s.order[i]] > s.released[s.order[j]])
    && forall b: nat :: b < NBUF ==> s.released[b] < s.clock
  }

  /** No two buffers hold the same block of a device; device 0 marks a buffer never used. */
  ghost predicate NoDuplicates(s: State)
    requires Sized(s)
  {
    forall i: nat, j: nat :: i < NBUF && j < NBUF && i != j && s.dev[i] == s.dev[j] && s.blockno[i] == s.blockno[j] ==>
      s.dev[i] == 0
  }

  ghost predicate Counted(s: State)
    requires Sized(s)
  {
    forall b: nat :: b < NBUF ==> s.refcnt[b] == |s.users[b]|
  }

  /** A valid buffer holds the contents of its block; a dirty one is valid. */
  ghost predicate CurrentAt(s: State, b: nat)
    requires Sized(s) && b < NBUF
  {
    && (s.dirty[b] ==> s.valid[b])
    && (s.valid[b] && s.dev[b] != 0 ==> s.data[b] == Stored(s.contents, s.dev[b], s.blockno[b]))
  }

  /** The contents of a block are on disk, or in a buffer that will not be recycled. */
  ghost predicate KeptAt(s: State, dev: nat, blockno: nat)
    requires Sized(s)
  {
    dev != 0 && Stored(s.disk, dev, blockno) != Stored(s.contents, dev, blockno) ==>
      exists b: nat :: b < NBUF && Holds(s, b, dev, blockno) && s.valid[b] && !Recyclable(s, b)
  }

  ghost predicate Current(s: State)
    requires Sized(s)
  {
    && (forall b: nat :: b < NBUF ==> CurrentAt(s, b))
    && forall dev: nat, blockno: nat :: KeptAt(s, dev, blockno)
  }

  ghost predicate Good(s: State) {
    && Sized(s) && AllBuffers(s.order)
    && Linked([HEAD] + s.order, s.next, s.prev)
    && ByRelease(s) && NoDuplicates(s) && Counted(s) && Current(s)
  }

  predicate Holds(s: State, b: nat, dev: nat, blockno: nat)
    requires b < |s.dev| == |s.blockno|
  {
    s.dev[b] == dev && s.blockno[b] == blockno
  }

  predicate Recyclable(s: State, b: nat)
    requires b < |s.refcnt| == |s.dirty|
  {
    s.refcnt[b] == 0 && !s.dirty[b]
  }

  /** Of the buffers that may be reused, the one released longest ago. */
  ghost predicate LeastRecentlyUsed(s: State, b: nat)
    requires Sized(s)
  {
    && b < NBUF && Recyclable(s, b)
    && forall c: nat :: c < NBUF && Recyclable(s, c) ==> s.released[b] <= s.released[c]
  }

  /** Only buffer b differs, and neither the list nor any block has changed. */
  ghost predicate OnlyBuffer(s: State, s': State, b: nat)
    requires Sized(s) && Sized(s')
  {
    && s'.next == s.next && s'.prev == s.prev && s'.order == s.order && s'.released == s.released && s'.clock == s.clock
    && s'.disk == s.disk && s'.contents == s.contents
    && forall c: nat :: c < NBUF && c != b ==> SameBuffer(s, s', c)
  }

  ghost predicate SameBuffer(s: State, s': State, c: nat)
    requires Sized(s) && Sized(s') && c < NBUF
  {
    && s'.dev[c] == s.dev[c] && s'.blockno[c] == s.blockno[c] && s'.valid[c] == s.valid[c] && s'.dirty[c] == s.dirty[c]
    && s'.refcnt[c] == s.refcnt[c] && s'.users[c] == s.users[c] && s'.data[c] == s.data[c]
  }

  /** The holder has written or logged what it changed, as it must before brelse. */
  ghost predicate Settled(s: State, b: nat)
    requires Sized(s) && b < NBUF
  {
    s.valid[b] && !s.dirty[b] && s.dev[b] != 0 ==> Stored(s.disk, s.dev[b], s.blockno[b]) == s.data[b]
  }

  ghost function Hit(s: State, b: nat, p: Proc): State
    requires Sized(s) && b < NBUF
  {
    s.(refcnt := s.refcnt[b := s.refcnt[b] + 1], users := s.users[b := s.users[b] + multiset{p}])
  }

  ghost function Recycled(s: State, b: nat, dev: nat, blockno: nat, p: Proc): State
    requires Sized(s) && b < NBUF
  {
    s.(dev := s.dev[b := dev], blockno := s.blockno[b := blockno],
       valid := s.valid[b := false], dirty := s.dirty[b := false],
       refcnt := s.refcnt[b := 1], users := s.users[b := multiset{p}])
  }

  /** brelse of a buffer: it moves to the front only when its last user is gone. */
  ghost predicate ReleasedTo(s: State, b: nat, p: Proc, s': State)
    requires Sized(s) && b < NBUF && s.refcnt[b] > 0 && Sized(s')
  {
    && s'.dev == s.dev && s'.blockno == s.blockno && s'.valid == s.valid && s'.dirty == s.dirty
    && s'.data == s.data && s'.disk == s.disk && s'.contents == s.contents
    && s'.refcnt == s.refcnt[b := s.refcnt[b] - 1] && s'.users == s.users[b := s.users[b] - multiset{p}]
    && if s'.refcnt[b] > 0 then s'.order == s.order && s'.released == s.released
       else && (exists k :: 0 <= k < |s.order| && s.order[k] == b && s'.order == [b] + Without(s.order, k))
            && s'.released == s.released[b := s.clock]
  }

  lemma {:induction false} HitKeepsGood(s: State, b: nat, p: Proc)
    requires Good(s) && b < NBUF
    ensures Good(Hit(s, b, p))
  {
    var s' := Hit(s, b, p);
    SameCurrent(s, s', b);
  }

  /** Where only counts change, contents stay in place if b does not become free to recycle with something unwritten. */
  lemma {:induction false} SameCurrent(s: State, s': State, b: nat)
    requires Sized(s) && Sized(s') && Current(s) && b < NBUF
    requires s'.dev == s.dev && s'.blockno == s.blockno && s'.valid == s.valid && s'.dirty == s.dirty
    requires s'.data == s.data && s'.disk == s.disk && s'.contents == s.contents
    requires forall c: nat :: c < NBUF && c != b ==> s'.refcnt[c] == s.refcnt[c]
    requires s'.refcnt[b] > 0 || Settled(s, b)
    ensures Current(s')
  {
    forall c: nat | c < NBUF ensures CurrentAt(s', c) {
      assert CurrentAt(s, c);
    }
    forall dev: nat, blockno: nat ensures KeptAt(s', dev, blockno) {
      assert KeptAt(s, dev, blockno) && CurrentAt(s, b);
      if dev != 0 && Stored(s.disk, dev, blockno) != Stored(s.contents, dev, blockno) {
        var c: nat :| c < NBUF && Holds(s, c, dev, blockno) && s.valid[c] && !Recyclable(s, c);
        assert Holds(s', c, dev, blockno) && s'.valid[c] && !Recyclable(s', c);
      }
    }
  }

  lemma {:induction false} RecycleKeepsGood(s: State, b: nat, dev: nat, blockno: nat, p: Proc)
    requires Good(s) && b < NBUF && Recyclable(s, b)
    requires forall c: nat :: c < NBUF ==> !Holds(s, c, dev, blockno)
    ensures Good(Recycled(s, b, dev, blockno, p))
  {
    var s' := Recycled(s, b, dev, blockno, p);
    RecycleKeepsCurrent(s, b, dev, blockno, p);
    forall i: nat, j: nat | i < NBUF && j < NBUF && i != j && s'.dev[i] == s'.dev[j] && s'.blockno[i] == s'.blockno[j]
      ensures s'.dev[i] == 0
    {
      assert !Holds(s, i, dev, blockno) && !Holds(s, j, dev, blockno);
    }
  }

  lemma {:induction false} RecycleKeepsCurrent(s: State, b: nat, dev: nat, blockno: nat, p: Proc)
    requires Sized(s) && Current(s) && b < NBUF && Recyclable(s, b)
    ensures Current(Recycled(s, b, dev, blockno, p))
  {
    var s' := Recycled(s, b, dev, blockno, p);
    forall c: nat | c < NBUF ensures CurrentAt(s', c) {
      assert CurrentAt(s, c);
    }
    forall e: nat, n: nat ensures KeptAt(s', e, n) {
      assert KeptAt(s, e, n);
      if e != 0 && Stored(s.disk, e, n) != Stored(s.contents, e, n) {
        var c: nat :| c < NBUF && Holds(s, c, e, n) && s.valid[c] && !Recyclable(s, c);
        assert Holds(s', c, e, n) && s'.valid[c] && !Recyclable(s', c);
      }
    }
  }

  /** A buffer is read from disk: its block is there, if no valid buffer holds it. */
  lemma {:induction false} FillKeepsGood(s: State, b: nat)
    requires Good(s) && b < NBUF && !s.valid[b]
    ensures s.dev[b] != 0 ==> Stored(s.disk, s.dev[b], s.blockno[b]) == Stored(s.contents, s.dev[b], s.blockno[b])
    ensures Good(s.(data := s.data[b := Stored(s.disk, s.dev[b], s.blockno[b])], valid := s.valid[b := true]))
  {
    var s' := s.(data := s.data[b := Stored(s.disk, s.dev[b], s.blockno[b])], valid := s.valid[b := true]);
    assert KeptAt(s, s.dev[b], s.blockno[b]);
    forall c: nat | c < NBUF ensures CurrentAt(s', c) {
      assert CurrentAt(s, c);
    }
    forall e: nat, n: nat ensures KeptAt(s', e, n) {
      assert KeptAt(s, e, n);
      if e != 0 && Stored(s.disk, e, n) != Stored(s.contents, e, n) {
        var c: nat :| c < NBUF && Holds(s, c, e, n) && s.valid[c] && !Recyclable(s, c);
        assert Holds(s', c, e, n) && s'.valid[c] && !Recyclable(s', c);
      }
    }
  }

  /** The holder puts x into its buffer. */
  ghost function Changed(s: State, b: nat, x: Block): State
    requires Sized(s) && b < NBUF
  {
    s.(data := s.data[b := x], contents := s.contents[(s.dev[b], s.blockno[b]) := x])
  }

  lemma {:induction false} ChangeKeepsGood(s: State, b: nat, x: Block)
    requires Good(s) && b < NBUF && s.valid[b] && s.refcnt[b] > 0
    ensures Good(Changed(s, b, x))
  {
    var s' := Changed(s, b, x);
    forall c: nat | c < NBUF ensures CurrentAt(s', c) {
      assert CurrentAt(s, c);
    }
    forall e: nat, n: nat ensures KeptAt(s', e, n) {
      assert KeptAt(s, e, n);
      if (e, n) == (s.dev[b], s.blockno[b]) {
        assert Holds(s', b, e, n) && s'.valid[b] && !Recyclable(s', b);
      } else if e != 0 && Stored(s.disk, e, n) != Stored(s.contents, e, n) {
        var c: nat :| c < NBUF && Holds(s, c, e, n) && s.valid[c] && !Recyclable(s, c);
        assert Holds(s', c, e, n) && s'.valid[c] && !Recyclable(s', c);
      }
    }
  }

  /** The buffer is written out. */
  ghost function Written(s: State, b: nat): State
    requires Sized(s) && b < NBUF
  {
    s.(disk := s.disk[(s.dev[b], s.blockno[b]) := s.data[b]], dirty := s.dirty[b := false])
  }

  lemma {:induction false} WriteKeepsGood(s: State, b: nat)
    requires Good(s) && b < NBUF && s.valid[b]
    ensures Good(Written(s, b)) && Settled(Written(s, b), b)
  {
    var s' := Written(s, b);
    forall c: nat | c < NBUF ensures CurrentAt(s', c) {
      assert CurrentAt(s, c);
    }
    forall e: nat, n: nat ensures KeptAt(s', e, n) {
      assert KeptAt(s, e, n) && CurrentAt(s, b);
      if (e, n) != (s.dev[b], s.blockno[b]) && e != 0 && Stored(s.disk, e, n) != Stored(s.contents, e, n) {
        var c: nat :| c < NBUF && Holds(s, c, e, n) && s.valid[c] && !Recyclable(s, c);
        assert Holds(s', c, e, n) && s'.valid[c] && !Recyclable(s', c);
      }
    }
  }

  lemma {:induction false} DirtyKeepsGood(s: State, b: nat)
    requires Good(s) && b < NBUF && s.valid[b]
    ensures Good(s.(dirty := s.dirty[b := true]))
  {
    var s' := s.(dirty := s.dirty[b := true]);
    forall c: nat | c < NBUF ensures CurrentAt(s', c) {
      assert CurrentAt(s, c);
    }
    forall e: nat, n: nat ensures KeptAt(s', e, n) {
      assert KeptAt(s, e, n);
      if e != 0 && Stored(s.disk, e, n) != Stored(s.contents, e, n) {
        var c: nat :| c < NBUF && Holds(s, c, e, n) && s.valid[c] && !Recyclable(s, c);
        assert Holds(s', c, e, n) && s'.valid[c] && !Recyclable(s', c);
      }
    }
  }

  /** The state after the six pointer updates of brelse. */
  ghost function MovedToFront(s: State, k: nat): State
    requires Sized(s) && k < |s.order| && s.order[k] < NBUF
  {
    var b := s.order[k];
    var n1, p1 := s.next[s.prev[b] := s.next[b]], s.prev[s.next[b] := s.prev[b]];
    s.(next := n1[b := n1[HEAD]][HEAD := b], prev := p1[b := HEAD][n1[HEAD] := b],
       order := [b] + Without(s.order, k), released := s.released[b := s.clock], clock := s.clock + 1)
  }

  lemma {:induction false} MoveKeepsLinked(s: State, k: nat)
    requires Good(s) && k < NBUF
    ensures var s' := MovedToFront(s, k); Linked([HEAD] + s'.order, s'.next, s'.prev)
  {
    var ring := [HEAD] + s.order;
    var b := s.order[k];
    UnlinkKeepsLinked(ring, s.next, s.prev, k + 1);
    WithoutIsRest(ring, k + 1);
    var n1, p1 := s.next[s.prev[b] := s.next[b]], s.prev[s.next[b] := s.prev[b]];
    PushKeepsLinked(Without(ring, k + 1), n1, p1, b);
    RingBehindHead(s.order, k);
  }

  lemma {:induction false} RingBehindHead(order: seq<Index>, k: nat)
    requires k < |order|
    ensures ([HEAD] + order)[k + 1] == order[k]
    ensures PushedFront(Without([HEAD] + order, k + 1), order[k]) == [HEAD] + ([order[k]] + Without(order, k))
  {
    assert Without([HEAD] + order, k + 1) == [HEAD] + Without(order, k);
  }

  lemma {:induction false} MoveKeepsGood(s: State, k: nat)
    requires Good(s) && k < NBUF
    ensures Good(MovedToFront(s, k))
  {
    MoveKeepsLinked(s, k);
    MoveKeepsOrder(s, k);
    SameBuffers(s, MovedToFront(s, k));
  }

  lemma {:induction false} SameBuffers(s: State, s': State)
    requires Sized(s) && Sized(s') && Current(s)
    requires s'.dev == s.dev && s'.blockno == s.blockno && s'.valid == s.valid && s'.dirty == s.dirty && s'.refcnt == s.refcnt
    requires s'.data == s.data && s'.disk == s.disk && s'.contents == s.contents
    ensures Current(s')
  {
    forall c: nat | c < NBUF ensures CurrentAt(s', c) {
      assert CurrentAt(s, c);
    }
    forall e: nat, n: nat ensures KeptAt(s', e, n) {
      assert KeptAt(s, e, n);
      if e != 0 && Stored(s.disk, e, n) != Stored(s.contents, e, n) {
        var c: nat :| c < NBUF && Holds(s, c, e, n) && s.valid[c] && !Recyclable(s, c);
        assert Holds(s', c, e, n) && s'.valid[c] && !Recyclable(s', c);
      }
    }
  }

  lemma {:induction false} MoveKeepsOrder(s: State, k: nat)
    requires Sized(s) && AllBuffers(s.order) && ByRelease(s) && k < NBUF
    ensures Sized(MovedToFront(s, k)) && AllBuffers(MovedToFront(s, k).order) && ByRelease(MovedToFront(s, k))
  {
    var s' := MovedToFront(s, k);
    WithoutIsRest(s.order, k);
    assert AllBuffers(s'.order);
    forall i, j | 0 <= i < j < |s'.order| ensures s'.released[s'.order[i]] > s'.released[s'.order[j]] {
      assert s'.order[j] == s.order[if j - 1 < k then j - 1 else j];
      if i > 0 {
        assert s'.order[i] == s.order[if i - 1 < k then i - 1 else i];
      }
    }
  }

  /** Element i of the order, or the head past either end. */
  ghost function At(order: seq<Index>, i: int): Index {
    if 0 <= i < |order| then order[i] else HEAD
  }

  lemma {:induction false} Neighbours(s: State, i: int)
    requires Good(s) && -1 <= i < NBUF
    ensures s.next[At(s.order, i)] == At(s.order, i + 1)
    ensures i >= 0 ==> s.prev[At(s.order, i)] == At(s.order, i - 1)
    ensures s.prev[HEAD] == At(s.order, NBUF - 1)
  {
    assert LinkAt([HEAD] + s.order, s.next, s.prev, i + 1);
    assert LinkAt([HEAD] + s.order, s.next, s.prev, 0);
  }

  /** Found from the back of the list means released longest ago. */
  lemma {:induction false} BackmostIsLeastRecent(s: State, j: nat)
    requires Good(s) && j < NBUF && Recyclable(s, s.order[j])
    requires forall i :: j < i < NBUF ==> s.order[i] < NBUF && !Recyclable(s, s.order[i])
    ensures LeastRecentlyUsed(s, s.order[j])
  {
    forall c: nat | c < NBUF && Recyclable(s, c) ensures s.released[s.order[j]] <= s.released[c] {
      assert c in s.order;
      var i :| 0 <= i < |s.order| && s.order[i] == c;
    }
  }

  ghost function Dropped(s: State, b: nat, p: Proc): State
    requires Sized(s) && b < NBUF && s.refcnt[b] > 0
  {
    s.(refcnt := s.refcnt[b := s.refcnt[b] - 1], users := s.users[b := s.users[b] - multiset{p}])
  }

  lemma {:induction false} DropKeepsGood(s: State, b: nat, p: Proc)
    requires Good(s) && b < NBUF && p in s.users[b] && Settled(s, b)
    ensures s.refcnt[b] > 0 && Good(Dropped(s, b, p))
  {
    assert s.refcnt[b] == |s.users[b]| && s.users[b] == s.users[b] - multiset{p} + multiset{p};
    SameCurrent(s, Dropped(s, b, p), b);
  }

  class Bcache {
    var next: Links
    var prev: Links
    var dev: seq<nat>
    var blockno: seq<nat>
    var valid: seq<bool>
    var dirty: seq<bool>
    var refcnt: seq<nat>
    ghost var order: seq<Index>
    ghost var released: seq<int>
    ghost var clock: int
    ghost var users: seq<multiset<Proc>>
    var data: seq<Block>
    var disk: Store
    ghost var contents: Store

    ghost function View(): State
      reads this
    {
      State(next, prev, dev, blockno, valid, dirty, refcnt, order, released, clock, users, data, disk, contents)
    }

    /** binit: each buffer is put in front of those before it. */
    constructor (disk: Store)
      ensures Good(View()) && this.disk == disk && contents == disk
      ensures forall b: nat :: b < NBUF ==> dev[b] == 0 && blockno[b] == 0 && !valid[b] && !dirty[b] && refcnt[b] == 0
    {
      var n: Links := seq(NBUF + 1, _ => HEAD);
      var p: Links := seq(NBUF + 1, _ => HEAD);
      ghost var o: seq<Index> := [];
      assert LinkAt([HEAD] + o, n, p, 0);
      for b: Index := 0 to NBUF
        invariant |o| == b && forall i :: 0 <= i < b ==> o[i] == b - 1 - i
        invariant Linked([HEAD] + o, n, p)
      {
        PushKeepsLinked([HEAD] + o, n, p, b);
        assert PushedFront([HEAD] + o, b) == [HEAD] + ([b] + o);
        n, p, o := n[b := n[HEAD]][HEAD := b], p[b := HEAD][n[HEAD] := b], [b] + o;
      }
      next, prev := n, p;
      dev, blockno := seq(NBUF, _ => 0), seq(NBUF, _ => 0);
      valid, dirty := seq(NBUF, _ => false), seq(NBUF, _ => false);
      refcnt := seq(NBUF, _ => 0);
      order := o;
      released := seq(NBUF, b => b);
      clock := NBUF;
      users := seq(NBUF, _ => multiset{});
      data := seq(NBUF, _ => ZeroBlock());
      this.disk, contents := disk, disk;
      DescendingIsAll(o);
    }

    /** The scan for a cached copy, from the most recently used on. */
    method FindCached(d: nat, n: nat) returns (b: Index)
      requires Good(View())
      ensures if b == HEAD then forall c: nat :: c < NBUF ==> !Holds(View(), c, d, n) else Holds(View(), b, d, n)
    {
      ghost var i := 0;
      Neighbours(View(), -1);
      b := next[HEAD];
      while b != HEAD
        invariant 0 <= i <= NBUF && b == At(order, i)
        invariant forall k :: 0 <= k < i ==> order[k] < NBUF && !Holds(View(), order[k], d, n)
        decreases NBUF - i
      {
        if dev[b] == d && blockno[b] == n {
          return;
        }
        Neighbours(View(), i);
        b := next[b];
        i := i + 1;
      }
      forall c: nat | c < NBUF ensures !Holds(View(), c, d, n) {
        assert c in order;
        var k :| 0 <= k < |order| && order[k] == c;
      }
    }

    /** The scan for a buffer to recycle, from the least recently used on. */
    method FindVictim() returns (b: Index)
      requires Good(View())
      ensures if b == HEAD then forall c: nat :: c < NBUF ==> !Recyclable(View(), c) else LeastRecentlyUsed(View(), b)
    {
      ghost var j := NBUF - 1;
      Neighbours(View(), -1);
      b := prev[HEAD];
      while b != HEAD
        invariant -1 <= j < NBUF && b == At(order, j)
        invariant forall k :: j < k < NBUF ==> order[k] < NBUF && !Recyclable(View(), order[k])
        decreases j
      {
        if refcnt[b] == 0 && !dirty[b] {
          BackmostIsLeastRecent(View(), j);
          return;
        }
        Neighbours(View(), j);
        b := prev[b];
        j := j - 1;
      }
      forall c: nat | c < NBUF ensures !Recyclable(View(), c) {
        assert c in order;
        var k :| 0 <= k < |order| && order[k] == c;
      }
    }

    /**
     bget up to acquiring the buffer's sleep-lock: a cached block is shared, otherwise the
     least recently used buffer that is neither referenced nor dirty is taken over.
     None stands for the panic when there is no such buffer.
     */
    method Bget(d: nat, n: nat, ghost p: Proc) returns (r: Option<Index>)
      requires Good(View())
      modifies this
      ensures Good(View())
      ensures r.Some? ==> r.value < NBUF && Holds(View(), r.value, d, n) && OnlyBuffer(old(View()), View(), r.value)
      // Cached: shared as it is.
      ensures r.Some? && old(Holds(View(), r.value, d, n)) ==>
                && refcnt[r.value] == old(refcnt)[r.value] + 1 && users[r.value] == old(users)[r.value] + multiset{p}
                && valid[r.value] == old(valid)[r.value] && dirty[r.value] == old(dirty)[r.value] && data[r.value] == old(data)[r.value]
      // Not cached: taken over, with nothing left of the block it held.
      ensures r.Some? && old(!Holds(View(), r.value, d, n)) ==>
                && (forall c: nat :: c < NBUF ==> !old(Holds(View(), c, d, n)))
                && old(LeastRecentlyUsed(View(), r.value))
                && refcnt[r.value] == 1 && users[r.value] == multiset{p} && !valid[r.value] && !dirty[r.value]
      ensures r.None? ==> View() == old(View()) && forall c: nat :: c < NBUF ==> !Holds(View(), c, d, n) && !Recyclable(View(), c)
    {
      var b := FindCached(d, n);
      if b != HEAD {
        Share(b, p);
        return Some(b);
      }
      b := FindVictim();
      if b != HEAD {
        Recycle(b, d, n, p);
        return Some(b);
      }
      return None;
    }

    method Share(b: Index, ghost p: Proc)
      requires Good(View()) && b < NBUF
      modifies this`refcnt, this`users
      ensures View() == Hit(old(View()), b, p) && Good(View())
    {
      HitKeepsGood(View(), b, p);
      refcnt := refcnt[b := refcnt[b] + 1];
      users := users[b := users[b] + multiset{p}];
    }

    method Recycle(b: Index, d: nat, n: nat, ghost p: Proc)
      requires Good(View()) && b < NBUF && LeastRecentlyUsed(View(), b)
      requires forall c: nat :: c < NBUF ==> !Holds(View(), c, d, n)
      modifies this
      ensures View() == Recycled(old(View()), b, d, n, p) && Good(View())
    {
      RecycleKeepsGood(View(), b, d, n, p);
      dev := dev[b := d];
      blockno := blockno[b := n];
      valid := valid[b := false];
      dirty := dirty[b := false];
      refcnt := refcnt[b := 1];
      users := users[b := multiset{p}];
    }

    /** iderw: a dirty buffer is written out, one that is not valid is read in. */
    method Iderw(b: Index)
      requires Good(View()) && b < NBUF && (valid[b] ==> dirty[b])
      modifies this`data, this`valid, this`dirty, this`disk
      ensures Good(View()) && valid[b] && !dirty[b] && Settled(View(), b)
      ensures valid == old(valid)[b := true] && dirty == old(dirty)[b := false]
      ensures old(dirty)[b] ==> data == old(data) && disk == old(disk)[(dev[b], blockno[b]) := data[b]]
      ensures !old(dirty)[b] ==> disk == old(disk) && data == old(data)[b := Stored(disk, dev[b], blockno[b])]
    {
      if dirty[b] {
        assert CurrentAt(View(), b);
        WriteKeepsGood(View(), b);
        disk := disk[(dev[b], blockno[b]) := data[b]];
        dirty := dirty[b := false];
      } else {
        FillKeepsGood(View(), b);
        data := data[b := Stored(disk, dev[b], blockno[b])];
        valid := valid[b := true];
      }
    }

    /** bread: the buffer of the block, holding what was last put into it. */
    method Bread(d: nat, n: nat, ghost p: Proc) returns (r: Option<Index>)
      requires Good(View())
      modifies this
      ensures Good(View()) && disk == old(disk) && contents == old(contents)
      ensures r.Some? ==> r.value < NBUF && Holds(View(), r.value, d, n) && valid[r.value] && p in users[r.value]
      ensures r.Some? && d != 0 ==> data[r.value] == Stored(contents, d, n)
      ensures r.Some? ==> OnlyBuffer(old(View()), View(), r.value)
      ensures r.None? ==> View() == old(View()) && forall c: nat :: c < NBUF ==> !Holds(View(), c, d, n) && !Recyclable(View(), c)
    {
      r := Bget(d, n, p);
      if r.Some? {
        ghost var s := View();
        assert CurrentAt(s, r.value);
        if !valid[r.value] {
          Iderw(r.value);
          assert CurrentAt(View(), r.value);
          forall c: nat | c < NBUF && c != r.value ensures SameBuffer(old(View()), View(), c) {
            assert SameBuffer(old(View()), s, c) && SameBuffer(s, View(), c);
          }
        }
      }
    }

    /** The holder changes the data of its buffer. */
    method Change(b: Index, x: Block, ghost p: Proc)
      requires Good(View()) && b < NBUF && valid[b] && p in users[b]
      modifies this`data, this`contents
      ensures Good(View()) && data == old(data)[b := x] && contents == old(contents)[(dev[b], blockno[b]) := x]
    {
      assert refcnt[b] == |users[b]|;
      ChangeKeepsGood(View(), b, x);
      data := data[b := x];
      contents := contents[(dev[b], blockno[b]) := x];
    }

    /** bwrite */
    method Bwrite(b: Index)
      requires Good(View()) && b < NBUF && valid[b]
      modifies this`data, this`valid, this`dirty, this`disk
      ensures Good(View()) && Settled(View(), b) && data == old(data) && valid == old(valid)
      ensures disk == old(disk)[(dev[b], blockno[b]) := data[b]] && dirty == old(dirty)[b := false]
    {
      MarkDirty(b);
      Iderw(b);
    }

    /** `b->flags |= B_DIRTY`, as in log_write, which so keeps the buffer from being recycled. */
    method MarkDirty(b: Index)
      requires Good(View()) && b < NBUF && valid[b]
      modifies this`dirty
      ensures Good(View()) && Settled(View(), b) && dirty == old(dirty)[b := true]
    {
      DirtyKeepsGood(View(), b);
      dirty := dirty[b := true];
    }

    method MoveToFront(b: nat, ghost k: nat)
      requires Sized(View()) && b < NBUF && k < |order| && order[k] == b
      requires next[b] != b
      modifies this`next, this`prev, this`order, this`released, this`clock
      ensures View() == MovedToFront(old(View()), k)
    {
      ghost var s' := MovedToFront(View(), k);
      Relink(b);
      order, released, clock := s'.order, s'.released, s'.clock;
    }

    /** The six assignments of brelse. */
    method Relink(b: nat)
      requires b < NBUF && next[b] != b
      modifies this`next, this`prev
      ensures var n1, p1 := old(next)[old(prev)[b] := old(next)[b]], old(prev)[old(next)[b] := old(prev)[b]];
              next == n1[b := n1[HEAD]][HEAD := b] && prev == p1[b := HEAD][n1[HEAD] := b]
    {
      prev := prev[next[b] := prev[b]];
      next := next[prev[b] := next[b]];
      next := next[b := next[HEAD]];
      prev := prev[b := HEAD];
      prev := prev[next[HEAD] := b];
      next := next[HEAD := b];
    }

    /** brelse after the buffer's sleep-lock has been given up; what was changed has been written or logged. */
    method Brelse(b: nat, ghost p: Proc)
      requires Good(View()) && b < NBUF && p in users[b] && Settled(View(), b)
      modifies this
      ensures Good(View()) && ReleasedTo(old(View()), b, p, View())
    {
      DropKeepsGood(View(), b, p);
      refcnt := refcnt[b := refcnt[b] - 1];
      users := users[b := users[b] - multiset{p}];
      assert View() == Dropped(old(View()), b, p);
      if refcnt[b] == 0 {
        assert b in order;
        ghost var k :| 0 <= k < |order| && order[k] == b;
        MoveKeepsGood(View(), k);
        Neighbours(View(), k);
        MoveToFront(b, k);
      }
    }
  }
}
