/**
 The memory of processes and threads: whether proc->sz says which user pages are mapped,
 through fork, clone, exec, sbrk, wait and join.

 Threads made by clone share the page directory but each has a size of its own, and sbrk
 updates only the caller's.  So sizes and pages can part, and then the panics of mappages
 and copyuvm come into reach.  For every call it is proved exactly when it panics, exactly
 when it leaves sizes and pages in step, and that it touches no other address space.
 */
module ProcessMemory {
  import opened Common
  import opened PageTables
  import opened VirtualMemory
  import opened AddressSpaces

  datatype Proc = Proc(dir: nat, sz: nat)

  type Procs = map<nat, Proc>

  /** No other process or thread uses the page directory of p. */
  predicate Alone(procs: Procs, p: nat)
    requires p in procs
  {
    forall q :: q in procs && q != p ==> procs[q].dir != procs[p].dir
  }

  /** The processes and threads of other address spaces. */
  ghost function Others(procs: Procs, d: nat): Procs {
    map q | q in procs && procs[q].dir != d :: procs[q]
  }

  /** Every process has a page directory, and a size that the kernel allows. */
  ghost predicate Sound(m: Mem, procs: Procs) {
    forall p :: p in procs ==> IsDir(m, procs[p].dir) && procs[p].sz < KERNBASE
  }

  /** Exactly the pages below sz are mapped. */
  ghost predicate SizeIs(m: Mem, d: nat, sz: nat) {
    && IsDir(m, d) && sz < KERNBASE
    && forall u: nat :: u < USERPAGES ==> MappedBelow(m, d, sz, u)
  }

  ghost predicate MappedBelow(m: Mem, d: nat, sz: nat, u: nat)
    requires IsDir(m, d) && u < USERPAGES
  {
    Present(Pte(m, d, u)) <==> u < RoundUp(sz)
  }

  /** So for every process. */
  ghost predicate InStep(m: Mem, procs: Procs) {
    forall p :: p in procs ==> SizeIs(m, procs[p].dir, procs[p].sz)
  }

  /** Two sizes fit the same pages exactly when they are the same number of pages. */
  lemma {:induction false} OneSize(m: Mem, d: nat, a: nat, b: nat)
    requires SizeIs(m, d, a) && b < KERNBASE
    ensures SizeIs(m, d, b) <==> RoundUp(a) == RoundUp(b)
  {
    if RoundUp(a) == RoundUp(b) {
      forall u: nat | u < USERPAGES ensures MappedBelow(m, d, b, u) {
        assert MappedBelow(m, d, a, u);
      }
    } else {
      var u := if RoundUp(a) < RoundUp(b) then RoundUp(a) else RoundUp(b);
      assert MappedBelow(m, d, a, u) && !MappedBelow(m, d, b, u);
    }
  }

  /** In step, no page lies ahead of the size and none below it is missing. */
  lemma {:induction false} SizeIsDemand(m: Mem, d: nat, sz: nat, hi: nat)
    requires SizeIs(m, d, sz) && hi <= USERPAGES
    ensures Vacant(m, d, RoundUp(sz), hi) && Populated(m, d, RoundUp(sz))
  {
    forall u: nat | u < USERPAGES ensures Present(Pte(m, d, u)) <==> u < RoundUp(sz) {
      assert MappedBelow(m, d, sz, u);
    }
  }

  // ------------------------------------------------------------------
  // Other address spaces.

  /** If page u of e was mapped, it is mapped in the same way and holds the same bytes. */
  ghost predicate SameBytes(m0: Mem, m: Mem, e: nat, u: nat)
    requires IsDir(m0, e) && IsDir(m, e) && |m.pages| == |m0.pages| && u < USERPAGES
  {
    var w := Pte(m0, e, u);
    Present(w) ==> Pte(m, e, u) == w && FrameOf(w) < |m.pages| && m.pages[FrameOf(w)] == m0.pages[FrameOf(w)]
  }

  /** So for the first n pages of e. */
  ghost predicate Keeps(m0: Mem, m: Mem, e: nat, n: nat) {
    && IsDir(m0, e) && IsDir(m, e) && |m.pages| == |m0.pages| && n <= USERPAGES
    && forall u: nat :: u < n ==> SameBytes(m0, m, e, u)
  }

  /** All memory of these processes is as before. */
  ghost predicate AllKept(m0: Mem, m: Mem, procs: Procs) {
    forall p :: p in procs ==> Keeps(m0, m, procs[p].dir, USERPAGES)
  }

  lemma {:induction false} SameEntriesKeep(m0: Mem, m: Mem, e: nat, n: nat)
    requires Good(m0) && Good(m) && DataKept(m0, m) && IsDir(m0, e) && IsDir(m, e) && n <= USERPAGES
    requires forall u: nat :: u < n ==> SamePage(m0, m, e, u)
    ensures Keeps(m0, m, e, n)
  {
    forall u: nat | u < n ensures SameBytes(m0, m, e, u) {
      assert SamePage(m0, m, e, u) && PteOk(m0, e, u) && PteOk(m, e, u);
      if Present(Pte(m0, e, u)) {
        assert PageKept(m0, m, FrameOf(Pte(m0, e, u)));
      }
    }
  }

  /** From m0 to m nothing has changed in any address space but d. */
  ghost predicate ElsewhereKept(m0: Mem, m: Mem, d: nat) {
    && Good(m0) && Good(m) && DataKept(m0, m)
    && (forall e: nat :: IsDir(m0, e) && e != d ==> IsDir(m, e))
    && forall e: nat, u: nat :: e != d ==> SamePage(m0, m, e, u)
  }

  lemma {:induction false} SameSize(m0: Mem, m: Mem, e: nat, sz: nat)
    requires IsDir(m0, e) && IsDir(m, e) && |m.pages| == |m0.pages|
    requires forall u: nat :: SamePage(m0, m, e, u)
    ensures SizeIs(m, e, sz) <==> SizeIs(m0, e, sz)
  {
    forall u: nat | u < USERPAGES ensures MappedBelow(m, e, sz, u) <==> MappedBelow(m0, e, sz, u) {
      assert SamePage(m0, m, e, u);
    }
  }

  lemma {:induction false} OthersKeep(m0: Mem, m: Mem, d: nat, procs: Procs)
    requires ElsewhereKept(m0, m, d) && Sound(m0, procs) && forall p :: p in procs ==> procs[p].dir != d
    ensures Sound(m, procs) && AllKept(m0, m, procs)
    ensures InStep(m, procs) <==> InStep(m0, procs)
  {
    forall p | p in procs
      ensures IsDir(m, procs[p].dir) && Keeps(m0, m, procs[p].dir, USERPAGES)
      ensures SizeIs(m, procs[p].dir, procs[p].sz) <==> SizeIs(m0, procs[p].dir, procs[p].sz)
    {
      var e := procs[p].dir;
      assert IsDir(m0, e);
      forall u: nat ensures SamePage(m0, m, e, u) {
      }
      SameEntriesKeep(m0, m, e, USERPAGES);
      SameSize(m0, m, e, procs[p].sz);
    }
  }

  lemma {:induction false} BuiltKeepsElsewhere(m0: Mem, m: Mem, d: nat)
    requires Built(m0, m, d, 0)
    ensures ElsewhereKept(m0, m, d)
  {
    forall e: nat | IsDir(m0, e) && e != d ensures IsDir(m, e) {
      assert Into(m0.owner[e], m.owner[e], e, d, 0);
    }
    forall e: nat, u: nat | e != d ensures SamePage(m0, m, e, u) {
      assert PteKept(m0, m, e, u);
    }
  }

  lemma {:induction false} ShrunkKeepsElsewhere(m0: Mem, m: Mem, d: nat, lo: nat, hi: nat)
    requires Shrunk(m0, m, d, lo, hi)
    ensures ElsewhereKept(m0, m, d)
  {
    forall e: nat, u: nat | e != d ensures SamePage(m0, m, e, u) {
      assert ShrunkPte(m0, m, d, lo, hi, e, u);
    }
  }

  lemma {:induction false} CutKeepsElsewhere(m0: Mem, m: Mem, d: nat, lo: nat, hi: nat)
    requires Good(m0) && CutBack(m0, m, d, lo, hi)
    ensures ElsewhereKept(m0, m, d)
  {
    forall e: nat | IsDir(m0, e) && e != d ensures IsDir(m, e) {
      assert CutOwner(m0.owner[e], m.owner[e], d, lo, hi);
    }
    forall e: nat, u: nat | e != d ensures SamePage(m0, m, e, u) {
      assert CutPage(m0, m, d, lo, hi, e, u);
    }
  }

  lemma {:induction false} GoneKeepsElsewhere(m0: Mem, m: Mem, d: nat)
    requires Good(m0) && Gone(m0, m, d)
    ensures ElsewhereKept(m0, m, d)
  {
    forall e: nat, u: nat | e != d ensures SamePage(m0, m, e, u) {
      assert PteKept(m0, m, e, u);
    }
  }

  lemma {:induction false} RestoredKeepsAll(m0: Mem, m: Mem, procs: Procs)
    requires Good(m0) && Good(m) && RestoredFrom(m0, m) && Sound(m0, procs)
    ensures Sound(m, procs) && AllKept(m0, m, procs)
    ensures InStep(m, procs) <==> InStep(m0, procs)
  {
    forall e: nat, u: nat ensures SamePage(m0, m, e, u) {
      assert PteKept(m0, m, e, u);
    }
    OthersKeep(m0, m, |m0.owner|, procs);
  }

  // ------------------------------------------------------------------
  // Sizes.

  lemma {:induction false} NewIsEmpty(m: Mem, d: nat, data: Word)
    requires EXTMEM < data < PHYSTOP && data % PGSIZE == 0 && IsDir(m, d)
    requires forall u: nat :: u < ALLPAGES ==> Pte(m, d, u) == KernelEntry(data, 4, u)
    ensures SizeIs(m, d, 0)
  {
    forall u: nat | u < USERPAGES ensures MappedBelow(m, d, 0, u) {
      NoUserEntry(data, 4, u);
    }
  }

  lemma {:induction false} GrownSize(m0: Mem, m: Mem, d: nat, oldsz: nat, newsz: nat)
    requires SizeIs(m0, d, oldsz) && oldsz <= newsz < KERNBASE && Grown(m0, m, d, RoundUp(oldsz), RoundUp(newsz))
    ensures SizeIs(m, d, newsz)
  {
    forall u: nat | u < USERPAGES ensures MappedBelow(m, d, newsz, u) {
      assert MappedBelow(m0, d, oldsz, u);
      if RoundUp(oldsz) <= u < RoundUp(newsz) {
        assert FreshPage(m, d, u);
      } else {
        assert PteKept(m0, m, d, u);
      }
    }
  }

  lemma {:induction false} ShrunkSize(m0: Mem, m: Mem, d: nat, oldsz: nat, newsz: nat)
    requires SizeIs(m0, d, oldsz) && newsz < oldsz && Shrunk(m0, m, d, RoundUp(newsz), RoundUp(oldsz))
    ensures SizeIs(m, d, newsz)
  {
    forall u: nat | u < USERPAGES ensures MappedBelow(m, d, newsz, u) {
      assert MappedBelow(m0, d, oldsz, u) && ShrunkPte(m0, m, d, RoundUp(newsz), RoundUp(oldsz), d, u);
    }
  }

  lemma {:induction false} CopiedSize(m0: Mem, m: Mem, p: nat, d: nat, data: Word, sz: nat)
    requires EXTMEM < data < PHYSTOP && data % PGSIZE == 0 && sz < KERNBASE && Copied(m0, m, p, d, data, RoundUp(sz), 0)
    ensures SizeIs(m, d, sz)
  {
    forall u: nat | u < USERPAGES ensures MappedBelow(m, d, sz, u) {
      if u < RoundUp(sz) {
        assert CopiedPage(m0, m, p, d, u);
      } else {
        assert KernelOnly(m, d, data, u);
        NoUserEntry(data, 4, u);
      }
    }
  }

  /** A failed growth of an address space in step leaves all sizes right. */
  lemma {:induction false} CutKeepsSizes(m0: Mem, m: Mem, d: nat, sz: nat, hi: nat, procs: Procs)
    requires Good(m0) && SizeIs(m0, d, sz) && CutBack(m0, m, d, RoundUp(sz), hi) && hi <= USERPAGES
    requires Sound(m0, procs) && InStep(m0, procs)
    ensures InStep(m, procs)
  {
    SizeIsDemand(m0, d, sz, hi);
    RollBack(m0, m, d, RoundUp(sz), hi);
    OthersKeep(m0, m, |m0.owner|, procs);
  }

  // ------------------------------------------------------------------
  // growproc.

  /** What growproc does to the address space d of a process of size sz. */
  ghost predicate Resized(m0: Mem, m: Mem, d: nat, sz: nat, n: int, st: Status) {
    if n > 0 && sz + n < KERNBASE then
      && (st.Done? ==> Grown(m0, m, d, RoundUp(sz), RoundUp(sz + n)))
      && (st.Error? ==> CutBack(m0, m, d, RoundUp(sz), RoundUp(sz + n)))
    else if n < 0 && sz + n >= 0 then
      Shrunk(m0, m, d, RoundUp(sz + n), RoundUp(sz))
    else
      m == m0
  }

  /** The sizes afterwards: a new one only where it is not negative. */
  function ResizedProcs(procs: Procs, p: nat, n: int, st: Status): Procs
    requires p in procs
  {
    if st.Done? && procs[p].sz + n >= 0 then procs[p := procs[p].(sz := procs[p].sz + n)] else procs
  }

  /**
   The exact condition under which growproc leaves sizes and pages in step: if it
   succeeds, no page has come or gone under another thread; if it fails, the reason was
   not that the new size is zero, which the code takes for a failure.
   */
  predicate StaysInStep(procs: Procs, p: nat, n: int, st: Status)
    requires p in procs
  {
    var sz := procs[p].sz;
    if st.Done? then sz + n < 0 || Alone(procs, p) || RoundUp(sz) == RoundUp(sz + n)
    else !(n < 0 && sz + n == 0)
  }

  lemma {:induction false} ResizedKeepsElsewhere(m0: Mem, m: Mem, d: nat, sz: nat, n: int, st: Status)
    requires Good(m0) && Resized(m0, m, d, sz, n, st) && !st.Panic?
    ensures ElsewhereKept(m0, m, d)
  {
    if n > 0 && sz + n < KERNBASE {
      if st.Done? {
        BuiltKeepsElsewhere(m0, m, d);
      } else {
        CutKeepsElsewhere(m0, m, d, RoundUp(sz), RoundUp(sz + n));
      }
    } else if n < 0 && sz + n >= 0 {
      ShrunkKeepsElsewhere(m0, m, d, RoundUp(sz + n), RoundUp(sz));
    }
  }

  /** The address space has the new size: every other process is in step exactly if it is alone or the pages are the same. */
  lemma {:induction false} NewSize(m0: Mem, m: Mem, procs: Procs, p: nat, sz: nat)
    requires p in procs && Sound(m0, procs) && InStep(m0, procs)
    requires ElsewhereKept(m0, m, procs[p].dir) && SizeIs(m, procs[p].dir, sz)
    ensures InStep(m, procs[p := procs[p].(sz := sz)]) <==> Alone(procs, p) || RoundUp(procs[p].sz) == RoundUp(sz)
  {
    var d, procs' := procs[p].dir, procs[p := procs[p].(sz := sz)];
    OthersKeep(m0, m, d, Others(procs, d));
    forall q | q in procs && q != p
      ensures SizeIs(m, procs[q].dir, procs[q].sz) <==> procs[q].dir != d || RoundUp(procs[p].sz) == RoundUp(sz)
    {
      if procs[q].dir == d {
        OneSize(m0, d, procs[p].sz, procs[q].sz);
        OneSize(m, d, sz, procs[q].sz);
      } else {
        assert q in Others(procs, d);
      }
    }
    if InStep(m, procs') && RoundUp(procs[p].sz) != RoundUp(sz) {
      forall q | q in procs && q != p ensures procs[q].dir != d {
        assert q in procs' && procs'[q] == procs[q];
      }
    }
  }

  lemma {:induction false} ResizeIsExact(m0: Mem, m: Mem, procs: Procs, p: nat, n: int, st: Status)
    requires p in procs && Good(m0) && Sound(m0, procs) && InStep(m0, procs) && !st.Panic?
    requires Resized(m0, m, procs[p].dir, procs[p].sz, n, st)
    requires st.Done? ==> procs[p].sz + n < KERNBASE && !(n < 0 && procs[p].sz + n == 0)
    requires st.Error? && n < 0 ==> procs[p].sz + n <= 0
    ensures InStep(m, ResizedProcs(procs, p, n, st)) <==> StaysInStep(procs, p, n, st)
  {
    var d, sz := procs[p].dir, procs[p].sz;
    ResizedKeepsElsewhere(m0, m, d, sz, n, st);
    assert SizeIs(m0, d, sz);
    if n > 0 && sz + n < KERNBASE {
      if st.Done? {
        GrownSize(m0, m, d, sz, sz + n);
        NewSize(m0, m, procs, p, sz + n);
      } else {
        CutKeepsSizes(m0, m, d, sz, RoundUp(sz + n), procs);
      }
    } else if n < 0 && sz + n >= 0 {
      ShrunkSize(m0, m, d, sz, sz + n);
      if st.Done? {
        NewSize(m0, m, procs, p, sz + n);
      } else {
        OneSize(m, d, 0, sz);
      }
    } else {
      assert ResizedProcs(procs, p, n, st) == procs;
    }
  }

  /** What stays of sz bytes when n are asked for: nothing is given up if that would leave less than none. */
  function Shorter(sz: nat, n: int): nat {
    if 0 <= sz + n < sz then sz + n else sz
  }

  /** The pages below both sizes keep their mapping and bytes. */
  lemma {:induction false} ResizedKeepsPages(m0: Mem, m: Mem, d: nat, sz: nat, n: int, st: Status)
    requires Good(m0) && IsDir(m0, d) && sz < KERNBASE && Resized(m0, m, d, sz, n, st) && !st.Panic?
    ensures Keeps(m0, m, d, RoundUp(Shorter(sz, n)))
  {
    var k := RoundUp(Shorter(sz, n));
    if n > 0 && sz + n < KERNBASE && st.Error? {
      assert CutOwner(m0.owner[d], m.owner[d], d, RoundUp(sz), RoundUp(sz + n));
    }
    forall u: nat | u < k ensures SamePage(m0, m, d, u) {
      if n > 0 && sz + n < KERNBASE {
        if st.Done? {
          assert PteKept(m0, m, d, u);
        } else {
          assert CutPage(m0, m, d, RoundUp(sz), RoundUp(sz + n), d, u);
        }
      } else if n < 0 && sz + n >= 0 {
        assert ShrunkPte(m0, m, d, RoundUp(sz + n), RoundUp(sz), d, u);
      }
    }
    ResizedKeepsElsewhere(m0, m, d, sz, n, st);
    SameEntriesKeep(m0, m, d, k);
  }

  /** When growproc reports failure; `missed` says that kalloc found no frame. */
  predicate Fails(sz: nat, n: int, missed: bool) {
    (n > 0 && (sz + n >= KERNBASE || missed)) || (n < 0 && (sz == 0 || sz + n == 0))
  }

  /** What growproc guarantees to everybody: page directories, other address spaces, the caller's own pages. */
  lemma {:induction false} ResizeIsSound(m0: Mem, m: Mem, procs: Procs, p: nat, n: int, st: Status)
    requires p in procs && Good(m0) && Sound(m0, procs) && !st.Panic?
    requires Resized(m0, m, procs[p].dir, procs[p].sz, n, st) && IsDir(m, procs[p].dir)
    requires st.Done? ==> procs[p].sz + n < KERNBASE
    ensures Sound(m, ResizedProcs(procs, p, n, st))
    ensures AllKept(m0, m, Others(procs, procs[p].dir))
  {
    var d, procs' := procs[p].dir, ResizedProcs(procs, p, n, st);
    ResizedKeepsElsewhere(m0, m, d, procs[p].sz, n, st);
    OthersKeep(m0, m, d, Others(procs, d));
    forall q | q in procs' ensures IsDir(m, procs'[q].dir) && procs'[q].sz < KERNBASE {
      assert q in procs && procs'[q].dir == procs[q].dir;
      assert procs[q].dir != d ==> q in Others(procs, d);
    }
  }

  /** Another thread that still has the old size is then out of step with what it will need. */
  lemma {:induction false} GrownIsAhead(m0: Mem, m: Mem, d: nat, sz: nat, n: nat, k: nat)
    requires Grown(m0, m, d, RoundUp(sz), RoundUp(sz + n)) && RoundUp(sz) < RoundUp(sz + n)
    requires RoundUp(sz) < RoundUp(sz + k)
    ensures !Vacant(m, d, RoundUp(sz), RoundUp(sz + k))
  {
    assert FreshPage(m, d, RoundUp(sz));
  }

  lemma {:induction false} ShrunkIsBehind(m0: Mem, m: Mem, d: nat, lo: nat, hi: nat)
    requires Shrunk(m0, m, d, lo, hi) && lo < hi <= USERPAGES
    ensures !Populated(m, d, hi)
  {
    assert ShrunkPte(m0, m, d, lo, hi, d, lo);
  }

  // ------------------------------------------------------------------
  // exec.

  /** The size after segments that end at these addresses are allocated, if exec gets that far. */
  function Loaded(sz: nat, ends: seq<Word>): Option<nat>
    decreases |ends|
  {
    if ends == [] then
      Some(sz)
    else
      var top := if ends[0] < sz then sz else ends[0];
      if ends[0] >= KERNBASE || top == 0 then None else Loaded(top, ends[1..])
  }

  /** The segments, then two pages for the stack at the next page boundary. */
  function ImageSize(ends: seq<Word>): Option<nat> {
    var sz := Loaded(0, ends);
    if sz.None? || RoundUp(sz.value) * PGSIZE + 2 * PGSIZE >= KERNBASE then None
    else Some(RoundUp(sz.value) * PGSIZE + 2 * PGSIZE)
  }

  /** Every segment, and the stack above them, fits in the image; it is no larger than that takes. */
  lemma {:induction false} ImageHoldsSegments(ends: seq<Word>)
    requires ImageSize(ends).Some?
    ensures var z := ImageSize(ends).value;
            && z % PGSIZE == 0 && 2 * PGSIZE <= z < KERNBASE
            && (forall i :: 0 <= i < |ends| ==> ends[i] + 2 * PGSIZE <= z)
            && (z == 2 * PGSIZE || exists i :: 0 <= i < |ends| && z < ends[i] + 3 * PGSIZE)
  {
    LoadedIsHighest(0, ends);
  }

  lemma {:induction false} LoadedIsHighest(sz: nat, ends: seq<Word>)
    requires Loaded(sz, ends).Some?
    ensures var z := Loaded(sz, ends).value;
            sz <= z && (forall i :: 0 <= i < |ends| ==> ends[i] <= z) && (z == sz || exists i :: 0 <= i < |ends| && ends[i] == z)
    decreases |ends|
  {
    if ends != [] {
      var top := if ends[0] < sz then sz else ends[0];
      LoadedIsHighest(top, ends[1..]);
      var z := Loaded(sz, ends).value;
      if i :| 0 <= i < |ends[1..]| && ends[1..][i] == z {
        assert ends[i + 1] == z;
      }
      forall i | 0 <= i < |ends| ensures ends[i] <= z {
        assert i > 0 ==> ends[i] == ends[1..][i - 1];
      }
    }
  }

  lemma {:induction false} KeptTwice(m0: Mem, m: Mem, m': Mem, procs: Procs)
    requires AllKept(m0, m, procs) && AllKept(m, m', procs)
    ensures AllKept(m0, m', procs)
  {
    forall p | p in procs ensures Keeps(m0, m', procs[p].dir, USERPAGES) {
      var e := procs[p].dir;
      assert Keeps(m0, m, e, USERPAGES) && Keeps(m, m', e, USERPAGES);
      forall u: nat | u < USERPAGES ensures SameBytes(m0, m', e, u) {
        assert SameBytes(m0, m, e, u) && SameBytes(m, m', e, u);
      }
    }
  }

  /** From m0 to m a new address space d was built for p, and then its old one was destroyed. */
  lemma {:induction false} Replaced(m0: Mem, m: Mem, m': Mem, procs: Procs, p: nat, d: nat, sz: nat)
    requires p in procs && Sound(m0, procs) && Built(m0, m, d, 0) && m0.owner[d] == Free && SizeIs(m, d, sz)
    requires Gone(m, m', procs[p].dir)
    ensures AllKept(m0, m', Others(procs, procs[p].dir)) && SizeIs(m', d, sz)
    ensures Sound(m', procs[p := Proc(d, sz)]) <==> Alone(procs, p)
    ensures Alone(procs, p) && InStep(m0, procs) ==> InStep(m', procs[p := Proc(d, sz)])
  {
    var d0, procs' := procs[p].dir, procs[p := Proc(d, sz)];
    var others := Others(procs, d0);
    assert d != d0;
    BuiltKeepsElsewhere(m0, m, d);
    OthersKeep(m0, m, d, others);
    GoneKeepsElsewhere(m, m', d0);
    OthersKeep(m, m', d0, others);
    KeptTwice(m0, m, m', others);
    forall u: nat ensures SamePage(m, m', d, u) {
    }
    SameSize(m, m', d, sz);
    if Alone(procs, p) {
      assert forall q :: q in procs' && q != p ==> q in others && procs'[q] == others[q];
    } else {
      var q :| q in procs && q != p && procs[q].dir == d0;
      assert q in procs' && !IsDir(m', procs'[q].dir);
    }
  }

  /** All memory and all processes; data is where the kernel's writable data starts. */
  class Processes {
    const mem: Memory
    const data: Word
    var procs: Procs

    ghost predicate Valid()
      reads this, mem
    {
      && Good(mem.View()) && Sound(mem.View(), procs)
      && EXTMEM < data < PHYSTOP && data % PGSIZE == 0
    }

    constructor (mem: Memory, data: Word)
      requires Good(mem.View()) && EXTMEM < data < PHYSTOP && data % PGSIZE == 0
      ensures Valid() && procs == map[] && this.mem == mem && mem.View() == old(mem.View())
    {
      this.mem, this.data, procs := mem, data, map[];
    }

    /** A process with a new, empty address space, as userinit and exec start with one. */
    method Spawn(p: nat) returns (st: Status)
      requires Valid() && p !in procs
      modifies this, mem
      ensures Valid() && AllKept(old(mem.View()), mem.View(), old(procs)) && !st.Panic?
      ensures mem.misses >= old(mem.misses) && (st.Error? <==> mem.misses > old(mem.misses))
      ensures st.Error? ==> procs == old(procs)
      ensures st.Done? ==> p in procs && Alone(procs, p) && SizeIs(mem.View(), procs[p].dir, 0)
      ensures st.Done? ==> procs == old(procs)[p := Proc(procs[p].dir, 0)]
      ensures InStep(mem.View(), procs) <==> old(InStep(mem.View(), procs))
    {
      ghost var m0 := mem.View();
      var d := mem.SetupKvm(data);
      if d == 0 {
        RestoredKeepsAll(m0, mem.View(), procs);
        return Error;
      }
      BuiltKeepsElsewhere(m0, mem.View(), d);
      OthersKeep(m0, mem.View(), d, procs);
      NewIsEmpty(mem.View(), d, data);
      procs := procs[p := Proc(d, 0)];
      assert forall q :: q in old(procs) ==> q in procs && procs[q] == old(procs)[q];
      return Done;
    }

    /** The memory part of fork. */
    method Fork(p: nat, c: nat) returns (st: Status)
      requires Valid() && p in procs && c !in procs
      modifies this, mem
      ensures st.Panic? <==> mem.misses == old(mem.misses) && !Populated(old(mem.View()), old(procs)[p].dir, RoundUp(old(procs)[p].sz))
      ensures mem.misses >= old(mem.misses) && (st.Error? <==> mem.misses > old(mem.misses))
      ensures old(InStep(mem.View(), procs)) ==> !st.Panic?
      ensures !st.Panic? ==> Valid() && AllKept(old(mem.View()), mem.View(), old(procs))
      ensures st.Error? ==> procs == old(procs)
      ensures st.Done? ==> c in procs && procs == old(procs)[c := Proc(procs[c].dir, old(procs)[p].sz)] && Alone(procs, c)
      ensures st.Done? ==>
                Copied(old(mem.View()), mem.View(), procs[p].dir, procs[c].dir, data, RoundUp(procs[p].sz), 0)
      ensures !st.Panic? ==> (InStep(mem.View(), procs) <==> old(InStep(mem.View(), procs)))
    {
      ghost var m0 := mem.View();
      var sz: Word := procs[p].sz;
      if InStep(m0, procs) {
        SizeIsDemand(m0, procs[p].dir, sz, 0);
      }
      var d, panicked := mem.CopyUvm(procs[p].dir, sz, data);
      if panicked { return Panic; }
      if d == 0 {
        RestoredKeepsAll(m0, mem.View(), procs);
        return Error;
      }
      BuiltKeepsElsewhere(m0, mem.View(), d);
      OthersKeep(m0, mem.View(), d, procs);
      CopiedSize(m0, mem.View(), procs[p].dir, d, data, sz);
      procs := procs[c := Proc(d, sz)];
      assert forall q :: q in old(procs) ==> q in procs && procs[q] == old(procs)[q];
      return Done;
    }

    /** The memory part of clone: the thread gets the page directory and a copy of the size. */
    method Clone(p: nat, t: nat)
      requires Valid() && p in procs && t !in procs
      modifies this
      ensures Valid() && procs == old(procs)[t := old(procs)[p]]
      ensures InStep(mem.View(), procs) <==> old(InStep(mem.View(), procs))
    {
      procs := procs[t := procs[p]];
      assert forall q :: q in old(procs) ==> q in procs && procs[q] == old(procs)[q];
    }

    /**
     wait frees the address space of the child it reaps, also if that is a thread.  Every
     other process still has its page directory exactly if none shared this one.
     */
    method Reap(p: nat)
      requires Valid() && p in procs
      modifies this, mem
      ensures procs == old(procs) - {p} && Gone(old(mem.View()), mem.View(), old(procs)[p].dir)
      ensures AllKept(old(mem.View()), mem.View(), Others(old(procs), old(procs)[p].dir))
      ensures Valid() <==> Alone(old(procs), p)
      ensures Valid() && old(InStep(mem.View(), procs)) ==> InStep(mem.View(), procs)
    {
      ghost var m0, d, others := mem.View(), procs[p].dir, Others(procs, procs[p].dir);
      mem.FreeVm(procs[p].dir);
      GoneKeepsElsewhere(m0, mem.View(), d);
      OthersKeep(m0, mem.View(), d, others);
      procs := procs - {p};
      assert forall q :: q in others ==> q in procs;
      if Alone(old(procs), p) {
        assert procs == others;
      } else {
        ghost var q :| q in old(procs) && q != p && old(procs)[q].dir == d;
        assert q in procs && !IsDir(mem.View(), procs[q].dir);
      }
    }

    /** join reaps a thread of the caller's own address space and leaves memory alone. */
    method Join(p: nat, t: nat)
      requires Valid() && p in procs && t in procs && p != t && procs[p].dir == procs[t].dir
      modifies this
      ensures Valid() && procs == old(procs) - {t}
      ensures old(InStep(mem.View(), procs)) ==> InStep(mem.View(), procs)
    {
      procs := procs - {t};
    }

    /** One call of allocuvm by exec, on the address space d that it builds. */
    method GrowImage(d: nat, sz: Word, end: Word, ghost m0: Mem) returns (newsz: nat)
      requires Built(m0, mem.View(), d, 0) && (sz < KERNBASE ==> SizeIs(mem.View(), d, sz)) && (sz < KERNBASE || sz < end)
      modifies mem
      ensures Built(m0, mem.View(), d, 0) && mem.misses >= old(mem.misses)
      ensures newsz == 0 <==> mem.misses > old(mem.misses) || end >= KERNBASE || (end == 0 && sz == 0)
      ensures newsz != 0 ==> newsz == (if end < sz then sz else end) && SizeIs(mem.View(), d, newsz)
    {
      ghost var m := mem.View();
      if sz <= end < KERNBASE {
        SizeIsDemand(m, d, sz, RoundUp(end));
      }
      var panicked;
      newsz, panicked := mem.AllocUvm(d, sz, end);
      if sz <= end < KERNBASE {
        if mem.misses == old(mem.misses) {
          BuiltTwice(m0, m, mem.View(), d);
          GrownSize(m, mem.View(), d, sz, end);
        } else {
          CutStep(m0, m, mem.View(), d, RoundUp(sz), RoundUp(end));
        }
      }
    }

    /** The loop of exec over the segments of the program. */
    method LoadSegments(d: nat, ends: seq<Word>, ghost m0: Mem) returns (ok: bool, sz: nat)
      requires Built(m0, mem.View(), d, 0) && SizeIs(mem.View(), d, 0)
      modifies mem
      ensures Built(m0, mem.View(), d, 0) && mem.misses >= old(mem.misses)
      ensures ok <==> mem.misses == old(mem.misses) && Loaded(0, ends).Some?
      ensures ok ==> Some(sz) == Loaded(0, ends) && SizeIs(mem.View(), d, sz)
    {
      sz := 0;
      for i := 0 to |ends|
        invariant Built(m0, mem.View(), d, 0) && SizeIs(mem.View(), d, sz) && mem.misses == old(mem.misses)
        invariant Loaded(0, ends) == Loaded(sz, ends[i..])
      {
        sz := GrowImage(d, sz, ends[i], m0);
        if sz == 0 { return false, 0; }
      }
      ok := true;
    }

    /** The new address space of exec, or none, and then every frame is back where it was. */
    method BuildImage(ends: seq<Word>) returns (d: nat, sz: nat)
      requires Valid()
      modifies mem
      ensures mem.misses >= old(mem.misses)
      ensures d != 0 <==> mem.misses == old(mem.misses) && ImageSize(ends).Some?
      ensures d == 0 ==> Good(mem.View()) && RestoredFrom(old(mem.View()), mem.View())
      ensures d != 0 ==> Built(old(mem.View()), mem.View(), d, 0) && old(mem.View()).owner[d] == Free
      ensures d != 0 ==> Some(sz) == ImageSize(ends) && SizeIs(mem.View(), d, sz)
    {
      ghost var m0 := mem.View();
      d := mem.SetupKvm(data);
      sz := 0;
      if d == 0 { return; }
      NewIsEmpty(mem.View(), d, data);
      var ok;
      ok, sz := LoadSegments(d, ends, m0);
      if ok {
        var top := RoundUp(sz) * PGSIZE;
        if top < KERNBASE {
          OneSize(mem.View(), d, sz, top);
        }
        sz := GrowImage(d, top, top + 2 * PGSIZE, m0);
      }
      if !ok || sz == 0 {
        mem.Abandon(d, m0);
        d := 0;
      }
    }

    /**
     The memory part of exec.  `good` says that nothing else is wrong with the program or
     its arguments.  Like wait it frees an address space that threads may still share.
     */
    method Exec(p: nat, ends: seq<Word>, good: bool) returns (st: Status)
      requires Valid() && p in procs
      modifies this, mem
      ensures !st.Panic? && mem.misses >= old(mem.misses)
      ensures st.Done? <==> good && mem.misses == old(mem.misses) && ImageSize(ends).Some?
      ensures st.Error? ==> Valid() && procs == old(procs) && RestoredFrom(old(mem.View()), mem.View())
      ensures st.Done? ==> p in procs && Some(procs[p].sz) == ImageSize(ends) && procs == old(procs)[p := procs[p]]
      ensures st.Done? ==> SizeIs(mem.View(), procs[p].dir, procs[p].sz)
      ensures st.Done? ==> procs[p].dir < |old(mem.View()).owner| && old(mem.View()).owner[procs[p].dir] == Free
      ensures st.Done? ==> AllKept(old(mem.View()), mem.View(), Others(old(procs), old(procs)[p].dir))
      ensures st.Done? ==> (Valid() <==> Alone(old(procs), p))
      ensures Valid() && old(InStep(mem.View(), procs)) ==> InStep(mem.View(), procs)
    {
      ghost var m0 := mem.View();
      var d, sz := BuildImage(ends);
      if d != 0 && !good {
        mem.Abandon(d, m0);
        d := 0;
      }
      if d == 0 {
        RestoredKeepsAll(m0, mem.View(), procs);
        return Error;
      }
      ghost var m, before := mem.View(), procs;
      mem.FreeVm(procs[p].dir);
      Replaced(m0, m, mem.View(), before, p, d, sz);
      procs := procs[p := Proc(d, sz)];
      return Done;
    }

    /** The part of growproc that changes memory, with the size it gives. */
    method Resize(d: nat, sz: Word, n: int) returns (st: Status, newsz: nat)
      requires Good(mem.View()) && IsDir(mem.View(), d) && sz < KERNBASE && -0x8000_0000 <= n < 0x8000_0000
      modifies mem
      ensures st.Panic? <==> n > 0 && sz + n < KERNBASE && mem.misses == old(mem.misses)
                             && !Vacant(old(mem.View()), d, RoundUp(sz), RoundUp(sz + n))
      ensures mem.misses >= old(mem.misses)
      ensures !st.Panic? ==> (st.Error? <==> Fails(sz, n, mem.misses > old(mem.misses)))
      ensures !st.Panic? ==> Good(mem.View()) && IsDir(mem.View(), d) && Resized(old(mem.View()), mem.View(), d, sz, n, st)
      ensures st.Done? ==> newsz == if sz + n >= 0 then sz + n else sz
    {
      newsz := sz;
      if n > 0 {
        var panicked;
        newsz, panicked := mem.AllocUvm(d, sz, sz + n);
        if panicked { return Panic, 0; }
      } else if n < 0 {
        newsz := mem.DeallocUvm(d, sz, (sz + n + WRAP) % WRAP);
      }
      st := if newsz == 0 && n != 0 then Error else Done;
      if n > 0 && sz + n < KERNBASE && st.Error? {
        assert CutOwner(old(mem.View()).owner[d], mem.View().owner[d], d, RoundUp(sz), RoundUp(sz + n));
      }
    }

    /**
     growproc, for any thread in any state.  It panics exactly if a page ahead of the
     caller's size is mapped, by another thread, and kalloc does not fail first.  If sizes
     and pages were in step it does not, and they stay so exactly as StaysInStep says.
     */
    method GrowProc(p: nat, n: int) returns (st: Status)
      requires Valid() && p in procs && -0x8000_0000 <= n < 0x8000_0000
      modifies this, mem
      ensures st.Panic? <==> n > 0 && old(procs)[p].sz + n < KERNBASE && mem.misses == old(mem.misses)
                             && !Vacant(old(mem.View()), old(procs)[p].dir, RoundUp(old(procs)[p].sz), RoundUp(old(procs)[p].sz + n))
      ensures mem.misses >= old(mem.misses)
      ensures !st.Panic? ==> (st.Error? <==> Fails(old(procs)[p].sz, n, mem.misses > old(mem.misses)))
      ensures !st.Panic? ==> Valid() && procs == ResizedProcs(old(procs), p, n, st)
      ensures !st.Panic? ==> Resized(old(mem.View()), mem.View(), old(procs)[p].dir, old(procs)[p].sz, n, st)
      ensures !st.Panic? ==> AllKept(old(mem.View()), mem.View(), Others(old(procs), old(procs)[p].dir))
      ensures !st.Panic? ==> Keeps(old(mem.View()), mem.View(), old(procs)[p].dir, RoundUp(Shorter(old(procs)[p].sz, n)))
      ensures old(InStep(mem.View(), procs)) ==>
                !st.Panic? && (InStep(mem.View(), procs) <==> StaysInStep(old(procs), p, n, st))
    {
      ghost var m0 := mem.View();
      var d, sz: Word := procs[p].dir, procs[p].sz;
      if InStep(m0, procs) && n > 0 && sz + n < KERNBASE {
        SizeIsDemand(m0, d, sz, RoundUp(sz + n));
      }
      var newsz;
      st, newsz := Resize(d, sz, n);
      if st.Panic? { return; }
      ResizeIsSound(m0, mem.View(), procs, p, n, st);
      ResizedKeepsPages(m0, mem.View(), d, sz, n, st);
      if InStep(m0, procs) {
        ResizeIsExact(m0, mem.View(), procs, p, n, st);
      }
      SetSize(p, n, st, newsz);
    }

    /** `curproc->sz = sz` */
    method SetSize(p: nat, n: int, st: Status, newsz: nat)
      requires p in procs && (st.Done? ==> newsz == if procs[p].sz + n >= 0 then procs[p].sz + n else procs[p].sz)
      modifies this`procs
      ensures procs == ResizedProcs(old(procs), p, n, st)
    {
      if st.Done? {
        procs := procs[p := procs[p].(sz := newsz)];
      }
    }

    /** A new process and a thread of it. */
    method SpawnPair(p: nat, t: nat) returns (st: Status)
      requires Valid() && p !in procs && t !in procs && p != t
      modifies this, mem
      ensures Valid() && !st.Panic?
      ensures mem.misses >= old(mem.misses) && (st.Error? <==> mem.misses > old(mem.misses))
      ensures st.Done? ==> Threads(p, t) && procs[p].sz == 0 && SizeIs(mem.View(), procs[p].dir, 0)
    {
      st := Spawn(p);
      if st.Done? {
        Clone(p, t);
      }
    }

    /** Two threads of one address space, with the same size. */
    predicate Threads(p: nat, t: nat)
      reads this
    {
      p != t && p in procs && t in procs && procs[p] == procs[t]
    }

    /** One thread grows by a page; the other does not notice, but is out of step. */
    method GrowSibling(p: nat, t: nat) returns (st: Status)
      requires Valid() && Threads(p, t) && procs[p].sz + PGSIZE < KERNBASE
      modifies this, mem
      ensures mem.misses >= old(mem.misses) && (st.Error? ==> mem.misses > old(mem.misses))
      ensures st.Done? ==> Valid() && p in procs && procs[p] == old(procs)[p]
      ensures st.Done? ==> !Vacant(mem.View(), procs[p].dir, RoundUp(procs[p].sz), RoundUp(procs[p].sz + PGSIZE))
    {
      ghost var m0, d, sz := mem.View(), procs[p].dir, procs[p].sz;
      st := GrowProc(t, PGSIZE);
      if st.Done? {
        GrownIsAhead(m0, mem.View(), d, sz, PGSIZE, PGSIZE);
      }
    }

    /** After one of two threads grows, the next growth of the other is a panic, unless memory runs out before. */
    method BothGrow(p: nat, t: nat) returns (st: Status)
      requires Valid() && Threads(p, t) && procs[p].sz + PGSIZE < KERNBASE
      modifies this, mem
      ensures st.Panic? || mem.misses > old(mem.misses)
    {
      st := GrowSibling(p, t);
      if st.Done? {
        st := GrowProc(p, PGSIZE);
      }
    }

    method ShrinkSibling(p: nat, t: nat)
      requires Valid() && Threads(p, t) && procs[p].sz > PGSIZE
      modifies this, mem
      ensures mem.misses >= old(mem.misses) && Valid() && procs.Keys == old(procs).Keys && procs[p] == old(procs)[p]
      ensures !Populated(mem.View(), procs[p].dir, RoundUp(procs[p].sz))
    {
      ghost var m0, d, sz := mem.View(), procs[p].dir, procs[p].sz;
      var n: int := PGSIZE;
      var st := GrowProc(t, -n);
      ShrunkIsBehind(m0, mem.View(), d, RoundUp(sz - PGSIZE), RoundUp(sz));
    }

    /** After one of two threads shrinks, a fork of the other is a panic, unless memory runs out before. */
    method ShrinkAndFork(p: nat, t: nat, c: nat) returns (st: Status)
      requires Valid() && Threads(p, t) && procs[p].sz > PGSIZE && c !in procs
      modifies this, mem
      ensures st.Panic? || mem.misses > old(mem.misses)
    {
      ShrinkSibling(p, t);
      st := Fork(p, c);
    }

    /** That happens from every state in which two processes more are possible. */
    method ThreadGrowsFirst(p: nat, t: nat) returns (st: Status)
      requires Valid() && p !in procs && t !in procs && p != t
      modifies this, mem
      ensures st.Panic? || mem.misses > old(mem.misses)
    {
      st := SpawnPair(p, t);
      if st.Done? {
        st := BothGrow(p, t);
      }
    }
  }
}
