/**
 How physical memory may change while an address space is built up, shrunk or destroyed,
 and the steps of the virtual memory operations as such changes.
 */
module VirtualMemory {
  import opened Common
  import opened PageTables

  const WRITABLE: nat := 2     // PTE_W
  const USERMODE: nat := 4     // PTE_U

  // ------------------------------------------------------------------
  // How memory may change while something is built in address space d.

  /** Frame f belongs to the address space d. */
  predicate Mine(o: Owner, f: nat, d: nat) {
    (o.Dir? && f == d) || ((o.Table? || o.User?) && o.dir == d)
  }

  /** A frame stays what it was, or was free and now belongs to d or is the held frame h. */
  predicate Into(o: Owner, o': Owner, f: nat, d: nat, h: nat) {
    o' == o || (o.Free? && (Mine(o', f, d) || (o'.Held? && f == h)))
  }

  /** Frames that stay what they are, user pages and held ones, keep their contents. */
  ghost predicate DataKept(m: Mem, m': Mem) {
    && |m.pages| == |m'.pages| == |m.owner| == |m'.owner|
    && forall f: nat :: f < |m.owner| ==> PageKept(m, m', f)
  }

  ghost predicate PageKept(m: Mem, m': Mem, f: nat)
    requires f < |m.pages| == |m'.pages| == |m.owner| == |m'.owner|
  {
    m'.owner[f] == m.owner[f] && (m.owner[f].User? || m.owner[f].Held?) ==> m'.pages[f] == m.pages[f]
  }

  ghost predicate PteKept(m: Mem, m': Mem, e: nat, u: nat)
    requires |m.pages| == |m'.pages|
  {
    IsDir(m, e) && u < ALLPAGES ==> Pte(m', e, u) == Pte(m, e, u)
  }

  ghost predicate PtesKept(m: Mem, m': Mem)
    requires |m.pages| == |m'.pages|
  {
    forall e: nat, u: nat :: PteKept(m, m', e, u)
  }

  /** From m0 to m only address space d was built up; h, if not 0, is held on the side. */
  ghost predicate Built(m0: Mem, m: Mem, d: nat, h: nat) {
    && Good(m0) && Good(m) && IsDir(m, d) && DataKept(m0, m)
    && (forall f: nat :: f < |m.owner| ==> Into(m0.owner[f], m.owner[f], f, d, h))
    && forall e: nat, u: nat :: e != d ==> PteKept(m0, m, e, u)
  }

  lemma {:induction false} BuiltNothing(m: Mem, d: nat)
    requires Good(m) && IsDir(m, d)
    ensures Built(m, m, d, 0)
  {
  }

  /** One step more: the step changes no entry of other spaces and keeps data. */
  lemma {:induction false} BuiltStep(m0: Mem, m: Mem, m': Mem, d: nat, h: nat, h': nat)
    requires Built(m0, m, d, h) && Good(m') && DataKept(m, m')
    requires forall f: nat :: f < |m.owner| ==> Into(m0.owner[f], m'.owner[f], f, d, h')
    requires IsDir(m', d) && forall e: nat, u: nat :: e != d ==> PteKept(m, m', e, u)
    ensures Built(m0, m', d, h')
  {
    forall f: nat | f < |m.owner| ensures PageKept(m0, m', f) {
      assert PageKept(m0, m, f) && PageKept(m, m', f);
      assert Into(m0.owner[f], m.owner[f], f, d, h);
    }
    forall e: nat, u: nat | e != d ensures PteKept(m0, m', e, u) {
      assert PteKept(m0, m, e, u) && PteKept(m, m', e, u);
      if IsDir(m0, e) {
        assert Into(m0.owner[e], m.owner[e], e, d, h);
      }
    }
  }

  // ------------------------------------------------------------------
  // Taking pages of d away.

  predicate InRange(o: Owner, d: nat, lo: nat, hi: nat) {
    o.User? && o.dir == d && lo <= o.v < hi
  }

  /** Exactly the user pages lo..hi-1 of d are gone, and their frames are free. */
  ghost predicate Shrunk(m0: Mem, m: Mem, d: nat, lo: nat, hi: nat) {
    && Good(m0) && Good(m) && IsDir(m0, d) && DataKept(m0, m)
    && (forall f: nat :: f < |m.owner| ==> m.owner[f] == if InRange(m0.owner[f], d, lo, hi) then Free else m0.owner[f])
    && forall e: nat, u: nat :: ShrunkPte(m0, m, d, lo, hi, e, u)
  }

  ghost predicate ShrunkPte(m0: Mem, m: Mem, d: nat, lo: nat, hi: nat, e: nat, u: nat)
    requires |m.pages| == |m0.pages|
  {
    IsDir(m0, e) && u < ALLPAGES ==>
      Pte(m, e, u) == if e == d && lo <= u < hi && Present(Pte(m0, e, u)) then 0 else Pte(m0, e, u)
  }

  lemma {:induction false} ShrunkNothing(m: Mem, d: nat, lo: nat)
    requires Good(m) && IsDir(m, d)
    ensures Shrunk(m, m, d, lo, lo)
  {
  }

  /** Pages that are not mapped may be passed over. */
  lemma {:induction false} ShrunkSkip(m0: Mem, m: Mem, d: nat, lo: nat, v: nat, x: nat)
    requires Shrunk(m0, m, d, lo, v) && lo <= v <= x <= USERPAGES
    requires forall u: nat :: v <= u < x ==> !Present(Pte(m, d, u))
    ensures Shrunk(m0, m, d, lo, x)
  {
    forall e: nat, u: nat ensures ShrunkPte(m0, m, d, lo, x, e, u) {
      assert ShrunkPte(m0, m, d, lo, v, e, u);
    }
    forall f: nat | f < |m.owner| ensures !InRange(m0.owner[f], d, v, x) {
      assert FrameOk(m0, f);
      if m0.owner[f].User? && m0.owner[f].dir == d {
        assert ShrunkPte(m0, m, d, lo, v, d, m0.owner[f].v);
      }
    }
  }

  /** The frame mapped at page v is the one and only one that is about to be freed. */
  lemma {:induction false} ShrunkOwner(m0: Mem, m: Mem, d: nat, lo: nat, v: nat, c: nat)
    requires Shrunk(m0, m, d, lo, v) && lo <= v < USERPAGES && Present(Pte(m, d, v)) && c < |m.owner|
    ensures var o := if c == FrameOf(Pte(m, d, v)) then Free else m.owner[c];
            o == if InRange(m0.owner[c], d, lo, v + 1) then Free else m0.owner[c]
  {
    assert PteOk(m, d, v) && FrameOk(m, c) && FrameOk(m0, c);
  }

  /** The page v is unmapped and its frame freed. */
  lemma {:induction false} ShrunkOne(m0: Mem, m: Mem, d: nat, lo: nat, v: nat)
    requires Shrunk(m0, m, d, lo, v) && lo <= v < USERPAGES && HasTable(m, d, v) && Present(Pte(m, d, v))
    ensures 0 < FrameOf(Pte(m, d, v)) < |m.owner| && Good(Unmapped(m, d, v)) && Unmapped(m, d, v).head < MAXFRAMES
    ensures Shrunk(m0, Pushed(Unmapped(m, d, v), FrameOf(Pte(m, d, v))), d, lo, v + 1)
  {
    var f := FrameOf(Pte(m, d, v));
    UnmapKeepsGood(m, d, v);
    var m1 := Unmapped(m, d, v);
    PushKeepsGood(m1, f);
    var m' := Pushed(m1, f);
    EntryKeepsPde(m, d, v, 0, d);
    forall c: nat | c < |m.owner| ensures m'.owner[c] == if InRange(m0.owner[c], d, lo, v + 1) then Free else m0.owner[c] {
      ShrunkOwner(m0, m, d, lo, v, c);
    }
    forall c: nat | c < |m.owner| ensures PageKept(m0, m', c) {
      assert PageKept(m0, m, c);
    }
    var hi := v + 1;
    forall e: nat, u: nat ensures ShrunkPte(m0, m', d, lo, hi, e, u) {
      assert ShrunkPte(m0, m, d, lo, v, e, u);
    }
  }

  // ------------------------------------------------------------------
  // Steps that build.

  /** A frame is taken off the free list and filled. */
  ghost function Filled(m: Mem, p: Page): Mem
    requires m.free != [] && m.free[0] < |m.owner| == |m.pages|
  {
    Popped(m).(pages := m.pages[m.free[0] := p])
  }

  lemma {:induction false} HoldFrame(m: Mem, p: Page)
    requires Good(m) && m.free != []
    ensures 0 < m.free[0] < |m.owner| && Good(Popped(m)) && Good(Filled(m, p))
    ensures DataKept(m, Filled(m, p)) && PtesKept(m, Filled(m, p)) && PtesKept(m, Popped(m))
  {
    PopKeepsList(m);
    PopKeepsTables(m);
    var m1, m', f := Popped(m), Filled(m, p), m.free[0];
    LooseFrame(m1, f, p, Held);
    var m2 := m1.(pages := m1.pages[f := p], owner := m1.owner[f := Held]);
    assert m2.owner == m'.owner;
    ListUnchanged(m1, m');
    SameTables(m2, m');
    forall e: nat, u: nat ensures PteKept(m, m1, e, u) {
    }
    forall e: nat, u: nat ensures PteKept(m, m', e, u) {
    }
  }

  lemma {:induction false} HoldStep(m0: Mem, m: Mem, d: nat, p: Page)
    requires Built(m0, m, d, 0) && m.free != []
    ensures 0 < m.free[0] < |m.owner| && m0.owner[m.free[0]] == Free && Built(m0, Filled(m, p), d, m.free[0])
  {
    HoldFrame(m, p);
    assert Into(m0.owner[m.free[0]], m.owner[m.free[0]], m.free[0], d, 0) && LinkOk(m, 0);
    BuiltStep(m0, m, Filled(m, p), d, 0, m.free[0]);
  }

  /** walkpgdir adds a page table. */
  lemma {:induction false} TableStep(m0: Mem, m: Mem, d: nat, i: nat, h: nat)
    requires Built(m0, m, d, h) && m.free != [] && i < NENTRIES && !Present(m.pages[d][i])
    ensures 0 < m.free[0] < |m.owner| == |Popped(m).pages|
    ensures var m' := WithTable(Popped(m), d, i, m.free[0]);
            Built(m0, m', d, h) && DataKept(m, m') && PtesKept(m, m')
  {
    HoldFrame(m, ZeroPage());
    var f, m1 := m.free[0], Popped(m);
    assert LinkOk(m, 0) && Into(m0.owner[f], m.owner[f], f, d, h);
    TableKeepsGood(m1, d, i, f);
    var m' := WithTable(m1, d, i, f);
    forall e: nat, u: nat ensures PteKept(m, m', e, u) {
      if IsDir(m, e) && u < ALLPAGES {
        assert PteKept(m, m1, e, u);
        TableKeepsPte(m1, d, i, f, e, u);
      }
    }
    BuiltStep(m0, m, m', d, h, h);
  }

  /** mappages enters the held frame at user page v. */
  lemma {:induction false} UserStep(m0: Mem, m: Mem, d: nat, v: nat, f: nat, flags: nat)
    requires Built(m0, m, d, f) && HasTable(m, d, v) && v < USERPAGES && flags < PGSIZE
    requires 0 < f < |m.owner| && m.owner[f] == Held && m0.owner[f] == Free && !Present(Pte(m, d, v))
    ensures var m' := WithUser(m, d, v, f, flags);
            Built(m0, m', d, 0) && DataKept(m, m') && m'.pages[f] == m.pages[f]
  {
    var m' := WithUser(m, d, v, f, flags);
    UserKeepsGood(m, d, v, f, flags);
    EntryKeepsPde(m, d, v, MakeEntry(f, flags), d);
    forall e: nat, u: nat | e != d ensures PteKept(m, m', e, u) {
      if IsDir(m, e) && u < ALLPAGES {
        UserPte(m, d, v, f, flags, e, u);
      }
    }
    BuiltStep(m0, m, m', d, f, 0);
  }

  lemma {:induction false} KernelStep(m0: Mem, m: Mem, d: nat, v: nat, w: Word)
    requires Built(m0, m, d, 0) && HasTable(m, d, v) && v >= USERPAGES
    ensures Built(m0, WithEntry(m, d, v, w), d, 0) && DataKept(m, WithEntry(m, d, v, w))
  {
    var m' := WithEntry(m, d, v, w);
    KernelEntryKeepsGood(m, d, v, w);
    EntryKeepsPde(m, d, v, w, d);
    forall e: nat, u: nat | e != d ensures PteKept(m, m', e, u) {
      if IsDir(m, e) && u < ALLPAGES {
        EntryPte(m, d, v, w, e, u);
      }
    }
    BuiltStep(m0, m, m', d, 0, 0);
  }

  /** The held frame is given back. */
  lemma {:induction false} DropStep(m0: Mem, m: Mem, d: nat, f: nat)
    requires Built(m0, m, d, f) && 0 < f < |m.owner| && m.owner[f] == Held && m0.owner[f] == Free
    ensures m.head < MAXFRAMES && Built(m0, Pushed(m, f), d, 0)
    ensures DataKept(m, Pushed(m, f)) && PtesKept(m, Pushed(m, f))
  {
    PushKeepsGood(m, f);
    var m' := Pushed(m, f);
    forall e: nat, u: nat ensures PteKept(m, m', e, u) {
    }
    BuiltStep(m0, m, m', d, f, 0);
  }

  // ------------------------------------------------------------------
  // freevm.

  predicate TableBelow(o: Owner, d: nat, n: nat) {
    o.Table? && o.dir == d && o.i < n
  }

  /** The page tables of the first n directory entries are freed, nothing else has changed. */
  ghost predicate Freeing(m0: Mem, m: Mem, d: nat, n: nat) {
    && Sized(m) && ListOk(m) && |m.owner| == |m0.owner| == |m0.pages|
    && forall f: nat :: f < |m.owner| ==> FreeingAt(m0, m, d, n, f)
  }

  ghost predicate FreeingAt(m0: Mem, m: Mem, d: nat, n: nat, f: nat)
    requires f < |m.owner| == |m.pages| == |m0.owner| == |m0.pages|
  {
    && m.owner[f] == (if TableBelow(m0.owner[f], d, n) then Free else m0.owner[f])
    && (m.owner[f] != Free ==> m.pages[f] == m0.pages[f])
  }

  lemma {:induction false} FreeTable(m0: Mem, m: Mem, d: nat, n: nat)
    requires Good(m0) && IsDir(m0, d) && Freeing(m0, m, d, n) && n < NENTRIES && Present(m0.pages[d][n])
    ensures m.pages[d] == m0.pages[d]
    ensures var f := FrameOf(m0.pages[d][n]);
            0 < f < |m.owner| && m.owner[f] == Table(d, n) && m.head < MAXFRAMES && Freeing(m0, Pushed(m, f), d, n + 1)
  {
    assert PdeOk(m0, d, n) && FreeingAt(m0, m, d, n, d);
    var f := FrameOf(m0.pages[d][n]);
    assert FreeingAt(m0, m, d, n, f);
    PushKeepsList(m, f);
    var m', n' := Pushed(m, f), n + 1;
    forall c: nat | c < |m.owner| ensures FreeingAt(m0, m', d, n', c) {
      assert FreeingAt(m0, m, d, n, c) && FrameOk(m0, c);
    }
  }

  lemma {:induction false} NoTable(m0: Mem, m: Mem, d: nat, n: nat)
    requires Good(m0) && IsDir(m0, d) && Freeing(m0, m, d, n) && n < NENTRIES && !Present(m0.pages[d][n])
    ensures Freeing(m0, m, d, n + 1)
  {
    var n' := n + 1;
    forall c: nat | c < |m.owner| ensures FreeingAt(m0, m, d, n', c) {
      assert FreeingAt(m0, m, d, n, c) && FrameOk(m0, c);
    }
  }

  /** The address space d is gone: what belonged to it is free, everything else is as before. */
  ghost predicate Gone(m0: Mem, m: Mem, d: nat) {
    && Good(m) && DataKept(m0, m)
    && (forall f: nat :: f < |m.owner| ==> m.owner[f] == if Mine(m0.owner[f], f, d) then Free else m0.owner[f])
    && forall e: nat, u: nat :: e != d ==> PteKept(m0, m, e, u)
  }

  lemma {:induction false} FreeDirectory(m0: Mem, m: Mem, d: nat)
    requires Good(m0) && IsDir(m0, d) && Freeing(m0, m, d, NENTRIES)
    requires forall f: nat :: f < |m0.owner| ==> !InRange(m0.owner[f], d, 0, USERPAGES)
    ensures 0 < d < |m.owner| && m.owner[d] == Dir && m.head < MAXFRAMES && Gone(m0, Pushed(m, d), d)
  {
    assert FreeingAt(m0, m, d, NENTRIES, d);
    PushKeepsList(m, d);
    var m' := Pushed(m, d);
    forall f: nat | f < |m.owner|
      ensures m'.owner[f] == if Mine(m0.owner[f], f, d) then Free else m0.owner[f]
      ensures m'.owner[f] != Free ==> m'.pages[f] == m0.pages[f]
    {
      assert FreeingAt(m0, m, d, NENTRIES, f) && FrameOk(m0, f);
    }
    forall e: nat, u: nat | e != d ensures PteKept(m0, m', e, u) {
      if IsDir(m0, e) && u < ALLPAGES {
        assert PdeOk(m0, e, u / NENTRIES);
      }
    }
    OthersStay(m0, m', d);
  }

  lemma {:induction false} OthersStay(m0: Mem, m: Mem, d: nat)
    requires Good(m0) && IsDir(m0, d) && Sized(m) && |m.owner| == |m0.owner|
    requires forall f: nat :: f < |m.owner| ==> m.owner[f] == if Mine(m0.owner[f], f, d) then Free else m0.owner[f]
    requires forall f: nat :: f < |m.owner| && m.owner[f] != Free ==> m.pages[f] == m0.pages[f]
    requires forall e: nat, u: nat :: e != d ==> PteKept(m0, m, e, u)
    ensures TablesOk(m)
  {
    forall e: nat, n: nat | IsDir(m, e) && n < NENTRIES ensures PdeOk(m, e, n) {
      assert PdeOk(m0, e, n);
    }
    forall e: nat, u: nat | IsDir(m, e) && u < USERPAGES ensures PteOk(m, e, u) {
      assert PteOk(m0, e, u) && PteKept(m0, m, e, u);
    }
    forall c: nat | c < |m.owner| ensures FrameOk(m, c) {
      assert FrameOk(m0, c);
      if m.owner[c].User? {
        assert PteKept(m0, m, m.owner[c].dir, m.owner[c].v);
      }
    }
  }

  /** setupkvm's first step: a new, empty page directory */
  lemma {:induction false} DirStep(m: Mem)
    requires Good(m) && m.free != []
    ensures 0 < m.free[0] < |m.owner| == |Popped(m).pages| && m.owner[m.free[0]] == Free
    ensures var m' := WithDir(Popped(m), m.free[0]);
            Built(m, m', m.free[0], 0) && forall u: nat :: u < ALLPAGES ==> Pte(m', m.free[0], u) == 0
  {
    HoldFrame(m, ZeroPage());
    assert LinkOk(m, 0);
    var f, m1 := m.free[0], Popped(m);
    DirKeepsGood(m1, f);
    var m' := WithDir(m1, f);
    forall e: nat, u: nat | e != f ensures PteKept(m, m', e, u) {
      assert PteKept(m, m1, e, u);
    }
  }

  /** Building an address space and destroying it again gives every frame back. */
  lemma {:induction false} BuiltAndGone(m0: Mem, m: Mem, m': Mem, d: nat)
    requires Built(m0, m, d, 0) && Gone(m, m', d) && m0.owner[d] == Free
    ensures m'.owner == m0.owner && DataKept(m0, m') && PtesKept(m0, m')
  {
    forall f: nat | f < |m.owner| ensures m'.owner[f] == m0.owner[f] && PageKept(m0, m', f) {
      assert FrameOk(m0, f) && Into(m0.owner[f], m.owner[f], f, d, 0) && PageKept(m0, m, f) && PageKept(m, m', f);
    }
    forall e: nat, u: nat ensures PteKept(m0, m', e, u) {
      assert e != d ==> PteKept(m0, m, e, u) && PteKept(m, m', e, u);
      if IsDir(m0, e) {
        assert Into(m0.owner[e], m.owner[e], e, d, 0);
      }
    }
  }

  /** After a failed growth d has no page it did not have, and keeps at most new page tables. */
  ghost predicate RolledBack(m0: Mem, m: Mem, d: nat) {
    && Good(m) && DataKept(m0, m)
    && (forall f: nat :: f < |m.owner| ==> m.owner[f] == m0.owner[f] || (m0.owner[f].Free? && m.owner[f].Table? && m.owner[f].dir == d))
    && forall e: nat, u: nat :: SamePage(m0, m, e, u)
  }

  ghost predicate SamePage(m0: Mem, m: Mem, e: nat, u: nat)
    requires |m.pages| == |m0.pages|
  {
    IsDir(m0, e) && u < ALLPAGES ==> Pte(m, e, u) == Pte(m0, e, u) || (!Present(Pte(m, e, u)) && !Present(Pte(m0, e, u)))
  }

  predicate CutOwner(o: Owner, o': Owner, d: nat, lo: nat, hi: nat) {
    if InRange(o, d, lo, hi) then o' == Free else o' == o || (o.Free? && o'.Table? && o'.dir == d)
  }

  ghost predicate CutPage(m0: Mem, m: Mem, d: nat, lo: nat, hi: nat, e: nat, u: nat)
    requires |m.pages| == |m0.pages|
  {
    if e == d && lo <= u < hi then u < ALLPAGES && e < |m.pages| ==> !Present(Pte(m, e, u)) else PteKept(m0, m, e, u)
  }

  /**
   What a growth of d from lo to hi pages leaves when it fails: none of these pages is
   mapped, also none that was before; every other page is as before, and d keeps at most
   new page tables.
   */
  ghost predicate CutBack(m0: Mem, m: Mem, d: nat, lo: nat, hi: nat) {
    && Good(m) && DataKept(m0, m)
    && (forall f: nat :: f < |m.owner| ==> CutOwner(m0.owner[f], m.owner[f], d, lo, hi))
    && forall e: nat, u: nat :: CutPage(m0, m, d, lo, hi, e, u)
  }

  /** From m0 to m the pages lo..v-1 of d were entered; then lo..hi-1 are taken away. */
  ghost predicate Undone(m0: Mem, m: Mem, m': Mem, d: nat, h: nat, lo: nat, v: nat, hi: nat) {
    && Built(m0, m, d, h) && IsDir(m0, d) && Shrunk(m, m', d, lo, hi) && lo <= v <= hi <= USERPAGES
    && forall u: nat :: !(lo <= u < v) ==> PteKept(m0, m, d, u)
  }

  lemma {:induction false} UndoneOwner(m0: Mem, m: Mem, m': Mem, d: nat, h: nat, lo: nat, v: nat, hi: nat, f: nat)
    requires Undone(m0, m, m', d, h, lo, v, hi) && f < |m.owner|
    ensures PageKept(m0, m', f)
    ensures CutOwner(m0.owner[f], m'.owner[f], d, lo, hi) || (m0.owner[f] == Free && m'.owner[f] == Held && f == h)
  {
    assert Into(m0.owner[f], m.owner[f], f, d, h) && PageKept(m0, m, f) && PageKept(m, m', f) && FrameOk(m, f);
    if m.owner[f].User? && m0.owner[f].Free? && !(lo <= m.owner[f].v < v) {
      assert PteKept(m0, m, d, m.owner[f].v) && PteOk(m0, d, m.owner[f].v);
    }
  }

  lemma {:induction false} UndonePage(m0: Mem, m: Mem, m': Mem, d: nat, h: nat, lo: nat, v: nat, hi: nat, e: nat, u: nat)
    requires Undone(m0, m, m', d, h, lo, v, hi)
    ensures CutPage(m0, m', d, lo, hi, e, u)
  {
    assert ShrunkPte(m, m', d, lo, hi, e, u);
    if !(e == d && lo <= u < hi) {
      assert PteKept(m0, m, e, u);
      if IsDir(m0, e) {
        assert Into(m0.owner[e], m.owner[e], e, d, h);
      }
    }
  }

  lemma {:induction false} NothingHeld(m0: Mem, m: Mem, m': Mem, d: nat, lo: nat, v: nat, hi: nat)
    requires Undone(m0, m, m', d, 0, lo, v, hi)
    ensures CutBack(m0, m', d, lo, hi)
  {
    forall f: nat | f < |m.owner| ensures PageKept(m0, m', f) && CutOwner(m0.owner[f], m'.owner[f], d, lo, hi) {
      UndoneOwner(m0, m, m', d, 0, lo, v, hi, f);
      assert FrameOk(m0, f);
    }
    forall e: nat, u: nat ensures CutPage(m0, m', d, lo, hi, e, u) {
      UndonePage(m0, m, m', d, 0, lo, v, hi, e, u);
    }
  }

  /** The frame that could not be mapped is given back last. */
  lemma {:induction false} HeldDropped(m0: Mem, m: Mem, m': Mem, d: nat, h: nat, lo: nat, v: nat, hi: nat)
    requires Undone(m0, m, m', d, h, lo, v, hi) && 0 < h < |m'.owner| && m'.owner[h] == Held && m0.owner[h] == Free
    ensures m'.head < MAXFRAMES && CutBack(m0, Pushed(m', h), d, lo, hi)
  {
    PushKeepsGood(m', h);
    var m2 := Pushed(m', h);
    forall f: nat | f < |m.owner| ensures PageKept(m0, m2, f) && CutOwner(m0.owner[f], m2.owner[f], d, lo, hi) {
      UndoneOwner(m0, m, m', d, h, lo, v, hi, f);
    }
    forall e: nat, u: nat ensures CutPage(m0, m2, d, lo, hi, e, u) {
      UndonePage(m0, m, m', d, h, lo, v, hi, e, u);
      if e < |m.owner| {
        assert Into(m0.owner[e], m.owner[e], e, d, h);
      }
    }
  }

  /** No page from lo to hi-1 is mapped. */
  ghost predicate Vacant(m: Mem, d: nat, lo: nat, hi: nat) {
    d < |m.pages| && hi <= ALLPAGES && forall u: nat :: lo <= u < hi ==> !Present(Pte(m, d, u))
  }

  /** A failed growth of an address space that was itself being built leaves it so. */
  lemma {:induction false} CutStep(m0: Mem, m: Mem, m': Mem, d: nat, lo: nat, hi: nat)
    requires Built(m0, m, d, 0) && CutBack(m, m', d, lo, hi) && Vacant(m, d, lo, hi) && hi <= USERPAGES
    ensures Built(m0, m', d, 0)
  {
    forall f: nat | f < |m.owner| ensures Into(m0.owner[f], m'.owner[f], f, d, 0) {
      assert Into(m0.owner[f], m.owner[f], f, d, 0) && CutOwner(m.owner[f], m'.owner[f], d, lo, hi) && FrameOk(m, f);
    }
    forall e: nat, u: nat | e != d ensures PteKept(m, m', e, u) {
      assert CutPage(m, m', d, lo, hi, e, u);
    }
    assert CutOwner(m.owner[d], m'.owner[d], d, lo, hi);
    BuiltStep(m0, m, m', d, 0, 0);
  }

  /** What is built in two stages is built. */
  lemma {:induction false} BuiltTwice(m0: Mem, m: Mem, m': Mem, d: nat)
    requires Built(m0, m, d, 0) && Built(m, m', d, 0)
    ensures Built(m0, m', d, 0)
  {
    forall f: nat | f < |m.owner| ensures Into(m0.owner[f], m'.owner[f], f, d, 0) {
      assert Into(m0.owner[f], m.owner[f], f, d, 0) && Into(m.owner[f], m'.owner[f], f, d, 0);
    }
    BuiltStep(m0, m, m', d, 0, 0);
  }

  /** If none of the pages was mapped before, a failed growth changes no mapping at all. */
  lemma {:induction false} RollBack(m0: Mem, m: Mem, d: nat, lo: nat, hi: nat)
    requires Good(m0) && IsDir(m0, d) && CutBack(m0, m, d, lo, hi) && Vacant(m0, d, lo, hi) && hi <= USERPAGES
    ensures RolledBack(m0, m, d)
  {
    forall f: nat | f < |m.owner|
      ensures m.owner[f] == m0.owner[f] || (m0.owner[f].Free? && m.owner[f].Table? && m.owner[f].dir == d)
    {
      assert CutOwner(m0.owner[f], m.owner[f], d, lo, hi) && FrameOk(m0, f);
    }
    forall e: nat, u: nat ensures SamePage(m0, m, e, u) {
      assert CutPage(m0, m, d, lo, hi, e, u);
    }
  }

  // ------------------------------------------------------------------
  // What the page tables say about the frames.

  /** No frame is mapped twice, free while mapped, or lost. */
  lemma {:induction false} FrameIsInOnePlace(m: Mem, f: nat)
    requires Good(m) && f < |m.owner|
    ensures m.owner[f] == Free <==> f in m.free
    ensures forall d: nat, v: nat :: IsDir(m, d) && v < USERPAGES ==>
              (m.owner[f] == User(d, v) <==> Present(Pte(m, d, v)) && FrameOf(Pte(m, d, v)) == f)
    ensures forall d: nat, i: nat :: IsDir(m, d) && i < NENTRIES ==>
              (m.owner[f] == Table(d, i) <==> Present(m.pages[d][i]) && FrameOf(m.pages[d][i]) == f)
  {
    assert FrameOk(m, f);
    if f in m.free {
      var k: nat :| k < |m.free| && m.free[k] == f;
      assert LinkOk(m, k);
    }
    forall d: nat, v: nat | IsDir(m, d) && v < USERPAGES
      ensures m.owner[f] == User(d, v) <==> Present(Pte(m, d, v)) && FrameOf(Pte(m, d, v)) == f
    {
      assert PteOk(m, d, v);
    }
    forall d: nat, i: nat | IsDir(m, d) && i < NENTRIES
      ensures m.owner[f] == Table(d, i) <==> Present(m.pages[d][i]) && FrameOf(m.pages[d][i]) == f
    {
      assert PdeOk(m, d, i);
    }
  }

  /** Two different user pages, of one or of two address spaces, never share a frame. */
  lemma {:induction false} UserPagesAreApart(m: Mem, d: nat, v: nat, e: nat, u: nat)
    requires Good(m) && IsDir(m, d) && IsDir(m, e) && v < USERPAGES && u < USERPAGES && (d, v) != (e, u)
    requires Present(Pte(m, d, v)) && Present(Pte(m, e, u))
    ensures FrameOf(Pte(m, d, v)) != FrameOf(Pte(m, e, u))
  {
    assert PteOk(m, d, v) && PteOk(m, e, u);
  }

  // ------------------------------------------------------------------
  // The kernel's part of every address space.

  const EXTMEM: nat := 0x10_0000
  const PHYSTOP: nat := 0xE00_0000
  const DEVSPACE: nat := 0xFE00_0000

  datatype Kmap = Kmap(virt: Word, physStart: Word, physEnd: Word, perm: nat)

  /** The kernel's mappings; data is the physical address where its writable data starts. */
  function KernelMap(data: Word): seq<Kmap>
    requires EXTMEM < data < PHYSTOP
  {
    [ Kmap(KERNBASE, 0, EXTMEM, WRITABLE),
      Kmap(KERNBASE + EXTMEM, EXTMEM, data, 0),
      Kmap(KERNBASE + data, data, PHYSTOP, WRITABLE),
      Kmap(DEVSPACE, DEVSPACE, 0, WRITABLE) ]
  }

  /** 32-bit subtraction */
  function Size(k: Kmap): Word {
    (k.physEnd - k.physStart) % WRAP
  }

  function First(va: Word): nat { va / PGSIZE }
  function Last(va: Word, size: Word): nat { (va + size + WRAP - 1) % WRAP / PGSIZE }

  /** The entry for page u once the first n kernel mappings are in */
  function KernelEntry(data: Word, n: nat, u: nat): Word
    requires EXTMEM < data < PHYSTOP && n <= 4
  {
    if n == 0 then 0
    else
      var k := KernelMap(data)[n - 1];
      if First(k.virt) <= u <= Last(k.virt, Size(k)) && u < ALLPAGES then
        MakeEntry(k.physStart / PGSIZE + (u - First(k.virt)), k.perm)
      else KernelEntry(data, n - 1, u)
  }

  /** The mappings lie one above the other, and the last ends with the last page. */
  lemma {:induction false} MappingSpan(data: Word, n: nat)
    requires EXTMEM < data < PHYSTOP && data % PGSIZE == 0 && n < 4
    ensures var k := KernelMap(data)[n];
            && USERPAGES <= First(k.virt) <= Last(k.virt, Size(k)) < (if n < 3 then First(KernelMap(data)[n + 1].virt) else ALLPAGES)
            && k.physStart / PGSIZE + (Last(k.virt, Size(k)) - First(k.virt)) < ALLPAGES
  {
    if n == 0 {
      assert Last(KERNBASE, EXTMEM) == 0x8_00FF;
    } else if n == 1 {
      var k := KernelMap(data)[1];
      assert Size(k) == data - EXTMEM && Last(k.virt, Size(k)) == (KERNBASE + data - 1) / PGSIZE;
    } else if n == 2 {
      var k := KernelMap(data)[2];
      assert Size(k) == PHYSTOP - data && Last(k.virt, Size(k)) == (KERNBASE + PHYSTOP - 1) / PGSIZE;
    } else {
      var k := KernelMap(data)[3];
      assert Size(k) == 0x200_0000 && Last(k.virt, Size(k)) == 0xF_FFFF;
    }
  }

  lemma {:induction false} MappingsAscend(data: Word, n: nat, u: nat)
    requires EXTMEM < data < PHYSTOP && data % PGSIZE == 0 && n < 4 && u >= First(KernelMap(data)[n].virt)
    ensures KernelEntry(data, n, u) == 0
  {
    if n > 0 {
      MappingSpan(data, n - 1);
      MappingsAscend(data, n - 1, u);
    }
  }

  /**
   What the kernel's part of every address space is: physical memory below PHYSTOP at its
   own offset from KERNBASE and devices at their own addresses, never for user mode, and
   writable except where the kernel's text and read-only data are.
   */
  lemma {:induction false} KernelPages(data: Word, u: nat)
    requires EXTMEM < data < PHYSTOP && data % PGSIZE == 0 && u < ALLPAGES
    ensures var w, va := KernelEntry(data, 4, u), u * PGSIZE;
            && (Present(w) <==> KERNBASE <= va < KERNBASE + PHYSTOP || DEVSPACE <= va)
            && (Present(w) ==> FrameOf(w) * PGSIZE == if va < DEVSPACE then va - KERNBASE else va)
            && (Present(w) ==> FlagsOf(w) == if KERNBASE + EXTMEM <= va < KERNBASE + data then 1 else 1 + WRITABLE)
            && (!Present(w) ==> w == 0)
  {
    KernelEntryCases(data, u);
  }

  lemma {:induction false} KernelEntryCases(data: Word, u: nat)
    requires EXTMEM < data < PHYSTOP && data % PGSIZE == 0 && u < ALLPAGES
    ensures KernelEntry(data, 4, u) ==
            if u >= First(DEVSPACE) then MakeEntry(u, WRITABLE)
            else if First(KERNBASE + data) <= u < First(KERNBASE + PHYSTOP) then MakeEntry(u - USERPAGES, WRITABLE)
            else if First(KERNBASE + EXTMEM) <= u < First(KERNBASE + data) then MakeEntry(u - USERPAGES, 0)
            else if USERPAGES <= u < First(KERNBASE + EXTMEM) then MakeEntry(u - USERPAGES, WRITABLE)
            else 0
  {
    assert KernelEntry(data, 0, u) == 0;
    LowEntry(data, u);
    TextEntry(data, u);
    DataEntry(data, u);
    DeviceEntry(data, u);
  }

  lemma LowEntry(data: Word, u: nat)
    requires EXTMEM < data < PHYSTOP && u < ALLPAGES
    ensures KernelEntry(data, 1, u) ==
            if USERPAGES <= u < First(KERNBASE + EXTMEM) then MakeEntry(u - USERPAGES, WRITABLE) else KernelEntry(data, 0, u)
  {
    assert Last(KERNBASE, EXTMEM) == 0x8_00FF;
  }

  lemma TextEntry(data: Word, u: nat)
    requires EXTMEM < data < PHYSTOP && data % PGSIZE == 0 && u < ALLPAGES
    ensures KernelEntry(data, 2, u) ==
            if First(KERNBASE + EXTMEM) <= u < First(KERNBASE + data) then MakeEntry(u - USERPAGES, 0) else KernelEntry(data, 1, u)
  {
    var k := KernelMap(data)[1];
    assert Size(k) == data - EXTMEM && Last(k.virt, Size(k)) == (KERNBASE + data - 1) / PGSIZE;
  }

  lemma DataEntry(data: Word, u: nat)
    requires EXTMEM < data < PHYSTOP && data % PGSIZE == 0 && u < ALLPAGES
    ensures KernelEntry(data, 3, u) ==
            if First(KERNBASE + data) <= u < First(KERNBASE + PHYSTOP) then MakeEntry(u - USERPAGES, WRITABLE) else KernelEntry(data, 2, u)
  {
    var k := KernelMap(data)[2];
    assert Size(k) == PHYSTOP - data && Last(k.virt, Size(k)) == (KERNBASE + PHYSTOP - 1) / PGSIZE;
  }

  lemma DeviceEntry(data: Word, u: nat)
    requires EXTMEM < data < PHYSTOP && u < ALLPAGES
    ensures KernelEntry(data, 4, u) == if u >= First(DEVSPACE) then MakeEntry(u, WRITABLE) else KernelEntry(data, 3, u)
  {
    var k := KernelMap(data)[3];
    assert Size(k) == 0x200_0000 && Last(k.virt, Size(k)) == 0xF_FFFF;
  }

  /** The kernel maps nothing below KERNBASE. */
  lemma {:induction false} NoUserEntry(data: Word, n: nat, u: nat)
    requires EXTMEM < data < PHYSTOP && data % PGSIZE == 0 && n <= 4 && u < USERPAGES
    ensures KernelEntry(data, n, u) == 0
  {
    if n > 0 {
      MappingSpan(data, n - 1);
      NoUserEntry(data, n - 1, u);
    }
  }
}
