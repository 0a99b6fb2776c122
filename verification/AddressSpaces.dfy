/**
 The kernel's operations on physical memory and address spaces, as they update pages in
 place.
 */
module AddressSpaces {
  import opened PageTables
  import opened VirtualMemory

  /** A page allocated by allocuvm: zeroed, writable, for the user. */
  ghost predicate FreshPage(m: Mem, d: nat, u: nat) {
    && IsDir(m, d) && u < USERPAGES && Present(Pte(m, d, u)) && FlagsOf(Pte(m, d, u)) == 7
    && FrameOf(Pte(m, d, u)) < |m.pages| && m.pages[FrameOf(Pte(m, d, u))] == ZeroPage()
  }

  /** Page u of d is a copy of page u of p as it was in m0. */
  ghost predicate CopiedPage(m0: Mem, m: Mem, p: nat, d: nat, u: nat) {
    && IsDir(m0, p) && IsDir(m, d) && u < USERPAGES
    && Present(Pte(m, d, u)) && FlagsOf(Pte(m, d, u)) == FlagsOf(Pte(m0, p, u))
    && FrameOf(Pte(m, d, u)) < |m.pages| && FrameOf(Pte(m0, p, u)) < |m0.pages|
    && m.pages[FrameOf(Pte(m, d, u))] == m0.pages[FrameOf(Pte(m0, p, u))]
  }

  /** d has gained the fresh pages lo..hi-1 and nothing else, on frames that were free. */
  ghost predicate Grown(m0: Mem, m: Mem, d: nat, lo: nat, hi: nat) {
    Growing(m0, m, d, lo, hi, 0)
  }

  /** The same, while the frame h is held. */
  ghost predicate Growing(m0: Mem, m: Mem, d: nat, lo: nat, hi: nat, h: nat) {
    && Built(m0, m, d, h) && IsDir(m0, d)
    && (forall u: nat :: lo <= u < hi ==> FreshPage(m, d, u))
    && forall u: nat :: !(lo <= u < hi) ==> PteKept(m0, m, d, u)
  }

  /** Only the entry for page v of d has changed. */
  ghost predicate OnlyEntry(m: Mem, m': Mem, d: nat, v: nat, w: Word)
    requires |m.pages| == |m'.pages|
  {
    && IsDir(m, d) && v < ALLPAGES && Pte(m', d, v) == w
    && forall u: nat :: u != v ==> PteKept(m, m', d, u)
  }

  function RoundUp(sz: nat): nat { (sz + PGSIZE - 1) / PGSIZE }

  class Memory {
    var pages: seq<Page>
    var head: nat                 // kmem.freelist, 0 for none
    ghost var owner: seq<Owner>
    ghost var free: seq<nat>
    ghost var misses: nat         // how often kalloc has found the free list empty

    ghost function View(): Mem
      reads this
    {
      Mem(pages, head, owner, free)
    }

    /** kinit1 and kinit2: freerange puts the frames from first on, the first after the kernel, on the free list. */
    constructor (memory: seq<Page>, first: nat)
      requires 0 < first <= |memory| <= MAXFRAMES
      ensures Good(View()) && |owner| == |memory|
      ensures forall f: nat :: f < |memory| ==> owner[f] == if f < first then Outside else Free
      ensures forall f: nat :: f < first ==> pages[f] == memory[f]
    {
      pages, head := memory, 0;
      owner, free := seq(|memory|, f => if f < first then Outside else Held), [];
      new;
      for p := first to |memory|
        invariant Good(View()) && |owner| == |memory|
        invariant forall f: nat :: f < |memory| ==> owner[f] == if f < first then Outside else if f < p then Free else Held
        invariant forall f: nat :: f < first ==> pages[f] == memory[f]
      {
        PushKeepsGood(View(), p);
        Kfree(p);
      }
    }

    method Kalloc() returns (f: nat)
      requires Good(View())
      modifies this
      ensures f == 0 <==> old(free) == []
      ensures misses == old(misses) + if f == 0 then 1 else 0
      ensures f == 0 ==> View() == old(View())
      ensures f != 0 ==> f == old(free[0]) && f < |old(owner)| && View() == Popped(old(View()))
    {
      f := head;
      assert free != [] ==> LinkOk(View(), 0);
      if f != 0 {
        LinkRoundTrip(At(free, 1));
        head := LinkFrame(pages[f][0]);
        owner := owner[f := Held];
        free := free[1..];
      } else {
        misses := misses + 1;
      }
    }

    /** kfree panics on a frame that is not the allocator's. */
    method Kfree(f: nat)
      requires Sized(View()) && f < |owner| && owner[f] != Outside && head < MAXFRAMES
      modifies this
      ensures View() == Pushed(old(View()), f) && misses == old(misses)
      ensures head == f && forall i :: 0 < i < NENTRIES ==> pages[f][i] == 0x0101_0101
    {
      pages := pages[f := JunkPage()];
      pages := pages[f := pages[f][0 := LinkWord(head)]];
      head := f;
      owner := owner[f := Free];
      free := [f] + free;
      assert pages == old(pages)[f := JunkPage()[0 := LinkWord(old(head))]];
    }

    /** walkpgdir: afterwards, if ok, there is a page table for page v. */
    method WalkPgdir(d: nat, v: nat, alloc: bool, ghost m0: Mem, ghost h: nat) returns (ok: bool)
      requires Built(m0, View(), d, h) && v < ALLPAGES
      modifies this
      ensures Built(m0, View(), d, h) && DataKept(old(View()), View()) && PtesKept(old(View()), View())
      ensures ok ==> HasTable(View(), d, v)
      ensures !ok ==> View() == old(View()) && !HasTable(View(), d, v)
      ensures misses == old(misses) + if alloc && !ok then 1 else 0
      ensures HasTable(old(View()), d, v) || !alloc ==> View() == old(View())
      ensures h < |owner| && old(owner[h]) == Held ==> owner[h] == Held
    {
      var i := v / NENTRIES;
      assert PdeOk(View(), d, i);
      if Present(pages[d][i]) {
        ok := true;
      } else if !alloc {
        ok := false;
      } else {
        var f := Kalloc();
        if f == 0 { return false; }
        TableStep(m0, old(View()), d, i, h);
        assert LinkOk(old(View()), 0);
        pages := pages[f := ZeroPage()];
        pages := pages[d := pages[d][i := MakeEntry(f, 7)]];
        owner := owner[f := Table(d, i)];
        assert View() == WithTable(Popped(old(View())), d, i, f);
        ok := true;
      }
    }

    /** mappages for the one page of a held frame; an entry in use is a panic. */
    method MapUser(d: nat, v: nat, f: nat, perm: nat, ghost m0: Mem) returns (ok: bool, panicked: bool)
      requires Built(m0, View(), d, f) && v < USERPAGES && perm < PGSIZE
      requires 0 < f < |owner| && owner[f] == Held && m0.owner[f] == Free
      modifies this
      ensures panicked <==> Present(old(Pte(View(), d, v)))
      ensures panicked ==> !ok && View() == old(View())
      ensures DataKept(old(View()), View())
      ensures ok ==> Built(m0, View(), d, 0) && OnlyEntry(old(View()), View(), d, v, MakeEntry(f, perm)) && pages[f] == old(pages[f])
      ensures !ok ==> Built(m0, View(), d, f) && PtesKept(old(View()), View()) && owner[f] == Held
      ensures misses == old(misses) + if !ok && !panicked then 1 else 0
    {
      panicked := false;
      ok := WalkPgdir(d, v, true, m0, f);
      if !ok { return; }
      ghost var m1 := View();
      assert PteKept(old(View()), m1, d, v) && PageKept(old(View()), m1, f);
      var t, n := FrameOf(pages[d][v / NENTRIES]), v % NENTRIES;
      if Present(pages[t][n]) { return false, true; }
      UserStep(m0, m1, d, v, f, perm);
      pages := pages[t := pages[t][n := MakeEntry(f, perm)]];
      owner := owner[f := User(d, v)];
      assert View() == WithUser(m1, d, v, f, perm);
      forall u: nat ensures u != v ==> PteKept(old(View()), View(), d, u) {
        assert PteKept(old(View()), m1, d, u);
        if u < ALLPAGES { UserPte(m1, d, v, f, perm, d, u); }
      }
      UserPte(m1, d, v, f, perm, d, v);
      forall c: nat | c < |owner| ensures PageKept(old(View()), View(), c) {
        assert PageKept(old(View()), m1, c) && PageKept(m1, View(), c);
      }
    }

    /** mappages for a range of kernel pages; an entry in use is a panic. */
    method MapKernel(d: nat, va: Word, size: Word, pa: Word, perm: nat, ghost m0: Mem) returns (ok: bool)
      requires Built(m0, View(), d, 0) && perm < PGSIZE
      requires USERPAGES <= First(va) <= Last(va, size)
      requires pa / PGSIZE + (Last(va, size) - First(va)) < ALLPAGES
      requires forall u: nat :: First(va) <= u <= Last(va, size) ==> !Present(Pte(View(), d, u))
      modifies this
      ensures Built(m0, View(), d, 0)
      ensures ok ==> forall u: nat :: u < ALLPAGES ==>
                Pte(View(), d, u) == if First(va) <= u <= Last(va, size) then MakeEntry(pa / PGSIZE + (u - First(va)), perm)
                                     else old(Pte(View(), d, u))
      ensures misses == old(misses) + if !ok then 1 else 0
    {
      var a, last, frame := First(va), Last(va, size), pa / PGSIZE;
      while true
        invariant Built(m0, View(), d, 0) && misses == old(misses)
        invariant First(va) <= a <= last && frame == pa / PGSIZE + (a - First(va))
        invariant forall u: nat :: u < ALLPAGES ==>
                    Pte(View(), d, u) == if First(va) <= u < a then MakeEntry(pa / PGSIZE + (u - First(va)), perm)
                                         else old(Pte(View(), d, u))
        decreases last - a
      {
        ok := MapKernelPage(d, a, frame, perm, m0);
        if !ok || a == last { return; }
        a := a + 1;
        frame := frame + 1;
      }
    }

    method MapKernelPage(d: nat, v: nat, frame: nat, perm: nat, ghost m0: Mem) returns (ok: bool)
      requires Built(m0, View(), d, 0) && perm < PGSIZE && USERPAGES <= v < ALLPAGES && frame < ALLPAGES
      modifies this
      ensures Built(m0, View(), d, 0)
      ensures ok ==> forall u: nat :: u < ALLPAGES ==>
                Pte(View(), d, u) == if u == v then MakeEntry(frame, perm) else old(Pte(View(), d, u))
      ensures misses == old(misses) + if !ok then 1 else 0
    {
      ok := WalkPgdir(d, v, true, m0, 0);
      if !ok { return; }
      ghost var m1 := View();
      var w := MakeEntry(frame, perm);
      KernelStep(m0, m1, d, v, w);
      var t, n := FrameOf(pages[d][v / NENTRIES]), v % NENTRIES;
      pages := pages[t := pages[t][n := w]];
      assert View() == WithEntry(m1, d, v, w);
      forall u: nat | u < ALLPAGES ensures Pte(View(), d, u) == if u == v then w else old(Pte(View(), d, u)) {
        assert PteKept(old(View()), m1, d, u);
        EntryPte(m1, d, v, w, d, u);
      }
    }

    /** deallocuvm: pages beyond newsz go; sizes need not be page-aligned. */
    method DeallocUvm(d: nat, oldsz: Word, newsz: Word) returns (sz: Word)
      requires Good(View()) && IsDir(View(), d) && oldsz <= KERNBASE
      modifies this
      ensures sz == if newsz < oldsz then newsz else oldsz
      ensures newsz >= oldsz ==> View() == old(View())
      ensures Shrunk(old(View()), View(), d, RoundUp(newsz), if newsz < oldsz then RoundUp(oldsz) else RoundUp(newsz))
      ensures misses == old(misses)
    {
      ghost var m0, lo, hi := View(), RoundUp(newsz), RoundUp(oldsz);
      ShrunkNothing(m0, d, lo);
      if newsz >= oldsz { return oldsz; }
      var v := RoundUp(newsz);            // a / PGSIZE
      while v * PGSIZE < oldsz
        invariant lo <= v && misses == old(misses) && Shrunk(m0, View(), d, lo, if v < hi then v else hi)
        decreases USERPAGES - v
      {
        assert v < hi <= USERPAGES;
        var present := HasPageTable(d, v);
        if !present {
          var next := (v / NENTRIES + 1) * NENTRIES;
          SkipDirectory(d, v, m0, lo, if next < hi then next else hi);
          v := next;
        } else {
          FreeIfPresent(d, v, m0, lo);
          v := v + 1;
        }
      }
      return newsz;
    }

    /** walkpgdir without allocation */
    method HasPageTable(d: nat, v: nat) returns (present: bool)
      requires Good(View()) && IsDir(View(), d) && v < ALLPAGES
      ensures present == HasTable(View(), d, v)
    {
      assert PdeOk(View(), d, v / NENTRIES);
      present := Present(pages[d][v / NENTRIES]);
    }

    lemma SkipDirectory(d: nat, v: nat, m0: Mem, lo: nat, x: nat)
      requires Shrunk(m0, View(), d, lo, v) && lo <= v <= x <= USERPAGES && v < ALLPAGES && !HasTable(View(), d, v)
      requires x <= (v / NENTRIES + 1) * NENTRIES
      ensures Shrunk(m0, View(), d, lo, x)
    {
      forall u: nat | v <= u < x ensures !Present(Pte(View(), d, u)) {
        assert u / NENTRIES == v / NENTRIES;
        assert !HasTable(View(), d, u);
      }
      ShrunkSkip(m0, View(), d, lo, v, x);
    }

    method FreeIfPresent(d: nat, v: nat, ghost m0: Mem, ghost lo: nat)
      requires Shrunk(m0, View(), d, lo, v) && lo <= v < USERPAGES && HasTable(View(), d, v)
      modifies this
      ensures Shrunk(m0, View(), d, lo, v + 1)
      ensures misses == old(misses)
    {
      var t, n := FrameOf(pages[d][v / NENTRIES]), v % NENTRIES;
      var pte := pages[t][n];
      assert pte == Pte(View(), d, v);
      if Present(pte) {
        ghost var m1 := View();
        ShrunkOne(m0, m1, d, lo, v);
        UnmapKeepsGood(m1, d, v);
        assert PdeOk(m1, d, v / NENTRIES);
        assert free != [] ==> LinkOk(m1, 0);
        Kfree(FrameOf(pte));
        pages := pages[t := pages[t][n := 0]];
        assert pages == Pushed(Unmapped(m1, d, v), FrameOf(pte)).pages;
        assert owner == Pushed(Unmapped(m1, d, v), FrameOf(pte)).owner;
      } else {
        ShrunkSkip(m0, View(), d, lo, v, v + 1);
      }
    }

    /** freevm: every frame of the address space is freed, exactly once. */
    method FreeVm(d: nat)
      requires Good(View()) && IsDir(View(), d)
      modifies this
      ensures Gone(old(View()), View(), d)
      ensures misses == old(misses)
    {
      var _ := DeallocUvm(d, KERNBASE, 0);
      ghost var m1 := View();
      FreeTables(d);
      FreeDirectory(m1, View(), d);
      Kfree(d);
      GoneAfterShrink(old(View()), m1, View(), d);
    }

    method FreeTables(d: nat)
      requires Good(View()) && IsDir(View(), d)
      modifies this
      ensures Freeing(old(View()), View(), d, NENTRIES)
      ensures misses == old(misses)
    {
      ghost var m0 := View();
      for i := 0 to NENTRIES
        invariant Freeing(m0, View(), d, i) && misses == old(misses)
      {
        assert FreeingAt(m0, View(), d, i, d);
        if Present(pages[d][i]) {
          FreeTable(m0, View(), d, i);
          Kfree(FrameOf(pages[d][i]));
        } else {
          NoTable(m0, View(), d, i);
        }
      }
    }

    /** setupkvm: a new address space with the kernel's mappings and no user pages */
    method SetupKvm(data: Word) returns (d: nat)
      requires Good(View()) && EXTMEM < data < PHYSTOP && data % PGSIZE == 0
      modifies this
      ensures d == 0 ==> Good(View()) && RestoredFrom(old(View()), View())
      ensures d != 0 ==> Built(old(View()), View(), d, 0) && old(owner)[d] == Free
      ensures d != 0 ==> forall u: nat :: u < ALLPAGES ==> Pte(View(), d, u) == KernelEntry(data, 4, u)
      ensures misses == old(misses) + if d == 0 then 1 else 0
    {
      ghost var m0 := View();
      d := Kalloc();
      if d == 0 { return; }
      DirStep(m0);
      pages := pages[d := ZeroPage()];
      owner := owner[d := Dir];
      assert View() == WithDir(Popped(m0), d);
      var kmap := KernelMap(data);
      for k := 0 to 4
        invariant Built(m0, View(), d, 0) && misses == old(misses)
        invariant forall u: nat :: u < ALLPAGES ==> Pte(View(), d, u) == KernelEntry(data, k, u)
      {
        MappingSpan(data, k);
        forall u: nat | First(kmap[k].virt) <= u < ALLPAGES ensures KernelEntry(data, k, u) == 0 {
          MappingsAscend(data, k, u);
        }
        var ok := MapKernel(d, kmap[k].virt, Size(kmap[k]), kmap[k].physStart, kmap[k].perm, m0);
        if !ok {
          Abandon(d, m0);
          return 0;
        }
      }
    }

    method Abandon(d: nat, ghost m0: Mem)
      requires Built(m0, View(), d, 0) && m0.owner[d] == Free
      modifies this
      ensures Good(View()) && RestoredFrom(m0, View())
      ensures misses == old(misses)
    {
      FreeVm(d);
      BuiltAndGone(m0, old(View()), View(), d);
    }

    /** kalloc and fill the page; p is what the page is filled with. */
    method NewPage(d: nat, p: Page, ghost m0: Mem) returns (f: nat)
      requires Built(m0, View(), d, 0)
      modifies this
      ensures f == 0 ==> View() == old(View())
      ensures Built(m0, View(), d, f) && DataKept(old(View()), View()) && PtesKept(old(View()), View())
      ensures f != 0 ==> 0 < f < |owner| && owner[f] == Held && m0.owner[f] == Free && pages[f] == p
      ensures misses == old(misses) + if f == 0 then 1 else 0
    {
      f := Kalloc();
      if f != 0 {
        HoldStep(m0, old(View()), d, p);
        HoldFrame(old(View()), p);
        pages := pages[f := p];
        assert View() == Filled(old(View()), p);
      }
    }

    /**
     allocuvm: new pages for the addresses from oldsz up to newsz, all of them or none.
     A page there that is mapped already is a panic, unless kalloc fails first.
     */
    method AllocUvm(d: nat, oldsz: Word, newsz: Word) returns (sz: Word, panicked: bool)
      requires Good(View()) && IsDir(View(), d)
      modifies this
      ensures misses == old(misses) || misses == old(misses) + 1
      ensures newsz >= KERNBASE || newsz < oldsz ==> !panicked && View() == old(View()) && misses == old(misses)
      ensures newsz >= KERNBASE || newsz < oldsz ==> sz == if newsz >= KERNBASE then 0 else oldsz
      ensures oldsz <= newsz < KERNBASE ==>
                (panicked <==> misses == old(misses) && !Vacant(old(View()), d, RoundUp(oldsz), RoundUp(newsz)))
      ensures oldsz <= newsz < KERNBASE && !panicked ==>
                if misses > old(misses) then sz == 0 && CutBack(old(View()), View(), d, RoundUp(oldsz), RoundUp(newsz))
                else sz == newsz && Grown(old(View()), View(), d, RoundUp(oldsz), RoundUp(newsz))
    {
      panicked := false;
      if newsz >= KERNBASE { return 0, false; }
      if newsz < oldsz { return oldsz, false; }
      ghost var m0, lo := View(), RoundUp(oldsz);
      BuiltNothing(m0, d);
      var v := RoundUp(oldsz);            // a / PGSIZE
      while v * PGSIZE < newsz
        invariant lo <= v <= RoundUp(newsz) && misses == old(misses) && !panicked
        invariant Growing(m0, View(), d, lo, v, 0) && Vacant(m0, d, lo, v)
      {
        assert v < RoundUp(newsz) <= USERPAGES;
        ghost var m1 := View();
        var mem := NewPage(d, ZeroPage(), m0);
        ghost var m2 := View();
        GrowingKept(m0, m1, m2, d, lo, v, 0, mem);
        if mem == 0 {
          UndoGrowth(d, newsz, oldsz, 0, m0, v);
          return 0, false;
        }
        assert PteKept(m0, m2, d, v);
        var ok;
        ok, panicked := MapUser(d, v, mem, WRITABLE + USERMODE, m0);
        if panicked { return 0, true; }
        if !ok {
          GrowingKept(m0, m2, View(), d, lo, v, mem, mem);
          UndoGrowth(d, newsz, oldsz, mem, m0, v);
          return 0, false;
        }
        GrowingOne(m0, m2, View(), d, lo, v, mem);
        v := v + 1;
      }
      return newsz, false;
    }

    /** deallocuvm and, for the page that could not be mapped, kfree */
    method UndoGrowth(d: nat, newsz: Word, oldsz: Word, mem: nat, ghost m0: Mem, ghost v: nat)
      requires oldsz < newsz < KERNBASE && RoundUp(oldsz) <= v < RoundUp(newsz)
      requires Growing(m0, View(), d, RoundUp(oldsz), v, mem)
      requires mem != 0 ==> mem < |owner| && owner[mem] == Held && m0.owner[mem] == Free
      modifies this
      ensures CutBack(m0, View(), d, RoundUp(oldsz), RoundUp(newsz))
      ensures misses == old(misses)
    {
      ghost var m1, lo, hi := View(), RoundUp(oldsz), RoundUp(newsz);
      var _ := DeallocUvm(d, newsz, oldsz);
      ghost var m2 := View();
      if mem != 0 {
        HeldDropped(m0, m1, m2, d, mem, lo, v, hi);
        Kfree(mem);
      } else {
        NothingHeld(m0, m1, m2, d, lo, v, hi);
      }
    }

    /**
     copyuvm: a second address space with the same user memory.  A page of the parent that
     is missing is a panic, unless kalloc fails first.
     */
    method CopyUvm(p: nat, sz: Word, data: Word) returns (d: nat, panicked: bool)
      requires Good(View()) && IsDir(View(), p) && sz <= KERNBASE
      requires EXTMEM < data < PHYSTOP && data % PGSIZE == 0
      modifies this
      ensures panicked <==> misses == old(misses) && !Populated(old(View()), p, RoundUp(sz))
      ensures d == 0 && !panicked ==> Good(View()) && RestoredFrom(old(View()), View())
      ensures d != 0 ==> !panicked && Copied(old(View()), View(), p, d, data, RoundUp(sz), 0)
      ensures misses == old(misses) + if d == 0 && !panicked then 1 else 0
    {
      ghost var m0 := View();
      panicked := false;
      d := SetupKvm(data);
      if d == 0 { return; }
      CopiedNothing(m0, View(), p, d, data);
      var v := 0;                         // i / PGSIZE
      while v * PGSIZE < sz
        invariant v <= RoundUp(sz) && misses == old(misses) && m0.owner[d] == Free && d != 0 && !panicked
        invariant Copied(m0, View(), p, d, data, v, 0) && Populated(m0, p, v)
      {
        assert v < RoundUp(sz) <= USERPAGES;
        var there := IsMapped(p, v, d, m0);
        if !there { return 0, true; }
        var ok := CopyPage(p, d, v, data, m0);
        if !ok {
          Abandon(d, m0);
          return 0, false;
        }
        v := v + 1;
      }
    }

    /** Whether page v of p has a page table and is present in it; only d has changed since m0. */
    method IsMapped(p: nat, v: nat, ghost d: nat, ghost m0: Mem) returns (there: bool)
      requires Built(m0, View(), d, 0) && m0.owner[d] == Free && IsDir(m0, p) && v < USERPAGES
      ensures there <==> Present(Pte(m0, p, v))
    {
      assert PteKept(m0, View(), p, v) && Into(m0.owner[p], owner[p], p, d, 0);
      there := HasPageTable(p, v);
      if there {
        there := Present(pages[FrameOf(pages[p][v / NENTRIES])][v % NENTRIES]);
      }
    }

    method CopyPage(p: nat, d: nat, v: nat, data: Word, ghost m0: Mem) returns (ok: bool)
      requires EXTMEM < data < PHYSTOP && data % PGSIZE == 0 && v < USERPAGES
      requires Copied(m0, View(), p, d, data, v, 0) && Present(Pte(m0, p, v))
      modifies this
      ensures ok ==> Copied(m0, View(), p, d, data, v + 1, 0)
      ensures !ok ==> Built(m0, View(), d, 0) && m0.owner[d] == Free
      ensures misses == old(misses) + if !ok then 1 else 0
    {
      ghost var m1 := View();
      ParentPage(m0, m1, p, d, v);
      var pte := pages[FrameOf(pages[p][v / NENTRIES])][v % NENTRIES];
      var pa, flags := FrameOf(pte), FlagsOf(pte);
      var mem := NewPage(d, pages[pa], m0);
      ghost var m2 := View();
      if mem == 0 { return false; }
      CopiedKept(m0, m1, m2, p, d, data, v, 0, mem);
      NoUserEntry(data, 4, v);
      assert KernelOnly(m2, d, data, v);
      var remap;
      ok, remap := MapUser(d, v, mem, flags, m0);
      if !ok {
        DropStep(m0, View(), d, mem);
        Kfree(mem);
        return;
      }
      CopiedOne(m0, m2, View(), p, d, data, v, mem);
    }
  }

  lemma {:induction false} GrowingKept(m0: Mem, m: Mem, m': Mem, d: nat, lo: nat, hi: nat, h: nat, h': nat)
    requires Growing(m0, m, d, lo, hi, h) && Built(m0, m', d, h') && DataKept(m, m') && PtesKept(m, m')
    ensures Growing(m0, m', d, lo, hi, h')
  {
    forall u: nat | lo <= u < hi ensures FreshPage(m', d, u) {
      assert FreshPage(m, d, u) && PteKept(m, m', d, u) && PteOk(m, d, u) && PteOk(m', d, u);
      assert PageKept(m, m', FrameOf(Pte(m, d, u)));
    }
    forall u: nat | !(lo <= u < hi) ensures PteKept(m0, m', d, u) {
      assert PteKept(m0, m, d, u) && PteKept(m, m', d, u);
    }
  }

  lemma {:induction false} GrowingOne(m0: Mem, m: Mem, m': Mem, d: nat, lo: nat, v: nat, f: nat)
    requires Growing(m0, m, d, lo, v, f) && Built(m0, m', d, 0) && DataKept(m, m') && lo <= v < USERPAGES && f < |m.pages|
    requires OnlyEntry(m, m', d, v, MakeEntry(f, WRITABLE + USERMODE)) && m'.pages[f] == ZeroPage()
    ensures Growing(m0, m', d, lo, v + 1, 0)
  {
    forall u: nat | lo <= u < v + 1 ensures FreshPage(m', d, u) {
      if u != v {
        assert FreshPage(m, d, u) && PteKept(m, m', d, u) && PteOk(m, d, u) && PteOk(m', d, u);
        assert PageKept(m, m', FrameOf(Pte(m, d, u)));
      }
    }
    forall u: nat | !(lo <= u < v + 1) ensures PteKept(m0, m', d, u) {
      assert PteKept(m0, m, d, u) && PteKept(m, m', d, u);
    }
  }

  // ------------------------------------------------------------------
  // Copying.

  /** Every page below n is mapped. */
  ghost predicate Populated(m: Mem, p: nat, n: nat) {
    p < |m.pages| && n <= ALLPAGES && forall u: nat :: u < n ==> Present(Pte(m, p, u))
  }

  /** The address space d is new, and its pages below n are copies of p's. */
  ghost predicate Copied(m0: Mem, m: Mem, p: nat, d: nat, data: Word, n: nat, h: nat)
    requires EXTMEM < data < PHYSTOP
  {
    && Built(m0, m, d, h) && m0.owner[d] == Free && IsDir(m0, p)
    && (forall u: nat :: u < n ==> CopiedPage(m0, m, p, d, u))
    && forall u: nat :: n <= u ==> KernelOnly(m, d, data, u)
  }

  /** Page u of d is mapped as the kernel maps it: not at all, if it is a user page. */
  ghost predicate KernelOnly(m: Mem, d: nat, data: Word, u: nat)
    requires EXTMEM < data < PHYSTOP && IsDir(m, d)
  {
    u < ALLPAGES ==> Pte(m, d, u) == KernelEntry(data, 4, u)
  }

  lemma {:induction false} CopiedNothing(m0: Mem, m: Mem, p: nat, d: nat, data: Word)
    requires EXTMEM < data < PHYSTOP && Built(m0, m, d, 0) && m0.owner[d] == Free && IsDir(m0, p)
    requires forall u: nat :: u < ALLPAGES ==> Pte(m, d, u) == KernelEntry(data, 4, u)
    ensures Copied(m0, m, p, d, data, 0, 0)
  {
  }

  lemma {:induction false} ParentPage(m0: Mem, m: Mem, p: nat, d: nat, v: nat)
    requires Built(m0, m, d, 0) && m0.owner[d] == Free && IsDir(m0, p) && v < USERPAGES && Present(Pte(m0, p, v))
    ensures HasTable(m, p, v) && Pte(m, p, v) == Pte(m0, p, v) && FrameOf(Pte(m0, p, v)) < |m.pages| == |m0.pages|
    ensures m.pages[FrameOf(Pte(m0, p, v))] == m0.pages[FrameOf(Pte(m0, p, v))]
  {
    assert PteKept(m0, m, p, v) && Into(m0.owner[p], m.owner[p], p, d, 0);
    assert PdeOk(m, p, v / NENTRIES);
    var f := FrameOf(Pte(m0, p, v));
    assert PteOk(m0, p, v) && Into(m0.owner[f], m.owner[f], f, d, 0) && PageKept(m0, m, f);
  }

  lemma {:induction false} CopiedKept(m0: Mem, m: Mem, m': Mem, p: nat, d: nat, data: Word, n: nat, h: nat, h': nat)
    requires EXTMEM < data < PHYSTOP && Copied(m0, m, p, d, data, n, h) && Built(m0, m', d, h') && DataKept(m, m') && PtesKept(m, m')
    ensures Copied(m0, m', p, d, data, n, h')
  {
    forall u: nat | u < n ensures CopiedPage(m0, m', p, d, u) {
      assert CopiedPage(m0, m, p, d, u) && PteKept(m, m', d, u) && PteOk(m, d, u) && PteOk(m', d, u);
      assert PageKept(m, m', FrameOf(Pte(m, d, u)));
    }
    forall u: nat | n <= u ensures KernelOnly(m', d, data, u) {
      assert KernelOnly(m, d, data, u) && PteKept(m, m', d, u);
    }
  }

  lemma {:induction false} CopiedOne(m0: Mem, m: Mem, m': Mem, p: nat, d: nat, data: Word, v: nat, f: nat)
    requires EXTMEM < data < PHYSTOP && Copied(m0, m, p, d, data, v, f) && Built(m0, m', d, 0) && DataKept(m, m')
    requires v < USERPAGES && f < |m.pages| && Present(Pte(m0, p, v)) && FrameOf(Pte(m0, p, v)) < |m0.pages|
    requires OnlyEntry(m, m', d, v, MakeEntry(f, FlagsOf(Pte(m0, p, v)))) && m'.pages[f] == m0.pages[FrameOf(Pte(m0, p, v))]
    ensures Copied(m0, m', p, d, data, v + 1, 0)
  {
    forall u: nat | u < v + 1 ensures CopiedPage(m0, m', p, d, u) {
      if u != v {
        assert CopiedPage(m0, m, p, d, u) && PteKept(m, m', d, u) && PteOk(m, d, u) && PteOk(m', d, u);
        assert PageKept(m, m', FrameOf(Pte(m, d, u)));
      } else {
        PresentIsOdd(Pte(m0, p, v));
      }
    }
    forall u: nat | v + 1 <= u ensures KernelOnly(m', d, data, u) {
      assert KernelOnly(m, d, data, u) && PteKept(m, m', d, u);
    }
  }

  /** A copy shares no frame with any other address space, and all of those are as before. */
  lemma {:induction false} CopyIsPrivate(m0: Mem, m: Mem, p: nat, d: nat, data: Word, n: nat, v: nat, e: nat, u: nat)
    requires EXTMEM < data < PHYSTOP && Copied(m0, m, p, d, data, n, 0) && v < n <= USERPAGES
    requires IsDir(m0, e) && u < USERPAGES && Present(Pte(m0, e, u))
    ensures e != d && Pte(m, e, u) == Pte(m0, e, u)
    ensures FrameOf(Pte(m, d, v)) != FrameOf(Pte(m, e, u)) < |m.pages| == |m0.pages|
    ensures m.pages[FrameOf(Pte(m, e, u))] == m0.pages[FrameOf(Pte(m0, e, u))]
  {
    ParentPage(m0, m, e, d, u);
    assert CopiedPage(m0, m, p, d, v);
    UserPagesAreApart(m, d, v, e, u);
  }

  lemma PresentIsOdd(w: Word)
    requires Present(w)
    ensures FlagsOf(w) % 2 == 1
  {
    assert w == w / PGSIZE * PGSIZE + w % PGSIZE;
    Parity(w / PGSIZE * 2048, w % PGSIZE);
  }

  /** Every frame is what it was, every mapping and all user memory too. */
  ghost predicate RestoredFrom(m0: Mem, m: Mem) {
    m.owner == m0.owner && DataKept(m0, m) && PtesKept(m0, m)
  }

  lemma {:induction false} GoneAfterShrink(m0: Mem, m1: Mem, m: Mem, d: nat)
    requires Shrunk(m0, m1, d, 0, USERPAGES) && Gone(m1, m, d)
    ensures Gone(m0, m, d)
  {
    forall f: nat | f < |m.owner|
      ensures m.owner[f] == (if Mine(m0.owner[f], f, d) then Free else m0.owner[f]) && PageKept(m0, m, f)
    {
      assert FrameOk(m0, f) && PageKept(m0, m1, f) && PageKept(m1, m, f);
    }
    forall e: nat, u: nat | e != d ensures PteKept(m0, m, e, u) {
      assert ShrunkPte(m0, m1, d, 0, USERPAGES, e, u) && PteKept(m1, m, e, u);
    }
  }
}
