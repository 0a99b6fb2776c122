/**
 Physical memory as the kernel uses it: a free list threaded through the free pages
 themselves, and two-level page tables that are pages full of 32-bit entries.

 `owner` says of every frame what it is for.  An address space is known by the frame of
 its page directory.
 */
module PageTables {
  import opened Common

  const PGSIZE: nat := 4096
  const KERNBASE: nat := 0x8000_0000
  const NENTRIES: nat := 1024            // per page directory and per page table
  const MAXFRAMES: nat := 0xE000         // PHYSTOP / PGSIZE
  const USERPAGES: nat := 0x8_0000       // KERNBASE / PGSIZE
  const ALLPAGES: nat := 0x10_0000

  type Word = w: nat | w < WRAP
  type Page = p: seq<Word> | |p| == NENTRIES witness seq(NENTRIES, _ => 0)

  function ZeroPage(): Page { seq(NENTRIES, _ => 0) }

  /** kfree fills a page with bytes of 1. */
  function JunkPage(): Page { seq(NENTRIES, _ => 0x0101_0101) }

  datatype Owner =
    | Outside                    // not the allocator's
    | Free
    | Held                       // allocated, in no address space
    | Dir
    | Table(dir: nat, i: nat)    // the page table of directory entry i
    | User(dir: nat, v: nat)     // mapped at user page v

  datatype Mem = Mem(pages: seq<Page>, head: nat, owner: seq<Owner>, free: seq<nat>)

  // ------------------------------------------------------------------
  // Entries.

  predicate Present(w: Word) { w % 2 == 1 }
  function FrameOf(w: Word): nat { w / PGSIZE }
  function FlagsOf(w: Word): nat { w % PGSIZE }

  /** `pa | perm | PTE_P` for a page-aligned pa */
  function MakeEntry(frame: nat, flags: nat): (w: Word)
    requires frame < ALLPAGES && flags < PGSIZE
    ensures Present(w) && FrameOf(w) == frame
    ensures FlagsOf(w) == WithPresent(flags)
  {
    EntryFields(frame, WithPresent(flags));
    frame * PGSIZE + WithPresent(flags)
  }

  /** `flags | PTE_P` */
  function WithPresent(flags: nat): nat {
    if flags % 2 == 1 then flags else flags + 1
  }

  lemma EntryFields(frame: nat, flags: nat)
    requires frame < ALLPAGES && flags < PGSIZE
    ensures frame * PGSIZE + flags < WRAP
    ensures (frame * PGSIZE + flags) / PGSIZE == frame && (frame * PGSIZE + flags) % PGSIZE == flags
    ensures (frame * PGSIZE + flags) % 2 == flags % 2
  {
    DivMod(frame, flags);
    Parity(frame * 2048, flags);
    assert frame * PGSIZE == 2 * (frame * 2048);
  }

  lemma DivMod(q: nat, r: nat)
    requires r < PGSIZE
    ensures (q * PGSIZE + r) / PGSIZE == q && (q * PGSIZE + r) % PGSIZE == r
  {
  }

  lemma Parity(a: nat, b: nat)
    ensures (2 * a + b) % 2 == b % 2
  {
  }

  /** The pointer to the next free page, as stored in a free page */
  function LinkWord(next: nat): Word
    requires next < MAXFRAMES
  {
    if next == 0 then 0 else KERNBASE + next * PGSIZE
  }

  function LinkFrame(w: Word): nat {
    if w < KERNBASE then 0 else (w - KERNBASE) / PGSIZE
  }

  lemma LinkRoundTrip(next: nat)
    requires next < MAXFRAMES
    ensures LinkFrame(LinkWord(next)) == next
  {
  }

  // ------------------------------------------------------------------
  // The invariant.

  ghost predicate Sized(m: Mem) {
    0 < |m.pages| == |m.owner| <= MAXFRAMES && m.owner[0] == Outside
  }

  function At(free: seq<nat>, k: nat): nat {
    if k < |free| then free[k] else 0
  }

  ghost predicate LinkOk(m: Mem, k: nat)
    requires k < |m.free|
  {
    && 0 < m.free[k] < |m.owner| == |m.pages| && |m.owner| <= MAXFRAMES && m.owner[m.free[k]] == Free
    && At(m.free, k + 1) < MAXFRAMES && m.pages[m.free[k]][0] == LinkWord(At(m.free, k + 1))
  }

  /** The list from head on, through the first word of each page, is exactly the free frames. */
  ghost predicate ListOk(m: Mem) {
    && m.head == At(m.free, 0) && Distinct(m.free)
    && (forall k: nat :: k < |m.free| ==> LinkOk(m, k))
    && forall f: nat :: f < |m.owner| && m.owner[f] == Free ==> f in m.free
  }

  predicate IsDir(m: Mem, d: nat) {
    d < |m.owner| == |m.pages| && m.owner[d] == Dir
  }

  /** The page table entry for page v in the address space d, 0 if there is no page table. */
  function Pte(m: Mem, d: nat, v: nat): Word
    requires d < |m.pages| && v < ALLPAGES
  {
    var e := m.pages[d][v / NENTRIES];
    if Present(e) && FrameOf(e) < |m.pages| then m.pages[FrameOf(e)][v % NENTRIES] else 0
  }

  ghost predicate PdeOk(m: Mem, d: nat, i: nat)
    requires IsDir(m, d) && i < NENTRIES
  {
    Present(m.pages[d][i]) ==>
      && FrameOf(m.pages[d][i]) < |m.owner| && m.owner[FrameOf(m.pages[d][i])] == Table(d, i)
      && FlagsOf(m.pages[d][i]) == 7    // present, writable, for user mode: the page's own entry decides
  }

  ghost predicate PteOk(m: Mem, d: nat, v: nat)
    requires IsDir(m, d) && v < USERPAGES
  {
    var w := Pte(m, d, v);
    Present(w) ==> FrameOf(w) < |m.owner| && m.owner[FrameOf(w)] == User(d, v)
  }

  /** The entry a frame is owned through does point to it. */
  ghost predicate FrameOk(m: Mem, f: nat)
    requires f < |m.owner| == |m.pages|
  {
    match m.owner[f]
    case Table(d, i) => IsDir(m, d) && i < NENTRIES && Present(m.pages[d][i]) && FrameOf(m.pages[d][i]) == f
    case User(d, v) => IsDir(m, d) && v < USERPAGES && Present(Pte(m, d, v)) && FrameOf(Pte(m, d, v)) == f
    case _ => true
  }

  ghost predicate TablesOk(m: Mem)
    requires Sized(m)
  {
    && (forall d: nat, i: nat :: IsDir(m, d) && i < NENTRIES ==> PdeOk(m, d, i))
    && (forall d: nat, v: nat :: IsDir(m, d) && v < USERPAGES ==> PteOk(m, d, v))
    && forall f: nat :: f < |m.owner| ==> FrameOk(m, f)
  }

  ghost predicate Good(m: Mem) {
    Sized(m) && ListOk(m) && TablesOk(m)
  }

  // ------------------------------------------------------------------
  // kalloc and kfree.

  ghost function Popped(m: Mem): Mem
    requires m.free != [] && m.free[0] < |m.owner|
  {
    m.(head := At(m.free, 1), owner := m.owner[m.free[0] := Held], free := m.free[1..])
  }

  lemma {:induction false} PopKeepsList(m: Mem)
    requires Sized(m) && ListOk(m) && m.free != []
    ensures LinkOk(m, 0) && Sized(Popped(m)) && ListOk(Popped(m))
  {
    assert LinkOk(m, 0);
    var m' := Popped(m);
    forall k: nat | k < |m'.free| ensures LinkOk(m', k) {
      assert LinkOk(m, k + 1) && At(m'.free, k + 1) == At(m.free, k + 2);
      assert m'.free[k] != m.free[0];
    }
    forall f: nat | f < |m'.owner| && m'.owner[f] == Free ensures f in m'.free {
      assert f in m.free && f != m.free[0];
    }
  }

  lemma {:induction false} PopKeepsTables(m: Mem)
    requires Good(m) && m.free != [] && LinkOk(m, 0)
    ensures Sized(Popped(m)) && TablesOk(Popped(m))
  {
    var m' := Popped(m);
    forall d: nat, i: nat | IsDir(m', d) && i < NENTRIES ensures PdeOk(m', d, i) {
      assert PdeOk(m, d, i);
    }
    forall d: nat, v: nat | IsDir(m', d) && v < USERPAGES ensures PteOk(m', d, v) {
      assert PteOk(m, d, v);
    }
    forall f: nat | f < |m'.owner| ensures FrameOk(m', f) {
      assert FrameOk(m, f);
    }
  }

  /** A frame that is in no address space gets new contents, and perhaps becomes free. */
  ghost function Pushed(m: Mem, f: nat): Mem
    requires Sized(m) && f < |m.pages| && m.head < MAXFRAMES
  {
    m.(pages := m.pages[f := JunkPage()[0 := LinkWord(m.head)]], head := f,
       owner := m.owner[f := Free], free := [f] + m.free)
  }

  lemma {:induction false} PushKeepsList(m: Mem, f: nat)
    requires Sized(m) && ListOk(m) && 0 < f < |m.owner| && m.owner[f] != Free
    ensures m.head < MAXFRAMES && ListOk(Pushed(m, f))
  {
    assert m.free != [] ==> LinkOk(m, 0);
    var m' := Pushed(m, f);
    forall k: nat | k < |m.free| ensures m.free[k] != f {
      assert LinkOk(m, k);
    }
    forall k: nat | k < |m'.free| ensures LinkOk(m', k) {
      if k > 0 {
        assert LinkOk(m, k - 1) && m'.free[k] == m.free[k - 1] && At(m'.free, k + 1) == At(m.free, k);
      } else {
        assert At(m'.free, 1) == m.head;
      }
    }
    forall c: nat | c < |m'.owner| && m'.owner[c] == Free ensures c in m'.free {
      if c == f {
        assert m'.free[0] == f;
      } else {
        assert c in m.free;
      }
    }
  }

  /** Rewriting a frame outside all page tables changes no entry. */
  lemma {:induction false} LooseFrame(m: Mem, f: nat, p: Page, o: Owner)
    requires Good(m) && 0 < f < |m.owner| && m.owner[f] == Held && (o == Held || o == Free)
    ensures var m' := m.(pages := m.pages[f := p], owner := m.owner[f := o]);
            && Sized(m') && TablesOk(m')
            && forall d: nat, v: nat :: IsDir(m, d) && v < ALLPAGES ==> Pte(m', d, v) == Pte(m, d, v)
  {
    var m' := m.(pages := m.pages[f := p], owner := m.owner[f := o]);
    forall d: nat, v: nat | IsDir(m, d) && v < ALLPAGES ensures Pte(m', d, v) == Pte(m, d, v) {
      assert PdeOk(m, d, v / NENTRIES);
    }
    forall d: nat, i: nat | IsDir(m', d) && i < NENTRIES ensures PdeOk(m', d, i) {
      assert PdeOk(m, d, i);
    }
    forall d: nat, v: nat | IsDir(m', d) && v < USERPAGES ensures PteOk(m', d, v) {
      assert PteOk(m, d, v);
    }
    forall c: nat | c < |m'.owner| ensures FrameOk(m', c) {
      assert FrameOk(m, c);
    }
  }

  lemma {:induction false} PushKeepsGood(m: Mem, f: nat)
    requires Good(m) && 0 < f < |m.owner| && m.owner[f] == Held
    ensures m.head < MAXFRAMES && Good(Pushed(m, f))
    ensures forall d: nat, v: nat :: IsDir(m, d) && v < ALLPAGES ==> Pte(Pushed(m, f), d, v) == Pte(m, d, v)
  {
    PushKeepsList(m, f);
    LooseFrame(m, f, JunkPage()[0 := LinkWord(m.head)], Free);
    var m1 := m.(pages := m.pages[f := JunkPage()[0 := LinkWord(m.head)]], owner := m.owner[f := Free]);
    var m' := Pushed(m, f);
    assert TablesOk(m1) && m'.pages == m1.pages && m'.owner == m1.owner;
    SameTables(m1, m');
  }

  lemma {:induction false} SameTables(m: Mem, m': Mem)
    requires Sized(m) && TablesOk(m) && m'.pages == m.pages && m'.owner == m.owner
    ensures Sized(m') && TablesOk(m')
    ensures forall d: nat, v: nat :: IsDir(m, d) && v < ALLPAGES ==> Pte(m', d, v) == Pte(m, d, v)
  {
    forall d: nat, i: nat | IsDir(m', d) && i < NENTRIES ensures PdeOk(m', d, i) {
      assert PdeOk(m, d, i);
    }
    forall d: nat, v: nat | IsDir(m', d) && v < USERPAGES ensures PteOk(m', d, v) {
      assert PteOk(m, d, v);
    }
    forall c: nat | c < |m'.owner| ensures FrameOk(m', c) {
      assert FrameOk(m, c);
    }
  }

  /** Changes outside the free frames leave the free list alone. */
  lemma {:induction false} ListUnchanged(m: Mem, m': Mem)
    requires ListOk(m) && m'.head == m.head && m'.free == m.free && |m'.owner| == |m.owner| && |m'.pages| == |m.pages|
    requires forall f: nat :: f < |m.owner| ==> (m.owner[f] == Free <==> m'.owner[f] == Free)
    requires forall f: nat :: f < |m.owner| && f < |m.pages| && m.owner[f] == Free ==> m'.pages[f] == m.pages[f]
    ensures ListOk(m')
  {
    forall k: nat | k < |m'.free| ensures LinkOk(m', k) {
      assert LinkOk(m, k);
    }
  }

  // ------------------------------------------------------------------
  // Building address spaces.

  /** A held frame, zeroed, becomes a page directory. */
  ghost function WithDir(m: Mem, f: nat): Mem
    requires f < |m.pages| == |m.owner|
  {
    m.(pages := m.pages[f := ZeroPage()], owner := m.owner[f := Dir])
  }

  lemma {:induction false} DirKeepsGood(m: Mem, f: nat)
    requires Good(m) && 0 < f < |m.owner| && m.owner[f] == Held
    ensures Good(WithDir(m, f))
    ensures forall d: nat, v: nat :: IsDir(m, d) && v < ALLPAGES ==> Pte(WithDir(m, f), d, v) == Pte(m, d, v)
    ensures forall v: nat :: v < ALLPAGES ==> Pte(WithDir(m, f), f, v) == 0
  {
    var m' := WithDir(m, f);
    LooseFrame(m, f, ZeroPage(), Held);
    ListUnchanged(m, m');
    forall d: nat, i: nat | IsDir(m', d) && i < NENTRIES ensures PdeOk(m', d, i) {
      assert d != f ==> PdeOk(m, d, i);
    }
    forall d: nat, v: nat | IsDir(m', d) && v < USERPAGES ensures PteOk(m', d, v) {
      assert d != f ==> PteOk(m, d, v);
    }
    forall c: nat | c < |m'.owner| ensures FrameOk(m', c) {
      assert FrameOk(m, c);
    }
  }

  /** walkpgdir with alloc: a held frame, zeroed, becomes the page table of entry i. */
  ghost function WithTable(m: Mem, d: nat, i: nat, f: nat): Mem
    requires d < |m.pages| == |m.owner| && i < NENTRIES && f < |m.pages| && f < ALLPAGES
  {
    m.(pages := m.pages[f := ZeroPage()][d := m.pages[d][i := MakeEntry(f, 7)]], owner := m.owner[f := Table(d, i)])
  }

  lemma {:induction false} TableKeepsPte(m: Mem, d: nat, i: nat, f: nat, e: nat, v: nat)
    requires Good(m) && IsDir(m, d) && i < NENTRIES && 0 < f < |m.owner| && m.owner[f] == Held && !Present(m.pages[d][i])
    requires IsDir(m, e) && v < ALLPAGES
    ensures Pte(WithTable(m, d, i, f), e, v) == Pte(m, e, v)
  {
    assert PdeOk(m, e, v / NENTRIES);
  }

  lemma {:induction false} TableKeepsGood(m: Mem, d: nat, i: nat, f: nat)
    requires Good(m) && IsDir(m, d) && i < NENTRIES && 0 < f < |m.owner| && m.owner[f] == Held && !Present(m.pages[d][i])
    ensures Good(WithTable(m, d, i, f))
  {
    var m' := WithTable(m, d, i, f);
    ListUnchanged(m, m');
    forall e: nat, n: nat | IsDir(m', e) && n < NENTRIES ensures PdeOk(m', e, n) {
      assert PdeOk(m, e, n);
    }
    forall e: nat, v: nat | IsDir(m', e) && v < USERPAGES ensures PteOk(m', e, v) {
      assert PteOk(m, e, v);
      TableKeepsPte(m, d, i, f, e, v);
    }
    forall c: nat | c < |m'.owner| ensures FrameOk(m', c) {
      assert FrameOk(m, c);
      if m.owner[c].User? {
        TableKeepsPte(m, d, i, f, m.owner[c].dir, m.owner[c].v);
      }
    }
  }

  /** The page table that holds the entry for page v, if there is one. */
  predicate HasTable(m: Mem, d: nat, v: nat) {
    IsDir(m, d) && v < ALLPAGES && Present(m.pages[d][v / NENTRIES]) && FrameOf(m.pages[d][v / NENTRIES]) < |m.pages|
  }

  function TableFrame(m: Mem, d: nat, v: nat): nat
    requires HasTable(m, d, v)
  {
    FrameOf(m.pages[d][v / NENTRIES])
  }

  /** The entry for page v is set to w. */
  ghost function WithEntry(m: Mem, d: nat, v: nat, w: Word): Mem
    requires HasTable(m, d, v)
  {
    var t := TableFrame(m, d, v);
    m.(pages := m.pages[t := m.pages[t][v % NENTRIES := w]])
  }

  lemma {:induction false} EntryPte(m: Mem, d: nat, v: nat, w: Word, e: nat, u: nat)
    requires Good(m) && HasTable(m, d, v) && IsDir(m, e) && u < ALLPAGES
    ensures Pte(WithEntry(m, d, v, w), e, u) == if e == d && u == v then w else Pte(m, e, u)
  {
    assert PdeOk(m, d, v / NENTRIES) && PdeOk(m, e, u / NENTRIES);
    if e == d && u / NENTRIES == v / NENTRIES && u != v {
      assert u % NENTRIES != v % NENTRIES;
    }
  }

  lemma {:induction false} EntryKeepsPde(m: Mem, d: nat, v: nat, w: Word, e: nat)
    requires Good(m) && HasTable(m, d, v) && IsDir(m, e)
    ensures WithEntry(m, d, v, w).pages[e] == m.pages[e]
    ensures forall f: nat :: f < |m.owner| && m.owner[f] == Free ==> WithEntry(m, d, v, w).pages[f] == m.pages[f]
    ensures m.owner[TableFrame(m, d, v)] == Table(d, v / NENTRIES)
  {
    assert PdeOk(m, d, v / NENTRIES);
  }

  /** A held frame is mapped at user page v. */
  ghost function WithUser(m: Mem, d: nat, v: nat, f: nat, flags: nat): Mem
    requires HasTable(m, d, v) && f < |m.owner| && f < ALLPAGES && flags < PGSIZE
  {
    WithEntry(m, d, v, MakeEntry(f, flags)).(owner := m.owner[f := User(d, v)])
  }

  lemma {:induction false} UserKeepsGood(m: Mem, d: nat, v: nat, f: nat, flags: nat)
    requires Good(m) && HasTable(m, d, v) && v < USERPAGES && flags < PGSIZE
    requires 0 < f < |m.owner| && m.owner[f] == Held && !Present(Pte(m, d, v))
    ensures Good(WithUser(m, d, v, f, flags))
  {
    var w := MakeEntry(f, flags);
    var m' := WithUser(m, d, v, f, flags);
    EntryKeepsPde(m, d, v, w, d);
    ListUnchanged(m, m');
    forall e: nat, n: nat | IsDir(m', e) && n < NENTRIES ensures PdeOk(m', e, n) {
      assert PdeOk(m, e, n);
      EntryKeepsPde(m, d, v, w, e);
    }
    forall e: nat, u: nat | IsDir(m', e) && u < USERPAGES ensures PteOk(m', e, u) {
      assert PteOk(m, e, u);
      UserPte(m, d, v, f, flags, e, u);
    }
    forall c: nat | c < |m'.owner| ensures FrameOk(m', c) {
      assert FrameOk(m, c);
      if m.owner[c].Table? {
        EntryKeepsPde(m, d, v, w, m.owner[c].dir);
      }
      if m'.owner[c].User? {
        UserPte(m, d, v, f, flags, m'.owner[c].dir, m'.owner[c].v);
      }
    }
  }

  lemma {:induction false} UserPte(m: Mem, d: nat, v: nat, f: nat, flags: nat, e: nat, u: nat)
    requires Good(m) && HasTable(m, d, v) && f < |m.owner| && flags < PGSIZE && IsDir(m, e) && u < ALLPAGES
    ensures Pte(WithUser(m, d, v, f, flags), e, u) == if e == d && u == v then MakeEntry(f, flags) else Pte(m, e, u)
  {
    EntryPte(m, d, v, MakeEntry(f, flags), e, u);
    var m1, m' := WithEntry(m, d, v, MakeEntry(f, flags)), WithUser(m, d, v, f, flags);
    assert m'.pages == m1.pages;
  }

  lemma {:induction false} KernelEntryKeepsGood(m: Mem, d: nat, v: nat, w: Word)
    requires Good(m) && HasTable(m, d, v) && v >= USERPAGES
    ensures Good(WithEntry(m, d, v, w))
  {
    var m' := WithEntry(m, d, v, w);
    EntryKeepsPde(m, d, v, w, d);
    ListUnchanged(m, m');
    forall e: nat, n: nat | IsDir(m', e) && n < NENTRIES ensures PdeOk(m', e, n) {
      assert PdeOk(m, e, n);
      EntryKeepsPde(m, d, v, w, e);
    }
    forall e: nat, u: nat | IsDir(m', e) && u < USERPAGES ensures PteOk(m', e, u) {
      assert PteOk(m, e, u);
      EntryPte(m, d, v, w, e, u);
    }
    forall c: nat | c < |m'.owner| ensures FrameOk(m', c) {
      assert FrameOk(m, c);
      if m.owner[c].Table? {
        EntryKeepsPde(m, d, v, w, m.owner[c].dir);
      }
      if m.owner[c].User? {
        EntryPte(m, d, v, w, m.owner[c].dir, m.owner[c].v);
      }
    }
  }

  // ------------------------------------------------------------------
  // Taking user pages away.

  /** The frame at user page v is taken out of the address space. */
  ghost function Unmapped(m: Mem, d: nat, v: nat): Mem
    requires HasTable(m, d, v) && FrameOf(Pte(m, d, v)) < |m.owner|
  {
    WithEntry(m, d, v, 0).(owner := m.owner[FrameOf(Pte(m, d, v)) := Held])
  }

  lemma {:induction false} UnmapKeepsGood(m: Mem, d: nat, v: nat)
    requires Good(m) && HasTable(m, d, v) && v < USERPAGES && Present(Pte(m, d, v))
    ensures 0 < FrameOf(Pte(m, d, v)) < |m.owner| && m.owner[FrameOf(Pte(m, d, v))] == User(d, v)
    ensures Good(Unmapped(m, d, v))
    ensures forall e: nat, u: nat :: IsDir(m, e) && u < ALLPAGES ==>
              Pte(Unmapped(m, d, v), e, u) == if e == d && u == v then 0 else Pte(m, e, u)
  {
    assert PteOk(m, d, v);
    var f, m' := FrameOf(Pte(m, d, v)), Unmapped(m, d, v);
    assert FrameOk(m, 0);
    EntryKeepsPde(m, d, v, 0, d);
    ListUnchanged(m, m');
    forall e: nat, u: nat | IsDir(m, e) && u < ALLPAGES
      ensures Pte(m', e, u) == if e == d && u == v then 0 else Pte(m, e, u)
    {
      EntryPte(m, d, v, 0, e, u);
      var m1 := WithEntry(m, d, v, 0);
      assert m'.pages == m1.pages;
    }
    forall e: nat, n: nat | IsDir(m', e) && n < NENTRIES ensures PdeOk(m', e, n) {
      assert PdeOk(m, e, n);
      EntryKeepsPde(m, d, v, 0, e);
    }
    forall e: nat, u: nat | IsDir(m', e) && u < USERPAGES ensures PteOk(m', e, u) {
      assert PteOk(m, e, u);
    }
    forall c: nat | c < |m'.owner| ensures FrameOk(m', c) {
      assert FrameOk(m, c);
      if m.owner[c].Table? {
        EntryKeepsPde(m, d, v, 0, m.owner[c].dir);
      }
    }
  }
}
