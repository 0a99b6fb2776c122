/**
 The user-level memory allocator: one circular list of free blocks in address order,
 first fit from a roving pointer, coalescing on free.

 Addresses are counted in units of one header (8 bytes).  A block is known by the
 address of its header and includes it.  The list's anchor `base` lies in the data
 segment, below everything `sbrk` returns.
 */
module Malloc {
  import opened Common

  const UNIT: nat := 8                 // sizeof(Header)
  const MINCORE: nat := 4096
  const SBRK_LIMIT: nat := 0x8000_0000 // sbrk takes a signed int

  type Addr = nat

  /** `(nbytes + sizeof(Header) - 1)/sizeof(Header) + 1` in 32-bit arithmetic */
  function Units(nbytes: nat): nat {
    ((nbytes + UNIT - 1) % WRAP) / UNIT + 1
  }

  /** What morecore asks for: enough, and not in small pieces. */
  function CoreUnits(nunits: nat): (nu: nat)
    ensures nu >= nunits && nu >= 4096 && (nu > nunits ==> nu == 4096)
  {
    if nunits < MINCORE then MINCORE else nunits
  }

  /** What morecore passes to sbrk for nu units, as a signed 32-bit number. */
  function SbrkArg(nu: nat): int {
    var w := nu * UNIT % WRAP;
    if w < SBRK_LIMIT then w else w - WRAP
  }

  /**
   The memory that malloc takes over is the memory it asks sbrk for exactly when that is
   less than 2 gigabytes.  Beyond, the number passed is not positive: sbrk grants nothing,
   and if it does not fail, malloc goes on with memory that nobody granted.
   */
  lemma CoreIsAskedFor(nbytes: nat)
    requires nbytes < WRAP
    ensures var nu := CoreUnits(Units(nbytes)); SbrkArg(nu) == nu * UNIT <==> nu * UNIT < SBRK_LIMIT
    ensures var nu := CoreUnits(Units(nbytes)); SbrkArg(nu) <= 0 <==> nu * UNIT >= SBRK_LIMIT
  {
    var nu := CoreUnits(Units(nbytes));
    assert 0 < nu * UNIT <= WRAP;
    if nu * UNIT < WRAP {
      assert nu * UNIT % WRAP == nu * UNIT;
    }
  }

  /** The payload is large enough exactly when the rounding did not wrap. */
  lemma PayloadFits(nbytes: nat)
    requires nbytes < WRAP
    ensures UNIT * (Units(nbytes) - 1) >= nbytes <==> nbytes + UNIT - 1 < WRAP
  {
    if nbytes + UNIT - 1 >= WRAP {
      assert (nbytes + UNIT - 1) % WRAP == nbytes + UNIT - 1 - WRAP;
    }
  }

  // ------------------------------------------------------------------
  // Tilings: every unit obtained from sbrk lies in exactly one block.

  /** The n units from h on belong to block h. */
  ghost predicate Covers(owner: map<Addr, Addr>, h: Addr, n: nat) {
    forall u: Addr :: h <= u < h + n ==> u in owner && owner[u] == h
  }

  /** `blocks` maps headers to sizes; `owner` maps every unit to the header of its block. */
  ghost predicate Tiles(blocks: map<Addr, nat>, owner: map<Addr, Addr>) {
    && (forall h :: h in blocks ==> blocks[h] > 0 && Covers(owner, h, blocks[h]))
    && (forall u :: u in owner ==> owner[u] in blocks && owner[u] <= u < owner[u] + blocks[owner[u]])
  }

  lemma BlocksDisjoint(blocks: map<Addr, nat>, owner: map<Addr, Addr>, g: Addr, h: Addr)
    requires Tiles(blocks, owner) && g in blocks && h in blocks && g < h
    ensures g + blocks[g] <= h
  {
    assert Covers(owner, g, blocks[g]) && Covers(owner, h, blocks[h]);
    assert owner[h] == h;
  }

  /** Units of block h now belong to block g. */
  ghost function Reowned(owner: map<Addr, Addr>, h: Addr, g: Addr): map<Addr, Addr> {
    map u | u in owner :: if owner[u] == h then g else owner[u]
  }

  ghost function JoinedUp(blocks: map<Addr, nat>, h: Addr, up: Addr): map<Addr, nat>
    requires h in blocks && up in blocks
  {
    (blocks - {up})[h := blocks[h] + blocks[up]]
  }

  lemma MergeTiles(blocks: map<Addr, nat>, owner: map<Addr, Addr>, g: Addr, h: Addr)
    requires Tiles(blocks, owner) && g in blocks && h in blocks && g + blocks[g] == h
    ensures Tiles(JoinedUp(blocks, g, h), Reowned(owner, h, g))
  {
    var blocks', owner' := JoinedUp(blocks, g, h), Reowned(owner, h, g);
    assert blocks[g] > 0;
    forall k | k in blocks' ensures blocks'[k] > 0 && Covers(owner', k, blocks'[k]) {
      assert Covers(owner, k, blocks[k]) && Covers(owner, h, blocks[h]);
    }
    forall u | u in owner' ensures owner'[u] in blocks' && owner'[u] <= u < owner'[u] + blocks'[owner'[u]] {
      assert owner[u] in blocks;
    }
  }

  /** The units of block h from `at` on become a block of their own. */
  ghost function SplitOwner(owner: map<Addr, Addr>, h: Addr, at: Addr): map<Addr, Addr> {
    map u | u in owner :: if owner[u] == h && u >= at then at else owner[u]
  }

  ghost function SplitBlocks(blocks: map<Addr, nat>, h: Addr, at: Addr): map<Addr, nat>
    requires h in blocks && h < at < h + blocks[h]
  {
    blocks[h := at - h][at := h + blocks[h] - at]
  }

  lemma InsideIsNoHeader(blocks: map<Addr, nat>, owner: map<Addr, Addr>, h: Addr, at: Addr)
    requires Tiles(blocks, owner) && h in blocks && h < at < h + blocks[h]
    ensures at !in blocks
  {
    if at in blocks {
      BlocksDisjoint(blocks, owner, h, at);
    }
  }

  lemma SplitTiles(blocks: map<Addr, nat>, owner: map<Addr, Addr>, h: Addr, at: Addr)
    requires Tiles(blocks, owner) && h in blocks && h < at < h + blocks[h]
    ensures Tiles(SplitBlocks(blocks, h, at), SplitOwner(owner, h, at))
  {
    var blocks', owner' := SplitBlocks(blocks, h, at), SplitOwner(owner, h, at);
    InsideIsNoHeader(blocks, owner, h, at);
    forall k | k in blocks' ensures blocks'[k] > 0 && Covers(owner', k, blocks'[k]) {
      SplitCovers(blocks, owner, h, at, k);
    }
    forall u | u in owner' ensures owner'[u] in blocks' && owner'[u] <= u < owner'[u] + blocks'[owner'[u]] {
      assert owner[u] in blocks;
    }
  }

  lemma SplitCovers(blocks: map<Addr, nat>, owner: map<Addr, Addr>, h: Addr, at: Addr, k: Addr)
    requires Tiles(blocks, owner) && h in blocks && h < at < h + blocks[h] && at !in blocks
    requires k in blocks || k == at
    ensures Covers(SplitOwner(owner, h, at), k, SplitBlocks(blocks, h, at)[k])
  {
    assert Covers(owner, h, blocks[h]);
    if k != h && k != at {
      assert Covers(owner, k, blocks[k]);
    }
  }

  lemma GrowTiles(blocks: map<Addr, nat>, owner: map<Addr, Addr>, h: Addr, n: nat)
    requires Tiles(blocks, owner) && n > 0
    requires forall u :: u in owner ==> u < h
    ensures Tiles(blocks[h := n], Granted(owner, h, n))
    ensures h !in blocks
  {
    var blocks', owner' := blocks[h := n], Granted(owner, h, n);
    assert h !in blocks by {
      assert h in blocks ==> Covers(owner, h, blocks[h]);
    }
    forall k | k in blocks' ensures blocks'[k] > 0 && Covers(owner', k, blocks'[k]) {
      if k != h {
        assert Covers(owner, k, blocks[k]);
      }
    }
    forall u | u in owner' ensures owner'[u] in blocks' && owner'[u] <= u < owner'[u] + blocks'[owner'[u]] {
      if u in owner {
        assert owner[u] in blocks;
      }
    }
  }

  /** n units from h on are new and belong to block h. */
  ghost function Granted(owner: map<Addr, Addr>, h: Addr, n: nat): (owner': map<Addr, Addr>)
    ensures forall u: Addr :: u in owner' <==> u in owner || h <= u < h + n
    ensures forall u: Addr :: u in owner' ==> owner'[u] == if h <= u < h + n then h else owner[u]
  {
    if n == 0 then owner else Granted(owner, h, n - 1)[h + n - 1 := h]
  }

  // ------------------------------------------------------------------
  // The ring of free blocks.

  ghost predicate Ascending(ring: seq<Addr>) {
    forall i, j :: 0 <= i < j < |ring| ==> ring[i] < ring[j]
  }

  ghost predicate LinkAt(ring: seq<Addr>, ptr: map<Addr, Addr>, i: nat)
    requires i < |ring|
  {
    ring[i] in ptr && ptr[ring[i]] == ring[Succ(ring, i)]
  }

  /** Circular and in address order, with its one wrap from the last element to the first. */
  ghost predicate Linked(ring: seq<Addr>, ptr: map<Addr, Addr>) {
    && |ring| > 0 && Ascending(ring)
    && (forall i :: 0 <= i < |ring| ==> ring[i] in ptr)
    && forall i :: 0 <= i < |ring| ==> LinkAt(ring, ptr, i)
  }

  /** Block ring[i] ends before the next one starts, without touching it. */
  ghost predicate GapAt(ring: seq<Addr>, blocks: map<Addr, nat>, i: nat)
    requires i < |ring|
  {
    ring[i] in blocks && (i + 1 < |ring| ==> ring[i] + blocks[ring[i]] < ring[i + 1])
  }

  /** ring[0] is the anchor; the others are blocks, no two of which touch. */
  ghost predicate FreeBlocks(ring: seq<Addr>, base: Addr, blocks: map<Addr, nat>) {
    && |ring| > 0 && ring[0] == base
    && (forall i :: 0 < i < |ring| ==> ring[i] in blocks)
    && forall i :: 0 < i < |ring| ==> GapAt(ring, blocks, i)
  }

  /** Where a block goes: after the last element below it. */
  ghost function Place(ring: seq<Addr>, h: Addr): (j: nat)
    requires |ring| > 0 && ring[0] < h
    ensures j < |ring| && ring[j] < h && (j + 1 < |ring| ==> h <= ring[j + 1])
  {
    if |ring| == 1 || h <= ring[1] then 0 else 1 + Place(ring[1..], h)
  }

  lemma {:induction false} HighestBelow(ring: seq<Addr>, h: Addr, j: nat)
    requires Ascending(ring) && j < |ring| && (j + 1 < |ring| ==> h <= ring[j + 1])
    ensures forall q :: q in ring && q < h ==> q <= ring[j]
  {
    forall q | q in ring && q < h ensures q <= ring[j] {
      var i :| 0 <= i < |ring| && ring[i] == q;
    }
  }

  /** The tests of free's loop hold at the place of the block and nowhere else on the list. */
  lemma {:induction false} StopsAtPlace(ring: seq<Addr>, ptr: map<Addr, Addr>, h: Addr, i: nat, j: nat)
    requires Linked(ring, ptr) && i < |ring| && j < |ring| && ring[i] in ptr
    requires ring[j] < h && (j + 1 < |ring| ==> h < ring[j + 1]) && h != ring[i]
    ensures var p, q := ring[i], ptr[ring[i]]; (p < h < q || (p >= q && (h > p || h < q))) <==> i == j
    ensures ptr[ring[i]] == ring[Succ(ring, i)] && ring[Succ(ring, i)] in ptr
  {
    assert LinkAt(ring, ptr, i) && LinkAt(ring, ptr, Succ(ring, i));
  }

  lemma {:induction false} InsertLinked(ring: seq<Addr>, ptr: map<Addr, Addr>, j: nat, h: Addr)
    requires Linked(ring, ptr) && j < |ring| && ring[j] < h && (j + 1 < |ring| ==> h < ring[j + 1])
    ensures Linked(ring[..j + 1] + [h] + ring[j + 1..], ptr[h := ring[Succ(ring, j)]][ring[j] := h])
  {
    var ring' := ring[..j + 1] + [h] + ring[j + 1..];
    var ptr' := ptr[h := ring[Succ(ring, j)]][ring[j] := h];
    forall i | 0 <= i < |ring'| ensures LinkAt(ring', ptr', i) {
      if i > j + 1 {
        assert LinkAt(ring, ptr, i - 1);
      } else if i < j {
        assert LinkAt(ring, ptr, i);
      }
    }
  }

  lemma {:induction false} RemoveLinked(ring: seq<Addr>, ptr: map<Addr, Addr>, j: nat)
    requires Linked(ring, ptr) && j + 1 < |ring| && ring[j + 1] in ptr
    ensures Linked(Without(ring, j + 1), ptr[ring[j] := ptr[ring[j + 1]]])
  {
    var ring' := Without(ring, j + 1);
    var ptr' := ptr[ring[j] := ptr[ring[j + 1]]];
    forall i | 0 <= i < |ring'| ensures ring'[i] in ptr' && LinkAt(ring', ptr', i) {
      RemovedAt(ring, ptr, j, i);
    }
  }

  lemma {:induction false} RemovedAt(ring: seq<Addr>, ptr: map<Addr, Addr>, j: nat, i: nat)
    requires Linked(ring, ptr) && j + 1 < |ring| && ring[j + 1] in ptr && i < |ring| - 1
    ensures var ring', ptr' := Without(ring, j + 1), ptr[ring[j] := ptr[ring[j + 1]]];
            ring'[i] in ptr' && LinkAt(ring', ptr', i)
  {
    if i > j {
      assert LinkAt(ring, ptr, i + 1);
    } else if i < j {
      assert LinkAt(ring, ptr, i);
    } else {
      assert LinkAt(ring, ptr, j + 1);
    }
  }

  lemma {:induction false} LinkedElsewhere(ring: seq<Addr>, ptr: map<Addr, Addr>, h: Addr, x: Addr)
    requires Linked(ring, ptr) && h !in ring
    ensures Linked(ring, ptr[h := x])
  {
    var ptr' := ptr[h := x];
    forall i | 0 <= i < |ring| ensures LinkAt(ring, ptr', i) {
      assert LinkAt(ring, ptr, i) && ring[i] in ring;
    }
  }

  // ------------------------------------------------------------------
  // Freeing a block h that belongs after ring[j]: first joined with the
  // block above it, then with the block below it.

  ghost function AllocatedOf(ring: seq<Addr>, blocks: map<Addr, nat>): map<Addr, nat> {
    map h | h in blocks && h !in ring :: blocks[h]
  }

  ghost predicate Between(ring: seq<Addr>, base: Addr, blocks: map<Addr, nat>, j: nat, h: Addr) {
    && Ascending(ring) && FreeBlocks(ring, base, blocks)
    && h in blocks && h !in ring && base !in blocks
    && j < |ring| && ring[j] < h && (j + 1 < |ring| ==> h < ring[j + 1])
  }

  ghost predicate MergesUp(ring: seq<Addr>, blocks: map<Addr, nat>, j: nat, h: Addr)
    requires j < |ring| && h in blocks
  {
    j + 1 < |ring| && h + blocks[h] == ring[j + 1]
  }

  ghost predicate MergesDown(ring: seq<Addr>, blocks: map<Addr, nat>, j: nat, h: Addr)
    requires j < |ring|
  {
    j > 0 && ring[j] in blocks && ring[j] + blocks[ring[j]] == h
  }

  lemma {:induction false} WithoutAscends(ring: seq<Addr>, j: nat)
    requires j < |ring| && Ascending(ring)
    ensures Ascending(Without(ring, j))
    ensures forall k :: k in Without(ring, j) <==> k in ring && k != ring[j]
  {
    WithoutIsRest(ring, j);
  }

  lemma {:induction false} UpStage(ring: seq<Addr>, base: Addr, blocks: map<Addr, nat>, j: nat, h: Addr)
    requires Between(ring, base, blocks, j, h) && MergesUp(ring, blocks, j, h)
    ensures var ring', blocks' := Without(ring, j + 1), JoinedUp(blocks, h, ring[j + 1]);
            Between(ring', base, blocks', j, h) && !MergesUp(ring', blocks', j, h)
  {
    var up, ring' := ring[j + 1], Without(ring, j + 1);
    var blocks' := JoinedUp(blocks, h, up);
    WithoutAscends(ring, j + 1);
    assert GapAt(ring, blocks, j + 1);
    forall i | 0 < i < |ring'| ensures GapAt(ring', blocks', i) {
      assert GapAt(ring, blocks, if i <= j then i else i + 1);
      assert ring'[i] in ring;
    }
    forall i | 0 < i < |ring'| ensures ring'[i] in blocks' {
      assert GapAt(ring', blocks', i);
    }
  }

  lemma {:induction false} UpKeepsAllocated(ring: seq<Addr>, base: Addr, blocks: map<Addr, nat>, j: nat, h: Addr)
    requires Between(ring, base, blocks, j, h) && MergesUp(ring, blocks, j, h)
    ensures AllocatedOf(Without(ring, j + 1), JoinedUp(blocks, h, ring[j + 1])) - {h} == AllocatedOf(ring, blocks) - {h}
  {
    WithoutAscends(ring, j + 1);
  }

  lemma {:induction false} DownStage(ring: seq<Addr>, base: Addr, blocks: map<Addr, nat>, j: nat, h: Addr)
    requires Between(ring, base, blocks, j, h) && MergesDown(ring, blocks, j, h)
    requires j + 1 < |ring| ==> h + blocks[h] < ring[j + 1]
    ensures var blocks' := JoinedUp(blocks, ring[j], h);
            && FreeBlocks(ring, base, blocks')
            && AllocatedOf(ring, blocks') == AllocatedOf(ring, blocks) - {h}
  {
    var blocks' := JoinedUp(blocks, ring[j], h);
    forall i | 0 < i < |ring| ensures GapAt(ring, blocks', i) {
      assert GapAt(ring, blocks, i) && ring[i] in ring;
    }
  }

  lemma {:induction false} PlainStage(ring: seq<Addr>, base: Addr, blocks: map<Addr, nat>, j: nat, h: Addr)
    requires Between(ring, base, blocks, j, h)
    requires j + 1 < |ring| ==> h + blocks[h] < ring[j + 1]
    requires j > 0 ==> ring[j] + blocks[ring[j]] < h
    ensures var ring' := ring[..j + 1] + [h] + ring[j + 1..];
            && FreeBlocks(ring', base, blocks)
            && AllocatedOf(ring', blocks) == AllocatedOf(ring, blocks) - {h}
  {
    var ring' := ring[..j + 1] + [h] + ring[j + 1..];
    forall i | 0 < i < |ring'| ensures GapAt(ring', blocks, i) {
      if i != j + 1 {
        assert GapAt(ring, blocks, if i <= j then i else i - 1);
      }
    }
    forall i | 0 < i < |ring'| ensures ring'[i] in blocks {
      assert GapAt(ring', blocks, i);
    }
    assert forall k :: k in ring' <==> k in ring || k == h;
  }

  // ------------------------------------------------------------------
  // The whole heap as a value: headers in memory, and what they stand for.

  datatype State = State(
    base: Addr,
    brk: Addr,
    ptr: map<Addr, Addr>,
    size: map<Addr, nat>,
    ring: seq<Addr>,
    blocks: map<Addr, nat>,
    owner: map<Addr, Addr>)

  ghost predicate Sized(s: State) {
    (forall h :: h in s.blocks ==> h in s.size && s.size[h] == s.blocks[h])
    && s.base in s.size && s.size[s.base] == 0 && s.base !in s.blocks
  }

  ghost predicate InArena(s: State) {
    0 < s.base < s.brk && forall u :: u in s.owner ==> s.base < u < s.brk
  }

  ghost predicate Good(s: State) {
    && InArena(s) && Sized(s) && Tiles(s.blocks, s.owner)
    && FreeBlocks(s.ring, s.base, s.blocks) && Linked(s.ring, s.ptr)
  }

  /** Halfway through free: bp is joined upwards but not yet linked in. */
  ghost predicate Joined(s: State, j: nat, bp: Addr) {
    && InArena(s) && Sized(s) && Tiles(s.blocks, s.owner)
    && Between(s.ring, s.base, s.blocks, j, bp)
    && bp in s.ptr && s.ptr[bp] == s.ring[Succ(s.ring, j)]
    && Linked(s.ring, s.ptr[s.ring[j] := s.ptr[bp]])
    && (j + 1 < |s.ring| ==> bp + s.blocks[bp] < s.ring[j + 1])
  }

  lemma BlockAboveBase(s: State, h: Addr)
    requires InArena(s) && Tiles(s.blocks, s.owner) && h in s.blocks
    ensures s.base < h
  {
    assert Covers(s.owner, h, s.blocks[h]);
    assert h in s.owner;
  }

  ghost function UpMerged(s: State, j: nat, bp: Addr): State
    requires j + 1 < |s.ring| && bp in s.blocks && s.ring[j + 1] in s.blocks && s.ring[j + 1] in s.ptr
  {
    var up := s.ring[j + 1];
    State(s.base, s.brk, s.ptr[bp := s.ptr[up]], s.size[bp := s.blocks[bp] + s.blocks[up]],
          Without(s.ring, j + 1), JoinedUp(s.blocks, bp, up), Reowned(s.owner, up, bp))
  }

  lemma {:induction false} UpMergeLinked(ring: seq<Addr>, ptr: map<Addr, Addr>, j: nat, bp: Addr)
    requires Linked(ring, ptr) && j + 1 < |ring| && bp !in ring
    ensures ring[j + 1] in ptr
    ensures var next, ring' := ptr[ring[j + 1]], Without(ring, j + 1);
            next == ring'[Succ(ring', j)] && Linked(ring', ptr[bp := next][ring[j] := next])
  {
    assert LinkAt(ring, ptr, j + 1);
    RemoveLinked(ring, ptr, j);
    WithoutAscends(ring, j + 1);
    var next := ptr[ring[j + 1]];
    LinkedElsewhere(Without(ring, j + 1), ptr[ring[j] := next], bp, next);
    assert ring[j] in ring;
    assert ptr[ring[j] := next][bp := next] == ptr[bp := next][ring[j] := next];
  }

  lemma {:induction false} UpMergeJoins(s: State, j: nat, bp: Addr)
    requires Good(s) && Between(s.ring, s.base, s.blocks, j, bp) && MergesUp(s.ring, s.blocks, j, bp)
    ensures Joined(UpMerged(s, j, bp), j, bp)
  {
    var s' := UpMerged(s, j, bp);
    BlockAboveBase(s, bp);
    UpMergeLinked(s.ring, s.ptr, j, bp);
    UpStage(s.ring, s.base, s.blocks, j, bp);
    assert GapAt(s.ring, s.blocks, j + 1);
    MergeTiles(s.blocks, s.owner, bp, s.ring[j + 1]);
    assert InArena(s') && Sized(s');
  }

  lemma {:induction false} UpPlainJoins(s: State, j: nat, bp: Addr)
    requires Good(s) && Between(s.ring, s.base, s.blocks, j, bp) && !MergesUp(s.ring, s.blocks, j, bp)
    ensures Joined(s.(ptr := s.ptr[bp := s.ring[Succ(s.ring, j)]]), j, bp)
  {
    var next := s.ring[Succ(s.ring, j)];
    var s' := s.(ptr := s.ptr[bp := next]);
    if j + 1 < |s.ring| {
      BlocksDisjoint(s.blocks, s.owner, bp, s.ring[j + 1]);
    }
    assert LinkAt(s.ring, s.ptr, j);
    LinkedElsewhere(s.ring, s.ptr, bp, next);
    assert s.ring[j] in s.ring;
    assert s'.ptr[s.ring[j] := next] == s'.ptr;
    assert Sized(s');
  }

  ghost function DownMerged(s: State, j: nat, bp: Addr): State
    requires j < |s.ring| && s.ring[j] in s.blocks && bp in s.blocks && bp in s.ptr
  {
    var p := s.ring[j];
    State(s.base, s.brk, s.ptr[p := s.ptr[bp]], s.size[p := s.blocks[p] + s.blocks[bp]],
          s.ring, JoinedUp(s.blocks, p, bp), Reowned(s.owner, bp, p))
  }

  lemma {:induction false} DownMergeKeepsGood(s: State, j: nat, bp: Addr)
    requires Joined(s, j, bp) && MergesDown(s.ring, s.blocks, j, bp)
    ensures Good(DownMerged(s, j, bp))
  {
    DownStage(s.ring, s.base, s.blocks, j, bp);
    MergeTiles(s.blocks, s.owner, s.ring[j], bp);
    DownMergedSized(s, j, bp);
  }

  lemma {:induction false} DownMergedSized(s: State, j: nat, bp: Addr)
    requires Joined(s, j, bp) && MergesDown(s.ring, s.blocks, j, bp)
    ensures InArena(DownMerged(s, j, bp)) && Sized(DownMerged(s, j, bp))
  {
    BlockAboveBase(s, s.ring[j]);
  }

  ghost function Inserted(s: State, j: nat, bp: Addr): State
    requires j < |s.ring|
  {
    s.(ptr := s.ptr[s.ring[j] := bp], ring := s.ring[..j + 1] + [bp] + s.ring[j + 1..])
  }

  lemma {:induction false} PlainFrees(s: State, j: nat, bp: Addr)
    requires Joined(s, j, bp) && !MergesDown(s.ring, s.blocks, j, bp)
    ensures Good(Inserted(s, j, bp))
    ensures AllocatedOf(Inserted(s, j, bp).ring, s.blocks) == AllocatedOf(s.ring, s.blocks) - {bp}
  {
    var s', p := Inserted(s, j, bp), s.ring[j];
    if j > 0 {
      BlocksDisjoint(s.blocks, s.owner, p, bp);
    }
    PlainStage(s.ring, s.base, s.blocks, j, bp);
    InsertLinked(s.ring, s.ptr[p := s.ptr[bp]], j, bp);
    assert s.ptr[p := s.ptr[bp]][bp := s.ptr[bp]][p := bp] == s'.ptr;
    assert Sized(s');
  }

  /** No free block reaches or even touches a later one, however far apart in the list. */
  lemma {:induction false} FreeBlocksNeverTouch(s: State, i: nat, j: nat)
    requires Good(s) && 0 < i < j < |s.ring|
    ensures s.ring[i] in s.blocks && s.ring[i] + s.blocks[s.ring[i]] < s.ring[j]
  {
    assert GapAt(s.ring, s.blocks, i);
  }

  // ------------------------------------------------------------------
  // Allocating: a fitting block is unlinked, or its tail is cut off.

  ghost function Unlinked(s: State, j: nat): State
    requires j + 1 < |s.ring| && s.ring[j + 1] in s.ptr
  {
    s.(ptr := s.ptr[s.ring[j] := s.ptr[s.ring[j + 1]]], ring := Without(s.ring, j + 1))
  }

  lemma {:induction false} UnlinkKeepsFree(s: State, j: nat)
    requires Good(s) && j + 1 < |s.ring|
    ensures FreeBlocks(Without(s.ring, j + 1), s.base, s.blocks)
  {
    var ring' := Without(s.ring, j + 1);
    forall i | 0 < i < |ring'| ensures GapAt(ring', s.blocks, i) && ring'[i] in s.blocks {
      assert GapAt(s.ring, s.blocks, if i <= j then i else i + 1);
      if i == j && j + 2 < |s.ring| {
        assert GapAt(s.ring, s.blocks, j + 1);
      }
    }
  }

  lemma {:induction false} UnlinkKeepsGood(s: State, j: nat)
    requires Good(s) && j + 1 < |s.ring|
    ensures Good(Unlinked(s, j))
  {
    RemoveLinked(s.ring, s.ptr, j);
    UnlinkKeepsFree(s, j);
    assert Sized(Unlinked(s, j));
  }

  lemma {:induction false} UnlinkAllocates(s: State, j: nat)
    requires Good(s) && j + 1 < |s.ring|
    ensures var ring', h := Without(s.ring, j + 1), s.ring[j + 1];
            && s.ring[j] in ring' && h in s.blocks && h !in AllocatedOf(s.ring, s.blocks)
            && AllocatedOf(ring', s.blocks) == AllocatedOf(s.ring, s.blocks)[h := s.blocks[h]]
  {
    WithoutAscends(s.ring, j + 1);
    assert s.ring[j + 1] in s.ring && s.ring[j] in s.ring;
  }

  ghost function Carved(s: State, h: Addr, n: nat): State
    requires h in s.blocks && 0 < n < s.blocks[h]
  {
    var at := h + s.blocks[h] - n;
    s.(size := s.size[h := at - h][at := n],
       blocks := SplitBlocks(s.blocks, h, at),
       owner := SplitOwner(s.owner, h, at))
  }

  lemma {:induction false} NotInRing(s: State, x: Addr)
    requires FreeBlocks(s.ring, s.base, s.blocks) && x !in s.blocks && x != s.base
    ensures x !in s.ring
  {
    forall i | 0 <= i < |s.ring| ensures s.ring[i] != x {
      assert i > 0 ==> s.ring[i] in s.blocks;
    }
  }

  lemma {:induction false} SmallerKeepsFree(ring: seq<Addr>, base: Addr, blocks: map<Addr, nat>, blocks': map<Addr, nat>)
    requires FreeBlocks(ring, base, blocks)
    requires forall h :: h in blocks && h in ring ==> h in blocks' && blocks'[h] <= blocks[h]
    ensures FreeBlocks(ring, base, blocks')
  {
    forall i | 0 < i < |ring| ensures GapAt(ring, blocks', i) && ring[i] in blocks' {
      assert GapAt(ring, blocks, i) && ring[i] in ring;
    }
  }

  lemma {:induction false} CarveKeepsGood(s: State, h: Addr, n: nat)
    requires Good(s) && h in s.ring && h in s.blocks && 0 < n < s.blocks[h]
    ensures var at := h + s.blocks[h] - n;
            Good(Carved(s, h, n)) && at !in s.blocks && at !in s.ring
  {
    var s', at := Carved(s, h, n), h + s.blocks[h] - n;
    InsideIsNoHeader(s.blocks, s.owner, h, at);
    SplitTiles(s.blocks, s.owner, h, at);
    BlockAboveBase(s, h);
    NotInRing(s, at);
    SmallerKeepsFree(s.ring, s.base, s.blocks, s'.blocks);
    assert InArena(s');
    assert Sized(s');
  }

  lemma {:induction false} CarveAllocates(s: State, h: Addr, n: nat)
    requires Good(s) && h in s.ring && h in s.blocks && 0 < n < s.blocks[h]
    ensures var s', at := Carved(s, h, n), h + s.blocks[h] - n;
            AllocatedOf(s'.ring, s'.blocks) == AllocatedOf(s.ring, s.blocks)[at := n]
  {
    CarveKeepsGood(s, h, n);
  }

  /** sbrk has granted n units at h, and their first is made a header. */
  ghost function Grown(s: State, h: Addr, n: nat): State {
    State(s.base, h + n, s.ptr, s.size[h := n], s.ring, s.blocks[h := n], Granted(s.owner, h, n))
  }

  /** Exactly the n units from h on are new. */
  ghost predicate Gained(units: set<Addr>, h: Addr, n: nat, units': set<Addr>) {
    forall u: Addr :: u in units' <==> u in units || h <= u < h + n
  }

  lemma {:induction false} GrowKeepsGood(s: State, h: Addr, n: nat)
    requires Good(s) && s.brk <= h && n > 0
    ensures Good(Grown(s, h, n)) && h !in s.blocks && h !in s.ring
  {
    var s' := Grown(s, h, n);
    GrowTiles(s.blocks, s.owner, h, n);
    NotInRing(s, h);
    SmallerKeepsFree(s.ring, s.base, s.blocks, s'.blocks);
    assert InArena(s');
    assert Sized(s');
  }

  lemma {:induction false} AllocatesMore(ring: seq<Addr>, blocks: map<Addr, nat>, h: Addr, n: nat)
    requires h !in ring
    ensures AllocatedOf(ring, blocks[h := n]) == AllocatedOf(ring, blocks)[h := n]
  {
  }

  /** Some free block has at least n units. */
  ghost predicate HasFit(ring: seq<Addr>, blocks: map<Addr, nat>, n: nat) {
    exists h :: h in ring && h in blocks && blocks[h] >= n
  }

  /** The index d links beyond index f of a ring of n elements. */
  function Along(n: nat, f: nat, d: nat): nat
    requires f < n && d <= n
  {
    if f + d < n then f + d else f + d - n
  }

  /** The units after the first d links from ring[f], all seen to be too small. */
  ghost predicate NoFitSoFar(s: State, f: nat, d: nat, n: nat) {
    && f < |s.ring| && d <= |s.ring|
    && forall e :: 1 <= e < d ==>
         var h := s.ring[Along(|s.ring|, f, e)]; h in s.size && s.size[h] < n
  }

  lemma {:induction false} NoFitAtAll(s: State, f: nat, n: nat)
    requires Good(s) && f < |s.ring| && n > 0
    requires NoFitSoFar(s, f, |s.ring|, n) && s.ring[f] in s.size && s.size[s.ring[f]] < n
    ensures !HasFit(s.ring, s.blocks, n)
  {
    forall h | h in s.ring && h in s.blocks ensures s.blocks[h] < n {
      var i :| 0 <= i < |s.ring| && s.ring[i] == h;
      if i != f {
        var e := if i > f then i - f else i - f + |s.ring|;
        assert Along(|s.ring|, f, e) == i && 1 <= e < |s.ring|;
      }
    }
  }

  lemma {:induction false} RingIsSized(s: State, i: nat, n: nat)
    requires Good(s) && i < |s.ring| && n > 0
    ensures s.ring[i] in s.size
    ensures s.size[s.ring[i]] >= n ==> HasFit(s.ring, s.blocks, n)
  {
    assert i == 0 || s.ring[i] in s.blocks;
    assert s.ring[i] in s.ring;
  }

  /** One more block was too small: either the walk goes on, or it was once around. */
  lemma {:induction false} Advance(s: State, f: nat, d: nat, j: nat, n: nat)
    requires Good(s) && n > 0 && f < |s.ring| && 1 <= d <= |s.ring| && j == Along(|s.ring|, f, d - 1)
    requires NoFitSoFar(s, f, d, n)
    requires s.ring[Succ(s.ring, j)] in s.size && s.size[s.ring[Succ(s.ring, j)]] < n
    ensures if s.ring[Succ(s.ring, j)] == s.ring[f] then !HasFit(s.ring, s.blocks, n)
            else d < |s.ring| && Succ(s.ring, j) == Along(|s.ring|, f, d) && NoFitSoFar(s, f, d + 1, n)
  {
    assert Succ(s.ring, j) == Along(|s.ring|, f, d);
    if s.ring[Succ(s.ring, j)] == s.ring[f] {
      assert Succ(s.ring, j) == f;
      NoFitAtAll(s, f, n);
    }
  }

  // ------------------------------------------------------------------
  // Conservation in numbers.

  ghost function Total(blocks: map<Addr, nat>): nat {
    if blocks == map[] then 0
    else var h :| h in blocks; blocks[h] + Total(blocks - {h})
  }

  /** The units that belong to the given blocks. */
  ghost function UnitsOf(owner: map<Addr, Addr>, headers: set<Addr>): map<Addr, Addr> {
    map u | u in owner && owner[u] in headers :: owner[u]
  }

  lemma {:induction false} PartTiles(blocks: map<Addr, nat>, owner: map<Addr, Addr>, part: map<Addr, nat>)
    requires Tiles(blocks, owner)
    requires forall h :: h in part ==> h in blocks && part[h] == blocks[h]
    ensures Tiles(part, UnitsOf(owner, part.Keys))
  {
    forall h | h in part ensures Covers(UnitsOf(owner, part.Keys), h, part[h]) {
      assert Covers(owner, h, blocks[h]);
    }
  }

  lemma {:induction false} OneBlockUnits(blocks: map<Addr, nat>, owner: map<Addr, Addr>, h: Addr)
    requires Tiles(blocks, owner) && h in blocks
    ensures |UnitsOf(owner, {h})| == blocks[h]
  {
    assert Covers(owner, h, blocks[h]);
    IntervalSize(UnitsOf(owner, {h}).Keys, h, blocks[h]);
    assert |UnitsOf(owner, {h})| == |UnitsOf(owner, {h}).Keys|;
  }

  /** Splitting the headers in two splits the units in two. */
  lemma {:induction false} CountParts(blocks: map<Addr, nat>, owner: map<Addr, Addr>, hs: set<Addr>)
    requires Tiles(blocks, owner)
    ensures |owner| == |UnitsOf(owner, hs)| + |UnitsOf(owner, blocks.Keys - hs)|
  {
    var a, b := UnitsOf(owner, hs), UnitsOf(owner, blocks.Keys - hs);
    assert a.Keys !! b.Keys && owner.Keys == a.Keys + b.Keys;
    assert |owner| == |owner.Keys| && |a| == |a.Keys| && |b| == |b.Keys|;
  }

  /** The units of a tiling are as many as the sizes of its blocks add up to. */
  lemma {:induction false} TilesTotal(blocks: map<Addr, nat>, owner: map<Addr, Addr>)
    requires Tiles(blocks, owner)
    ensures |owner| == Total(blocks)
    decreases |blocks|
  {
    if blocks == map[] {
      assert owner == map[];
    } else {
      var h :| h in blocks && Total(blocks) == blocks[h] + Total(blocks - {h});
      SmallerMap(blocks, h);
      PartTiles(blocks, owner, blocks - {h});
      TilesTotal(blocks - {h}, UnitsOf(owner, (blocks - {h}).Keys));
      OneBlockUnits(blocks, owner, h);
      CountParts(blocks, owner, {h});
      assert (blocks - {h}).Keys == blocks.Keys - {h};
    }
  }

  lemma {:induction false} IntervalSize(xs: set<Addr>, h: Addr, n: nat)
    requires forall u: Addr :: u in xs <==> h <= u < h + n
    ensures |xs| == n
    decreases n
  {
    if n == 0 {
      assert xs == {};
    } else {
      IntervalSize(xs - {h + n - 1}, h, n - 1);
    }
  }

  /**
   Free units plus allocated units are the units obtained from sbrk, in every heap that
   malloc and free can produce.
   */
  lemma {:induction false} UnitsAreConserved(s: State)
    requires Tiles(s.blocks, s.owner)
    ensures var live := AllocatedOf(s.ring, s.blocks);
            Total(live) + Total(s.blocks - live.Keys) == |s.owner|
  {
    var live := AllocatedOf(s.ring, s.blocks);
    PartTiles(s.blocks, s.owner, live);
    PartTiles(s.blocks, s.owner, s.blocks - live.Keys);
    TilesTotal(live, UnitsOf(s.owner, live.Keys));
    TilesTotal(s.blocks - live.Keys, UnitsOf(s.owner, (s.blocks - live.Keys).Keys));
    CountParts(s.blocks, s.owner, live.Keys);
    assert (s.blocks - live.Keys).Keys == s.blocks.Keys - live.Keys;
  }

  class Heap {
    const base: Addr
    var ptr: map<Addr, Addr>
    var size: map<Addr, nat>
    var freep: Addr                       // 0 until the first malloc
    var brk: Addr                         // end of what sbrk has handed out
    ghost var ring: seq<Addr>
    ghost var blocks: map<Addr, nat>      // all blocks, free and allocated
    ghost var owner: map<Addr, Addr>      // all units obtained from sbrk

    ghost function View(): State
      reads this
    {
      State(base, brk, ptr, size, ring, blocks, owner)
    }

    ghost predicate Valid()
      reads this
    {
      if freep == 0 then
        0 < base < brk && ring == [base] && blocks == map[] && owner == map[]
      else
        freep in ring && Good(View())
    }

    /** Blocks handed out to the program and not yet freed. */
    ghost function Allocated(): map<Addr, nat>
      reads this
    {
      AllocatedOf(ring, blocks)
    }

    constructor (base: Addr, brk: Addr)
      requires 0 < base < brk
      ensures Valid() && Allocated() == map[] && owner == map[]
    {
      this.base, this.brk, this.freep := base, brk, 0;
      ptr, size := map[], map[];
      ring, blocks, owner := [base], map[], map[];
    }

    /** The search loop of free: the list element after which block bp belongs. */
    method FindPlace(bp: Addr) returns (p: Addr, ghost j: nat)
      requires Valid() && freep != 0 && bp in Allocated()
      ensures Between(ring, base, blocks, j, bp) && p == ring[j]
      ensures p in ring && p < bp && forall q :: q in ring && q < bp ==> q <= p
    {
      BlockAboveBase(View(), bp);
      j := Place(ring, bp);
      HighestBelow(ring, bp, j);
      assert j + 1 < |ring| ==> bp != ring[j + 1];
      ghost var i :| 0 <= i < |ring| && ring[i] == freep;
      p := freep;
      assert LinkAt(ring, ptr, i);
      while !(p < bp < ptr[p])
        invariant 0 <= i < |ring| && p == ring[i] && p in ptr
        decreases if i <= j then j - i else j - i + |ring|
      {
        StopsAtPlace(ring, ptr, bp, i, j);
        if p >= ptr[p] && (bp > p || bp < ptr[p]) {
          break;
        }
        p := ptr[p];
        i := Succ(ring, i);
      }
      StopsAtPlace(ring, ptr, bp, i, j);
    }

    method JoinUpper(bp: Addr, p: Addr, ghost j: nat)
      requires Valid() && freep != 0 && Between(ring, base, blocks, j, bp) && p == ring[j]
      modifies this`ptr, this`size, this`ring, this`blocks, this`owner
      ensures Joined(View(), j, bp) && p == ring[j]
      ensures Allocated() - {bp} == old(Allocated()) - {bp} && blocks[bp] >= old(blocks[bp])
      ensures owner.Keys == old(owner.Keys)
    {
      BlockAboveBase(View(), bp);
      assert LinkAt(ring, ptr, j);
      if bp + size[bp] == ptr[p] {
        Swallow(bp, p, j);
      } else {
        UpPlainJoins(View(), j, bp);
        ptr := ptr[bp := ptr[p]];
      }
    }

    /** The free block that starts where bp ends becomes part of it. */
    method Swallow(bp: Addr, p: Addr, ghost j: nat)
      requires Good(View()) && Between(ring, base, blocks, j, bp) && p == ring[j]
      requires p in ptr && bp in size && bp + size[bp] == ptr[p]
      modifies this`ptr, this`size, this`ring, this`blocks, this`owner
      ensures Joined(View(), j, bp) && p == ring[j]
      ensures Allocated() - {bp} == old(Allocated()) - {bp} && blocks[bp] >= old(blocks[bp])
      ensures owner.Keys == old(owner.Keys)
    {
      BlockAboveBase(View(), bp);
      assert LinkAt(ring, ptr, j);
      ghost var s' := UpMerged(View(), j, bp);
      UpMergeJoins(View(), j, bp);
      UpKeepsAllocated(ring, base, blocks, j, bp);
      size := size[bp := size[bp] + size[ptr[p]]];
      ptr := ptr[bp := ptr[ptr[p]]];
      ring, blocks, owner := s'.ring, s'.blocks, s'.owner;
      assert View() == s';
    }

    method JoinLower(bp: Addr, p: Addr, ghost j: nat)
      requires Joined(View(), j, bp) && p == ring[j]
      modifies this`ptr, this`size, this`freep, this`ring, this`blocks, this`owner
      ensures Valid() && freep == p
      ensures Allocated() == old(Allocated()) - {bp}
      ensures owner.Keys == old(owner.Keys)
      ensures exists h :: h in ring && h in blocks && blocks[h] >= old(blocks[bp])
    {
      assert p in ring;
      if p + size[p] == bp {
        DownMergeKeepsGood(View(), j, bp);
        DownStage(ring, base, blocks, j, bp);
        MergeDown(bp, p, j);
      } else {
        LinkIn(bp, p, j);
      }
      freep := p;
    }

    /** The block becomes the end of the free block in front of it. */
    method MergeDown(bp: Addr, p: Addr, ghost j: nat)
      requires Joined(View(), j, bp) && p == ring[j] && p in size && p + size[p] == bp
      modifies this`ptr, this`size, this`blocks, this`owner
      ensures View() == DownMerged(old(View()), j, bp)
    {
      ghost var s' := DownMerged(View(), j, bp);
      size := size[p := size[p] + size[bp]];
      ptr := ptr[p := ptr[bp]];
      blocks, owner := s'.blocks, s'.owner;
      assert View() == s';
    }

    /** The block is joined to neither neighbour and becomes an element of the list. */
    method LinkIn(bp: Addr, p: Addr, ghost j: nat)
      requires Joined(View(), j, bp) && p == ring[j] && p in size && p + size[p] != bp
      modifies this`ptr, this`ring
      ensures Good(View()) && p in ring && bp in ring
      ensures Allocated() == old(Allocated()) - {bp}
    {
      ghost var s' := Inserted(View(), j, bp);
      PlainFrees(View(), j, bp);
      ptr := ptr[p := bp];
      ring := s'.ring;
      assert View() == s';
      assert ring[j + 1] == bp && ring[j] == p;
    }

    /**
     free of a block that malloc handed out: exactly that block stops being allocated,
     and no unit is lost.
     */
    method Free(bp: Addr)
      requires Valid() && freep != 0 && bp in Allocated()
      modifies this`ptr, this`size, this`freep, this`ring, this`blocks, this`owner
      ensures Valid() && freep != 0
      ensures Allocated() == old(Allocated()) - {bp}
      ensures owner.Keys == old(owner.Keys)
      ensures exists h :: h in ring && h in blocks && blocks[h] >= old(blocks[bp])
    {
      var p;
      ghost var j;
      p, j := FindPlace(bp);
      JoinUpper(bp, p, j);
      JoinLower(bp, p, j);
    }

    /** Obtain at least nunits more from sbrk, whose answer is `grant`, and free them. */
    method MoreCore(nunits: nat, grant: Option<Addr>) returns (ok: bool)
      requires Valid() && freep != 0
      requires grant.Some? ==> brk <= grant.value
      modifies this
      ensures Valid() && freep != 0
      ensures ok <==> grant.Some?
      ensures Allocated() == old(Allocated())
      ensures ok ==> HasFit(ring, blocks, nunits)
      ensures ok ==> Gained(old(owner.Keys), grant.value, CoreUnits(nunits), owner.Keys)
      ensures !ok ==> View() == old(View()) && freep == old(freep)
    {
      var nu := if nunits < MINCORE then MINCORE else nunits;
      if grant.None? {
        return false;
      }
      NewBlock(grant.value, nu);
      Free(grant.value);
      return true;
    }

    /** The units granted by sbrk, as one allocated block. */
    method NewBlock(hp: Addr, nu: nat)
      requires Valid() && freep != 0 && brk <= hp && nu > 0
      modifies this`brk, this`size, this`blocks, this`owner
      ensures Valid() && hp in blocks && blocks[hp] == nu && hp !in old(Allocated())
      ensures Allocated() == old(Allocated())[hp := nu]
      ensures Gained(old(owner.Keys), hp, nu, owner.Keys)
    {
      ghost var s' := Grown(View(), hp, nu);
      GrowKeepsGood(View(), hp, nu);
      AllocatesMore(ring, blocks, hp, nu);
      brk := hp + nu;
      size := size[hp := nu];
      blocks, owner := s'.blocks, s'.owner;
      assert View() == s';
    }

    /** Hand out nunits of block p, which follows prevp in the list. */
    method Carve(prevp: Addr, p: Addr, nunits: nat, ghost j: nat) returns (h: Addr)
      requires Valid() && freep != 0
      requires j < |ring| && prevp == ring[j] && p == ring[Succ(ring, j)] && p in size && size[p] >= nunits > 0
      modifies this
      ensures Valid() && freep != 0
      ensures h !in old(Allocated()) && Allocated() == old(Allocated())[h := nunits]
      ensures owner.Keys == old(owner.Keys)
    {
      assert Succ(ring, j) == j + 1 by { assert size[base] == 0; }
      if size[p] == nunits {
        TakeWhole(prevp, p, j);
        h := p;
      } else {
        h := TakeTail(p, nunits);
        assert prevp in ring;
      }
      freep := prevp;
    }

    /** The block has exactly the size asked for and leaves the list. */
    method TakeWhole(prevp: Addr, p: Addr, ghost j: nat)
      requires Good(View()) && j + 1 < |ring| && prevp == ring[j] && p == ring[j + 1]
      modifies this`ptr, this`ring
      ensures Good(View()) && prevp in ring && p !in old(Allocated()) && p in blocks
      ensures Allocated() == old(Allocated())[p := blocks[p]]
    {
      assert LinkAt(ring, ptr, j) && LinkAt(ring, ptr, j + 1);
      UnlinkKeepsGood(View(), j);
      UnlinkAllocates(View(), j);
      ghost var s' := Unlinked(View(), j);
      ptr := ptr[prevp := ptr[p]];
      ring := s'.ring;
      assert View() == s';
    }

    /** The block is larger: its tail is handed out. */
    method TakeTail(p: Addr, nunits: nat) returns (h: Addr)
      requires Good(View()) && p in ring && p in blocks && 0 < nunits < blocks[p]
      modifies this`size, this`blocks, this`owner
      ensures Good(View()) && h !in old(Allocated())
      ensures Allocated() == old(Allocated())[h := nunits] && owner.Keys == old(owner.Keys)
    {
      ghost var s' := Carved(View(), p, nunits);
      CarveKeepsGood(View(), p, nunits);
      CarveAllocates(View(), p, nunits);
      size := size[p := size[p] - nunits];
      h := p + size[p];
      size := size[h := nunits];
      blocks, owner := s'.blocks, s'.owner;
      assert View() == s';
    }

    /**
     malloc: first fit from freep around the ring.  `grant` is the answer sbrk would give;
     what it is worth for large requests is said by CoreIsAskedFor.  The request fails only
     when no free block is large enough and sbrk refuses, and sbrk is asked at most once,
     only when nothing fits.
     */
    method Malloc(nbytes: nat, grant: Option<Addr>) returns (r: Option<Addr>, grew: bool)
      requires Valid() && nbytes < WRAP
      requires grant.Some? ==> brk <= grant.value
      modifies this
      ensures Valid()
      ensures r.Some? ==> r.value > 0 && r.value - 1 !in old(Allocated())
      ensures r.Some? ==> Allocated() == old(Allocated())[r.value - 1 := Units(nbytes)]
      ensures r.None? ==> Allocated() == old(Allocated())
      ensures r.None? <==> grant.None? && !old(HasFit(ring, blocks, Units(nbytes)))
      ensures grew <==> grant.Some? && !old(HasFit(ring, blocks, Units(nbytes)))
      ensures grew ==> Gained(old(owner.Keys), grant.value, CoreUnits(Units(nbytes)), owner.Keys)
      ensures !grew ==> owner.Keys == old(owner.Keys)
    {
      var nunits := Units(nbytes);
      if freep == 0 {
        StartRing();
      }
      r, grew := AllocateUnits(nunits, grant);
    }

    method AllocateUnits(nunits: nat, grant: Option<Addr>) returns (r: Option<Addr>, grew: bool)
      requires Valid() && freep != 0 && nunits > 0 && (grant.Some? ==> brk <= grant.value)
      modifies this
      ensures Valid()
      ensures r.Some? ==> r.value > 0 && r.value - 1 !in old(Allocated())
      ensures r.Some? ==> Allocated() == old(Allocated())[r.value - 1 := nunits]
      ensures r.None? ==> Allocated() == old(Allocated())
      ensures r.None? <==> grant.None? && !old(HasFit(ring, blocks, nunits))
      ensures grew <==> grant.Some? && !old(HasFit(ring, blocks, nunits))
      ensures grew ==> Gained(old(owner.Keys), grant.value, CoreUnits(nunits), owner.Keys)
      ensures !grew ==> owner.Keys == old(owner.Keys)
    {
      var found, prevp, p;
      ghost var j;
      found, grew, prevp, p, j := FirstFit(nunits, grant);
      if !found {
        return None, false;
      }
      var h := Carve(prevp, p, nunits, j);
      r := Some(h + 1);
    }

    /** The search, with more memory if a first lap finds nothing. */
    method FirstFit(nunits: nat, grant: Option<Addr>) returns (found: bool, grew: bool, prevp: Addr, p: Addr, ghost j: nat)
      requires Valid() && freep != 0 && nunits > 0 && (grant.Some? ==> brk <= grant.value)
      modifies this
      ensures Valid() && freep != 0 && Allocated() == old(Allocated())
      ensures grew <==> grant.Some? && !old(HasFit(ring, blocks, nunits))
      ensures found <==> grew || old(HasFit(ring, blocks, nunits))
      ensures grew ==> Gained(old(owner.Keys), grant.value, CoreUnits(nunits), owner.Keys)
      ensures !grew ==> owner.Keys == old(owner.Keys)
      ensures found ==> j < |ring| && prevp == ring[j] && p == ring[Succ(ring, j)] && p in size && size[p] >= nunits
    {
      grew := false;
      found, prevp, p, j := Search(nunits);
      if !found {
        grew := MoreCore(nunits, grant);
        if grew {
          found, prevp, p, j := Search(nunits);
        }
      }
    }

    /**
     One lap of malloc's loop, from freep once around: it stops at the first block that
     is large enough, or at freep itself.
     */
    method Search(nunits: nat) returns (found: bool, prevp: Addr, p: Addr, ghost j: nat)
      requires Valid() && freep != 0 && nunits > 0
      ensures found <==> HasFit(ring, blocks, nunits)
      ensures found ==> j < |ring| && prevp == ring[j] && p == ring[Succ(ring, j)] && p in size && size[p] >= nunits
    {
      j :| 0 <= j < |ring| && ring[j] == freep;
      ghost var f, d := j, 1;
      prevp := freep;
      p := Follow(prevp, j);
      while true
        invariant f < |ring| && ring[f] == freep && 1 <= d <= |ring|
        invariant j == Along(|ring|, f, d - 1)
        invariant prevp == ring[j] && p == ring[Succ(ring, j)]
        invariant NoFitSoFar(View(), f, d, nunits)
        decreases |ring| - d
      {
        RingIsSized(View(), Succ(ring, j), nunits);
        if size[p] >= nunits {
          return true, prevp, p, j;
        }
        Advance(View(), f, d, j, nunits);
        if p == freep {
          return false, prevp, p, j;
        }
        j, d := Succ(ring, j), d + 1;
        prevp := p;
        p := Follow(prevp, j);
      }
    }

    method Follow(p: Addr, ghost j: nat) returns (q: Addr)
      requires Valid() && freep != 0 && j < |ring| && p == ring[j]
      ensures q == ring[Succ(ring, j)]
    {
      assert LinkAt(ring, ptr, j);
      q := ptr[p];
    }

    /** The first call makes the anchor a ring of one empty block. */
    method StartRing()
      requires Valid() && freep == 0
      modifies this`freep, this`ptr, this`size
      ensures Valid() && freep != 0
    {
      freep := base;
      ptr := ptr[base := base];
      size := size[base := 0];
      assert LinkAt(ring, ptr, 0);
      assert Sized(View());
    }
  }
}
