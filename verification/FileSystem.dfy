/**
 Files on disk: the block bitmap and the block map of inodes with its indirect block, and
 what allocating, mapping and freeing blocks do to them.

 Blocks are those the log layer presents: one block map, whose writes are logged.
 `owner` says of every block why it is in use.  Since each block has one owner and each
 owner stands for one slot of one inode, the invariant `Good` says that the bitmap, the
 inodes and the indirect blocks agree.
 */
module FileSystem {
  import opened Common
  import opened Blocks

  const NDIRECT: nat := 12
  const NINDIRECT: nat := 128
  const MAXFILE: nat := 140
  const BPB: nat := 4096

  /** The disk layout: `nmeta` blocks of metadata, bitmap included, come first. */
  datatype Super = Super(size: nat, nmeta: nat, bmapstart: nat, inodestart: nat)

  datatype Inode = Inode(addrs: seq<nat>, size: nat)

  datatype Owner =
    | Free
    | Meta
    | Claimed                       // just allocated, not yet in a slot
    | Direct(inum: nat, k: nat)
    | Table(inum: nat)              // the indirect block itself
    | Indirect(inum: nat, k: nat)

  datatype FS = FS(sb: Super, blocks: seq<Block>, inodes: seq<Inode>, owner: seq<Owner>)

  // ------------------------------------------------------------------
  // The invariant.

  /** BBLOCK */
  function BitmapBlock(sb: Super, b: nat): nat { b / BPB + sb.bmapstart }

  predicate SuperOk(sb: Super) {
    && 0 < sb.nmeta <= sb.size < WRAP
    && sb.bmapstart + (sb.size - 1) / BPB < sb.nmeta
  }

  ghost predicate Sized(fs: FS) {
    && SuperOk(fs.sb) && |fs.blocks| == fs.sb.size && |fs.owner| == fs.sb.size
    && forall i :: 0 <= i < |fs.inodes| ==> |fs.inodes[i].addrs| == NDIRECT + 1
  }

  lemma BitmapInMeta(sb: Super, b: nat)
    requires SuperOk(sb) && b < sb.size
    ensures BitmapBlock(sb, b) < sb.nmeta
  {
    assert b / BPB <= (sb.size - 1) / BPB;
  }

  predicate InUse(fs: FS, b: nat)
    requires Sized(fs) && b < fs.sb.size
  {
    BitmapInMeta(fs.sb, b);
    BlockBit(fs.blocks[BitmapBlock(fs.sb, b)], b % BPB)
  }

  /** Entry k of inode i's indirect block */
  function Entry(fs: FS, i: nat, k: nat): nat
    requires Sized(fs) && i < |fs.inodes| && k < NINDIRECT && fs.inodes[i].addrs[NDIRECT] < fs.sb.size
  {
    Word(fs.blocks[fs.inodes[i].addrs[NDIRECT]], k)
  }

  /** The owner of block b is a slot that does hold b, and the bitmap knows. */
  ghost predicate BlockOk(fs: FS, b: nat)
    requires Sized(fs) && b < fs.sb.size
  {
    && (InUse(fs, b) <==> fs.owner[b] != Free)
    && (fs.owner[b] == Meta <==> b < fs.sb.nmeta)
    && match fs.owner[b]
       case Direct(i, k) => i < |fs.inodes| && k < NDIRECT && fs.inodes[i].addrs[k] == b
       case Table(i) => i < |fs.inodes| && fs.inodes[i].addrs[NDIRECT] == b
       case Indirect(i, k) =>
         && i < |fs.inodes| && k < NINDIRECT && 0 < fs.inodes[i].addrs[NDIRECT] < fs.sb.size
         && Entry(fs, i, k) == b
       case _ => true
  }

  /** A block number in a slot is 0 or names a block that slot owns. */
  ghost predicate Owns(fs: FS, b: nat, o: Owner) {
    b != 0 ==> b < |fs.owner| && fs.owner[b] == o
  }

  ghost predicate DirectOk(fs: FS, i: nat, k: nat)
    requires Sized(fs) && i < |fs.inodes| && k < NDIRECT
  {
    Owns(fs, fs.inodes[i].addrs[k], Direct(i, k))
  }

  ghost predicate IndirectOk(fs: FS, i: nat, k: nat)
    requires Sized(fs) && i < |fs.inodes| && k < NINDIRECT
  {
    0 < fs.inodes[i].addrs[NDIRECT] < fs.sb.size ==> Owns(fs, Entry(fs, i, k), Indirect(i, k))
  }

  ghost predicate TableOk(fs: FS, i: nat)
    requires Sized(fs) && i < |fs.inodes|
  {
    Owns(fs, fs.inodes[i].addrs[NDIRECT], Table(i))
  }

  ghost predicate Good(fs: FS) {
    && Sized(fs)
    && (forall b: nat :: b < fs.sb.size ==> BlockOk(fs, b))
    && (forall i: nat :: i < |fs.inodes| ==> TableOk(fs, i))
    && (forall i: nat, k: nat :: i < |fs.inodes| && k < NDIRECT ==> DirectOk(fs, i, k))
    && (forall i: nat, k: nat :: i < |fs.inodes| && k < NINDIRECT ==> IndirectOk(fs, i, k))
  }

  // ------------------------------------------------------------------
  // The block map.

  /** The block address of the bn-th block of a file, 0 if there is none. */
  function Addr(fs: FS, i: nat, bn: nat): nat
    requires Sized(fs) && i < |fs.inodes| && bn < MAXFILE
  {
    if bn < NDIRECT then fs.inodes[i].addrs[bn]
    else if 0 < fs.inodes[i].addrs[NDIRECT] < fs.sb.size then Entry(fs, i, bn - NDIRECT)
    else 0
  }

  function SlotOf(i: nat, bn: nat): Owner {
    if bn < NDIRECT then Direct(i, bn) else Indirect(i, bn - NDIRECT)
  }

  lemma AddrIsOwned(fs: FS, i: nat, bn: nat)
    requires Good(fs) && i < |fs.inodes| && bn < MAXFILE
    ensures Owns(fs, Addr(fs, i, bn), SlotOf(i, bn))
  {
    if bn < NDIRECT {
      assert DirectOk(fs, i, bn);
    } else {
      assert IndirectOk(fs, i, bn - NDIRECT);
    }
  }

  /** Block bn of file j is where it was and holds what it held. */
  ghost predicate Kept(fs: FS, fs': FS, j: nat, bn: nat)
    requires Sized(fs) && Sized(fs') && j < |fs.inodes| == |fs'.inodes| && bn < MAXFILE
  {
    var a := Addr(fs, j, bn);
    Addr(fs', j, bn) == a && (0 < a < |fs.blocks| == |fs'.blocks| ==> fs'.blocks[a] == fs.blocks[a])
  }

  /** All blocks of all files are kept, except possibly block bn of file i. */
  ghost predicate KeepsAllBut(fs: FS, fs': FS, i: nat, bn: nat) {
    && Sized(fs) && Sized(fs') && fs'.sb == fs.sb && |fs.inodes| == |fs'.inodes|
    && (forall j: nat :: j < |fs.inodes| ==> fs'.inodes[j].size == fs.inodes[j].size)
    && forall j: nat, n: nat :: j < |fs.inodes| && n < MAXFILE && (j != i || n != bn) ==> Kept(fs, fs', j, n)
  }

  lemma KeepsTransitive(fs: FS, fs1: FS, fs2: FS, i: nat, bn: nat)
    requires KeepsAllBut(fs, fs1, i, bn) && KeepsAllBut(fs1, fs2, i, bn)
    ensures KeepsAllBut(fs, fs2, i, bn)
  {
    forall j: nat, n: nat | j < |fs.inodes| && n < MAXFILE && (j != i || n != bn) ensures Kept(fs, fs2, j, n) {
      assert Kept(fs, fs1, j, n) && Kept(fs1, fs2, j, n);
    }
  }

  // ------------------------------------------------------------------
  // Allocating.

  function WithBit(fs: FS, b: nat, v: bool): seq<Block>
    requires Sized(fs) && b < fs.sb.size
  {
    BitmapInMeta(fs.sb, b);
    var m := BitmapBlock(fs.sb, b);
    fs.blocks[m := SetBlockBit(fs.blocks[m], b % BPB, v)]
  }

  lemma {:induction false} BitsAfter(fs: FS, b: nat, v: bool, c: nat)
    requires Sized(fs) && b < fs.sb.size && c < fs.sb.size
    ensures Sized(fs.(blocks := WithBit(fs, b, v)))
    ensures InUse(fs.(blocks := WithBit(fs, b, v)), c) == if b == c then v else InUse(fs, c)
  {
    BitmapInMeta(fs.sb, b);
    BitmapInMeta(fs.sb, c);
    if b / BPB == c / BPB {
      BitOfSetBlockBit(fs.blocks[BitmapBlock(fs.sb, b)], b % BPB, v, c % BPB);
    }
  }

  /** balloc has marked block b in use and zeroed it. */
  ghost function AfterAlloc(fs: FS, b: nat): FS
    requires Sized(fs) && b < fs.sb.size
  {
    fs.(blocks := WithBit(fs, b, true)[b := ZeroBlock()], owner := fs.owner[b := Claimed])
  }

  lemma {:induction false} AllocKeepsBlock(fs: FS, b: nat, c: nat)
    requires Good(fs) && b < fs.sb.size && fs.owner[b] == Free && c < fs.sb.size
    ensures Sized(AfterAlloc(fs, b)) && BlockOk(AfterAlloc(fs, b), c)
    ensures c >= fs.sb.nmeta && c != b ==> AfterAlloc(fs, b).blocks[c] == fs.blocks[c]
  {
    var fs' := AfterAlloc(fs, b);
    assert BlockOk(fs, b) && BlockOk(fs, c);
    BitmapInMeta(fs.sb, b);
    BitmapInMeta(fs.sb, c);
    BitsAfter(fs, b, true, c);
    if fs.owner[c].Indirect? {
      assert TableOk(fs, fs.owner[c].inum);
      assert BlockOk(fs, fs.inodes[fs.owner[c].inum].addrs[NDIRECT]);
    }
  }

  lemma {:induction false} AllocKeepsEntry(fs: FS, b: nat, i: nat, k: nat)
    requires Good(fs) && b < fs.sb.size && fs.owner[b] == Free && i < |fs.inodes| && k < NINDIRECT
    requires 0 < fs.inodes[i].addrs[NDIRECT] < fs.sb.size
    ensures Sized(AfterAlloc(fs, b)) && Entry(AfterAlloc(fs, b), i, k) == Entry(fs, i, k)
  {
    var a := fs.inodes[i].addrs[NDIRECT];
    assert TableOk(fs, i) && BlockOk(fs, a);
    AllocKeepsBlock(fs, b, a);
  }

  lemma {:induction false} AllocKeepsGood(fs: FS, b: nat)
    requires Good(fs) && b < fs.sb.size && fs.owner[b] == Free
    ensures Good(AfterAlloc(fs, b))
  {
    var fs' := AfterAlloc(fs, b);
    forall c: nat | c < fs.sb.size ensures BlockOk(fs', c) {
      AllocKeepsBlock(fs, b, c);
    }
    forall i: nat | i < |fs.inodes| ensures TableOk(fs', i) {
      assert TableOk(fs, i);
    }
    forall i: nat, k: nat | i < |fs.inodes| && k < NDIRECT ensures DirectOk(fs', i, k) {
      assert DirectOk(fs, i, k);
    }
    forall i: nat, k: nat | i < |fs.inodes| && k < NINDIRECT ensures IndirectOk(fs', i, k) {
      assert IndirectOk(fs, i, k);
      if 0 < fs.inodes[i].addrs[NDIRECT] < fs.sb.size {
        AllocKeepsEntry(fs, b, i, k);
      }
    }
  }

  lemma {:induction false} AllocKeepsFiles(fs: FS, b: nat, i: nat, bn: nat)
    requires Good(fs) && b < fs.sb.size && fs.owner[b] == Free
    ensures KeepsAllBut(fs, AfterAlloc(fs, b), i, bn)
  {
    var fs' := AfterAlloc(fs, b);
    forall j: nat, n: nat | j < |fs.inodes| && n < MAXFILE ensures Kept(fs, fs', j, n) {
      AllocKeepsFileBlock(fs, b, j, n);
    }
  }

  lemma {:induction false} AllocKeepsFileBlock(fs: FS, b: nat, j: nat, n: nat)
    requires Good(fs) && b < fs.sb.size && fs.owner[b] == Free && j < |fs.inodes| && n < MAXFILE
    ensures Sized(AfterAlloc(fs, b)) && Kept(fs, AfterAlloc(fs, b), j, n)
  {
    AddrIsOwned(fs, j, n);
    var a := Addr(fs, j, n);
    if n >= NDIRECT && 0 < fs.inodes[j].addrs[NDIRECT] < fs.sb.size {
      AllocKeepsEntry(fs, b, j, n - NDIRECT);
    }
    if a != 0 {
      assert BlockOk(fs, a);
      AllocKeepsBlock(fs, b, a);
    }
  }

  // ------------------------------------------------------------------
  // Putting a fresh block into a slot.

  function SetAddr(inodes: seq<Inode>, i: nat, k: nat, b: nat): seq<Inode>
    requires i < |inodes| && k < |inodes[i].addrs|
  {
    inodes[i := inodes[i].(addrs := inodes[i].addrs[k := b])]
  }

  ghost function WithDirect(fs: FS, i: nat, k: nat, b: nat): FS
    requires Sized(fs) && i < |fs.inodes| && k < NDIRECT && b < fs.sb.size
  {
    fs.(inodes := SetAddr(fs.inodes, i, k, b), owner := fs.owner[b := Direct(i, k)])
  }

  /** A block that is claimed but in no slot. */
  ghost predicate Fresh(fs: FS, b: nat) {
    Good(fs) && b < fs.sb.size && fs.owner[b] == Claimed
  }

  lemma FreshIsData(fs: FS, b: nat)
    requires Fresh(fs, b)
    ensures b >= fs.sb.nmeta && b != 0
  {
    assert BlockOk(fs, b);
  }

  lemma {:induction false} DirectKeepsGood(fs: FS, i: nat, k: nat, b: nat)
    requires Fresh(fs, b) && i < |fs.inodes| && k < NDIRECT && fs.inodes[i].addrs[k] == 0
    ensures Good(WithDirect(fs, i, k, b))
  {
    var fs' := WithDirect(fs, i, k, b);
    assert BlockOk(fs, 0);
    forall c: nat | c < fs.sb.size ensures BlockOk(fs', c) {
      assert BlockOk(fs, c);
    }
    forall j: nat | j < |fs.inodes| ensures TableOk(fs', j) {
      assert TableOk(fs, j);
    }
    forall j: nat, n: nat | j < |fs.inodes| && n < NDIRECT ensures DirectOk(fs', j, n) {
      assert DirectOk(fs, j, n);
    }
    forall j: nat, n: nat | j < |fs.inodes| && n < NINDIRECT ensures IndirectOk(fs', j, n) {
      assert IndirectOk(fs, j, n);
    }
  }

  lemma {:induction false} DirectKeepsFiles(fs: FS, i: nat, k: nat, b: nat)
    requires Fresh(fs, b) && i < |fs.inodes| && k < NDIRECT
    ensures KeepsAllBut(fs, WithDirect(fs, i, k, b), i, k)
  {
    var fs' := WithDirect(fs, i, k, b);
    forall j: nat, n: nat | j < |fs.inodes| && n < MAXFILE && (j != i || n != k) ensures Kept(fs, fs', j, n) {
    }
  }

  ghost function WithTable(fs: FS, i: nat, b: nat): FS
    requires Sized(fs) && i < |fs.inodes| && b < fs.sb.size
  {
    fs.(inodes := SetAddr(fs.inodes, i, NDIRECT, b), owner := fs.owner[b := Table(i)])
  }

  lemma {:induction false} TableKeepsGood(fs: FS, i: nat, b: nat)
    requires Fresh(fs, b) && i < |fs.inodes| && fs.inodes[i].addrs[NDIRECT] == 0 && fs.blocks[b] == ZeroBlock()
    ensures Good(WithTable(fs, i, b))
  {
    var fs' := WithTable(fs, i, b);
    FreshIsData(fs, b);
    assert BlockOk(fs, 0);
    forall c: nat | c < fs.sb.size ensures BlockOk(fs', c) {
      assert BlockOk(fs, c);
    }
    forall j: nat | j < |fs.inodes| ensures TableOk(fs', j) {
      assert TableOk(fs, j);
    }
    forall j: nat, n: nat | j < |fs.inodes| && n < NDIRECT ensures DirectOk(fs', j, n) {
      assert DirectOk(fs, j, n);
    }
    forall j: nat, n: nat | j < |fs.inodes| && n < NINDIRECT ensures IndirectOk(fs', j, n) {
      assert IndirectOk(fs, j, n);
      ZeroWords(n);
    }
  }

  lemma {:induction false} TableKeepsFiles(fs: FS, i: nat, b: nat, i0: nat, bn: nat)
    requires Fresh(fs, b) && i < |fs.inodes| && fs.inodes[i].addrs[NDIRECT] == 0 && fs.blocks[b] == ZeroBlock()
    ensures KeepsAllBut(fs, WithTable(fs, i, b), i0, bn)
  {
    var fs' := WithTable(fs, i, b);
    FreshIsData(fs, b);
    forall j: nat, n: nat | j < |fs.inodes| && n < MAXFILE ensures Kept(fs, fs', j, n) {
      if n >= NDIRECT {
        ZeroWords(n - NDIRECT);
      }
    }
  }

  ghost function WithIndirect(fs: FS, i: nat, k: nat, b: nat): FS
    requires Sized(fs) && i < |fs.inodes| && k < NINDIRECT && b < fs.sb.size
    requires fs.inodes[i].addrs[NDIRECT] < fs.sb.size
  {
    var a := fs.inodes[i].addrs[NDIRECT];
    fs.(blocks := fs.blocks[a := SetWord(fs.blocks[a], k, b)], owner := fs.owner[b := Indirect(i, k)])
  }

  lemma {:induction false} EntryAfter(fs: FS, i: nat, k: nat, b: nat, j: nat, n: nat)
    requires Good(fs) && i < |fs.inodes| && k < NINDIRECT && b < fs.sb.size
    requires 0 < fs.inodes[i].addrs[NDIRECT] < fs.sb.size
    requires j < |fs.inodes| && n < NINDIRECT && 0 < fs.inodes[j].addrs[NDIRECT] < fs.sb.size
    ensures Entry(WithIndirect(fs, i, k, b), j, n) == if j == i && n == k then b else Entry(fs, j, n)
  {
    assert TableOk(fs, i) && TableOk(fs, j);
    if j == i {
      WordOfSetWord(fs.blocks[fs.inodes[i].addrs[NDIRECT]], k, b, n);
    }
  }

  lemma {:induction false} IndirectKeepsBlock(fs: FS, i: nat, k: nat, b: nat, c: nat)
    requires Fresh(fs, b) && i < |fs.inodes| && k < NINDIRECT && c < fs.sb.size
    requires 0 < fs.inodes[i].addrs[NDIRECT] < fs.sb.size && Entry(fs, i, k) == 0
    ensures BlockOk(WithIndirect(fs, i, k, b), c)
  {
    var fs', a := WithIndirect(fs, i, k, b), fs.inodes[i].addrs[NDIRECT];
    assert BlockOk(fs, c) && BlockOk(fs, 0) && TableOk(fs, i) && BlockOk(fs, a);
    BitmapInMeta(fs.sb, c);
    assert InUse(fs', c) == InUse(fs, c);
    if fs'.owner[c].Indirect? {
      var o := fs'.owner[c];
      EntryAfter(fs, i, k, b, o.inum, o.k);
    }
  }

  lemma {:induction false} IndirectKeepsGood(fs: FS, i: nat, k: nat, b: nat)
    requires Fresh(fs, b) && i < |fs.inodes| && k < NINDIRECT
    requires 0 < fs.inodes[i].addrs[NDIRECT] < fs.sb.size && Entry(fs, i, k) == 0
    ensures Good(WithIndirect(fs, i, k, b))
  {
    var fs' := WithIndirect(fs, i, k, b);
    forall c: nat | c < fs.sb.size ensures BlockOk(fs', c) {
      IndirectKeepsBlock(fs, i, k, b, c);
    }
    forall j: nat | j < |fs.inodes| ensures TableOk(fs', j) {
      assert TableOk(fs, j);
    }
    forall j: nat, n: nat | j < |fs.inodes| && n < NDIRECT ensures DirectOk(fs', j, n) {
      assert DirectOk(fs, j, n);
    }
    forall j: nat, n: nat | j < |fs.inodes| && n < NINDIRECT ensures IndirectOk(fs', j, n) {
      assert IndirectOk(fs, j, n);
      if 0 < fs.inodes[j].addrs[NDIRECT] < fs.sb.size {
        EntryAfter(fs, i, k, b, j, n);
      }
    }
  }

  lemma {:induction false} IndirectKeepsFiles(fs: FS, i: nat, k: nat, b: nat)
    requires Fresh(fs, b) && i < |fs.inodes| && k < NINDIRECT
    requires 0 < fs.inodes[i].addrs[NDIRECT] < fs.sb.size
    ensures KeepsAllBut(fs, WithIndirect(fs, i, k, b), i, NDIRECT + k)
  {
    var fs' := WithIndirect(fs, i, k, b);
    assert TableOk(fs, i);
    forall j: nat, n: nat | j < |fs.inodes| && n < MAXFILE && (j != i || n != NDIRECT + k) ensures Kept(fs, fs', j, n) {
      AddrIsOwned(fs, j, n);
      if n >= NDIRECT && 0 < fs.inodes[j].addrs[NDIRECT] < fs.sb.size {
        EntryAfter(fs, i, k, b, j, n - NDIRECT);
      }
    }
  }

  // ------------------------------------------------------------------
  // Writing file data.

  lemma {:induction false} DataKeepsGood(fs: FS, i: nat, bn: nat, x: Block)
    requires Good(fs) && i < |fs.inodes| && bn < MAXFILE && 0 < Addr(fs, i, bn) < fs.sb.size
    ensures Good(fs.(blocks := fs.blocks[Addr(fs, i, bn) := x]))
  {
    var a := Addr(fs, i, bn);
    var fs' := fs.(blocks := fs.blocks[a := x]);
    AddrIsOwned(fs, i, bn);
    assert BlockOk(fs, a);
    forall j: nat | j < |fs.inodes| ensures TableOk(fs', j) {
      assert TableOk(fs, j);
    }
    forall c: nat | c < fs.sb.size ensures BlockOk(fs', c) {
      assert BlockOk(fs, c);
      BitmapInMeta(fs.sb, c);
      assert InUse(fs', c) == InUse(fs, c);
      if fs.owner[c].Indirect? {
        assert TableOk(fs, fs.owner[c].inum);
      }
    }
    forall j: nat, n: nat | j < |fs.inodes| && n < NDIRECT ensures DirectOk(fs', j, n) {
      assert DirectOk(fs, j, n);
    }
    forall j: nat, n: nat | j < |fs.inodes| && n < NINDIRECT ensures IndirectOk(fs', j, n) {
      assert IndirectOk(fs, j, n) && TableOk(fs, j);
    }
  }

  lemma {:induction false} DataKeepsFiles(fs: FS, i: nat, bn: nat, x: Block)
    requires Good(fs) && i < |fs.inodes| && bn < MAXFILE && 0 < Addr(fs, i, bn) < fs.sb.size
    ensures var fs' := fs.(blocks := fs.blocks[Addr(fs, i, bn) := x]);
            KeepsAllBut(fs, fs', i, bn) && Addr(fs', i, bn) == Addr(fs, i, bn)
  {
    var a := Addr(fs, i, bn);
    var fs' := fs.(blocks := fs.blocks[a := x]);
    AddrIsOwned(fs, i, bn);
    assert TableOk(fs, i);
    forall j: nat, n: nat | j < |fs.inodes| && n < MAXFILE && (j != i || n != bn) ensures Kept(fs, fs', j, n) {
      AddrIsOwned(fs, j, n);
      assert TableOk(fs, j);
    }
  }

  // ------------------------------------------------------------------
  // What the invariant says about the bitmap.

  /** Slot o of some inode holds block number b. */
  ghost predicate HeldBy(fs: FS, o: Owner, b: nat)
    requires Sized(fs)
  {
    match o
    case Direct(i, k) => i < |fs.inodes| && k < NDIRECT && fs.inodes[i].addrs[k] == b
    case Table(i) => i < |fs.inodes| && fs.inodes[i].addrs[NDIRECT] == b
    case Indirect(i, k) =>
      i < |fs.inodes| && k < NINDIRECT && 0 < fs.inodes[i].addrs[NDIRECT] < fs.sb.size && Entry(fs, i, k) == b
    case _ => false
  }

  ghost predicate NoneClaimed(owner: seq<Owner>) {
    forall b :: 0 <= b < |owner| ==> owner[b] != Claimed
  }

  /**
   Block ownership: a bit is set exactly when the block is metadata or some slot of some
   inode refers to it, and no block is referred to twice.
   */
  lemma {:induction false} BitmapIsExact(fs: FS, b: nat)
    requires Good(fs) && NoneClaimed(fs.owner) && 0 < b < fs.sb.size
    ensures InUse(fs, b) <==> b < fs.sb.nmeta || exists o :: HeldBy(fs, o, b)
    ensures forall o, o' :: HeldBy(fs, o, b) && HeldBy(fs, o', b) ==> o == o'
    ensures b < fs.sb.nmeta ==> forall o :: !HeldBy(fs, o, b)
  {
    assert BlockOk(fs, b);
    if InUse(fs, b) && b >= fs.sb.nmeta {
      assert HeldBy(fs, fs.owner[b], b);
    }
    forall o | HeldBy(fs, o, b) ensures fs.owner[b] == o {
      match o
      case Direct(i, k) => assert DirectOk(fs, i, k);
      case Table(i) => assert TableOk(fs, i);
      case Indirect(i, k) => assert IndirectOk(fs, i, k);
    }
  }

  // ------------------------------------------------------------------
  // Truncating.

  predicate OwnedBy(o: Owner, i: nat) {
    (o.Direct? || o.Table? || o.Indirect?) && o.inum == i
  }

  const NoAddrs: seq<nat> := [0, 0, 0, 0, 0, 0, 0, 0, 0, 0, 0, 0, 0]

  /** How far itrunc has come: direct slots below kd and indirect entries below kt are freed. */
  predicate Gone(o: Owner, i: nat, kd: nat, kt: nat, table: bool) {
    || (o.Direct? && o.inum == i && o.k < kd)
    || (o.Indirect? && o.inum == i && o.k < kt)
    || (table && o == Table(i))
  }

  ghost predicate Truncating(fs0: FS, fs: FS, i: nat, kd: nat, kt: nat, table: bool) {
    && Good(fs0) && Sized(fs) && fs.sb == fs0.sb && i < |fs0.inodes| == |fs.inodes|
    && (forall c: nat :: fs.sb.nmeta <= c < fs.sb.size ==> fs.blocks[c] == fs0.blocks[c])
    && (forall b: nat :: b < fs.sb.size ==>
          fs.owner[b] == if Gone(fs0.owner[b], i, kd, kt, table) then Free else fs0.owner[b])
    && (forall b: nat :: b < fs.sb.size ==> (InUse(fs, b) <==> fs.owner[b] != Free))
    && forall j: nat :: j < |fs.inodes| && j != i ==> fs.inodes[j] == fs0.inodes[j]
  }

  lemma {:induction false} FreeOne(fs0: FS, fs: FS, i: nat, kd: nat, kt: nat, table: bool, b: nat, o: Owner, kd': nat, kt': nat, table': bool)
    requires Truncating(fs0, fs, i, kd, kt, table) && b < fs.sb.size && fs0.owner[b] == o
    requires OwnedBy(o, i) && !Gone(o, i, kd, kt, table)
    requires forall o' :: Gone(o', i, kd', kt', table') <==> Gone(o', i, kd, kt, table) || o' == o
    ensures InUse(fs, b)
    ensures Truncating(fs0, fs.(blocks := WithBit(fs, b, false), owner := fs.owner[b := Free]), i, kd', kt', table')
  {
    var fs' := fs.(blocks := WithBit(fs, b, false), owner := fs.owner[b := Free]);
    BitmapInMeta(fs.sb, b);
    forall c: nat | c < fs.sb.size ensures InUse(fs', c) <==> fs'.owner[c] != Free {
      BitsAfter(fs, b, false, c);
    }
    forall c: nat | c < fs.sb.size ensures fs'.owner[c] == if Gone(fs0.owner[c], i, kd', kt', table') then Free else fs0.owner[c] {
      assert BlockOk(fs0, b) && BlockOk(fs0, c);
    }
  }

  lemma SkipOne(fs0: FS, fs: FS, i: nat, kd: nat, kt: nat, table: bool, o: Owner, kd': nat, kt': nat, table': bool)
    requires Truncating(fs0, fs, i, kd, kt, table)
    requires forall o' :: Gone(o', i, kd', kt', table') <==> Gone(o', i, kd, kt, table) || o' == o
    requires forall b: nat :: b < fs0.sb.size ==> fs0.owner[b] != o
    ensures Truncating(fs0, fs, i, kd', kt', table')
  {
  }

  /** The result of itrunc: exactly the blocks of inode i are given back. */
  ghost predicate Truncated(fs0: FS, fs: FS, i: nat) {
    && Good(fs) && Sized(fs0) && fs.sb == fs0.sb && i < |fs0.inodes|
    && fs.inodes == fs0.inodes[i := Inode(NoAddrs, 0)]
    && (forall b: nat :: b < |fs.owner| ==> fs.owner[b] == if OwnedBy(fs0.owner[b], i) then Free else fs0.owner[b])
    && forall c: nat :: fs.sb.nmeta <= c < fs.sb.size ==> fs.blocks[c] == fs0.blocks[c]
  }

  /** All slots of inode i have been cleared and their blocks freed. */
  ghost predicate Cleared(fs0: FS, fs: FS, i: nat) {
    Truncating(fs0, fs, i, NDIRECT, NINDIRECT, true) && fs.inodes == fs0.inodes[i := Inode(NoAddrs, 0)]
  }

  lemma {:induction false} ClearedOwner(fs0: FS, fs: FS, i: nat, b: nat)
    requires Cleared(fs0, fs, i) && b < fs.sb.size
    ensures b < |fs0.owner| && fs.owner[b] == if OwnedBy(fs0.owner[b], i) then Free else fs0.owner[b]
  {
    assert BlockOk(fs0, b);
  }

  lemma {:induction false} ClearedBlock(fs0: FS, fs: FS, i: nat, b: nat)
    requires Cleared(fs0, fs, i) && b < fs.sb.size
    ensures BlockOk(fs, b)
  {
    assert BlockOk(fs0, b);
    ClearedOwner(fs0, fs, i, b);
    if fs.owner[b].Indirect? {
      assert TableOk(fs0, fs.owner[b].inum);
      assert BlockOk(fs0, fs0.inodes[fs.owner[b].inum].addrs[NDIRECT]);
    }
  }

  lemma {:induction false} ClearedSlots(fs0: FS, fs: FS, i: nat, j: nat)
    requires Cleared(fs0, fs, i) && j < |fs.inodes|
    ensures TableOk(fs, j) && forall n: nat :: n < NDIRECT ==> DirectOk(fs, j, n)
  {
    assert TableOk(fs0, j);
    forall n: nat | n < NDIRECT ensures DirectOk(fs, j, n) {
      assert DirectOk(fs0, j, n);
    }
  }

  lemma {:induction false} ClearedEntry(fs0: FS, fs: FS, i: nat, j: nat, n: nat)
    requires Cleared(fs0, fs, i) && j < |fs.inodes| && n < NINDIRECT
    ensures IndirectOk(fs, j, n)
  {
    assert IndirectOk(fs0, j, n) && TableOk(fs0, j);
    if j != i && 0 < fs.inodes[j].addrs[NDIRECT] < fs.sb.size {
      assert BlockOk(fs0, fs.inodes[j].addrs[NDIRECT]);
    }
  }

  lemma {:induction false} TruncateIsGood(fs0: FS, fs: FS, i: nat)
    requires Cleared(fs0, fs, i)
    ensures Truncated(fs0, fs, i)
  {
    forall b: nat | b < fs.sb.size
      ensures BlockOk(fs, b) && fs.owner[b] == if OwnedBy(fs0.owner[b], i) then Free else fs0.owner[b]
    {
      ClearedOwner(fs0, fs, i, b);
      ClearedBlock(fs0, fs, i, b);
    }
    forall j: nat | j < |fs.inodes| ensures TableOk(fs, j) {
      ClearedSlots(fs0, fs, i, j);
    }
    forall j: nat, n: nat | j < |fs.inodes| && n < NDIRECT ensures DirectOk(fs, j, n) {
      ClearedSlots(fs0, fs, i, j);
    }
    forall j: nat, n: nat | j < |fs.inodes| && n < NINDIRECT ensures IndirectOk(fs, j, n) {
      ClearedEntry(fs0, fs, i, j, n);
    }
  }

  /** Truncating one file leaves every other file as it was. */
  lemma {:induction false} TruncateKeepsOthers(fs0: FS, fs: FS, i: nat, j: nat, bn: nat)
    requires Good(fs0) && Truncated(fs0, fs, i) && j < |fs0.inodes| && j != i && bn < MAXFILE
    ensures Kept(fs0, fs, j, bn) && fs.inodes[j] == fs0.inodes[j]
  {
    AddrIsOwned(fs0, j, bn);
    var a := Addr(fs0, j, bn);
    assert TableOk(fs0, j);
    if 0 < fs0.inodes[j].addrs[NDIRECT] < fs0.sb.size {
      assert BlockOk(fs0, fs0.inodes[j].addrs[NDIRECT]);
    }
    if a != 0 {
      assert BlockOk(fs0, a);
    }
  }

  // ------------------------------------------------------------------
  // A new file system.

  /** Nothing but metadata: every inode is empty, and no block is owned. */
  ghost predicate Blank(fs: FS) {
    && Sized(fs)
    && (forall i :: 0 <= i < |fs.inodes| ==> fs.inodes[i] == Inode(NoAddrs, 0))
    && forall b: nat :: b < fs.sb.size ==> fs.owner[b] == if b < fs.sb.nmeta then Meta else Free
  }

  /** The bits of the first k blocks are set, and no others. */
  ghost predicate FirstBits(fs: FS, k: nat)
    requires Sized(fs)
  {
    forall b: nat :: b < fs.sb.size ==> (InUse(fs, b) <==> b < k)
  }

  lemma {:induction false} BlankIsGood(fs: FS)
    requires Blank(fs) && FirstBits(fs, fs.sb.nmeta)
    ensures Good(fs) && NoneClaimed(fs.owner)
  {
    forall b: nat | b < fs.sb.size ensures BlockOk(fs, b) {
      assert InUse(fs, b) <==> b < fs.sb.nmeta;
    }
  }

  lemma {:induction false} MarkOne(fs: FS, k: nat)
    requires Blank(fs) && k < fs.sb.size && FirstBits(fs, k)
    ensures var fs' := fs.(blocks := WithBit(fs, k, true)); Blank(fs') && FirstBits(fs', k + 1)
  {
    var fs' := fs.(blocks := WithBit(fs, k, true));
    forall b: nat | b < fs.sb.size ensures InUse(fs', b) <==> b < k + 1 {
      BitsAfter(fs, k, true, b);
    }
  }

  /** mkfs: a zeroed disk on which the metadata blocks are marked in use, one after the other. */
  method MakeFileSystem(sb: Super, ninodes: nat) returns (fs: FS)
    requires SuperOk(sb)
    ensures Blank(fs) && Good(fs) && NoneClaimed(fs.owner) && fs.sb == sb && |fs.inodes| == ninodes
  {
    fs := FS(sb, seq(sb.size, _ => ZeroBlock()), seq(ninodes, _ => Inode(NoAddrs, 0)),
             seq(sb.size, b => if b < sb.nmeta then Meta else Free));
    forall b: nat | b < sb.size ensures !InUse(fs, b) {
      BitmapInMeta(sb, b);
      ZeroBits(b % BPB);
    }
    for k := 0 to sb.nmeta
      invariant Blank(fs) && FirstBits(fs, k) && fs.sb == sb && |fs.inodes| == ninodes
    {
      MarkOne(fs, k);
      fs := fs.(blocks := WithBit(fs, k, true));
    }
    BlankIsGood(fs);
  }
}
