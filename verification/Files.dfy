/**
 The operations on files: allocating and freeing blocks, mapping file offsets to blocks,
 truncating, reading and writing.  The out-of-blocks panic of balloc is the status
 `Panic`, after which nothing runs any more.
 */
module Files {
  import opened Common
  import opened Blocks
  import opened FileSystem

  const MAXBYTES: nat := MAXFILE * BSIZE

  /** IBLOCK: eight inodes of 64 bytes to a block */
  function InodeBlock(sb: Super, i: nat): nat { i / 8 + sb.inodestart }

  predicate IsBitmapBlock(sb: Super, m: nat) {
    sb.bmapstart <= m <= sb.bmapstart + (if sb.size > 0 then sb.size - 1 else 0) / BPB
  }

  // ------------------------------------------------------------------
  // File contents.

  /** Byte p of file i exists on disk and is x. */
  ghost predicate HasByte(fs: FS, i: nat, p: nat, x: byte)
    requires Sized(fs) && i < |fs.inodes|
  {
    && p < MAXBYTES && 0 < Addr(fs, i, p / BSIZE) < fs.sb.size
    && fs.blocks[Addr(fs, i, p / BSIZE)][p % BSIZE] == x
  }

  /** Every byte below the size of file i has a block. */
  ghost predicate Mapped(fs: FS, i: nat)
    requires Sized(fs) && i < |fs.inodes|
  {
    && fs.inodes[i].size <= MAXBYTES
    && forall bn: nat :: bn < MAXFILE && bn * BSIZE < fs.inodes[i].size ==> Addr(fs, i, bn) != 0
  }

  ghost predicate Valid(fs: FS) {
    && Good(fs) && NoneClaimed(fs.owner)
    && forall i: nat :: i < |fs.inodes| ==> Mapped(fs, i)
  }

  /** A new file system is valid, and all its files are empty. */
  lemma {:induction false} BlankIsValid(fs: FS)
    requires Blank(fs) && Good(fs) && NoneClaimed(fs.owner)
    ensures Valid(fs) && forall i: nat :: i < |fs.inodes| ==> fs.inodes[i].size == 0
  {
  }

  lemma MappedByte(fs: FS, i: nat, p: nat)
    requires Good(fs) && i < |fs.inodes| && Mapped(fs, i) && p < fs.inodes[i].size
    ensures 0 < Addr(fs, i, p / BSIZE) < fs.sb.size
  {
    assert (p / BSIZE) * BSIZE <= p;
    AddrIsOwned(fs, i, p / BSIZE);
  }

  ghost function ByteAt(fs: FS, i: nat, p: nat): byte
    requires Sized(fs) && i < |fs.inodes|
  {
    if p < MAXBYTES && 0 < Addr(fs, i, p / BSIZE) < fs.sb.size
    then fs.blocks[Addr(fs, i, p / BSIZE)][p % BSIZE] else 0
  }

  /** The file as a flat sequence of bytes. */
  ghost function Contents(fs: FS, i: nat): (c: seq<byte>)
    requires Sized(fs) && i < |fs.inodes|
    ensures |c| == fs.inodes[i].size
  {
    seq(fs.inodes[i].size, p requires 0 <= p < fs.inodes[i].size => ByteAt(fs, i, p))
  }

  /** The bytes d written over c from position off on. */
  function Spliced(c: seq<byte>, off: nat, d: seq<byte>): seq<byte>
    requires off <= |c|
  {
    c[..off] + d + (if off + |d| < |c| then c[off + |d|..] else [])
  }

  /** d is the bytes of c from lo up to hi. */
  predicate IsSlice(d: seq<byte>, c: seq<byte>, lo: nat, hi: nat) {
    lo <= hi <= |c| && |d| == hi - lo && forall p :: 0 <= p < |d| ==> d[p] == c[lo + p]
  }

  lemma {:induction false} SliceMore(d: seq<byte>, e: seq<byte>, c: seq<byte>, lo: nat, mid: nat)
    requires IsSlice(d, c, lo, mid) && IsSlice(e, c, mid, mid + |e|)
    ensures IsSlice(d + e, c, lo, mid + |e|)
  {
    var f := d + e;
    forall p | 0 <= p < |f| ensures f[p] == c[lo + p] {
      if p >= |d| {
        assert f[p] == e[p - |d|];
      }
    }
  }

  lemma {:induction false} SliceIsIt(d: seq<byte>, c: seq<byte>, off: nat, hi: nat, n: nat)
    requires IsSlice(d, c, off, hi) && hi == if off + n > |c| then |c| else off + n
    ensures d == Slice(c, off, n)
  {
  }

  /** Up to n bytes from off on. */
  function Slice(c: seq<byte>, off: nat, n: nat): seq<byte> {
    if off > |c| then [] else if off + n > |c| then c[off..] else c[off..off + n]
  }

  /** Blocks kept one by one are contents kept. */
  lemma {:induction false} KeptContents(fs: FS, fs': FS, j: nat)
    requires Good(fs) && Sized(fs') && fs'.sb == fs.sb && j < |fs.inodes| == |fs'.inodes|
    requires fs'.inodes[j].size == fs.inodes[j].size
    requires forall n: nat :: n < MAXFILE ==> Kept(fs, fs', j, n)
    ensures Contents(fs', j) == Contents(fs, j)
  {
    forall p: nat | p < fs.inodes[j].size ensures ByteAt(fs', j, p) == ByteAt(fs, j, p) {
      if p < MAXBYTES {
        assert Kept(fs, fs', j, p / BSIZE);
      }
    }
  }

  // ------------------------------------------------------------------
  // How far writei has come.

  /** File i holds the first tot bytes of data at off; all other bytes are as before. */
  ghost predicate Written(fs0: FS, fs: FS, i: nat, off: nat, data: seq<byte>, tot: nat) {
    && Good(fs0) && Good(fs) && NoneClaimed(fs.owner)
    && fs.sb == fs0.sb && i < |fs0.inodes| == |fs.inodes| && tot <= |data|
    && (forall j: nat :: j < |fs.inodes| ==> fs.inodes[j].size == fs0.inodes[j].size)
    && (forall j: nat, n: nat :: j < |fs.inodes| && j != i && n < MAXFILE ==> Kept(fs0, fs, j, n))
    && forall p: nat :: p < MAXBYTES ==> ByteOk(fs0, fs, i, off, data, tot, p)
  }

  ghost predicate ByteOk(fs0: FS, fs: FS, i: nat, off: nat, data: seq<byte>, tot: nat, p: nat)
    requires Sized(fs0) && Sized(fs) && i < |fs0.inodes| == |fs.inodes| && tot <= |data|
  {
    if off <= p < off + tot then HasByte(fs, i, p, data[p - off])
    else p < fs0.inodes[i].size ==> HasByte(fs, i, p, ByteAt(fs0, i, p))
  }

  lemma {:induction false} NothingWritten(fs: FS, i: nat, off: nat, data: seq<byte>)
    requires Valid(fs) && i < |fs.inodes|
    ensures Written(fs, fs, i, off, data, 0)
  {
    forall p: nat | p < MAXBYTES ensures ByteOk(fs, fs, i, off, data, 0, p) {
      assert Mapped(fs, i);
      if p < fs.inodes[i].size {
        MappedByte(fs, i, p);
      }
    }
    forall j: nat, n: nat | j < |fs.inodes| && n < MAXFILE ensures Kept(fs, fs, j, n) {
    }
  }

  /** bmap may add a block to the file; no byte that exists changes. */
  lemma {:induction false} GrowKeepsWritten(fs0: FS, fs: FS, fs1: FS, i: nat, off: nat, data: seq<byte>, tot: nat, bn: nat)
    requires Written(fs0, fs, i, off, data, tot) && bn < MAXFILE
    requires Good(fs1) && NoneClaimed(fs1.owner) && KeepsAllBut(fs, fs1, i, bn)
    requires Addr(fs, i, bn) != 0 ==> fs1 == fs
    ensures Written(fs0, fs1, i, off, data, tot)
  {
    forall j: nat, n: nat | j < |fs.inodes| && j != i && n < MAXFILE ensures Kept(fs0, fs1, j, n) {
      assert Kept(fs0, fs, j, n) && Kept(fs, fs1, j, n);
    }
    forall p: nat | p < MAXBYTES ensures ByteOk(fs0, fs1, i, off, data, tot, p) {
      assert ByteOk(fs0, fs, i, off, data, tot, p);
      if p / BSIZE != bn {
        assert Kept(fs, fs1, i, p / BSIZE);
      }
    }
  }

  /** The block with the bytes d put at position at. */
  function Patched(b: Block, at: nat, d: seq<byte>): Block
    requires at + |d| <= BSIZE
  {
    b[..at] + d + b[at + |d|..]
  }

  /** One round of writei's loop: the next m bytes go into one block. */
  lemma {:induction false} PatchWrites(fs0: FS, fs: FS, i: nat, off: nat, data: seq<byte>, tot: nat, m: nat)
    requires Written(fs0, fs, i, off, data, tot) && 0 < m && tot + m <= |data| && off + |data| <= MAXBYTES
    requires (off + tot) % BSIZE + m <= BSIZE
    requires 0 < Addr(fs, i, (off + tot) / BSIZE) < fs.sb.size
    ensures var a, at := Addr(fs, i, (off + tot) / BSIZE), (off + tot) % BSIZE;
            Written(fs0, fs.(blocks := fs.blocks[a := Patched(fs.blocks[a], at, data[tot..tot + m])]), i, off, data, tot + m)
  {
    var o := off + tot;
    var bn, at := o / BSIZE, o % BSIZE;
    var a := Addr(fs, i, bn);
    var x := Patched(fs.blocks[a], at, data[tot..tot + m]);
    var fs' := fs.(blocks := fs.blocks[a := x]);
    DataKeepsGood(fs, i, bn, x);
    DataKeepsFiles(fs, i, bn, x);
    forall j: nat, n: nat | j < |fs.inodes| && j != i && n < MAXFILE ensures Kept(fs0, fs', j, n) {
      assert Kept(fs0, fs, j, n) && Kept(fs, fs', j, n);
    }
    var tot' := tot + m;
    forall p: nat | p < MAXBYTES ensures ByteOk(fs0, fs', i, off, data, tot', p) {
      assert ByteOk(fs0, fs, i, off, data, tot, p);
      if o <= p < o + m {
        assert p / BSIZE == bn && p % BSIZE == at + (p - o);
        assert x[at + (p - o)] == data[tot..tot + m][p - o];
      } else if off <= p < o {
        PatchKeepsByte(fs, i, bn, at, data[tot..tot + m], p, data[p - off]);
      } else if p < fs0.inodes[i].size {
        PatchKeepsByte(fs, i, bn, at, data[tot..tot + m], p, ByteAt(fs0, i, p));
      }
    }
  }

  lemma {:induction false} PatchKeepsByte(fs: FS, i: nat, bn: nat, at: nat, d: seq<byte>, p: nat, y: byte)
    requires Good(fs) && i < |fs.inodes| && bn < MAXFILE && 0 < Addr(fs, i, bn) < fs.sb.size && at + |d| <= BSIZE
    requires HasByte(fs, i, p, y) && !(bn * BSIZE + at <= p < bn * BSIZE + at + |d|)
    ensures var a := Addr(fs, i, bn);
            var fs' := fs.(blocks := fs.blocks[a := Patched(fs.blocks[a], at, d)]);
            Sized(fs') && HasByte(fs', i, p, y)
  {
    var a := Addr(fs, i, bn);
    var fs' := fs.(blocks := fs.blocks[a := Patched(fs.blocks[a], at, d)]);
    DataKeepsFiles(fs, i, bn, Patched(fs.blocks[a], at, d));
    if p / BSIZE != bn {
      assert Kept(fs, fs', i, p / BSIZE);
    }
  }

  /** The end of writei: the size is raised if the write went past it. */
  ghost function Resized(fs: FS, i: nat, size: nat): FS
    requires i < |fs.inodes|
  {
    fs.(inodes := fs.inodes[i := fs.inodes[i].(size := size)])
  }

  lemma {:induction false} ResizeKeepsGood(fs: FS, i: nat, size: nat)
    requires Good(fs) && i < |fs.inodes|
    ensures Good(Resized(fs, i, size))
    ensures forall j: nat, n: nat :: j < |fs.inodes| && n < MAXFILE ==> Addr(Resized(fs, i, size), j, n) == Addr(fs, j, n)
  {
    var fs' := Resized(fs, i, size);
    forall j: nat, n: nat | j < |fs.inodes| && n < NDIRECT ensures DirectOk(fs', j, n) {
      assert DirectOk(fs, j, n);
    }
    forall j: nat, n: nat | j < |fs.inodes| && n < NINDIRECT ensures IndirectOk(fs', j, n) {
      assert IndirectOk(fs, j, n);
    }
    forall j: nat | j < |fs.inodes| ensures TableOk(fs', j) {
      assert TableOk(fs, j);
    }
    forall c: nat | c < fs.sb.size ensures BlockOk(fs', c) {
      assert BlockOk(fs, c);
    }
  }

  /** The finished write as a statement about flat files. */
  lemma {:induction false} WrittenIsSpliced(fs0: FS, fs: FS, i: nat, off: nat, data: seq<byte>)
    requires Valid(fs0) && Written(fs0, fs, i, off, data, |data|) && off <= fs0.inodes[i].size && off + |data| <= MAXBYTES
    ensures var size := fs0.inodes[i].size;
            var fs' := Resized(fs, i, if off + |data| > size then off + |data| else size);
            && Valid(fs') && Contents(fs', i) == Spliced(Contents(fs0, i), off, data)
            && forall j: nat :: j < |fs.inodes| && j != i ==> Contents(fs', j) == Contents(fs0, j)
  {
    var size := fs0.inodes[i].size;
    var size' := if off + |data| > size then off + |data| else size;
    var fs' := Resized(fs, i, size');
    ResizeKeepsGood(fs, i, size');
    assert Mapped(fs0, i);
    forall p: nat | p < size' ensures p < MAXBYTES && HasByte(fs', i, p, Spliced(Contents(fs0, i), off, data)[p]) {
      assert ByteOk(fs0, fs, i, off, data, |data|, p);
      SplicedAt(Contents(fs0, i), off, data, p);
    }
    assert Contents(fs', i) == Spliced(Contents(fs0, i), off, data);
    WrittenIsMapped(fs0, fs, fs', i, off, data);
    forall j: nat | j < |fs.inodes| && j != i ensures Contents(fs', j) == Contents(fs0, j) {
      OthersUnchanged(fs0, fs, fs', i, off, data, size', j);
    }
  }

  lemma SplicedAt(c: seq<byte>, off: nat, d: seq<byte>, p: nat)
    requires off <= |c| && p < |Spliced(c, off, d)|
    ensures Spliced(c, off, d)[p] == if off <= p < off + |d| then d[p - off] else if p < |c| then c[p] else 0
  {
  }

  lemma {:induction false} OthersUnchanged(fs0: FS, fs: FS, fs': FS, i: nat, off: nat, data: seq<byte>, size: nat, j: nat)
    requires Written(fs0, fs, i, off, data, |data|) && fs' == Resized(fs, i, size) && j < |fs.inodes| && j != i
    ensures Sized(fs') && Contents(fs', j) == Contents(fs0, j)
  {
    ResizeKeepsGood(fs, i, size);
    forall n: nat | n < MAXFILE ensures Kept(fs0, fs', j, n) {
      assert Kept(fs0, fs, j, n);
    }
    KeptContents(fs0, fs', j);
  }

  lemma {:induction false} WrittenIsMapped(fs0: FS, fs: FS, fs': FS, i: nat, off: nat, data: seq<byte>)
    requires Valid(fs0) && Written(fs0, fs, i, off, data, |data|) && off <= fs0.inodes[i].size && off + |data| <= MAXBYTES
    requires var size := fs0.inodes[i].size;
             fs' == Resized(fs, i, if off + |data| > size then off + |data| else size)
    ensures Good(fs') && forall j: nat :: j < |fs'.inodes| ==> Mapped(fs', j)
  {
    ResizeKeepsGood(fs, i, fs'.inodes[i].size);
    forall j: nat | j < |fs'.inodes| ensures Mapped(fs', j) {
      assert Mapped(fs0, j);
      forall bn: nat | bn < MAXFILE && bn * BSIZE < fs'.inodes[j].size ensures Addr(fs', j, bn) != 0 {
        if j == i {
          assert ByteOk(fs0, fs, i, off, data, |data|, bn * BSIZE);
          assert bn * BSIZE / BSIZE == bn;
        } else {
          assert Kept(fs0, fs, j, bn);
        }
      }
    }
  }

  // ------------------------------------------------------------------
  // The operations.

  /** No block is free: what makes balloc panic. */
  ghost predicate Full(fs: FS) {
    forall c: nat :: c < |fs.owner| ==> fs.owner[c] != Free
  }

  class Disk {
    const sb: Super
    var blocks: seq<Block>
    var inodes: seq<Inode>
    ghost var owner: seq<Owner>
    ghost var logged: set<nat>     // blocks given to log_write

    ghost function View(): FS
      reads this
    {
      FS(sb, blocks, inodes, owner)
    }

    /** Everything logged since is a bitmap block or one of two others. */
    twostate predicate LoggedOnly(a: nat, b: nat)
      reads this
    {
      old(logged) <= logged &&
      forall m :: m in logged ==> m in old(logged) || IsBitmapBlock(sb, m) || m == a || (m == b && b != 0)
    }

    constructor (sb: Super, blocks: seq<Block>, inodes: seq<Inode>, ghost owner: seq<Owner>)
      requires Valid(FS(sb, blocks, inodes, owner))
      ensures View() == FS(sb, blocks, inodes, owner) && logged == {}
    {
      this.sb, this.blocks, this.inodes := sb, blocks, inodes;
      this.owner, this.logged := owner, {};
    }

    /** The scan of balloc: the first block whose bit is clear. */
    method FindFree() returns (ok: bool, b: nat)
      requires Good(View())
      ensures ok ==> b < sb.size && owner[b] == Free && forall c: nat :: c < b ==> owner[c] != Free
      ensures !ok ==> forall c: nat :: c < sb.size ==> owner[c] != Free
    {
      b := 0;
      while b < sb.size
        invariant b % BPB == 0
        invariant forall c: nat :: c < b && c < sb.size ==> owner[c] != Free
        decreases sb.size - b
      {
        BitmapInMeta(sb, b);
        var bp := blocks[BitmapBlock(sb, b)];
        var bi := 0;
        while bi < BPB && b + bi < sb.size
          invariant bi <= BPB
          invariant forall c: nat :: c < b + bi && c < sb.size ==> owner[c] != Free
        {
          assert BlockOk(View(), b + bi);
          assert (b + bi) / BPB == b / BPB && (b + bi) % BPB == bi;
          if !BlockBit(bp, bi) {
            return true, b + bi;
          }
          bi := bi + 1;
        }
        b := b + BPB;
      }
      return false, 0;
    }

    method Balloc() returns (ok: bool, b: nat)
      requires Good(View())
      modifies this
      ensures inodes == old(inodes)
      ensures ok ==> b < sb.size && old(owner)[b] == Free && View() == AfterAlloc(old(View()), b)
      ensures !ok ==> View() == old(View()) && logged == old(logged) && Full(View())
      ensures ok ==> LoggedOnly(b, b)
    {
      ok, b := FindFree();
      if !ok {
        return;
      }
      BitmapInMeta(sb, b);
      ghost var s' := AfterAlloc(View(), b);
      var m := BitmapBlock(sb, b);
      blocks := blocks[m := SetBlockBit(blocks[m], b % BPB, true)];
      blocks := blocks[b := ZeroBlock()];
      owner := s'.owner;
      assert b / BPB <= (sb.size - 1) / BPB;
      logged := logged + {m, b};
    }

    /** bfree; its panic on a block that is already free is ruled out by the precondition. */
    method Bfree(b: nat)
      requires Sized(View()) && b < sb.size && InUse(View(), b)
      modifies this`blocks, this`logged
      ensures blocks == WithBit(old(View()), b, false)
    {
      BitmapInMeta(sb, b);
      var m := BitmapBlock(sb, b);
      blocks := blocks[m := SetBlockBit(blocks[m], b % BPB, false)];
      logged := logged + {m};
    }

    /** bmap of a direct block */
    method BmapDirect(i: nat, bn: nat) returns (ok: bool, addr: nat)
      requires Good(View()) && NoneClaimed(owner) && i < |inodes| && bn < NDIRECT
      modifies this
      ensures Good(View()) && NoneClaimed(owner) && |inodes| == |old(inodes)|
      ensures ok ==> addr == Addr(View(), i, bn) && 0 < addr < sb.size && KeepsAllBut(old(View()), View(), i, bn)
      ensures old(Addr(View(), i, bn)) != 0 ==> ok && View() == old(View()) && logged == old(logged)
      ensures old(Addr(View(), i, bn)) == 0 && ok ==> blocks[addr] == ZeroBlock()
      ensures old(inodes)[i].addrs[NDIRECT] != 0 ==> inodes[i].addrs[NDIRECT] == old(inodes)[i].addrs[NDIRECT]
      ensures ok ==> LoggedOnly(addr, addr)
      ensures !ok ==> Full(View())
    {
      addr := inodes[i].addrs[bn];
      AddrIsOwned(View(), i, bn);
      KeepsSelf(View(), i, bn);
      if addr != 0 {
        return true, addr;
      }
      ok, addr := Balloc();
      if ok {
        ghost var fs0, fs1 := old(View()), View();
        AllocKeepsGood(fs0, addr);
        AllocKeepsFiles(fs0, addr, i, bn);
        DirectKeepsGood(fs1, i, bn, addr);
        DirectKeepsFiles(fs1, i, bn, addr);
        FreshIsData(fs1, addr);
        inodes := SetAddr(inodes, i, bn, addr);
        owner := owner[addr := Direct(i, bn)];
        assert View() == WithDirect(fs1, i, bn, addr);
        KeepsTransitive(fs0, fs1, View(), i, bn);
      }
    }

    /** The first half of bmap's indirect case: the indirect block exists afterwards. */
    method LoadTable(i: nat, ghost bn: nat) returns (ok: bool)
      requires Good(View()) && NoneClaimed(owner) && i < |inodes|
      modifies this
      ensures Good(View()) && NoneClaimed(owner) && |inodes| == |old(inodes)|
      ensures ok ==> 0 < inodes[i].addrs[NDIRECT] < sb.size && KeepsAllBut(old(View()), View(), i, bn)
      ensures ok && bn < MAXFILE ==> Addr(View(), i, bn) == old(Addr(View(), i, bn))
      ensures old(inodes)[i].addrs[NDIRECT] != 0 ==> ok && View() == old(View()) && logged == old(logged)
      ensures ok ==> LoggedOnly(inodes[i].addrs[NDIRECT], inodes[i].addrs[NDIRECT])
      ensures !ok ==> Full(View())
    {
      assert TableOk(View(), i);
      KeepsSelf(View(), i, bn);
      if inodes[i].addrs[NDIRECT] != 0 {
        return true;
      }
      var addr;
      ok, addr := Balloc();
      if ok {
        ghost var fs0, fs1 := old(View()), View();
        AllocKeepsGood(fs0, addr);
        AllocKeepsFiles(fs0, addr, i, bn);
        TableKeepsGood(fs1, i, addr);
        TableKeepsFiles(fs1, i, addr, i, bn);
        FreshIsData(fs1, addr);
        inodes := SetAddr(inodes, i, NDIRECT, addr);
        owner := owner[addr := Table(i)];
        assert View() == WithTable(fs1, i, addr);
        KeepsTransitive(fs0, fs1, View(), i, bn);
        if NDIRECT <= bn < MAXFILE {
          ZeroWords(bn - NDIRECT);
        }
      }
    }

    /** The second half: the entry in the indirect block exists afterwards. */
    method LoadEntry(i: nat, bn: nat) returns (ok: bool, addr: nat)
      requires Good(View()) && NoneClaimed(owner) && i < |inodes| && NDIRECT <= bn < MAXFILE
      requires 0 < inodes[i].addrs[NDIRECT] < sb.size
      modifies this
      ensures Good(View()) && NoneClaimed(owner) && inodes == old(inodes)
      ensures ok ==> addr == Addr(View(), i, bn) && 0 < addr < sb.size && KeepsAllBut(old(View()), View(), i, bn)
      ensures old(Addr(View(), i, bn)) != 0 ==> ok && View() == old(View()) && logged == old(logged)
      ensures old(Addr(View(), i, bn)) == 0 && ok ==> blocks[addr] == ZeroBlock()
      ensures old(inodes)[i].addrs[NDIRECT] != 0 ==> inodes[i].addrs[NDIRECT] == old(inodes)[i].addrs[NDIRECT]
      ensures ok ==> LoggedOnly(addr, inodes[i].addrs[NDIRECT])
      ensures !ok ==> Full(View())
    {
      ghost var fs1 := View();
      var a, k := inodes[i].addrs[NDIRECT], bn - NDIRECT;
      addr := Word(blocks[a], k);
      AddrIsOwned(fs1, i, bn);
      KeepsSelf(fs1, i, bn);
      if addr != 0 {
        return true, addr;
      }
      ok, addr := Balloc();
      if ok {
        ghost var fs2 := View();
        EntryFilled(fs1, fs2, i, k, addr);
        blocks := blocks[a := SetWord(blocks[a], k, addr)];
        owner := owner[addr := Indirect(i, k)];
        logged := logged + {a};
        assert View() == WithIndirect(fs2, i, k, addr);
      }
    }

    /** bmap of a block in the indirect range */
    method BmapIndirect(i: nat, bn: nat) returns (ok: bool, addr: nat)
      requires Good(View()) && NoneClaimed(owner) && i < |inodes| && NDIRECT <= bn < MAXFILE
      modifies this
      ensures Good(View()) && NoneClaimed(owner) && |inodes| == |old(inodes)|
      ensures ok ==> addr == Addr(View(), i, bn) && 0 < addr < sb.size && KeepsAllBut(old(View()), View(), i, bn)
      ensures old(Addr(View(), i, bn)) != 0 ==> ok && View() == old(View()) && logged == old(logged)
      ensures old(Addr(View(), i, bn)) == 0 && ok ==> blocks[addr] == ZeroBlock()
      ensures old(inodes)[i].addrs[NDIRECT] != 0 ==> inodes[i].addrs[NDIRECT] == old(inodes)[i].addrs[NDIRECT]
      ensures ok ==> LoggedOnly(addr, inodes[i].addrs[NDIRECT])
      ensures !ok ==> Full(View())
    {
      addr := 0;
      ok := LoadTable(i, bn);
      if !ok {
        return;
      }
      ghost var fs1 := View();
      ok, addr := LoadEntry(i, bn);
      if ok {
        KeepsTransitive(old(View()), fs1, View(), i, bn);
      }
    }

    /**
     bmap: the address of block bn of file i, allocated and zeroed if there was none.
     No other block of any file moves or changes.
     */
    method Bmap(i: nat, bn: nat) returns (ok: bool, addr: nat)
      requires Good(View()) && NoneClaimed(owner) && i < |inodes| && bn < MAXFILE
      modifies this
      ensures Good(View()) && NoneClaimed(owner) && |inodes| == |old(inodes)|
      ensures ok ==> addr == Addr(View(), i, bn) && 0 < addr < sb.size && KeepsAllBut(old(View()), View(), i, bn)
      ensures old(Addr(View(), i, bn)) != 0 ==> ok && View() == old(View()) && logged == old(logged)
      ensures old(Addr(View(), i, bn)) == 0 && ok ==> blocks[addr] == ZeroBlock()
      ensures old(inodes)[i].addrs[NDIRECT] != 0 ==> inodes[i].addrs[NDIRECT] == old(inodes)[i].addrs[NDIRECT]
      ensures ok ==> LoggedOnly(addr, inodes[i].addrs[NDIRECT])
      ensures !ok ==> Full(View())
    {
      if bn < NDIRECT {
        ok, addr := BmapDirect(i, bn);
      } else {
        ok, addr := BmapIndirect(i, bn);
      }
    }

    // ----------------------------------------------------------------

    /** One round of itrunc's loop over the direct blocks. */
    method FreeDirect(i: nat, k: nat, ghost fs0: FS)
      requires Truncating(fs0, View(), i, k, 0, false) && k < NDIRECT && inodes[i].addrs[k] == fs0.inodes[i].addrs[k]
      modifies this`blocks, this`owner, this`logged, this`inodes
      ensures Truncating(fs0, View(), i, k + 1, 0, false)
      ensures inodes[i] == old(inodes)[i].(addrs := old(inodes)[i].addrs[k := 0])
    {
      assert DirectOk(fs0, i, k);
      var b := inodes[i].addrs[k];
      if b != 0 {
        FreeOne(fs0, View(), i, k, 0, false, b, Direct(i, k), k + 1, 0, false);
        Bfree(b);
        owner := owner[b := Free];
      } else {
        NoSuchOwner(fs0, Direct(i, k));
        SkipOne(fs0, View(), i, k, 0, false, Direct(i, k), k + 1, 0, false);
      }
      ghost var fs1 := View();
      inodes := SetAddr(inodes, i, k, 0);
      SameBits(fs1, View());
    }

    /** The loop of itrunc over the direct blocks. */
    method FreeDirects(i: nat)
      requires Good(View()) && i < |inodes|
      modifies this
      ensures Truncating(old(View()), View(), i, NDIRECT, 0, false)
      ensures inodes[i].size == old(inodes)[i].size && inodes[i].addrs[NDIRECT] == old(inodes)[i].addrs[NDIRECT]
      ensures forall k :: 0 <= k < NDIRECT ==> inodes[i].addrs[k] == 0
    {
      ghost var fs0 := View();
      GoneAtStart(fs0, i);
      for k := 0 to NDIRECT
        invariant Truncating(fs0, View(), i, k, 0, false) && inodes[i].size == fs0.inodes[i].size
        invariant forall n :: 0 <= n <= NDIRECT ==> inodes[i].addrs[n] == if n < k then 0 else fs0.inodes[i].addrs[n]
      {
        FreeDirect(i, k, fs0);
      }
    }

    /** The loop of itrunc over the entries of the indirect block, and then that block. */
    method FreeTable(i: nat, ghost fs0: FS)
      requires Truncating(fs0, View(), i, NDIRECT, 0, false)
      requires inodes[i].addrs[NDIRECT] == fs0.inodes[i].addrs[NDIRECT] != 0
      modifies this`blocks, this`owner, this`logged
      ensures Truncating(fs0, View(), i, NDIRECT, NINDIRECT, true)
    {
      assert TableOk(fs0, i);
      var t := inodes[i].addrs[NDIRECT];
      assert BlockOk(fs0, t);
      for j := 0 to NINDIRECT
        invariant Truncating(fs0, View(), i, NDIRECT, j, false)
      {
        FreeEntry(i, t, j, fs0);
      }
      FreeOne(fs0, View(), i, NDIRECT, NINDIRECT, false, t, Table(i), NDIRECT, NINDIRECT, true);
      Bfree(t);
      owner := owner[t := Free];
    }

    /**
     itrunc: file i becomes empty, exactly its blocks are freed, and no other file is
     touched.  No block is freed twice on the way.
     */
    method Itrunc(i: nat)
      requires Valid(View()) && i < |inodes|
      modifies this
      ensures Truncated(old(View()), View(), i) && Valid(View())
      ensures forall j: nat :: j < |inodes| && j != i ==> Contents(View(), j) == old(Contents(View(), j))
    {
      ghost var fs0 := View();
      FreeDirects(i);
      if inodes[i].addrs[NDIRECT] != 0 {
        FreeTable(i, fs0);
        inodes := SetAddr(inodes, i, NDIRECT, 0);
      } else {
        NoTable(fs0, View(), i);
      }
      inodes := inodes[i := inodes[i].(size := 0)];
      assert inodes[i].addrs == NoAddrs;
      logged := logged + {InodeBlock(sb, i)};
      TruncateIsGood(fs0, View(), i);
      TruncateIsValid(fs0, View(), i);
    }

    /** One round of itrunc's loop over the entries of the indirect block. */
    method FreeEntry(i: nat, t: nat, j: nat, ghost fs0: FS)
      requires Truncating(fs0, View(), i, NDIRECT, j, false) && j < NINDIRECT
      requires t == fs0.inodes[i].addrs[NDIRECT] && 0 < t < sb.size && sb.nmeta <= t
      modifies this`blocks, this`owner, this`logged
      ensures Truncating(fs0, View(), i, NDIRECT, j + 1, false)
    {
      assert IndirectOk(fs0, i, j);
      var b := Word(blocks[t], j);
      if b != 0 {
        FreeOne(fs0, View(), i, NDIRECT, j, false, b, Indirect(i, j), NDIRECT, j + 1, false);
        Bfree(b);
        owner := owner[b := Free];
      } else {
        NoSuchOwner(fs0, Indirect(i, j));
        SkipOne(fs0, View(), i, NDIRECT, j, false, Indirect(i, j), NDIRECT, j + 1, false);
      }
    }

    // ----------------------------------------------------------------

    /** One round of readi's loop: what one block holds of the bytes from o up to end. */
    method ReadChunk(i: nat, o: nat, end: nat) returns (d: seq<byte>)
      requires Valid(View()) && i < |inodes| && o < end <= inodes[i].size
      modifies this
      ensures View() == old(View()) && logged == old(logged)
      ensures 0 < |d| <= end - o && IsSlice(d, Contents(View(), i), o, o + |d|)
    {
      assert Mapped(View(), i);
      MappedByte(View(), i, o);
      var ok, a := Bmap(i, o / BSIZE);
      var m := if end - o < BSIZE - o % BSIZE then end - o else BSIZE - o % BSIZE;
      SliceOfBlock(View(), i, o, m);
      d := blocks[a][o % BSIZE..o % BSIZE + m];
    }

    /** readi: the bytes from off on, up to n of them, and nothing changes. */
    method Readi(i: nat, off: nat, n: nat) returns (r: Option<seq<byte>>)
      requires Valid(View()) && i < |inodes| && off < WRAP && n < WRAP
      modifies this
      ensures View() == old(View()) && logged == old(logged)
      ensures r.None? <==> off > inodes[i].size || off + n >= WRAP
      ensures r.Some? ==> r.value == Slice(Contents(View(), i), off, n)
    {
      if off > inodes[i].size || (off + n) % WRAP < off {
        return None;
      }
      ghost var fs := View();
      assert Mapped(fs, i);
      var end := if off + n > inodes[i].size then inodes[i].size else off + n;
      var o, dst := off, [];
      while o < end
        invariant off <= o <= end && View() == fs && logged == old(logged)
        invariant IsSlice(dst, Contents(fs, i), off, o)
      {
        var d := ReadChunk(i, o, end);
        SliceMore(dst, d, Contents(fs, i), off, o);
        dst := dst + d;
        o := o + |d|;
      }
      SliceIsIt(dst, Contents(fs, i), off, o, n);
      return Some(dst);
    }

    /** One round of writei's loop: the next bytes of data, up to the end of a block. */
    method WriteChunk(i: nat, off: nat, data: seq<byte>, tot: nat, ghost fs0: FS) returns (ok: bool, m: nat)
      requires Written(fs0, View(), i, off, data, tot) && tot < |data| && off + |data| <= MAXBYTES
      modifies this
      ensures Good(View()) && NoneClaimed(owner) && |inodes| == |old(inodes)|
      ensures ok ==> 0 < m && tot + m <= |data| && Written(fs0, View(), i, off, data, tot + m)
      ensures ok ==> (off + tot + m) % BSIZE == 0 || tot + m == |data|
      ensures ok ==> (off + tot) % BSIZE + m <= BSIZE
      ensures ok ==> KeepsAllBut(old(View()), View(), i, (off + tot) / BSIZE) && LoggedOnly(Addr(View(), i, (off + tot) / BSIZE), inodes[i].addrs[NDIRECT])
      ensures old(inodes)[i].addrs[NDIRECT] != 0 ==> inodes[i].addrs[NDIRECT] == old(inodes)[i].addrs[NDIRECT]
      ensures !ok ==> Full(View())
    {
      var o := off + tot;
      var bn, at := o / BSIZE, o % BSIZE;
      ghost var fs := View();
      var a;
      m := 0;
      ok, a := Bmap(i, bn);
      if !ok {
        return;
      }
      ghost var fs1 := View();
      GrowKeepsWritten(fs0, fs, fs1, i, off, data, tot, bn);
      m := if |data| - tot < BSIZE - at then |data| - tot else BSIZE - at;
      PatchWrites(fs0, fs1, i, off, data, tot, m);
      DataKeepsFiles(fs1, i, bn, Patched(blocks[a], at, data[tot..tot + m]));
      blocks := blocks[a := Patched(blocks[a], at, data[tot..tot + m])];
      logged := logged + {a};
      KeepsTransitive(fs, fs1, View(), i, bn);
      EndOfChunk(o, m, |data| - tot);
    }

    /** The loop of writei. */
    method WriteLoop(i: nat, off: nat, data: seq<byte>) returns (ok: bool)
      requires Valid(View()) && i < |inodes| && off + |data| <= MAXBYTES
      modifies this
      ensures Good(View()) && NoneClaimed(owner) && |inodes| == |old(inodes)|
      ensures ok ==> Written(old(View()), View(), i, off, data, |data|)
      ensures ok ==> LoggedWithin(View(), old(logged), logged, i, off / BSIZE, BlocksEnd(off, |data|))
      ensures !ok ==> Full(View())
    {
      ghost var fs0 := View();
      NothingWritten(fs0, i, off, data);
      var tot := 0;
      ok := true;
      while tot < |data|
        invariant tot <= |data| && Written(fs0, View(), i, off, data, tot)
        invariant tot == 0 || tot == |data| || (off + tot) % BSIZE == 0
        invariant LoggedWithin(View(), old(logged), logged, i, off / BSIZE, BlocksEnd(off, tot))
      {
        ghost var fs, l, bn := View(), logged, (off + tot) / BSIZE;
        var m;
        ok, m := WriteChunk(i, off, data, tot, fs0);
        if !ok {
          return;
        }
        NextBlock(off, tot, m);
        LoggedStep(fs, View(), old(logged), l, logged, i, off / BSIZE, bn);
        tot := tot + m;
      }
    }

    /**
     writei: the bytes of data replace those of file i from off on, and the file grows if
     they reach past its end.  No other file changes.
     */
    method Writei(i: nat, data: seq<byte>, off: nat) returns (st: Status)
      requires Valid(View()) && i < |inodes| && off < WRAP && |data| < WRAP
      modifies this
      ensures st.Error? <==> off > old(inodes)[i].size || off + |data| >= WRAP || off + |data| > MAXBYTES
      ensures st.Error? ==> View() == old(View()) && logged == old(logged)
      ensures st.Done? ==> Valid(View()) && |inodes| == |old(inodes)|
      ensures st.Done? ==> Contents(View(), i) == Spliced(old(Contents(View(), i)), off, data)
      ensures st.Done? ==> forall j: nat :: j < |inodes| && j != i ==> Contents(View(), j) == old(Contents(View(), j))
      ensures st.Done? ==> LoggedWithin(View(), old(logged), logged, i, off / BSIZE, BlocksEnd(off, |data|))
      ensures st.Panic? ==> Full(View())
    {
      if off > inodes[i].size || (off + |data|) % WRAP < off {
        return Error;
      }
      if off + |data| > MAXBYTES {
        return Error;
      }
      var ok := WriteLoop(i, off, data);
      if !ok {
        return Panic;
      }
      ghost var fs := View();
      WrittenIsSpliced(old(View()), fs, i, off, data);
      assert inodes[i].size == old(inodes)[i].size;
      if |data| > 0 && off + |data| > inodes[i].size {
        inodes := inodes[i := inodes[i].(size := off + |data|)];
        logged := logged + {InodeBlock(sb, i)};
        ResizeKeepsLogged(fs, old(logged), logged, i, off / BSIZE, BlocksEnd(off, |data|), inodes[i].size);
      } else {
        assert Resized(fs, i, inodes[i].size) == fs;
      }
      return Done;
    }

    /** One log operation of filewrite, and how many blocks it logged. */
    method WriteOp(i: nat, piece: seq<byte>, off: nat) returns (st: Status, ghost count: nat)
      requires Valid(View()) && i < |inodes| && off < WRAP && 0 < |piece| <= CHUNK
      modifies this
      ensures st.Error? <==> off > old(inodes)[i].size || off + |piece| > MAXBYTES
      ensures st.Error? ==> View() == old(View())
      ensures st.Done? ==> Overwrites(old(View()), View(), i, off, piece)
      ensures st.Done? && sb.size <= BPB ==> count <= MAXOPBLOCKS
      ensures st.Panic? ==> Full(View())
    {
      assert Mapped(View(), i);
      st := Writei(i, piece, off);
      count := |logged - old(logged)|;
      if st.Done? && sb.size <= BPB {
        LoggedCount(View(), old(logged), logged, i, off / BSIZE, BlocksEnd(off, |piece|));
        ChunkBlocks(off, |piece|);
      }
    }

    /** One round of filewrite's loop. */
    method WriteNext(i: nat, off0: nat, data: seq<byte>, written: nat, ghost fs0: FS)
      returns (st: Status, n1: nat, ghost count: nat)
      requires written < |data| && Carried(fs0, View(), i, off0, data, written) && off0 + written < WRAP
      modifies this
      ensures n1 == Chunk(|data| - written) && 0 < n1 <= |data| - written
      ensures st.Done? ==> off0 + written + n1 <= MAXBYTES
      ensures st.Error? <==> off0 + written > old(inodes)[i].size || off0 + written + n1 > MAXBYTES
      ensures st.Error? ==> View() == old(View())
      ensures st.Done? ==> Carried(fs0, View(), i, off0, data, written + n1)
      ensures st.Done? && sb.size <= BPB ==> count <= MAXOPBLOCKS
      ensures st.Panic? ==> Full(View())
    {
      n1 := |data| - written;
      if n1 > CHUNK {
        n1 := CHUNK;
      }
      ghost var fs := View();
      st, count := WriteOp(i, data[written..written + n1], off0 + written);
      if st.Done? {
        OverwriteNext(fs0, fs, View(), i, off0, data, written, n1);
      }
    }

    /**
     filewrite on an inode: the data goes out in chunks, each its own log operation.
     `written` counts the bytes that made it into the file; the call reports success
     exactly when that is all of them.  No chunk, at whatever offset, logs more than
     MAXOPBLOCKS blocks if the bitmap is one block; `worst` is the largest number.
     */
    method FileWrite(i: nat, off0: nat, data: seq<byte>) returns (st: Status, off: nat, written: nat, ghost worst: nat)
      requires Valid(View()) && i < |inodes| && off0 < WRAP && |data| < WRAP
      modifies this
      ensures written <= |data| && off == off0 + written
      ensures !st.Panic? ==> (st.Done? <==> written == |data|)
      ensures !st.Panic? ==> Overwrites(old(View()), View(), i, off0, data[..written])
      ensures st.Error? ==> i < |inodes| && (off > inodes[i].size || off + Chunk(|data| - written) > MAXBYTES)
      ensures sb.size <= BPB ==> worst <= MAXOPBLOCKS
      ensures st.Panic? ==> Full(View())
    {
      ghost var fs0 := View();
      st, off, written, worst := WriteChunks(i, off0, data);
      if !st.Panic? {
        CarriedIsOverwrites(fs0, View(), i, off0, data, written);
      }
    }

    /** The loop of filewrite. */
    method WriteChunks(i: nat, off0: nat, data: seq<byte>) returns (st: Status, off: nat, written: nat, ghost worst: nat)
      requires Valid(View()) && i < |inodes| && off0 < WRAP && |data| < WRAP
      modifies this
      ensures written <= |data| && off == off0 + written
      ensures !st.Panic? ==> (st.Done? <==> written == |data|)
      ensures !st.Panic? ==> Carried(old(View()), View(), i, off0, data, written)
      ensures st.Error? ==> i < |inodes| && (off > inodes[i].size || off + Chunk(|data| - written) > MAXBYTES)
      ensures sb.size <= BPB ==> worst <= MAXOPBLOCKS
      ensures st.Panic? ==> Full(View())
    {
      off, written, worst := off0, 0, 0;
      ghost var fs0 := View();
      while written < |data|
        invariant written <= |data| && off == off0 + written
        invariant written > 0 ==> off <= MAXBYTES
        invariant Carried(fs0, View(), i, off0, data, written)
        invariant sb.size <= BPB ==> worst <= MAXOPBLOCKS
      {
        ghost var count;
        var n1;
        st, n1, count := WriteNext(i, off0, data, written, fs0);
        if !st.Done? {
          return;
        }
        worst := if count > worst then count else worst;
        off := off + n1;
        written := written + n1;
      }
      st := Done;
    }
  }

  /** Bytes d written to file i from off on, if off is within the file, and nothing else. */
  ghost predicate Overwrites(fs: FS, fs': FS, i: nat, off: nat, d: seq<byte>) {
    && Valid(fs) && Valid(fs') && fs'.sb == fs.sb && i < |fs.inodes| == |fs'.inodes|
    && Contents(fs', i) == Overwritten(Contents(fs, i), off, d)
    && (d != [] ==> off <= |Contents(fs, i)|)
    && forall j: nat :: j < |fs.inodes| && j != i ==> Contents(fs', j) == Contents(fs, j)
  }

  /** The first n bytes of d written to file i from off on, byte by byte, and nothing else. */
  ghost predicate Carried(fs: FS, fs': FS, i: nat, off: nat, d: seq<byte>, n: nat) {
    && Valid(fs) && Valid(fs') && fs'.sb == fs.sb && i < |fs.inodes| == |fs'.inodes| && n <= |d|
    && (forall j: nat :: j < |fs.inodes| && j != i ==> Contents(fs', j) == Contents(fs, j))
    && CarriedBytes(Contents(fs, i), Contents(fs', i), off, d, n)
  }

  ghost predicate CarriedBytes(c: seq<byte>, c': seq<byte>, off: nat, d: seq<byte>, n: nat)
    requires n <= |d|
  {
    && (n > 0 ==> off <= |c|)
    && |c'| == (if n > 0 && off + n > |c| then off + n else |c|)
    && forall p: nat :: p < |c'| ==> c'[p] == if n > 0 && off <= p < off + n then d[p - off] else if p < |c| then c[p] else 0
  }

  lemma {:induction false} CarriedIsOverwrites(fs: FS, fs': FS, i: nat, off: nat, d: seq<byte>, n: nat)
    requires Valid(fs) && i < |fs.inodes| && n <= |d|
    ensures Carried(fs, fs', i, off, d, n) <==> Overwrites(fs, fs', i, off, d[..n])
  {
    if Valid(fs') && |fs'.inodes| == |fs.inodes| && (n > 0 ==> off <= |Contents(fs, i)|) {
      BytesAreSpliced(Contents(fs, i), Contents(fs', i), off, d, n);
    }
  }

  lemma {:induction false} BytesAreSpliced(c: seq<byte>, c': seq<byte>, off: nat, d: seq<byte>, n: nat)
    requires n <= |d| && (n > 0 ==> off <= |c|)
    ensures CarriedBytes(c, c', off, d, n) <==> c' == Overwritten(c, off, d[..n])
  {
    var w := Overwritten(c, off, d[..n]);
    if off <= |c| {
      forall p: nat | p < |w| ensures w[p] == if off <= p < off + n then d[p - off] else if p < |c| then c[p] else 0 {
        SplicedAt(c, off, d[..n], p);
      }
    }
  }

  /** Writing one piece after another is writing both at once. */
  lemma {:induction false} CarryMore(c: seq<byte>, c1: seq<byte>, c2: seq<byte>, off: nat, d: seq<byte>, n: nat, n1: nat)
    requires 0 < n1 && n + n1 <= |d| && off + n <= |c1|
    requires CarriedBytes(c, c1, off, d, n) && CarriedBytes(c1, c2, off + n, d[n..n + n1], n1)
    ensures CarriedBytes(c, c2, off, d, n + n1)
  {
    var piece := d[n..n + n1];
    forall p: nat | p < |c2|
      ensures c2[p] == if off <= p < off + n + n1 then d[p - off] else if p < |c| then c[p] else 0
    {
      if off + n <= p < off + n + n1 {
        assert c2[p] == piece[p - (off + n)] == d[p - off];
      } else if p < |c1| {
        assert c2[p] == c1[p];
      }
    }
  }

  lemma {:induction false} OverwriteNext(fs: FS, fs1: FS, fs2: FS, i: nat, off: nat, d: seq<byte>, n: nat, n1: nat)
    requires 0 < n1 && n + n1 <= |d|
    requires Carried(fs, fs1, i, off, d, n) && Overwrites(fs1, fs2, i, off + n, d[n..n + n1])
    ensures Carried(fs, fs2, i, off, d, n + n1)
  {
    var c1, c2, piece := Contents(fs1, i), Contents(fs2, i), d[n..n + n1];
    assert piece[..n1] == piece;
    BytesAreSpliced(c1, c2, off + n, piece, n1);
    CarryMore(Contents(fs, i), c1, c2, off, d, n, n1);
    forall j: nat | j < |fs.inodes| && j != i ensures Contents(fs2, j) == Contents(fs, j) {
      assert Contents(fs1, j) == Contents(fs, j);
    }
  }

  const CHUNK: nat := (MAXOPBLOCKS - 1 - 1 - 2) / 2 * BSIZE

  function Chunk(left: nat): nat { if left > CHUNK then CHUNK else left }

  /** Spliced where that is possible, otherwise nothing is written. */
  function Overwritten(c: seq<byte>, off: nat, d: seq<byte>): seq<byte> {
    if off <= |c| then Spliced(c, off, d) else c
  }

  /** A chunk of bytes lies in at most four blocks. */
  lemma ChunkBlocks(off: nat, n: nat)
    requires n <= CHUNK
    ensures BlocksEnd(off, n) - off / BSIZE <= 4
  {
  }

  // ------------------------------------------------------------------
  // The log budget of a write.

  /** One past the last block touched by n bytes from off on; none for n = 0. */
  function BlocksEnd(off: nat, n: nat): nat {
    if n == 0 then off / BSIZE else (off + n - 1) / BSIZE + 1
  }

  /** Beyond `before`, only these blocks were logged for a write to blocks lo..hi-1 of file i. */
  ghost predicate LoggedWithin(fs: FS, before: set<nat>, logged: set<nat>, i: nat, lo: nat, hi: nat) {
    && Sized(fs) && i < |fs.inodes| && lo <= hi <= MAXFILE && before <= logged
    && forall m :: m in logged && m !in before ==> MayLog(fs, m, i, lo, hi)
  }

  ghost predicate MayLog(fs: FS, m: nat, i: nat, lo: nat, hi: nat)
    requires Sized(fs) && i < |fs.inodes| && lo <= hi <= MAXFILE
  {
    || IsBitmapBlock(fs.sb, m) || m == InodeBlock(fs.sb, i)
    || (m == fs.inodes[i].addrs[NDIRECT] && m != 0)
    || exists bn :: lo <= bn < hi && Addr(fs, i, bn) == m
  }

  lemma {:induction false} LoggedStep(fs: FS, fs': FS, before: set<nat>, l: set<nat>, l': set<nat>, i: nat, lo: nat, bn: nat)
    requires LoggedWithin(fs, before, l, i, lo, bn) && bn < MAXFILE && KeepsAllBut(fs, fs', i, bn) && l <= l'
    requires fs.inodes[i].addrs[NDIRECT] != 0 ==> fs'.inodes[i].addrs[NDIRECT] == fs.inodes[i].addrs[NDIRECT]
    requires forall m :: m in l' ==> || m in l || IsBitmapBlock(fs.sb, m) || m == Addr(fs', i, bn)
                                     || (m == fs'.inodes[i].addrs[NDIRECT] && m != 0)
    ensures LoggedWithin(fs', before, l', i, lo, bn + 1)
  {
    forall m | m in l' && m !in before ensures MayLog(fs', m, i, lo, bn + 1) {
      if m in l {
        assert MayLog(fs, m, i, lo, bn);
        if k :| lo <= k < bn && Addr(fs, i, k) == m {
          assert Kept(fs, fs', i, k);
        }
      }
    }
  }

  lemma {:induction false} ResizeKeepsLogged(fs: FS, before: set<nat>, logged: set<nat>, i: nat, lo: nat, hi: nat, size: nat)
    requires Good(fs) && i < |fs.inodes| && InodeBlock(fs.sb, i) in logged
    requires LoggedWithin(fs, before, logged - {InodeBlock(fs.sb, i)}, i, lo, hi) || LoggedWithin(fs, before, logged, i, lo, hi)
    ensures LoggedWithin(Resized(fs, i, size), before, logged, i, lo, hi)
  {
    var fs' := Resized(fs, i, size);
    ResizeKeepsGood(fs, i, size);
    forall m | m in logged && m !in before ensures MayLog(fs', m, i, lo, hi) {
      if m != InodeBlock(fs.sb, i) {
        assert MayLog(fs, m, i, lo, hi);
        if k :| lo <= k < hi && Addr(fs, i, k) == m {
          assert Addr(fs', i, k) == m;
        }
      }
    }
  }

  lemma NextBlock(off: nat, tot: nat, m: nat)
    requires m > 0 && (off + tot) % BSIZE + m <= BSIZE && (tot == 0 || (off + tot) % BSIZE == 0)
    ensures BlocksEnd(off, tot) == (off + tot) / BSIZE && BlocksEnd(off, tot + m) == (off + tot) / BSIZE + 1
  {
    SameBlock(off + tot, m - 1);
  }

  /** The addresses of blocks lo..hi-1 of a file. */
  ghost function AddrSet(fs: FS, i: nat, lo: nat, hi: nat): (r: set<nat>)
    requires Sized(fs) && i < |fs.inodes| && lo <= hi <= MAXFILE
    ensures |r| <= hi - lo
    ensures forall bn :: lo <= bn < hi ==> Addr(fs, i, bn) in r
    decreases hi - lo
  {
    if lo == hi then {} else {Addr(fs, i, lo)} + AddrSet(fs, i, lo + 1, hi)
  }

  /** With a bitmap of one block, at most three blocks are logged beside the data blocks. */
  lemma {:induction false} LoggedCount(fs: FS, before: set<nat>, logged: set<nat>, i: nat, lo: nat, hi: nat)
    requires LoggedWithin(fs, before, logged, i, lo, hi) && fs.sb.size <= BPB
    ensures |logged - before| <= 3 + (hi - lo)
  {
    var few := {fs.sb.bmapstart, InodeBlock(fs.sb, i), fs.inodes[i].addrs[NDIRECT]};
    var all := few + AddrSet(fs, i, lo, hi);
    forall m | m in logged - before ensures m in all {
      assert MayLog(fs, m, i, lo, hi);
    }
    SubsetSize(logged - before, all);
    assert |few| <= 3;
    assert |all| <= |few| + |AddrSet(fs, i, lo, hi)|;
  }

  lemma {:induction false} SubsetSize(a: set<nat>, b: set<nat>)
    requires a <= b
    ensures |a| <= |b|
  {
    assert b == a + (b - a);
    assert |a + (b - a)| == |a| + |b - a|;
  }

  /** A fresh block put into entry k of inode i's indirect block. */
  lemma {:induction false} EntryFilled(fs1: FS, fs2: FS, i: nat, k: nat, b: nat)
    requires Good(fs1) && NoneClaimed(fs1.owner) && i < |fs1.inodes| && k < NINDIRECT && 0 < fs1.inodes[i].addrs[NDIRECT] < fs1.sb.size
    requires Entry(fs1, i, k) == 0 && b < fs1.sb.size && fs1.owner[b] == Free && fs2 == AfterAlloc(fs1, b)
    ensures 0 < b && Sized(fs2)
    ensures var fs' := WithIndirect(fs2, i, k, b);
            && Good(fs') && NoneClaimed(fs'.owner) && KeepsAllBut(fs1, fs', i, NDIRECT + k)
            && Addr(fs', i, NDIRECT + k) == b && fs'.blocks[b] == ZeroBlock()
  {
    AllocKeepsGood(fs1, b);
    AllocKeepsFiles(fs1, b, i, NDIRECT + k);
    AllocKeepsEntry(fs1, b, i, k);
    IndirectKeepsGood(fs2, i, k, b);
    IndirectKeepsFiles(fs2, i, k, b);
    EntryAfter(fs2, i, k, b, i, k);
    FreshIsData(fs2, b);
    TableIsOther(fs2, i, b);
    KeepsTransitive(fs1, fs2, WithIndirect(fs2, i, k, b), i, NDIRECT + k);
  }

  lemma KeepsSelf(fs: FS, i: nat, bn: nat)
    requires Good(fs)
    ensures KeepsAllBut(fs, fs, i, bn)
  {
    forall j: nat, n: nat | j < |fs.inodes| && n < MAXFILE ensures Kept(fs, fs, j, n) {
    }
  }

  lemma TableIsOther(fs: FS, i: nat, b: nat)
    requires Good(fs) && b < fs.sb.size && fs.owner[b] == Claimed && i < |fs.inodes|
    ensures fs.inodes[i].addrs[NDIRECT] != b
  {
    assert TableOk(fs, i) && BlockOk(fs, 0);
  }

  lemma SameBits(fs: FS, fs': FS)
    requires Sized(fs) && Sized(fs') && fs'.sb == fs.sb && fs'.blocks == fs.blocks
    ensures forall b: nat :: b < fs.sb.size ==> InUse(fs', b) == InUse(fs, b)
  {
  }

  lemma NoSuchOwner(fs: FS, o: Owner)
    requires Good(fs)
    requires match o
             case Direct(i, k) => i < |fs.inodes| && k < NDIRECT && fs.inodes[i].addrs[k] == 0
             case Indirect(i, k) => i < |fs.inodes| && k < NINDIRECT && 0 < fs.inodes[i].addrs[NDIRECT] < fs.sb.size && Entry(fs, i, k) == 0
             case _ => false
    ensures forall b: nat :: b < fs.sb.size ==> fs.owner[b] != o
  {
    forall b: nat | b < fs.sb.size ensures fs.owner[b] != o {
      assert BlockOk(fs, b) && BlockOk(fs, 0);
    }
  }

  lemma GoneAtStart(fs: FS, i: nat)
    requires Good(fs) && i < |fs.inodes|
    ensures Truncating(fs, fs, i, 0, 0, false)
  {
    forall b: nat | b < fs.sb.size ensures InUse(fs, b) <==> fs.owner[b] != Free {
      assert BlockOk(fs, b);
    }
  }

  lemma {:induction false} NoTable(fs0: FS, fs: FS, i: nat)
    requires Truncating(fs0, fs, i, NDIRECT, 0, false) && fs0.inodes[i].addrs[NDIRECT] == 0
    ensures Truncating(fs0, fs, i, NDIRECT, NINDIRECT, true)
  {
    forall b: nat | b < fs.sb.size
      ensures Gone(fs0.owner[b], i, NDIRECT, NINDIRECT, true) <==> Gone(fs0.owner[b], i, NDIRECT, 0, false)
    {
      assert BlockOk(fs0, b) && BlockOk(fs0, 0);
    }
  }

  lemma {:induction false} TruncateIsValid(fs0: FS, fs: FS, i: nat)
    requires Valid(fs0) && Truncated(fs0, fs, i)
    ensures Valid(fs) && forall j: nat :: j < |fs.inodes| && j != i ==> Contents(fs, j) == Contents(fs0, j)
  {
    forall j: nat | j < |fs.inodes|
      ensures Mapped(fs, j) && (j != i ==> Contents(fs, j) == Contents(fs0, j))
    {
      assert Mapped(fs0, j);
      if j != i {
        forall n: nat | n < MAXFILE ensures Kept(fs0, fs, j, n) {
          TruncateKeepsOthers(fs0, fs, i, j, n);
        }
        KeptContents(fs0, fs, j);
        assert fs.inodes[j] == fs0.inodes[j];
        forall bn: nat | bn < MAXFILE && bn * BSIZE < fs.inodes[j].size ensures Addr(fs, j, bn) != 0 {
          assert Kept(fs0, fs, j, bn);
        }
      }
    }
  }

  lemma EndOfChunk(o: nat, m: nat, left: nat)
    requires m == if left < BSIZE - o % BSIZE then left else BSIZE - o % BSIZE
    ensures (o + m) % BSIZE == 0 || m == left
  {
  }

  lemma SameBlock(o: nat, k: nat)
    requires o % BSIZE + k < BSIZE
    ensures (o + k) / BSIZE == o / BSIZE && (o + k) % BSIZE == o % BSIZE + k
  {
  }

  /** The bytes of a file that lie in one block. */
  lemma {:induction false} SliceOfBlock(fs: FS, i: nat, o: nat, m: nat)
    requires Good(fs) && i < |fs.inodes| && Mapped(fs, i) && o + m <= fs.inodes[i].size && 0 < m
    requires o % BSIZE + m <= BSIZE
    ensures 0 < Addr(fs, i, o / BSIZE) < fs.sb.size
    ensures fs.blocks[Addr(fs, i, o / BSIZE)][o % BSIZE..o % BSIZE + m] == Contents(fs, i)[o..o + m]
  {
    MappedByte(fs, i, o);
    var a := Addr(fs, i, o / BSIZE);
    var left, right := fs.blocks[a][o % BSIZE..o % BSIZE + m], Contents(fs, i)[o..o + m];
    forall k | 0 <= k < m ensures left[k] == right[k] {
      SameBlock(o, k);
      assert right[k] == ByteAt(fs, i, o + k);
    }
  }
}
