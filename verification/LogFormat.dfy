/**
 The on-disk redo log: a header block naming the home blocks of a committed
 transaction, followed by the new contents of those blocks.

 `Recovered` is what the disk means to a system that boots from it: the home blocks
 with the committed log, if any, written over them.
 */
module LogFormat {
  import opened Common
  import opened Blocks

  const LOGSIZE: nat := MAXOPBLOCKS * 3

  type Disk = seq<Block>

  /** Where the log lies: `size` blocks from block `start` on, the first being the header. */
  datatype Area = Area(start: nat, size: nat)

  predicate InLog(a: Area, b: nat) {
    a.start <= b < a.start + a.size
  }

  /** The disk holds the whole log area. */
  predicate Fits(a: Area, disk: Disk) {
    0 < a.size && a.start + a.size <= |disk|
  }

  predicate Home(a: Area, disk: Disk, b: nat) {
    b < |disk| && !InLog(a, b)
  }

  /** The k-th data block of the log. */
  function Slot(a: Area, k: nat): nat {
    a.start + 1 + k
  }

  /** The block numbers a header holds; `n` is taken as it stands. */
  function HeaderList(header: Block): seq<nat>
    requires Word(header, 0) <= LOGSIZE
  {
    seq(Word(header, 0), i requires 0 <= i < Word(header, 0) => Word(header, i + 1))
  }

  /** A list of blocks the log can carry: distinct, at home outside the log, and not too many. */
  predicate Loggable(a: Area, disk: Disk, blocks: seq<nat>) {
    && |blocks| <= LOGSIZE && |blocks| <= a.size - 1
    && Distinct(blocks)
    && forall k :: 0 <= k < |blocks| ==> Home(a, disk, blocks[k])
  }

  /** A disk that recovery can work on. */
  predicate Recoverable(a: Area, disk: Disk) {
    && Fits(a, disk) && |disk| < WRAP
    && Word(disk[a.start], 0) <= LOGSIZE
    && Loggable(a, disk, HeaderList(disk[a.start]))
  }

  function Committed(a: Area, disk: Disk): seq<nat>
    requires Recoverable(a, disk)
  {
    HeaderList(disk[a.start])
  }

  /** The contents of home block b after recovery from this disk. */
  ghost function Recovered(a: Area, disk: Disk, b: nat): Block
    requires Recoverable(a, disk) && Home(a, disk, b)
  {
    var list := Committed(a, disk);
    if k :| 0 <= k < |list| && list[k] == b then disk[Slot(a, k)] else disk[b]
  }

  lemma RecoveredInLog(a: Area, disk: Disk, k: nat)
    requires Recoverable(a, disk) && k < |Committed(a, disk)|
    ensures Recovered(a, disk, Committed(a, disk)[k]) == disk[Slot(a, k)]
  {
  }

  lemma RecoveredNotInLog(a: Area, disk: Disk, b: nat)
    requires Recoverable(a, disk) && Home(a, disk, b) && b !in Committed(a, disk)
    ensures Recovered(a, disk, b) == disk[b]
  {
  }

  // ------------------------------------------------------------------
  // Writing the header: only `n` and the first n entries are stored.

  function SetEntries(header: Block, blocks: seq<nat>, n: nat): (h: Block)
    requires n <= |blocks| <= LOGSIZE && forall k :: 0 <= k < |blocks| ==> blocks[k] < WRAP
  {
    if n == 0 then header else SetWord(SetEntries(header, blocks, n - 1), n, blocks[n - 1])
  }

  function SetHeader(header: Block, blocks: seq<nat>): (h: Block)
    requires |blocks| <= LOGSIZE && forall k :: 0 <= k < |blocks| ==> blocks[k] < WRAP
  {
    SetEntries(SetWord(header, 0, |blocks|), blocks, |blocks|)
  }

  lemma {:induction false} WordOfSetEntries(header: Block, blocks: seq<nat>, n: nat, j: nat)
    requires n <= |blocks| <= LOGSIZE && j < WORDS
    requires forall k :: 0 <= k < |blocks| ==> blocks[k] < WRAP
    ensures Word(SetEntries(header, blocks, n), j) == if 1 <= j <= n then blocks[j - 1] else Word(header, j)
  {
    if n > 0 {
      WordOfSetEntries(header, blocks, n - 1, j);
      WordOfSetWord(SetEntries(header, blocks, n - 1), n, blocks[n - 1], j);
    }
  }

  /** Whatever the header block held before, reading it back gives the list just written. */
  lemma {:induction false} HeaderRoundTrip(header: Block, blocks: seq<nat>)
    requires |blocks| <= LOGSIZE && forall k :: 0 <= k < |blocks| ==> blocks[k] < WRAP
    ensures Word(SetHeader(header, blocks), 0) == |blocks|
    ensures HeaderList(SetHeader(header, blocks)) == blocks
  {
    var h0, h := SetWord(header, 0, |blocks|), SetHeader(header, blocks);
    WordOfSetWord(header, 0, |blocks|, 0);
    WordOfSetEntries(h0, blocks, |blocks|, 0);
    forall i | 0 <= i < |blocks| ensures Word(h, i + 1) == blocks[i] {
      WordOfSetEntries(h0, blocks, |blocks|, i + 1);
    }
  }

  // ------------------------------------------------------------------
  // What each kind of block write does to the recovered disk.

  /** Recovery from this disk gives these home blocks. */
  ghost predicate RecoversTo(a: Area, d: Disk, home: Disk) {
    && Recoverable(a, d) && |home| == |d|
    && forall b: nat :: Home(a, d, b) ==> Recovered(a, d, b) == home[b]
  }

  /** Home blocks are the ones given. */
  ghost predicate HomeIs(a: Area, d: Disk, home: Disk) {
    |home| == |d| && forall b: nat :: Home(a, d, b) ==> d[b] == home[b]
  }

  /** A disk with some blocks replaced. */
  ghost function Overlaid(d: Disk, over: map<nat, Block>): Disk {
    seq(|d|, b requires 0 <= b < |d| => if b in over then over[b] else d[b])
  }

  lemma EmptyLogRecovers(a: Area, d: Disk, home: Disk)
    requires Recoverable(a, d) && Committed(a, d) == []
    ensures RecoversTo(a, d, home) <==> HomeIs(a, d, home)
  {
    forall b: nat | Home(a, d, b) ensures Recovered(a, d, b) == d[b] {
      RecoveredNotInLog(a, d, b);
    }
  }

  /** While nothing is committed, a write to the log's data blocks is not seen. */
  lemma {:induction false} LogDataInvisible(a: Area, d: Disk, k: nat, x: Block, home: Disk)
    requires RecoversTo(a, d, home) && Committed(a, d) == [] && k < a.size - 1
    ensures var d' := d[Slot(a, k) := x];
            RecoversTo(a, d', home) && Committed(a, d') == []
  {
    var d' := d[Slot(a, k) := x];
    assert d'[a.start] == d[a.start];
    EmptyLogRecovers(a, d, home);
    EmptyLogRecovers(a, d', home);
  }

  /** Copying a committed block home is not seen. */
  lemma {:induction false} InstallInvisible(a: Area, d: Disk, k: nat, home: Disk)
    requires RecoversTo(a, d, home) && k < |Committed(a, d)|
    ensures var d' := d[Committed(a, d)[k] := d[Slot(a, k)]];
            RecoversTo(a, d', home) && Committed(a, d') == Committed(a, d)
  {
    var list := Committed(a, d);
    assert Home(a, d, list[k]);
    var d' := d[list[k] := d[Slot(a, k)]];
    assert d'[a.start] == d[a.start];
    forall b: nat | Home(a, d, b) ensures Recovered(a, d', b) == Recovered(a, d, b) {
      if i :| 0 <= i < |list| && list[i] == b {
        RecoveredInLog(a, d, i);
        RecoveredInLog(a, d', i);
      } else {
        RecoveredNotInLog(a, d, b);
        RecoveredNotInLog(a, d', b);
      }
    }
  }

  /** The disk after write_head. */
  function WithHeader(a: Area, d: Disk, list: seq<nat>): Disk
    requires Fits(a, d) && |d| < WRAP && Loggable(a, d, list)
  {
    d[a.start := SetHeader(d[a.start], list)]
  }

  lemma {:induction false} HeaderWritten(a: Area, d: Disk, list: seq<nat>)
    requires Fits(a, d) && |d| < WRAP && Loggable(a, d, list)
    ensures Recoverable(a, WithHeader(a, d, list)) && Committed(a, WithHeader(a, d, list)) == list
  {
    HeaderRoundTrip(d[a.start], list);
  }

  /** The header write commits: all blocks it lists change at once, and no other does. */
  lemma {:induction false} HeaderCommits(a: Area, d: Disk, list: seq<nat>, home: Disk)
    requires Recoverable(a, d) && Loggable(a, d, list) && |home| == |d|
    requires forall k :: 0 <= k < |list| ==> d[Slot(a, k)] == home[list[k]]
    requires forall b: nat :: Home(a, d, b) && b !in list ==> d[b] == home[b]
    ensures RecoversTo(a, WithHeader(a, d, list), home)
  {
    var d' := WithHeader(a, d, list);
    HeaderWritten(a, d, list);
    forall b: nat | Home(a, d, b) ensures Recovered(a, d', b) == home[b] {
      if k :| 0 <= k < |list| && list[k] == b {
        RecoveredInLog(a, d', k);
      } else {
        RecoveredNotInLog(a, d', b);
      }
    }
  }

  /** Once every committed block is home, erasing the header is not seen. */
  lemma {:induction false} ClearInvisible(a: Area, d: Disk, home: Disk)
    requires RecoversTo(a, d, home)
    requires forall k :: 0 <= k < |Committed(a, d)| ==> d[Committed(a, d)[k]] == d[Slot(a, k)]
    ensures HomeIs(a, d, home) && Loggable(a, d, [])
    ensures RecoversTo(a, WithHeader(a, d, []), home) && Committed(a, WithHeader(a, d, [])) == []
  {
    var d', list := WithHeader(a, d, []), Committed(a, d);
    HeaderWritten(a, d, []);
    forall b: nat | Home(a, d, b) ensures Recovered(a, d, b) == d[b] {
      if i :| 0 <= i < |list| && list[i] == b {
        RecoveredInLog(a, d, i);
      } else {
        RecoveredNotInLog(a, d, b);
      }
    }
    EmptyLogRecovers(a, d', home);
  }
}
