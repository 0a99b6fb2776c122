/**
 log.c as it runs when it owns the disk: the commit of one transaction and the
 recovery at boot, block write by block write.

 `trace` records the disk after every block write.  A crash leaves one of these disks
 behind, so a property of every disk in the trace is a property of every crash point.
 */
module Log {
  import opened Common
  import opened Blocks
  import opened LogFormat

  /** Every block in the list is pinned, and nothing else is. */
  ghost predicate PinnedList(area: Area, disk: Disk, lh: seq<nat>, pinned: map<nat, Block>) {
    && Loggable(area, disk, lh)
    && (forall k :: 0 <= k < |lh| ==> lh[k] in pinned)
    && forall b :: b in pinned ==> b in lh
  }

  lemma {:induction false} AppendKeepsPinned(area: Area, disk: Disk, lh: seq<nat>, pinned: map<nat, Block>, b: nat, x: Block)
    requires PinnedList(area, disk, lh, pinned) && b !in lh && Home(area, disk, b)
    requires |lh| < LOGSIZE && |lh| < area.size - 1
    ensures PinnedList(area, disk, lh + [b], pinned[b := x])
  {
    var lh', pinned' := lh + [b], pinned[b := x];
    assert lh'[|lh|] == b;
    forall c | c in pinned' ensures c in lh' {
      if c != b {
        assert c in pinned && c in lh;
        var k :| 0 <= k < |lh| && lh[k] == c;
        assert lh'[k] == c;
      }
    }
  }

  lemma {:induction false} RepinKeepsPinned(area: Area, disk: Disk, lh: seq<nat>, pinned: map<nat, Block>, i: nat, x: Block)
    requires PinnedList(area, disk, lh, pinned) && i < |lh|
    ensures lh[i := lh[i]] == lh && PinnedList(area, disk, lh, pinned[lh[i] := x])
  {
  }

  /** Exactly the listed blocks are no longer pinned. */
  ghost predicate Unpinned(before: map<nat, Block>, pinned: map<nat, Block>, blocks: seq<nat>) {
    forall b :: b in pinned <==> b in before && b !in blocks
  }

  lemma {:induction false} UnpinOne(before: map<nat, Block>, pinned: map<nat, Block>, lh: seq<nat>, tail: nat)
    requires tail < |lh| && Unpinned(before, pinned, lh[..tail])
    ensures Unpinned(before, pinned - {lh[tail]}, lh[..tail + 1])
  {
    assert lh[..tail + 1] == lh[..tail] + [lh[tail]];
  }

  class LogDevice {
    const area: Area
    var disk: Disk
    var pinned: map<nat, Block>   // dirty buffers: logged, not yet home
    var lh: seq<nat>              // the in-memory header's block list
    ghost var trace: seq<Disk>

    constructor (area: Area, disk: Disk)
      ensures this.area == area && this.disk == disk && lh == [] && pinned == map[] && trace == []
    {
      this.area, this.disk := area, disk;
      pinned, lh, trace := map[], [], [];
    }

    /** Every block in the log list is pinned, and nothing else is. */
    ghost predicate Pinned()
      reads this
    {
      PinnedList(area, disk, lh, pinned)
    }

    /** Every disk written since the trace had length n recovers to these home blocks. */
    ghost predicate TracedTo(n: nat, home: Disk)
      reads this
    {
      n <= |trace| && forall i :: n <= i < |trace| ==> RecoversTo(area, trace[i], home)
    }

    method Bwrite(b: nat, x: Block)
      requires b < |disk|
      modifies this`disk, this`trace
      ensures disk == old(disk)[b := x] && trace == old(trace) + [disk]
    {
      disk := disk[b := x];
      trace := trace + [disk];
    }

    /** The contents bread gives: a pinned buffer if there is one, else the disk's block. */
    function Bread(b: nat): Block
      requires b < |disk|
      reads this
    {
      if b in pinned then pinned[b] else disk[b]
    }

    /** Log absorption: a block already in the list is not added again. */
    method LogWrite(b: nat, x: Block)
      requires Fits(area, disk) && Pinned() && Home(area, disk, b)
      requires b !in lh ==> |lh| < LOGSIZE && |lh| < area.size - 1
      modifies this`lh, this`pinned
      ensures Pinned() && pinned == old(pinned)[b := x]
      ensures lh == if b in old(lh) then old(lh) else old(lh) + [b]
    {
      var i := 0;
      while i < |lh|
        invariant i <= |lh| && b !in lh[..i]
      {
        if lh[i] == b {
          break;
        }
        i := i + 1;
      }
      if i == |lh| {
        AppendKeepsPinned(area, disk, lh, pinned, b, x);
        lh := lh + [b];
      } else {
        RepinKeepsPinned(area, disk, lh, pinned, i, x);
        lh := lh[i := b];
      }
      pinned := pinned[b := x];
    }

    method WriteLog(ghost home: Disk)
      requires Pinned() && RecoversTo(area, disk, home) && Committed(area, disk) == []
      modifies this`disk, this`trace
      ensures RecoversTo(area, disk, home) && Committed(area, disk) == [] && |disk| == |old(disk)|
      ensures forall k :: 0 <= k < |lh| ==> disk[Slot(area, k)] == pinned[lh[k]]
      ensures TracedTo(|old(trace)|, home) && old(trace) <= trace && |trace| == |old(trace)| + |lh|
    {
      var tail := 0;
      while tail < |lh|
        invariant tail <= |lh| && |disk| == |old(disk)|
        invariant RecoversTo(area, disk, home) && Committed(area, disk) == []
        invariant forall k :: 0 <= k < tail ==> disk[Slot(area, k)] == pinned[lh[k]]
        invariant TracedTo(|old(trace)|, home) && old(trace) <= trace && |trace| == |old(trace)| + tail
      {
        assert lh[tail] in pinned && Home(area, disk, lh[tail]);
        var x := Bread(lh[tail]);
        LogDataInvisible(area, disk, tail, x, home);
        Bwrite(Slot(area, tail), x);
        tail := tail + 1;
      }
    }

    method WriteHead()
      requires Fits(area, disk) && |disk| < WRAP && Loggable(area, disk, lh)
      modifies this`disk, this`trace
      ensures disk == WithHeader(area, old(disk), lh) && trace == old(trace) + [disk]
    {
      var hb := SetWord(disk[area.start], 0, |lh|);
      var i := 0;
      while i < |lh|
        invariant i <= |lh| && hb == SetEntries(SetWord(disk[area.start], 0, |lh|), lh, i)
      {
        assert Home(area, disk, lh[i]);
        hb := SetWord(hb, i + 1, lh[i]);
        i := i + 1;
      }
      Bwrite(area.start, hb);
    }

    method ReadHead()
      requires Recoverable(area, disk)
      modifies this`lh
      ensures lh == Committed(area, disk)
    {
      var n := Word(disk[area.start], 0);
      var list := [];
      var i := 0;
      while i < n
        invariant i <= n && list == Committed(area, disk)[..i]
      {
        list := list + [Word(disk[area.start], i + 1)];
        i := i + 1;
      }
      lh := list;
    }

    /** Copy every committed block home; each one is then clean. */
    method InstallTrans(ghost home: Disk)
      requires RecoversTo(area, disk, home) && lh == Committed(area, disk)
      modifies this`disk, this`trace, this`pinned
      ensures RecoversTo(area, disk, home) && Committed(area, disk) == lh && |disk| == |old(disk)|
      ensures forall k :: 0 <= k < |lh| ==> disk[lh[k]] == disk[Slot(area, k)]
      ensures Unpinned(old(pinned), pinned, lh)
      ensures TracedTo(|old(trace)|, home) && old(trace) <= trace
    {
      var tail := 0;
      while tail < |lh|
        invariant tail <= |lh| && |disk| == |old(disk)|
        invariant RecoversTo(area, disk, home) && Committed(area, disk) == lh
        invariant forall k :: 0 <= k < tail ==> disk[lh[k]] == disk[Slot(area, k)]
        invariant Unpinned(old(pinned), pinned, lh[..tail])
        invariant TracedTo(|old(trace)|, home) && old(trace) <= trace
      {
        UnpinOne(old(pinned), pinned, lh, tail);
        InstallOne(tail, home, |old(trace)|);
        pinned := pinned - {lh[tail]};
        tail := tail + 1;
      }
      assert lh[..tail] == lh;
    }

    /** One round of install_trans: the block is copied home, and a crash right after it is not seen. */
    method InstallOne(tail: nat, ghost home: Disk, ghost n: nat)
      requires RecoversTo(area, disk, home) && lh == Committed(area, disk) && tail < |lh|
      requires forall k :: 0 <= k < tail ==> disk[lh[k]] == disk[Slot(area, k)]
      requires TracedTo(n, home)
      modifies this`disk, this`trace
      ensures RecoversTo(area, disk, home) && Committed(area, disk) == lh && |disk| == |old(disk)|
      ensures forall k :: 0 <= k < tail + 1 ==> disk[lh[k]] == disk[Slot(area, k)]
      ensures trace == old(trace) + [disk] && TracedTo(n, home)
    {
      assert Home(area, disk, lh[tail]);
      InstallInvisible(area, disk, tail, home);
      Bwrite(lh[tail], disk[Slot(area, tail)]);
    }

    method EraseLog(ghost home: Disk)
      requires RecoversTo(area, disk, home) && lh == Committed(area, disk)
      requires forall k :: 0 <= k < |lh| ==> disk[lh[k]] == disk[Slot(area, k)]
      modifies this`disk, this`trace, this`lh
      ensures lh == [] && RecoversTo(area, disk, home) && HomeIs(area, disk, home) && Committed(area, disk) == []
      ensures TracedTo(|old(trace)|, home) && old(trace) <= trace
    {
      ClearInvisible(area, disk, home);
      lh := [];
      WriteHead();
      EmptyLogRecovers(area, disk, home);
    }

    /** The home blocks once the pending transaction is applied. */
    ghost function Applied(): Disk
      reads this
    {
      Overlaid(disk, pinned)
    }

    /** The first two steps of commit: the log's data blocks, then the header. */
    method WriteTransaction()
      requires Recoverable(area, disk) && Committed(area, disk) == [] && Pinned()
      modifies this`disk, this`trace
      ensures RecoversTo(area, disk, old(Applied())) && Committed(area, disk) == lh
      ensures old(trace) <= trace && |trace| == |old(trace)| + |lh| + 1
      ensures forall i :: |old(trace)| <= i < |old(trace)| + |lh| ==> RecoversTo(area, trace[i], old(disk))
      ensures trace[|trace| - 1] == disk
    {
      ghost var home := disk;
      EmptyLogRecovers(area, disk, home);
      WriteLog(home);
      EmptyLogRecovers(area, disk, home);
      HeaderCommits(area, disk, lh, old(Applied()));
      HeaderWritten(area, disk, lh);
      WriteHead();
    }

    /**
     commit.  Of the disks left behind by a crash, those before the header write recover
     to the old home blocks and those from it on recover to all of the new ones.
     */
    method Commit()
      requires Recoverable(area, disk) && Committed(area, disk) == [] && Pinned()
      modifies this`disk, this`trace, this`pinned, this`lh
      ensures lh == [] && pinned == map[]
      ensures Recoverable(area, disk) && Committed(area, disk) == [] && HomeIs(area, disk, old(Applied()))
      ensures old(trace) <= trace
      ensures forall i :: |old(trace)| <= i < |trace| ==>
                RecoversTo(area, trace[i], if i < |old(trace)| + |old(lh)| then old(disk) else old(Applied()))
    {
      if |lh| > 0 {
        ghost var home' := Applied();
        WriteTransaction();
        InstallTrans(home');
        EraseLog(home');
      }
    }

    /**
     recover_from_log.  Every disk it leaves behind recovers to the same home blocks as
     the disk it started from, so it may itself crash any number of times; when it
     completes, those blocks are at home and the log is empty.
     */
    method RecoverFromLog(ghost home: Disk)
      requires RecoversTo(area, disk, home) && pinned == map[]
      modifies this`disk, this`trace, this`pinned, this`lh
      ensures lh == [] && pinned == map[]
      ensures Recoverable(area, disk) && Committed(area, disk) == [] && HomeIs(area, disk, home)
      ensures TracedTo(|old(trace)|, home) && old(trace) <= trace
    {
      ReadHead();
      InstallTrans(home);
      EraseLog(home);
    }
  }
}
