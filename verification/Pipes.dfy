/**
 Pipes: a 512-byte ring buffer between any number of writers and readers, with
 read and write counters that are 32 bits wide and wrap.

 `PipeState` and `Next` give the pipe as an unbounded first-in first-out queue with the
 processes asleep on its two channels.  Class `Pipe` is the ring buffer itself; each of
 its methods is one section of code run under the pipe's lock, from acquiring the lock
 (or returning from sleep) until the lock is given up (by release or by sleep), and is
 proved to take the queue's step.
 */
module Pipes {
  import opened Common

  const PIPESIZE: nat := 512

  type Proc = nat

  /** What a section under the lock ended with. */
  datatype Outcome = Returned | Failed | Slept

  datatype PipeState = PipeState(
    accepted: seq<byte>,    // all bytes ever put in
    delivered: seq<byte>,   // all bytes ever taken out
    readOpen: bool,
    writeOpen: bool,
    freed: bool,            // the page that holds the pipe has been given back
    readers: set<Proc>,     // asleep on &p->nread
    writers: set<Proc>)     // asleep on &p->nwrite

  function Min(a: int, b: int): int { if a < b then a else b }
  function Max(a: int, b: int): int { if a < b then b else a }

  predicate Fifo(s: PipeState) {
    s.delivered <= s.accepted && |s.accepted| - |s.delivered| <= PIPESIZE
  }

  function InFlight(s: PipeState): nat {
    Max(0, |s.accepted| - |s.delivered|)
  }

  /** How many of the bytes fit before the pipe is full. */
  function Room(s: PipeState, bytes: seq<byte>): (n: nat)
    ensures n <= |bytes|
  {
    Max(0, Min(|bytes|, PIPESIZE - InFlight(s)))
  }

  function WriteOutcome(s: PipeState, bytes: seq<byte>, killed: bool): Outcome {
    if Room(s, bytes) == |bytes| then Returned
    else if !s.readOpen || killed then Failed
    else Slept
  }

  function AfterWrite(s: PipeState, p: Proc, bytes: seq<byte>, killed: bool): PipeState {
    var s1 := s.(accepted := s.accepted + bytes[..Room(s, bytes)]);
    match WriteOutcome(s, bytes, killed)
    case Returned => s1.(readers := {})
    case Failed => s1
    case Slept => s1.(readers := {}, writers := s.writers + {p})
  }

  function ReadOutcome(s: PipeState, killed: bool): Outcome {
    if InFlight(s) == 0 && s.writeOpen then (if killed then Failed else Slept) else Returned
  }

  /** The next bytes in order, as many as asked for and present. */
  function ReadResult(s: PipeState, n: int): seq<byte> {
    if InFlight(s) == 0 then []
    else s.accepted[|s.delivered|..|s.delivered| + Max(0, Min(n, InFlight(s)))]
  }

  function AfterRead(s: PipeState, p: Proc, n: int, killed: bool): PipeState {
    match ReadOutcome(s, killed)
    case Returned => s.(delivered := s.delivered + ReadResult(s, n), writers := {})
    case Failed => s
    case Slept => s.(readers := s.readers + {p})
  }

  function AfterClose(s: PipeState, writable: bool): PipeState {
    if writable then s.(writeOpen := false, freed := !s.readOpen, readers := {})
    else s.(readOpen := false, freed := !s.writeOpen, writers := {})
  }

  datatype Event =
    | Write(p: Proc, bytes: seq<byte>, killed: bool)
    | Read(p: Proc, n: int, killed: bool)
    | Close(writable: bool)
    | Kill(p: Proc)

  /**
   A process asleep takes no step, an end is used only while open, and an end is closed
   only when the last file referring to it is closed, so when nobody sleeps in it.
   */
  predicate Enabled(s: PipeState, e: Event) {
    match e
    case Write(p, _, _) => s.writeOpen && p !in s.readers + s.writers
    case Read(p, _, _) => s.readOpen && p !in s.readers + s.writers
    case Close(writable) => if writable then s.writeOpen && s.writers == {} else s.readOpen && s.readers == {}
    case Kill(_) => true
  }

  function Next(s: PipeState, e: Event): PipeState {
    match e
    case Write(p, bytes, killed) => AfterWrite(s, p, bytes, killed)
    case Read(p, n, killed) => AfterRead(s, p, n, killed)
    case Close(writable) => AfterClose(s, writable)
    case Kill(p) => s.(readers := s.readers - {p}, writers := s.writers - {p})
  }

  const EmptyPipe := PipeState([], [], true, true, false, {}, {})

  /** No process is asleep that has something to do. */
  predicate NoLostWakeup(s: PipeState) {
    && (s.readers != {} ==> InFlight(s) == 0 && s.writeOpen && s.readOpen)
    && (s.writers != {} ==> InFlight(s) == PIPESIZE && s.readOpen && s.writeOpen)
  }

  lemma {:induction false} NextIsFifo(s: PipeState, e: Event)
    requires Fifo(s)
    ensures Fifo(Next(s, e))
    ensures s.accepted <= Next(s, e).accepted && s.delivered <= Next(s, e).delivered
  {
    if e.Read? && ReadOutcome(s, e.killed).Returned? {
      var k := |ReadResult(s, e.n)|;
      assert s.accepted[..|s.delivered| + k] == s.delivered + ReadResult(s, e.n);
    }
  }

  /** A killed writer fills the pipe while a reader sleeps and returns without a wakeup. */
  predicate KilledMidWrite(s: PipeState, e: Event) {
    && e.Write? && e.killed && s.readOpen && s.readers != {}
    && InFlight(s) == 0 && |e.bytes| > PIPESIZE
  }

  /** Exactly one step can lose a wakeup: the failure return of a killed writer. */
  lemma {:induction false} WakeupLostExactlyWhenKilled(s: PipeState, e: Event)
    requires Fifo(s) && NoLostWakeup(s) && Enabled(s, e)
    ensures Fifo(Next(s, e))
    ensures NoLostWakeup(Next(s, e)) <==> !KilledMidWrite(s, e)
  {
    NextIsFifo(s, e);
    match e
    case Write(p, bytes, killed) =>
      var s' := Next(s, e);
      assert InFlight(s') == InFlight(s) + Room(s, bytes);
      if WriteOutcome(s, bytes, killed).Failed? && s.readers != {} {
        assert InFlight(s') == PIPESIZE;
      }
    case Read(p, n, killed) =>
    case Close(writable) =>
    case Kill(p) =>
  }

  ghost predicate IsRun(run: seq<PipeState>, events: seq<Event>) {
    && |run| == |events| + 1 && run[0] == EmptyPipe
    && forall i :: 0 <= i < |events| ==> Enabled(run[i], events[i]) && run[i + 1] == Next(run[i], events[i])
  }

  /** A run in which no writer finds itself killed while the pipe is full. */
  ghost predicate NoWriterKilled(events: seq<Event>) {
    forall i :: 0 <= i < |events| ==> events[i].Write? ==> !events[i].killed
  }

  /**
   Over every run the bytes delivered are a prefix of the bytes accepted, with at most
   512 in between; and if no writer is killed, nobody ever sleeps on a pipe it could use.
   */
  lemma {:induction false} PipeIsFifo(run: seq<PipeState>, events: seq<Event>, n: nat)
    requires IsRun(run, events) && n < |run|
    ensures Fifo(run[n])
    ensures NoWriterKilled(events) ==> NoLostWakeup(run[n])
  {
    if n > 0 {
      PipeIsFifo(run, events, n - 1);
      NextIsFifo(run[n - 1], events[n - 1]);
      if NoWriterKilled(events) {
        WakeupLostExactlyWhenKilled(run[n - 1], events[n - 1]);
      }
    }
  }

  /** That a reader can be left asleep does happen: from an empty pipe, in two steps. */
  lemma {:induction false} KilledWriterLosesWakeup() returns (run: seq<PipeState>, events: seq<Event>)
    ensures IsRun(run, events) && !NoLostWakeup(run[|run| - 1])
  {
    events := [Read(0, 1, false), Write(1, seq(PIPESIZE + 1, _ => 7), true)];
    var s1 := Next(EmptyPipe, events[0]);
    run := [EmptyPipe, s1, Next(s1, events[1])];
    assert KilledMidWrite(s1, events[1]);
    WakeupLostExactlyWhenKilled(s1, events[1]);
  }

  /** The pipe is given back when its second end is closed, and nobody uses it afterwards. */
  lemma {:induction false} FreedPipeIsUnused(run: seq<PipeState>, events: seq<Event>, n: nat)
    requires IsRun(run, events) && n < |run|
    ensures run[n].freed <==> !run[n].readOpen && !run[n].writeOpen
    ensures n < |events| && !events[n].Kill? ==> !run[n].freed
  {
    if n > 0 {
      FreedPipeIsUnused(run, events, n - 1);
    }
  }

  /** The counters wrap at a multiple of the buffer size, so slot numbers stay consistent. */
  lemma SlotOfWrapped(k: nat)
    ensures (k % WRAP) % PIPESIZE == k % PIPESIZE
  {
    var q := k / WRAP;
    assert k == q * WRAP + k % WRAP;
    assert WRAP == 8388608 * PIPESIZE;
    assert k == (q * 8388608) * PIPESIZE + k % WRAP;
    ModOfMultiple(q * 8388608, k % WRAP);
  }

  lemma NextWrapped(k: nat)
    ensures (k % WRAP + 1) % WRAP == (k + 1) % WRAP
  {
    assert k == k / WRAP * WRAP + k % WRAP;
  }

  lemma {:induction false} ModOfMultiple(a: nat, b: nat)
    ensures (a * PIPESIZE + b) % PIPESIZE == b % PIPESIZE
  {
  }

  /** Nearby positions occupy different slots. */
  lemma SlotsDiffer(i: nat, j: nat)
    requires i < j < i + PIPESIZE
    ensures i % PIPESIZE != j % PIPESIZE
  {
  }

  class Pipe {
    const data: array<byte>
    var nread: nat
    var nwrite: nat
    var readOpen: bool
    var writeOpen: bool
    var freed: bool
    var readers: set<Proc>
    var writers: set<Proc>
    ghost var accepted: seq<byte>
    ghost var delivered: seq<byte>

    ghost function Abs(): PipeState
      reads this
    {
      PipeState(accepted, delivered, readOpen, writeOpen, freed, readers, writers)
    }

    ghost predicate Valid()
      reads this, data
    {
      && data.Length == PIPESIZE
      && Fifo(Abs())
      && nread == |delivered| % WRAP
      && nwrite == |accepted| % WRAP
      && forall k :: |delivered| <= k < |accepted| ==> data[k % PIPESIZE] == accepted[k]
    }

    constructor ()
      ensures Valid() && fresh(data) && Abs() == EmptyPipe
    {
      data := new byte[PIPESIZE](_ => 0);
      nread, nwrite := 0, 0;
      readOpen, writeOpen, freed := true, true, false;
      readers, writers := {}, {};
      accepted, delivered := [], [];
    }

    /** `p->nwrite == p->nread + PIPESIZE` in 32-bit arithmetic */
    predicate IsFull()
      requires Valid()
      reads this, data
      ensures IsFull() <==> InFlight(Abs()) == PIPESIZE
    {
      nwrite == (nread + PIPESIZE) % WRAP
    }

    predicate IsEmpty()
      requires Valid()
      reads this, data
      ensures IsEmpty() <==> InFlight(Abs()) == 0
    {
      nread == nwrite
    }

    method Put(x: byte)
      requires Valid() && InFlight(Abs()) < PIPESIZE
      modifies this`nwrite, this`accepted, data
      ensures Valid() && accepted == old(accepted) + [x]
    {
      ghost var w := |accepted|;
      SlotOfWrapped(w);
      NextWrapped(w);
      forall k | |delivered| <= k < w ensures k % PIPESIZE != w % PIPESIZE {
        SlotsDiffer(k, w);
      }
      data[nwrite % PIPESIZE] := x;
      nwrite := (nwrite + 1) % WRAP;
      accepted := accepted + [x];
    }

    method Take() returns (x: byte)
      requires Valid() && InFlight(Abs()) > 0
      modifies this`nread, this`delivered
      ensures Valid()
      ensures x == accepted[|old(delivered)|] && delivered == old(delivered) + [x]
    {
      SlotOfWrapped(|delivered|);
      NextWrapped(|delivered|);
      x := data[nread % PIPESIZE];
      nread := (nread + 1) % WRAP;
      delivered := delivered + [x];
    }

    /** pipewrite from where it last acquired the lock, with `bytes` still to go. */
    method WriteSection(p: Proc, bytes: seq<byte>, killed: bool) returns (put: nat, outcome: Outcome)
      requires Valid()
      modifies this, data
      ensures Valid()
      // What goes in: the first bytes, all that fit and no more.
      ensures put <= |bytes| && accepted == old(accepted) + bytes[..put] && delivered == old(delivered)
      ensures |accepted| - |delivered| <= PIPESIZE && (put < |bytes| ==> |accepted| - |delivered| == PIPESIZE)
      // How it ends, and whom it wakes.
      ensures outcome.Returned? <==> put == |bytes|
      ensures outcome.Failed? <==> put < |bytes| && (!readOpen || killed)
      ensures readers == if outcome.Failed? then old(readers) else {}
      ensures writers == if outcome.Slept? then old(writers) + {p} else old(writers)
      ensures readOpen == old(readOpen) && writeOpen == old(writeOpen) && freed == old(freed)
      // So it is the step of the queue.
      ensures put == Room(old(Abs()), bytes) && outcome == WriteOutcome(old(Abs()), bytes, killed)
      ensures Abs() == AfterWrite(old(Abs()), p, bytes, killed)
    {
      put := Fill(bytes);
      if put < |bytes| {
        if !readOpen || killed {
          return put, Failed;
        }
        readers := {};
        writers := writers + {p};
        return put, Slept;
      }
      readers := {};
      return put, Returned;
    }

    /** The copying loop of pipewrite, up to the first byte that finds the pipe full. */
    method Fill(bytes: seq<byte>) returns (put: nat)
      requires Valid()
      modifies this`nwrite, this`accepted, data
      ensures Valid() && put == Room(old(Abs()), bytes) && accepted == old(accepted) + bytes[..put]
      ensures put < |bytes| ==> |accepted| - |delivered| == PIPESIZE
    {
      put := 0;
      while put < |bytes|
        invariant Valid() && put <= Room(old(Abs()), bytes)
        invariant accepted == old(accepted) + bytes[..put]
      {
        if IsFull() {
          break;
        }
        Put(bytes[put]);
        put := put + 1;
      }
    }

    /** piperead from where it last acquired the lock. */
    method ReadSection(p: Proc, n: int, killed: bool) returns (got: seq<byte>, outcome: Outcome)
      requires Valid()
      modifies this
      ensures Valid()
      // How it ends: it waits only while the pipe is empty and can still be written to.
      ensures outcome.Returned? <==> |old(accepted)| > |old(delivered)| || !writeOpen
      ensures outcome.Failed? <==> |old(accepted)| == |old(delivered)| && writeOpen && killed
      // What comes out: the oldest bytes, all that are asked for and there.
      ensures outcome.Returned? ==> |got| == Min(Max(0, n), |old(accepted)| - |old(delivered)|)
      ensures !outcome.Returned? ==> got == []
      ensures |old(delivered)| + |got| <= |accepted| && got == accepted[|old(delivered)|..|old(delivered)| + |got|]
      ensures accepted == old(accepted) && delivered == old(delivered) + got
      ensures writers == if outcome.Returned? then {} else old(writers)
      ensures readers == if outcome.Slept? then old(readers) + {p} else old(readers)
      ensures readOpen == old(readOpen) && writeOpen == old(writeOpen) && freed == old(freed)
      // So it is the step of the queue.
      ensures outcome == ReadOutcome(old(Abs()), killed)
      ensures got == if outcome.Returned? then ReadResult(old(Abs()), n) else []
      ensures Abs() == AfterRead(old(Abs()), p, n, killed)
    {
      got := [];
      if IsEmpty() && writeOpen {
        if killed {
          return got, Failed;
        }
        readers := readers + {p};
        return got, Slept;
      }
      got := Drain(n);
      writers := {};
      return got, Returned;
    }

    /** The copying loop of piperead: up to n bytes, as long as there are any. */
    method Drain(n: int) returns (got: seq<byte>)
      requires Valid()
      modifies this`nread, this`delivered
      ensures Valid() && got == ReadResult(old(Abs()), n) && delivered == old(delivered) + got
      ensures |got| == Min(Max(0, n), |accepted| - |old(delivered)|)
      ensures got == accepted[|old(delivered)|..|old(delivered)| + |got|]
    {
      got := [];
      ghost var d := |delivered|;
      while |got| < n
        invariant Valid() && |got| <= Max(0, n)
        invariant d + |got| <= |accepted| && got == accepted[d..d + |got|]
        invariant delivered == old(delivered) + got
      {
        if IsEmpty() {
          break;
        }
        var x := Take();
        got := got + [x];
      }
    }

    method Close(writable: bool)
      requires Valid()
      modifies this
      ensures Valid() && accepted == old(accepted) && delivered == old(delivered)
      ensures writeOpen == (old(writeOpen) && !writable) && readOpen == (old(readOpen) && writable)
      ensures freed <==> !readOpen && !writeOpen
      ensures readers == (if writable then {} else old(readers)) && writers == (if writable then old(writers) else {})
      ensures Abs() == AfterClose(old(Abs()), writable)
    {
      if writable {
        writeOpen := false;
        readers := {};
      } else {
        readOpen := false;
        writers := {};
      }
      freed := !readOpen && !writeOpen;
    }
  }
}
