/**
 The log and the buffer cache together, as a state machine.

 Any number of processes run file system operations: they read blocks through the
 cache, change them, log the changes and release them, while buffers are evicted,
 transactions commit and recovery runs, one atomic action at a time in any order.
 The machine may crash between any two actions.

 `mem` is kept for the proof: for each block, the contents last given to log_write and not
 lost in a crash.  The theorems do not mention it.  `LastLogged` computes the same from the
 actions of the run; the cache always gives these contents to readers, and what a crash
 leaves on disk are always those of the last header write.
 */
module LogProtocol {
  import opened Common
  import opened Blocks
  import opened LogFormat

  type Proc = nat

  /** A cached block.  `changed` says its holder has altered it since it was last logged. */
  datatype Buf = Buf(valid: bool, dirty: bool, changed: bool, data: Block, users: set<Proc>, holder: Option<Proc>)

  datatype Phase =
    | Running
    // commit()
    | WriteLog(i: nat) | WriteHead | Install(i: nat) | ClearHead | Finish
    // recover_from_log()
    | Boot | Reinstall(i: nat) | Reclear

  datatype State = State(
    disk: Disk,
    bufs: map<nat, Buf>,
    lh: seq<nat>,                   // in-memory log header
    ops: map<Proc, set<nat>>,       // outstanding operations, each with the blocks it has logged
    sleepers: set<Proc>,            // asleep in begin_op
    phase: Phase,
    mem: Disk)

  datatype Action =
    | Begin(p: Proc)
    | SleepInBegin(p: Proc)
    | End(p: Proc)
    | Get(p: Proc, b: nat, stale: Block)
    | Lock(p: Proc, b: nat)
    | Fill(p: Proc, b: nat)
    | Change(p: Proc, b: nat, x: Block)
    | LogWrite(p: Proc, b: nat)
    | Release(p: Proc, b: nat)
    | Evict(b: nat)
    | CommitStep
    | Crash
    | RecoverStep

  predicate Recovering(ph: Phase) {
    ph.Boot? || ph.Reinstall? || ph.Reclear?
  }

  predicate Committing(ph: Phase) {
    ph.WriteLog? || ph.WriteHead? || ph.Install? || ph.ClearHead? || ph.Finish?
  }

  /** begin_op's test that one more operation might not exhaust the log */
  predicate LogHasRoom(s: State) {
    |s.lh| + (|s.ops| + 1) * MAXOPBLOCKS <= LOGSIZE
  }

  predicate Holds(s: State, p: Proc, b: nat) {
    b in s.bufs && s.bufs[b].holder == Some(p)
  }

  predicate Unlocked(s: State, b: nat) {
    b in s.bufs ==> s.bufs[b].holder.None?
  }

  /** What bread gives the committing or recovering process. */
  function CacheRead(s: State, b: nat): Block
    requires b < |s.disk|
  {
    if b in s.bufs && s.bufs[b].valid then s.bufs[b].data else s.disk[b]
  }

  /** bwrite: the buffer and the disk block both hold x, and the buffer is clean. */
  function Bwrite(s: State, b: nat, x: Block): State
    requires b < |s.disk|
  {
    var buf := if b in s.bufs then s.bufs[b].(valid := true, dirty := false, data := x)
               else Buf(true, false, false, x, {}, None);
    s.(disk := s.disk[b := x], bufs := s.bufs[b := buf])
  }

  predicate HeaderFits(s: State, list: seq<nat>) {
    |list| <= LOGSIZE && forall k :: 0 <= k < |list| ==> list[k] < WRAP
  }

  function BwriteHeader(a: Area, s: State, list: seq<nat>): State
    requires Fits(a, s.disk) && HeaderFits(s, list)
  {
    Bwrite(s, a.start, SetHeader(CacheRead(s, a.start), list))
  }

  ghost function RecoveredDisk(a: Area, d: Disk): Disk
    requires Recoverable(a, d)
  {
    seq(|d|, b requires 0 <= b < |d| => if Home(a, d, b) then Recovered(a, d, b) else d[b])
  }

  /** install_trans copies the i-th log block home; the list is dropped after the last one. */
  function Installed(a: Area, s: State, i: nat, more: Phase, done: Phase): State
    requires i < |s.lh| && Slot(a, i) < |s.disk| && s.lh[i] < |s.disk|
  {
    var s1 := Bwrite(s, s.lh[i], CacheRead(s, Slot(a, i)));
    if i + 1 < |s.lh| then s1.(phase := more) else s1.(phase := done, lh := [])
  }

  predicate CommitEnabled(a: Area, s: State) {
    && Fits(a, s.disk)
    && match s.phase
       case WriteLog(i) => i < |s.lh| && Loggable(a, s.disk, s.lh) && Unlocked(s, s.lh[i])
       case WriteHead => Loggable(a, s.disk, s.lh) && HeaderFits(s, s.lh)
       case Install(i) => i < |s.lh| && Slot(a, i) < |s.disk| && s.lh[i] < |s.disk| && Unlocked(s, s.lh[i])
       case ClearHead => true
       case Finish => true
       case _ => false
  }

  function NextCommit(a: Area, s: State): State
    requires CommitEnabled(a, s)
  {
    match s.phase
    case WriteLog(i) =>
      var s1 := Bwrite(s, Slot(a, i), CacheRead(s, s.lh[i]));
      s1.(phase := if i + 1 < |s.lh| then WriteLog(i + 1) else WriteHead)
    case WriteHead =>
      BwriteHeader(a, s, s.lh).(phase := Install(0))
    case Install(i) =>
      Installed(a, s, i, Install(i + 1), ClearHead)
    case ClearHead =>
      BwriteHeader(a, s, []).(phase := Finish)
    case Finish =>
      s.(phase := Running, sleepers := {})
  }

  predicate RecoverEnabled(a: Area, s: State) {
    && Fits(a, s.disk)
    && match s.phase
       case Boot => Recoverable(a, s.disk)
       case Reinstall(i) => i < |s.lh| && Slot(a, i) < |s.disk| && s.lh[i] < |s.disk|
       case Reclear => true
       case _ => false
  }

  function NextRecover(a: Area, s: State): State
    requires RecoverEnabled(a, s)
  {
    match s.phase
    case Boot =>
      var list := Committed(a, s.disk);
      if list == [] then s.(phase := Reclear) else s.(lh := list, phase := Reinstall(0))
    case Reinstall(i) =>
      Installed(a, s, i, Reinstall(i + 1), Reclear)
    case Reclear =>
      BwriteHeader(a, s, []).(phase := Running)
  }

  /**
   When an action can happen.  Processes follow the cache's and log's calling rules: a
   buffer is used by its holder only, a change is made inside an operation and logged
   before the buffer is released or the operation ends, an operation logs at most
   MAXOPBLOCKS different blocks, and a committed transaction fits in the log area.
   */
  predicate Enabled(a: Area, s: State, e: Action) {
    match e
    case Begin(p) => s.phase.Running? && p !in s.ops && p !in s.sleepers && LogHasRoom(s)
    case SleepInBegin(p) =>
      p !in s.ops && p !in s.sleepers && (Committing(s.phase) || (s.phase.Running? && !LogHasRoom(s)))
    case End(p) =>
      s.phase.Running? && p in s.ops
      && forall b :: b in s.bufs && s.bufs[b].changed ==> s.bufs[b].holder != Some(p)
    case Get(p, b, _) =>
      !Recovering(s.phase) && Home(a, s.disk, b) && (b in s.bufs ==> p !in s.bufs[b].users)
    case Lock(p, b) => !Recovering(s.phase) && b in s.bufs && p in s.bufs[b].users && s.bufs[b].holder.None?
    case Fill(p, b) => !Recovering(s.phase) && Home(a, s.disk, b) && Holds(s, p, b) && !s.bufs[b].valid
    case Change(p, b, _) => Home(a, s.disk, b) && Holds(s, p, b) && s.bufs[b].valid && p in s.ops
    case LogWrite(p, b) =>
      Home(a, s.disk, b) && |s.mem| == |s.disk| && Holds(s, p, b) && s.bufs[b].valid
      && p in s.ops && |s.ops[p] + {b}| <= MAXOPBLOCKS
    case Release(p, b) => Holds(s, p, b) && !s.bufs[b].changed
    case Evict(b) => b in s.bufs && s.bufs[b].users == {} && !s.bufs[b].dirty
    case CommitStep => CommitEnabled(a, s)
    case Crash => Recoverable(a, s.disk)
    case RecoverStep => RecoverEnabled(a, s)
  }

  ghost function Next(a: Area, s: State, e: Action): State
    requires Enabled(a, s, e)
  {
    match e
    case Begin(p) => s.(ops := s.ops[p := {}])
    case SleepInBegin(p) => s.(sleepers := s.sleepers + {p})
    case End(p) =>
      var ops := s.ops - {p};
      if ops != map[] then s.(ops := ops, sleepers := {})
      else s.(ops := ops, phase := if |s.lh| > 0 then WriteLog(0) else Finish)
    case Get(p, b, stale) =>
      var buf := if b in s.bufs then s.bufs[b].(users := s.bufs[b].users + {p})
                 else Buf(false, false, false, stale, {p}, None);
      s.(bufs := s.bufs[b := buf])
    case Lock(p, b) => s.(bufs := s.bufs[b := s.bufs[b].(holder := Some(p))])
    case Fill(p, b) => s.(bufs := s.bufs[b := s.bufs[b].(valid := true, data := s.disk[b])])
    case Change(p, b, x) => s.(bufs := s.bufs[b := s.bufs[b].(data := x, changed := true)])
    case LogWrite(p, b) =>
      s.(bufs := s.bufs[b := s.bufs[b].(dirty := true, changed := false)],
         lh := if b in s.lh then s.lh else s.lh + [b],
         ops := s.ops[p := s.ops[p] + {b}],
         mem := s.mem[b := s.bufs[b].data])
    case Release(p, b) =>
      s.(bufs := s.bufs[b := s.bufs[b].(holder := None, users := s.bufs[b].users - {p})])
    case Evict(b) => s.(bufs := s.bufs - {b})
    case CommitStep => NextCommit(a, s)
    case Crash => State(s.disk, map[], [], map[], {}, Boot, RecoveredDisk(a, s.disk))
    case RecoverStep => NextRecover(a, s)
  }

  /** A system that boots from any disk recovery can work on. */
  ghost predicate Init(a: Area, s: State) {
    && Recoverable(a, s.disk)
    && s == State(s.disk, map[], [], map[], {}, Boot, RecoveredDisk(a, s.disk))
  }

  ghost predicate IsRun(a: Area, run: seq<State>, acts: seq<Action>) {
    && |run| == |acts| + 1 && Init(a, run[0])
    && forall i :: 0 <= i < |acts| ==> StepAt(a, run, acts, i)
  }

  ghost predicate StepAt(a: Area, run: seq<State>, acts: seq<Action>, i: nat)
    requires i < |acts| && |run| == |acts| + 1
  {
    Enabled(a, run[i], acts[i]) && run[i + 1] == Next(a, run[i], acts[i])
  }

  /** A disk with an empty log header can be booted from. */
  lemma {:induction false} CleanDiskBoots(a: Area, disk: Disk) returns (s: State)
    requires Fits(a, disk) && |disk| < WRAP && Word(disk[a.start], 0) == 0
    ensures Init(a, s) && s.disk == disk && s.mem == disk && IsRun(a, [s], [])
  {
    s := State(disk, map[], [], map[], {}, Boot, RecoveredDisk(a, disk));
    forall b: nat | Home(a, disk, b) ensures Recovered(a, disk, b) == disk[b] {
      RecoveredNotInLog(a, disk, b);
    }
    assert s.mem == disk;
  }

  /** The one action that makes a transaction durable. */
  predicate IsCommitPoint(s: State, e: Action) {
    e.CommitStep? && s.phase.WriteHead?
  }

  // ------------------------------------------------------------------
  // The invariant.

  /** Blocks whose latest contents are not at home on disk yet. */
  function Pending(a: Area, s: State): seq<nat>
    requires Recoverable(a, s.disk)
  {
    match s.phase
    case Running => s.lh
    case WriteLog(_) => s.lh
    case WriteHead => s.lh
    case Install(i) => if i <= |s.lh| then s.lh[i..] else []
    case ClearHead => []
    case Finish => []
    case Boot => Committed(a, s.disk)
    case Reinstall(i) => if i <= |s.lh| then s.lh[i..] else []
    case Reclear => []
  }

  predicate BufOk(s: State, b: nat, pending: bool, buf: Buf)
    requires b < |s.mem|
  {
    && (buf.dirty ==> buf.valid && pending)
    && (buf.changed ==> buf.valid && buf.holder.Some? && buf.holder.value in s.ops)
    && (buf.valid && !buf.changed ==> buf.data == s.mem[b])
    && (buf.holder.Some? ==> buf.holder.value in buf.users)
  }

  /** A home block: on disk unless pending, pinned in the cache if pending, cached correctly. */
  predicate HomeOk(s: State, b: nat, pending: bool)
    requires b < |s.disk| == |s.mem|
  {
    && (!pending ==> s.disk[b] == s.mem[b])
    && (pending && !Recovering(s.phase) ==> b in s.bufs && s.bufs[b].dirty)
    && (b in s.bufs ==> BufOk(s, b, pending, s.bufs[b]))
  }

  predicate LogBufOk(s: State, b: nat)
    requires b < |s.disk|
  {
    b in s.bufs ==> s.bufs[b] == Buf(true, false, false, s.disk[b], {}, None)
  }

  predicate BlockOk(a: Area, s: State, pending: seq<nat>, b: nat)
    requires b < |s.disk| == |s.mem|
  {
    if InLog(a, b) then LogBufOk(s, b) else HomeOk(s, b, b in pending)
  }

  /** The first n blocks of the list have been copied to the log. */
  predicate Logged(a: Area, s: State, n: nat) {
    && n <= |s.lh| && Loggable(a, s.disk, s.lh) && |s.mem| == |s.disk|
    && forall k :: 0 <= k < n ==> Slot(a, k) < |s.disk| && s.lh[k] < |s.mem| && s.disk[Slot(a, k)] == s.mem[s.lh[k]]
  }

  ghost predicate PhaseOk(a: Area, s: State)
    requires Recoverable(a, s.disk) && |s.mem| == |s.disk|
  {
    match s.phase
    case Running => Committed(a, s.disk) == [] && (s.ops == map[] ==> s.lh == [])
    case WriteLog(i) => Committed(a, s.disk) == [] && i < |s.lh| && (i > 0 ==> Logged(a, s, i))
    case WriteHead => Committed(a, s.disk) == [] && |s.lh| > 0 && Logged(a, s, |s.lh|)
    case Install(i) => i < |s.lh| && Committed(a, s.disk) == s.lh && RecoversTo(a, s.disk, s.mem)
    case ClearHead => s.lh == [] && RecoversTo(a, s.disk, s.mem)
    case Finish => s.lh == [] && Committed(a, s.disk) == []
    case Boot => s.lh == [] && RecoversTo(a, s.disk, s.mem)
    case Reinstall(i) => i < |s.lh| && Committed(a, s.disk) == s.lh && RecoversTo(a, s.disk, s.mem)
    case Reclear => s.lh == [] && RecoversTo(a, s.disk, s.mem)
  }

  ghost predicate Shape(a: Area, s: State) {
    && Recoverable(a, s.disk) && |s.mem| == |s.disk|
    && Distinct(s.lh) && |s.lh| <= LOGSIZE
    && (forall k :: 0 <= k < |s.lh| ==> Home(a, s.disk, s.lh[k]))
    && (s.ops != map[] ==> s.phase.Running?)
    && PhaseOk(a, s)
  }

  ghost predicate BlocksOk(a: Area, s: State)
    requires Recoverable(a, s.disk) && |s.mem| == |s.disk|
  {
    var pending := Pending(a, s);
    forall b: nat :: b < |s.disk| ==> BlockOk(a, s, pending, b)
  }

  // Log space: what outstanding operations may still add fits beside what is logged.

  ghost function Unused(ops: map<Proc, set<nat>>): int {
    if ops == map[] then 0
    else var p :| p in ops; MAXOPBLOCKS - |ops[p]| + Unused(ops - {p})
  }

  lemma {:induction false} UnusedSplit(ops: map<Proc, set<nat>>, p: Proc)
    requires p in ops
    ensures Unused(ops) == MAXOPBLOCKS - |ops[p]| + Unused(ops - {p})
    decreases |ops|
  {
    var q :| q in ops && Unused(ops) == MAXOPBLOCKS - |ops[q]| + Unused(ops - {q});
    if q != p {
      SmallerMap(ops, q);
      SmallerMap(ops, p);
      UnusedSplit(ops - {q}, p);
      UnusedSplit(ops - {p}, q);
      assert ops - {q} - {p} == ops - {p} - {q};
    }
  }

  lemma {:induction false} UnusedBounds(ops: map<Proc, set<nat>>)
    ensures Unused(ops) <= MAXOPBLOCKS * |ops|
    ensures (forall p :: p in ops ==> |ops[p]| <= MAXOPBLOCKS) ==> Unused(ops) >= 0
    decreases |ops|
  {
    if ops != map[] {
      var q :| q in ops && Unused(ops) == MAXOPBLOCKS - |ops[q]| + Unused(ops - {q});
      SmallerMap(ops, q);
      UnusedBounds(ops - {q});
    }
  }

  ghost predicate Reserved(s: State) {
    && |s.lh| + Unused(s.ops) <= LOGSIZE
    && forall p :: p in s.ops ==> OpOk(s.lh, s.ops[p])
  }

  ghost predicate OpOk(lh: seq<nat>, logged: set<nat>) {
    |logged| <= MAXOPBLOCKS && forall b :: b in logged ==> b in lh
  }

  /** A process sleeps in begin_op only while it could not begin. */
  predicate SleepersOk(s: State) {
    s.sleepers != {} ==> Committing(s.phase) || (s.phase.Running? && !LogHasRoom(s))
  }

  ghost predicate Inv(a: Area, s: State) {
    Shape(a, s) && BlocksOk(a, s) && Reserved(s) && SleepersOk(s)
  }

  /** The states that meet the invariant. */
  ghost function Safe(a: Area): iset<State> {
    iset s | Inv(a, s)
  }

  // ------------------------------------------------------------------
  // Actions on one buffer.

  /** Only the cached copy of block b differs. */
  ghost predicate OnlyBuf(s: State, s': State, b: nat) {
    && s' == s.(bufs := s'.bufs)
    && forall c :: c != b ==> (c in s.bufs <==> c in s'.bufs) && (c in s.bufs ==> s'.bufs[c] == s.bufs[c])
  }

  lemma {:induction false} OneBufferKeepsInv(a: Area, s: State, s': State, b: nat)
    requires Inv(a, s) && OnlyBuf(s, s', b)
    requires b < |s.disk| ==> BlockOk(a, s', Pending(a, s), b)
    ensures Inv(a, s')
  {
    assert PhaseOk(a, s');
    forall c: nat | c < |s'.disk| ensures BlockOk(a, s', Pending(a, s'), c) {
      assert BlockOk(a, s, Pending(a, s), c);
    }
  }

  lemma {:induction false} BufferActionKeepsInv(a: Area, s: State, e: Action)
    requires Inv(a, s) && Enabled(a, s, e)
    requires e.Get? || e.Lock? || e.Fill? || e.Change? || e.Release? || e.Evict?
    ensures Inv(a, Next(a, s, e))
  {
    var s' := Next(a, s, e);
    if e.b < |s.disk| {
      assert BlockOk(a, s, Pending(a, s), e.b);
    }
    OneBufferKeepsInv(a, s, s', e.b);
  }

  // ------------------------------------------------------------------
  // Operations.

  lemma {:induction false} LogWriteReserves(a: Area, s: State, p: Proc, b: nat)
    requires Inv(a, s) && Enabled(a, s, LogWrite(p, b))
    ensures Reserved(Next(a, s, LogWrite(p, b)))
  {
    OneMoreLogged(s.lh, s.ops, p, b);
  }

  lemma {:induction false} OneMoreLogged(lh: seq<nat>, ops: map<Proc, set<nat>>, p: Proc, b: nat)
    requires p in ops && |ops[p] + {b}| <= MAXOPBLOCKS && forall q :: q in ops ==> OpOk(lh, ops[q])
    ensures var lh', ops' := if b in lh then lh else lh + [b], ops[p := ops[p] + {b}];
            && |lh'| + Unused(ops') <= |lh| + Unused(ops)
            && forall q :: q in ops' ==> OpOk(lh', ops'[q])
  {
    var lh', ops' := if b in lh then lh else lh + [b], ops[p := ops[p] + {b}];
    UnusedSplit(ops, p);
    UnusedSplit(ops', p);
    assert ops' - {p} == ops - {p};
    assert OpOk(lh, ops[p]);
    if b in ops[p] {
      assert ops[p] + {b} == ops[p];
    }
    forall q | q in ops' ensures OpOk(lh', ops'[q]) {
      assert OpOk(lh, ops[q]);
    }
  }

  lemma {:induction false} LogWriteFits(a: Area, s: State, p: Proc, b: nat)
    requires Inv(a, s) && Enabled(a, s, LogWrite(p, b))
    ensures Reserved(Next(a, s, LogWrite(p, b))) && |Next(a, s, LogWrite(p, b)).lh| <= LOGSIZE
  {
    var s' := Next(a, s, LogWrite(p, b));
    LogWriteReserves(a, s, p, b);
    UnusedBounds(s'.ops);
    forall q | q in s'.ops ensures |s'.ops[q]| <= MAXOPBLOCKS {
      assert OpOk(s'.lh, s'.ops[q]);
    }
  }

  lemma {:induction false} LogWriteKeepsInv(a: Area, s: State, p: Proc, b: nat)
    requires Inv(a, s) && Enabled(a, s, LogWrite(p, b))
    ensures Inv(a, Next(a, s, LogWrite(p, b)))
  {
    var s' := Next(a, s, LogWrite(p, b));
    LogWriteFits(a, s, p, b);
    LogWriteKeepsShape(a, s, p, b);
    forall c: nat | c < |s'.disk| ensures BlockOk(a, s', Pending(a, s'), c) {
      assert BlockOk(a, s, Pending(a, s), c);
    }
  }

  lemma {:induction false} LogWriteKeepsShape(a: Area, s: State, p: Proc, b: nat)
    requires Inv(a, s) && Enabled(a, s, LogWrite(p, b))
    ensures Shape(a, Next(a, s, LogWrite(p, b)))
  {
    LogWriteFits(a, s, p, b);
  }

  lemma {:induction false} BeginKeepsInv(a: Area, s: State, p: Proc)
    requires Inv(a, s) && Enabled(a, s, Begin(p))
    ensures Inv(a, Next(a, s, Begin(p)))
  {
    var s' := Next(a, s, Begin(p));
    OneMoreOp(s.lh, s.ops, p);
    assert Shape(a, s');
    forall c: nat | c < |s'.disk| ensures BlockOk(a, s', Pending(a, s'), c) {
      assert BlockOk(a, s, Pending(a, s), c);
    }
  }

  lemma {:induction false} OneMoreOp(lh: seq<nat>, ops: map<Proc, set<nat>>, p: Proc)
    requires p !in ops && |lh| + (|ops| + 1) * MAXOPBLOCKS <= LOGSIZE && forall q :: q in ops ==> OpOk(lh, ops[q])
    ensures var ops' := ops[p := {}]; |lh| + Unused(ops') <= LOGSIZE && forall q :: q in ops' ==> OpOk(lh, ops'[q])
  {
    var ops' := ops[p := {}];
    UnusedSplit(ops', p);
    assert ops' - {p} == ops;
    UnusedBounds(ops);
    forall q | q in ops' ensures OpOk(lh, ops'[q]) {
      assert q != p ==> OpOk(lh, ops[q]);
    }
  }

  lemma {:induction false} EndKeepsInv(a: Area, s: State, p: Proc)
    requires Inv(a, s) && Enabled(a, s, End(p))
    ensures Inv(a, Next(a, s, End(p)))
  {
    var s' := Next(a, s, End(p));
    UnusedSplit(s.ops, p);
    assert OpOk(s.lh, s.ops[p]);
    forall q | q in s'.ops ensures OpOk(s'.lh, s'.ops[q]) {
      assert OpOk(s.lh, s.ops[q]);
    }
    assert Shape(a, s');
    forall c: nat | c < |s'.disk| ensures BlockOk(a, s', Pending(a, s'), c) {
      assert BlockOk(a, s, Pending(a, s), c);
    }
  }

  lemma {:induction false} SleepKeepsInv(a: Area, s: State, p: Proc)
    requires Inv(a, s) && Enabled(a, s, SleepInBegin(p))
    ensures Inv(a, Next(a, s, SleepInBegin(p)))
  {
    var s' := Next(a, s, SleepInBegin(p));
    assert s.ops == map[] ==> Committing(s.phase) by {
      assert s.ops == map[] && s.phase.Running? ==> |s.lh| == 0 && |s.ops| == 0;
    }
    assert PhaseOk(a, s');
    forall c: nat | c < |s'.disk| ensures BlockOk(a, s', Pending(a, s'), c) {
      assert BlockOk(a, s, Pending(a, s), c);
    }
  }

  // ------------------------------------------------------------------
  // Commit.

  /** A pending block is read by commit exactly as it was last logged. */
  lemma PendingReadsMem(a: Area, s: State, b: nat)
    requires s in Safe(a) && b < |s.disk| && !InLog(a, b) && b in Pending(a, s)
    requires s.ops == map[] && !Recovering(s.phase)
    ensures CacheRead(s, b) == s.mem[b]
  {
    assert BlockOk(a, s, Pending(a, s), b);
  }

  lemma LogBlockReadsDisk(a: Area, s: State, b: nat)
    requires s in Safe(a) && b < |s.disk| && InLog(a, b)
    ensures CacheRead(s, b) == s.disk[b]
  {
    assert BlockOk(a, s, Pending(a, s), b);
  }

  lemma {:induction false} WriteLogKeepsInv(a: Area, s: State)
    requires s in Safe(a) && s.phase.WriteLog? && CommitEnabled(a, s)
    ensures NextCommit(a, s) in Safe(a)
  {
    var i, s' := s.phase.i, NextCommit(a, s);
    var x := CacheRead(s, s.lh[i]);
    PendingReadsMem(a, s, s.lh[i]);
    EmptyLogRecovers(a, s.disk, s.disk);
    LogDataInvisible(a, s.disk, i, x, s.disk);
    assert Logged(a, s', i + 1);
    assert Shape(a, s');
    forall c: nat | c < |s'.disk| ensures BlockOk(a, s', Pending(a, s'), c) {
      assert BlockOk(a, s, Pending(a, s), c);
    }
    assert Inv(a, s');
  }

  lemma {:induction false} WriteHeadShape(a: Area, s: State)
    requires s in Safe(a) && s.phase.WriteHead? && CommitEnabled(a, s)
    ensures Shape(a, NextCommit(a, s)) && RecoversTo(a, NextCommit(a, s).disk, s.mem)
    ensures NextCommit(a, s).disk == WithHeader(a, s.disk, s.lh)
  {
    LogBlockReadsDisk(a, s, a.start);
    forall b: nat | Home(a, s.disk, b) && b !in s.lh ensures s.disk[b] == s.mem[b] {
      assert BlockOk(a, s, Pending(a, s), b);
    }
    HeaderCommits(a, s.disk, s.lh, s.mem);
    HeaderWritten(a, s.disk, s.lh);
  }

  lemma {:induction false} WriteHeadKeepsInv(a: Area, s: State)
    requires s in Safe(a) && s.phase.WriteHead? && CommitEnabled(a, s)
    ensures NextCommit(a, s) in Safe(a)
  {
    var s' := NextCommit(a, s);
    WriteHeadShape(a, s);
    var pending, pending' := Pending(a, s), Pending(a, s');
    assert pending' == pending;
    forall c: nat | c < |s'.disk| ensures BlockOk(a, s', pending', c) {
      assert BlockOk(a, s, pending, c);
    }
    assert Inv(a, s');
  }

  lemma {:induction false} InstallShape(a: Area, s: State, i: nat, more: Phase, done: Phase)
    requires s in Safe(a) && i < |s.lh|
    requires || (s.phase == Install(i) && more == Install(i + 1) && done == ClearHead)
             || (s.phase == Reinstall(i) && more == Reinstall(i + 1) && done == Reclear)
    ensures Slot(a, i) < |s.disk| && s.lh[i] < |s.disk|
    ensures var s' := Installed(a, s, i, more, done);
            && Shape(a, s') && s'.disk == s.disk[s.lh[i] := s.mem[s.lh[i]]]
            && CacheRead(s, Slot(a, i)) == s.mem[s.lh[i]]
  {
    LogBlockReadsDisk(a, s, Slot(a, i));
    InstallInvisible(a, s.disk, i, s.mem);
    RecoveredInLog(a, s.disk, i);
    assert Home(a, s.disk, s.lh[i]);
  }

  /** After the i-th block is copied home, the blocks from i + 1 on are pending. */
  lemma {:induction false} InstallKeepsInv(a: Area, s: State, i: nat, more: Phase, done: Phase)
    requires s in Safe(a) && i < |s.lh| && Slot(a, i) < |s.disk| && s.lh[i] < |s.disk|
    requires || (s.phase == Install(i) && more == Install(i + 1) && done == ClearHead)
             || (s.phase == Reinstall(i) && more == Reinstall(i + 1) && done == Reclear)
    ensures Installed(a, s, i, more, done) in Safe(a)
  {
    var s', h := Installed(a, s, i, more, done), s.lh[i];
    InstallShape(a, s, i, more, done);
    var rest := s.lh[i + 1..];
    PendingRest(a, s, i, more, done);
    forall c: nat | c < |s'.disk| ensures BlockOk(a, s', rest, c) {
      assert BlockOk(a, s, [h] + rest, c);
      InstalledBlock(a, s, s', [h] + rest, rest, h, c);
    }
    assert Inv(a, s');
  }

  lemma {:induction false} PendingRest(a: Area, s: State, i: nat, more: Phase, done: Phase)
    requires Recoverable(a, s.disk) && Distinct(s.lh) && i < |s.lh| && Slot(a, i) < |s.disk| && s.lh[i] < |s.disk|
    requires || (s.phase == Install(i) && more == Install(i + 1) && done == ClearHead)
             || (s.phase == Reinstall(i) && more == Reinstall(i + 1) && done == Reclear)
    requires Recoverable(a, Installed(a, s, i, more, done).disk)
    ensures Pending(a, s) == [s.lh[i]] + s.lh[i + 1..] && s.lh[i] !in s.lh[i + 1..]
    ensures Pending(a, Installed(a, s, i, more, done)) == s.lh[i + 1..]
  {
  }

  lemma {:induction false} InstalledBlock(a: Area, s: State, s': State, pending: seq<nat>, pending': seq<nat>, h: nat, c: nat)
    requires |s.disk| == |s.mem| && h < |s.disk| && c < |s.disk| && pending == [h] + pending' && !InLog(a, h)
    requires s'.disk == s.disk[h := s.mem[h]] && s'.mem == s.mem && s'.bufs == Bwrite(s, h, s.mem[h]).bufs
    requires s'.ops == s.ops && Recovering(s'.phase) == Recovering(s.phase) && h !in pending'
    requires BlockOk(a, s, pending, c)
    ensures BlockOk(a, s', pending', c)
  {
    assert c in pending <==> c == h || c in pending';
  }

  lemma {:induction false} ClearKeepsInv(a: Area, s: State, s': State)
    requires s in Safe(a) && Fits(a, s.disk)
    requires || (s.phase.ClearHead? && s' == BwriteHeader(a, s, []).(phase := Finish))
             || (s.phase.Reclear? && s' == BwriteHeader(a, s, []).(phase := Running))
    ensures s' in Safe(a) && RecoversTo(a, s'.disk, s.mem)
  {
    var list := Committed(a, s.disk);
    LogBlockReadsDisk(a, s, a.start);
    forall k | 0 <= k < |list| ensures s.disk[list[k]] == s.disk[Slot(a, k)] {
      RecoveredInLog(a, s.disk, k);
      assert BlockOk(a, s, Pending(a, s), list[k]);
    }
    ClearInvisible(a, s.disk, s.mem);
    assert Shape(a, s');
    forall c: nat | c < |s'.disk| ensures BlockOk(a, s', Pending(a, s'), c) {
      assert BlockOk(a, s, Pending(a, s), c);
    }
    assert Inv(a, s');
  }

  lemma {:induction false} FinishKeepsInv(a: Area, s: State)
    requires s in Safe(a) && s.phase.Finish? && CommitEnabled(a, s)
    ensures NextCommit(a, s) in Safe(a)
  {
    var s' := NextCommit(a, s);
    assert Shape(a, s');
    forall c: nat | c < |s'.disk| ensures BlockOk(a, s', Pending(a, s'), c) {
      assert BlockOk(a, s, Pending(a, s), c);
    }
    assert Inv(a, s');
  }

  lemma {:induction false} BootStateOk(a: Area, s: State)
    requires Init(a, s)
    ensures Inv(a, s) && RecoversTo(a, s.disk, s.mem)
  {
    forall c: nat | c < |s.disk| ensures BlockOk(a, s, Pending(a, s), c) {
      if Home(a, s.disk, c) && c !in Committed(a, s.disk) {
        RecoveredNotInLog(a, s.disk, c);
      }
    }
  }

  lemma {:induction false} BootKeepsInv(a: Area, s: State)
    requires s in Safe(a) && s.phase.Boot? && RecoverEnabled(a, s)
    ensures NextRecover(a, s) in Safe(a)
  {
    var s', list := NextRecover(a, s), Committed(a, s.disk);
    assert list[0..] == list;
    assert Shape(a, s');
    forall c: nat | c < |s'.disk| ensures BlockOk(a, s', Pending(a, s'), c) {
      assert BlockOk(a, s, Pending(a, s), c);
    }
    assert Inv(a, s');
  }

  lemma {:induction false} ActionKeepsInv(a: Area, s: State, e: Action)
    requires Inv(a, s) && Enabled(a, s, e)
    ensures Inv(a, Next(a, s, e))
  {
    match e
    case Begin(p) => BeginKeepsInv(a, s, p);
    case SleepInBegin(p) => SleepKeepsInv(a, s, p);
    case End(p) => EndKeepsInv(a, s, p);
    case LogWrite(p, b) => LogWriteKeepsInv(a, s, p, b);
    case Crash => BootStateOk(a, Next(a, s, e));
    case CommitStep => CommitKeepsInv(a, s);
    case RecoverStep => RecoverKeepsInv(a, s);
    case _ => BufferActionKeepsInv(a, s, e);
  }

  lemma {:induction false} CommitKeepsInv(a: Area, s: State)
    requires s in Safe(a) && CommitEnabled(a, s)
    ensures NextCommit(a, s) in Safe(a)
  {
    match s.phase
    case WriteLog(_) => WriteLogKeepsInv(a, s);
    case WriteHead => WriteHeadKeepsInv(a, s);
    case Install(_) => InstallStepKeepsInv(a, s);
    case ClearHead => ClearStepKeepsInv(a, s);
    case Finish => FinishKeepsInv(a, s);
  }

  lemma {:induction false} InstallStepKeepsInv(a: Area, s: State)
    requires s in Safe(a) && s.phase.Install? && CommitEnabled(a, s)
    ensures NextCommit(a, s) in Safe(a)
  {
    InstallKeepsInv(a, s, s.phase.i, Install(s.phase.i + 1), ClearHead);
  }

  lemma {:induction false} ClearStepKeepsInv(a: Area, s: State)
    requires s in Safe(a) && s.phase.ClearHead? && CommitEnabled(a, s)
    ensures NextCommit(a, s) in Safe(a)
  {
    ClearKeepsInv(a, s, NextCommit(a, s));
  }

  lemma {:induction false} RecoverKeepsInv(a: Area, s: State)
    requires s in Safe(a) && RecoverEnabled(a, s)
    ensures NextRecover(a, s) in Safe(a)
  {
    match s.phase
    case Boot => BootKeepsInv(a, s);
    case Reinstall(_) => ReinstallStepKeepsInv(a, s);
    case Reclear => ReclearStepKeepsInv(a, s);
  }

  lemma {:induction false} ReinstallStepKeepsInv(a: Area, s: State)
    requires s in Safe(a) && s.phase.Reinstall? && RecoverEnabled(a, s)
    ensures NextRecover(a, s) in Safe(a)
  {
    InstallKeepsInv(a, s, s.phase.i, Reinstall(s.phase.i + 1), Reclear);
  }

  lemma {:induction false} ReclearStepKeepsInv(a: Area, s: State)
    requires s in Safe(a) && s.phase.Reclear? && RecoverEnabled(a, s)
    ensures NextRecover(a, s) in Safe(a)
  {
    ClearKeepsInv(a, s, NextRecover(a, s));
  }

  // ------------------------------------------------------------------
  // Theorems about runs.

  lemma {:induction false} RunKeepsInv(a: Area, run: seq<State>, acts: seq<Action>, n: nat)
    requires IsRun(a, run, acts) && n < |run|
    ensures Inv(a, run[n])
  {
    if n == 0 {
      BootStateOk(a, run[0]);
    } else {
      RunKeepsInv(a, run, acts, n - 1);
      assert StepAt(a, run, acts, n - 1);
      ActionKeepsInv(a, run[n - 1], acts[n - 1]);
    }
  }

  /** Log space never runs out; a sleeper in begin_op has reason to, and somebody to wake it. */
  lemma {:induction false} ReservationHolds(a: Area, run: seq<State>, acts: seq<Action>, n: nat)
    requires IsRun(a, run, acts) && n < |run|
    ensures |run[n].lh| + Unused(run[n].ops) <= LOGSIZE && Unused(run[n].ops) >= 0
    ensures run[n].sleepers != {} ==> Committing(run[n].phase) || !LogHasRoom(run[n])
    ensures run[n].sleepers != {} ==> Committing(run[n].phase) || run[n].ops != map[]
  {
    RunKeepsInv(a, run, acts, n);
    forall p | p in run[n].ops ensures |run[n].ops[p]| <= MAXOPBLOCKS {
      assert OpOk(run[n].lh, run[n].ops[p]);
    }
    UnusedBounds(run[n].ops);
  }

  /**
   Commit and recovery are never stuck: the next step is possible, or a process that holds
   the block it needs can release it.
   */
  lemma {:induction false} CommitGoesOn(a: Area, s: State) returns (e: Action)
    requires Inv(a, s) && (Committing(s.phase) || Recovering(s.phase)) && |s.lh| < a.size
    ensures Enabled(a, s, e) && (e.CommitStep? || e.RecoverStep? || e.Release?)
  {
    if Recovering(s.phase) {
      e := RecoverStep;
      if s.phase.Reinstall? {
        assert Home(a, s.disk, s.lh[s.phase.i]);
      }
    } else {
      e := CommitStep;
      if s.phase.WriteLog? || s.phase.Install? {
        var b := s.lh[s.phase.i];
        assert Home(a, s.disk, b);
        assert BlockOk(a, s, Pending(a, s), b);
        if b in s.bufs && s.bufs[b].holder.Some? {
          e := Release(s.bufs[b].holder.value, b);
        }
      }
    }
  }

  lemma RecoveryIsUnique(a: Area, d: Disk, home: Disk, home': Disk, d': Disk)
    requires RecoversTo(a, d, home) && RecoversTo(a, d, home') && RecoversTo(a, d', home') && |d'| == |d|
    ensures RecoversTo(a, d', home)
  {
    forall b: nat | Home(a, d', b) ensures Recovered(a, d', b) == home[b] {
      assert Home(a, d, b);
    }
  }

  /** Of all actions only the header write changes what a crash would leave behind. */
  lemma {:induction false} OnlyCommitPointsAreDurable(a: Area, s: State, e: Action, home: Disk)
    requires s in Safe(a) && Enabled(a, s, e) && RecoversTo(a, s.disk, home)
    ensures var s' := Next(a, s, e);
            RecoversTo(a, s'.disk, if IsCommitPoint(s, e) then s.mem else home)
  {
    var s' := Next(a, s, e);
    if e.CommitStep? {
      CommitIsDurable(a, s, home);
    } else if e.RecoverStep? {
      RecoveryIsInvisible(a, s, home);
    } else {
      assert s'.disk == s.disk;
    }
  }

  lemma {:induction false} CommitIsDurable(a: Area, s: State, home: Disk)
    requires Inv(a, s) && CommitEnabled(a, s) && RecoversTo(a, s.disk, home)
    ensures RecoversTo(a, NextCommit(a, s).disk, if s.phase.WriteHead? then s.mem else home)
  {
    var s' := NextCommit(a, s);
    if s.phase.WriteLog? {
      LogDataInvisible(a, s.disk, s.phase.i, CacheRead(s, s.lh[s.phase.i]), home);
    } else if s.phase.WriteHead? {
      WriteHeadShape(a, s);
    } else if s.phase.Install? {
      InstallShape(a, s, s.phase.i, Install(s.phase.i + 1), ClearHead);
      RecoveryIsUnique(a, s.disk, home, s.mem, s'.disk);
    } else if s.phase.ClearHead? {
      ClearKeepsInv(a, s, s');
      RecoveryIsUnique(a, s.disk, home, s.mem, s'.disk);
    }
  }

  lemma {:induction false} RecoveryIsInvisible(a: Area, s: State, home: Disk)
    requires Inv(a, s) && RecoverEnabled(a, s) && RecoversTo(a, s.disk, home)
    ensures RecoversTo(a, NextRecover(a, s).disk, home)
  {
    var s' := NextRecover(a, s);
    if s.phase.Reinstall? {
      InstallShape(a, s, s.phase.i, Reinstall(s.phase.i + 1), Reclear);
      RecoveryIsUnique(a, s.disk, home, s.mem, s'.disk);
    } else if s.phase.Reclear? {
      ClearKeepsInv(a, s, s');
      RecoveryIsUnique(a, s.disk, home, s.mem, s'.disk);
    }
  }

  lemma {:induction false} DurableBetweenCommitPoints(a: Area, run: seq<State>, acts: seq<Action>, i: nat, j: nat, home: Disk)
    requires IsRun(a, run, acts) && i <= j < |run| && RecoversTo(a, run[i].disk, home)
    requires forall k :: i <= k < j ==> !IsCommitPoint(run[k], acts[k])
    ensures RecoversTo(a, run[j].disk, home)
    decreases j
  {
    if i < j {
      var k := j - 1;
      DurableBetweenCommitPoints(a, run, acts, i, k, home);
      RunKeepsInv(a, run, acts, k);
      assert !IsCommitPoint(run[k], acts[k]) && StepAt(a, run, acts, k);
      OnlyCommitPointsAreDurable(a, run[k], acts[k], home);
    }
  }

  lemma {:induction false} RunningIsAtHome(a: Area, s: State, home: Disk)
    requires Inv(a, s) && RecoversTo(a, s.disk, home)
    ensures s.phase.Running? ==> HomeIs(a, s.disk, home)
    ensures s.phase.Running? && s.lh == [] ==> HomeIs(a, s.mem, home)
  {
    if s.phase.Running? {
      EmptyLogRecovers(a, s.disk, home);
      if s.lh == [] {
        forall b: nat | Home(a, s.mem, b) ensures s.mem[b] == home[b] {
          assert BlockOk(a, s, Pending(a, s), b);
          assert Home(a, s.disk, b);
        }
      }
    }
  }

  // ------------------------------------------------------------------
  // The contents of blocks as the actions of the run make them.

  /** What the process that holds block b last put into it, logged or not; a crash loses it. */
  ghost function LastPut(a: Area, run: seq<State>, acts: seq<Action>, n: nat, b: nat): Block
    requires n <= |acts| && |run| == |acts| + 1 && Recoverable(a, run[0].disk) && Home(a, run[0].disk, b)
  {
    if n == 0 then Recovered(a, run[0].disk, b)
    else if acts[n - 1].Change? && acts[n - 1].b == b then acts[n - 1].x
    else if acts[n - 1].Crash? then Durable(a, run, acts, n - 1, b)
    else LastPut(a, run, acts, n - 1, b)
  }

  /** What block b held when it was last given to log_write; a crash goes back to what was durable. */
  ghost function LastLogged(a: Area, run: seq<State>, acts: seq<Action>, n: nat, b: nat): Block
    requires n <= |acts| && |run| == |acts| + 1 && Recoverable(a, run[0].disk) && Home(a, run[0].disk, b)
  {
    if n == 0 then Recovered(a, run[0].disk, b)
    else if acts[n - 1].LogWrite? && acts[n - 1].b == b then LastPut(a, run, acts, n - 1, b)
    else if acts[n - 1].Crash? then Durable(a, run, acts, n - 1, b)
    else LastLogged(a, run, acts, n - 1, b)
  }

  /** What block b held when it was last logged before the last header write. */
  ghost function Durable(a: Area, run: seq<State>, acts: seq<Action>, n: nat, b: nat): Block
    requires n <= |acts| && |run| == |acts| + 1 && Recoverable(a, run[0].disk) && Home(a, run[0].disk, b)
  {
    if n == 0 then Recovered(a, run[0].disk, b)
    else if IsCommitPoint(run[n - 1], acts[n - 1]) then LastLogged(a, run, acts, n - 1, b)
    else Durable(a, run, acts, n - 1, b)
  }

  /** In state s, block b has been put, logged and made durable as these say. */
  ghost predicate Remembers(a: Area, s: State, b: nat, put: Block, logged: Block, durable: Block)
    requires Recoverable(a, s.disk) && Home(a, s.disk, b) && |s.mem| == |s.disk|
  {
    && s.mem[b] == logged && Recovered(a, s.disk, b) == durable
    && if b in s.bufs && s.bufs[b].changed then s.bufs[b].data == put else put == logged
  }

  lemma {:induction false} CrashRemembers(a: Area, s: State, b: nat, put: Block, logged: Block, durable: Block)
    requires Inv(a, s) && Enabled(a, s, Crash) && Home(a, s.disk, b) && Remembers(a, s, b, put, logged, durable)
    ensures var s' := Next(a, s, Crash);
            |s'.mem| == |s'.disk| == |s.disk| && Recoverable(a, s'.disk) && Remembers(a, s', b, durable, durable, durable)
  {
  }

  lemma {:induction false} DiskRemembers(a: Area, s: State, e: Action, b: nat)
    requires Inv(a, s) && Enabled(a, s, e) && Home(a, s.disk, b)
    ensures var s' := Next(a, s, e);
            && s' in Safe(a) && |s'.disk| == |s.disk|
            && Recovered(a, s'.disk, b) == if IsCommitPoint(s, e) then s.mem[b] else Recovered(a, s.disk, b)
  {
    ActionKeepsInv(a, s, e);
    var home := RecoveredDisk(a, s.disk);
    OnlyCommitPointsAreDurable(a, s, e, home);
  }

  lemma {:induction false} BufferRemembers(a: Area, s: State, e: Action, b: nat, put: Block, logged: Block, durable: Block)
    requires Inv(a, s) && Enabled(a, s, e) && Home(a, s.disk, b) && Remembers(a, s, b, put, logged, durable)
    requires e.Get? || e.Lock? || e.Fill? || e.Change? || e.LogWrite? || e.Release? || e.Evict?
    ensures var s', here := Next(a, s, e), e.b == b;
            && |s'.mem| == |s'.disk| == |s.disk| && Recoverable(a, s'.disk)
            && Remembers(a, s', b, if e.Change? && here then e.x else put, if e.LogWrite? && here then put else logged, durable)
  {
    assert BlockOk(a, s, Pending(a, s), b);
  }

  lemma {:induction false} OperationRemembers(a: Area, s: State, e: Action, b: nat, put: Block, logged: Block, durable: Block)
    requires Inv(a, s) && Enabled(a, s, e) && Home(a, s.disk, b) && Remembers(a, s, b, put, logged, durable)
    requires e.Begin? || e.SleepInBegin? || e.End?
    ensures var s' := Next(a, s, e);
            && |s'.mem| == |s'.disk| == |s.disk| && Recoverable(a, s'.disk)
            && Remembers(a, s', b, put, logged, durable)
  {
  }

  /** While commit or recovery runs nobody has a change that is not logged. */
  lemma {:induction false} NothingChanged(a: Area, s: State, b: nat)
    requires Inv(a, s) && b < |s.disk| && s.ops == map[] && !InLog(a, b)
    ensures b in s.bufs ==> !s.bufs[b].changed
  {
    assert BlockOk(a, s, Pending(a, s), b);
  }

  lemma {:induction false} DiskStepRemembers(a: Area, s: State, e: Action, b: nat, put: Block, logged: Block, durable: Block)
    requires Inv(a, s) && Enabled(a, s, e) && Home(a, s.disk, b) && Remembers(a, s, b, put, logged, durable)
    requires e.CommitStep? || e.RecoverStep?
    ensures var s' := Next(a, s, e);
            && |s'.mem| == |s'.disk| == |s.disk| && Recoverable(a, s'.disk)
            && Remembers(a, s', b, put, logged, if IsCommitPoint(s, e) then logged else durable)
  {
    DiskRemembers(a, s, e, b);
    var s' := Next(a, s, e);
    assert s.ops == map[] && s'.ops == map[] && s'.mem == s.mem;
    NothingChanged(a, s, b);
    NothingChanged(a, s', b);
  }

  lemma {:induction false} RunRemembers(a: Area, run: seq<State>, acts: seq<Action>, n: nat, b: nat)
    requires IsRun(a, run, acts) && n < |run| && Home(a, run[0].disk, b)
    ensures run[n] in Safe(a) && |run[n].disk| == |run[0].disk|
    ensures Remembers(a, run[n], b, LastPut(a, run, acts, n, b), LastLogged(a, run, acts, n, b), Durable(a, run, acts, n, b))
  {
    RunKeepsInv(a, run, acts, n);
    if n > 0 {
      RunRemembers(a, run, acts, n - 1, b);
      assert StepAt(a, run, acts, n - 1);
      var s, e := run[n - 1], acts[n - 1];
      var put, logged, durable := LastPut(a, run, acts, n - 1, b), LastLogged(a, run, acts, n - 1, b), Durable(a, run, acts, n - 1, b);
      ActionRemembers(a, s, e, b, put, logged, durable);
    }
  }

  /** What each action does to what is remembered of block b. */
  lemma {:induction false} ActionRemembers(a: Area, s: State, e: Action, b: nat, put: Block, logged: Block, durable: Block)
    requires s in Safe(a) && Enabled(a, s, e) && Home(a, s.disk, b) && Remembers(a, s, b, put, logged, durable)
    ensures var s' := Next(a, s, e);
            && |s'.mem| == |s'.disk| == |s.disk| && Recoverable(a, s'.disk)
            && Remembers(a, s', b,
                         if e.Crash? then durable else if e.Change? && e.b == b then e.x else put,
                         if e.Crash? then durable else if e.LogWrite? && e.b == b then put else logged,
                         if IsCommitPoint(s, e) then logged else durable)
  {
    if e.Crash? {
      CrashRemembers(a, s, b, put, logged, durable);
    } else if e.Begin? || e.SleepInBegin? || e.End? {
      OperationRemembers(a, s, e, b, put, logged, durable);
    } else if e.CommitStep? || e.RecoverStep? {
      DiskStepRemembers(a, s, e, b, put, logged, durable);
    } else {
      BufferRemembers(a, s, e, b, put, logged, durable);
    }
  }

  /**
   Cache and log behave as one plain map of blocks: in every state of every run, a process
   that holds a block it has read sees the contents last logged for that block, or what it
   has put there itself since.
   */
  lemma {:induction false} ReadersSeeLastLogged(a: Area, run: seq<State>, acts: seq<Action>, n: nat, p: Proc, b: nat)
    requires IsRun(a, run, acts) && n < |run| && Home(a, run[0].disk, b) && Holds(run[n], p, b) && run[n].bufs[b].valid
    ensures run[n].bufs[b].data == LastPut(a, run, acts, n, b)
    ensures !run[n].bufs[b].changed ==> run[n].bufs[b].data == LastLogged(a, run, acts, n, b)
  {
    RunRemembers(a, run, acts, n, b);
    assert BlockOk(a, run[n], Pending(a, run[n]), b);
  }

  /**
   Crash atomicity.  Let c be the last header write of a run, up to state j.  However many
   crashes and partial recoveries lie between, recovery from the disk of state j gives
   every block exactly as it was last logged at c: all of that transaction and nothing
   later.  Whenever the system is running again, that is what the home blocks on disk hold,
   and while nothing new is logged it is what readers get.
   */
  lemma {:induction false} CrashAtomicity(a: Area, run: seq<State>, acts: seq<Action>, c: nat, j: nat, b: nat)
    requires IsRun(a, run, acts) && c < j < |run| && IsCommitPoint(run[c], acts[c]) && Home(a, run[0].disk, b)
    requires forall k :: c < k < j ==> !IsCommitPoint(run[k], acts[k])
    ensures Recoverable(a, run[j].disk) && |run[j].disk| == |run[0].disk|
    ensures Recovered(a, run[j].disk, b) == LastLogged(a, run, acts, c, b)
    ensures run[j].phase.Running? ==> run[j].disk[b] == LastLogged(a, run, acts, c, b)
    ensures run[j].phase.Running? && run[j].lh == [] ==> LastLogged(a, run, acts, j, b) == LastLogged(a, run, acts, c, b)
  {
    DurableSince(a, run, acts, c, j, b);
    RunRemembers(a, run, acts, j, b);
    RunningIsAtHome(a, run[j], RecoveredDisk(a, run[j].disk));
    if run[j].phase.Running? && run[j].lh == [] {
      assert BlockOk(a, run[j], Pending(a, run[j]), b);
    }
  }

  lemma {:induction false} DurableSince(a: Area, run: seq<State>, acts: seq<Action>, c: nat, j: nat, b: nat)
    requires c < j <= |acts| && |run| == |acts| + 1 && Recoverable(a, run[0].disk) && Home(a, run[0].disk, b)
    requires IsCommitPoint(run[c], acts[c]) && forall k :: c < k < j ==> !IsCommitPoint(run[k], acts[k])
    ensures Durable(a, run, acts, j, b) == LastLogged(a, run, acts, c, b)
    decreases j
  {
    if c + 1 < j {
      DurableSince(a, run, acts, c, j - 1, b);
    }
  }

  /** Before the first header write, a crash leaves the blocks as they were at boot. */
  lemma {:induction false} NothingCommittedYet(a: Area, run: seq<State>, acts: seq<Action>, j: nat, b: nat)
    requires IsRun(a, run, acts) && j < |run| && Home(a, run[0].disk, b)
    requires forall k :: 0 <= k < j ==> !IsCommitPoint(run[k], acts[k])
    ensures Recoverable(a, run[j].disk) && |run[j].disk| == |run[0].disk|
    ensures Recovered(a, run[j].disk, b) == Recovered(a, run[0].disk, b)
    ensures run[j].phase.Running? ==> run[j].disk[b] == Recovered(a, run[0].disk, b)
  {
    DurableSinceBoot(a, run, acts, j, b);
    RunRemembers(a, run, acts, j, b);
    RunningIsAtHome(a, run[j], RecoveredDisk(a, run[j].disk));
  }

  lemma {:induction false} DurableSinceBoot(a: Area, run: seq<State>, acts: seq<Action>, j: nat, b: nat)
    requires j <= |acts| && |run| == |acts| + 1 && Recoverable(a, run[0].disk) && Home(a, run[0].disk, b)
    requires forall k :: 0 <= k < j ==> !IsCommitPoint(run[k], acts[k])
    ensures Durable(a, run, acts, j, b) == Recovered(a, run[0].disk, b)
  {
    if j > 0 {
      DurableSinceBoot(a, run, acts, j - 1, b);
    }
  }

  // ------------------------------------------------------------------
  // What a process writes is what is read and what survives.

  /** In step i block b is set to x, in step j it is logged as that, and until n no other log_write or crash touches it. */
  ghost predicate WrittenAndLogged(acts: seq<Action>, i: nat, j: nat, n: nat, b: nat, x: Block) {
    && i < j < n <= |acts|
    && acts[i].Change? && acts[i].b == b && acts[i].x == x && acts[j].LogWrite? && acts[j].b == b
    && (forall k :: i < k < j ==> !(acts[k].Change? && acts[k].b == b))
    && (forall k :: i < k < n ==> !acts[k].Crash?)
    && forall k :: j < k < n ==> !(acts[k].LogWrite? && acts[k].b == b)
  }

  lemma {:induction false} PutStays(a: Area, run: seq<State>, acts: seq<Action>, i: nat, j: nat, b: nat)
    requires i < j <= |acts| && |run| == |acts| + 1 && Recoverable(a, run[0].disk) && Home(a, run[0].disk, b)
    requires acts[i].Change? && acts[i].b == b
    requires forall k :: i < k < j ==> !(acts[k].Change? && acts[k].b == b) && !acts[k].Crash?
    ensures LastPut(a, run, acts, j, b) == acts[i].x
    decreases j
  {
    if i + 1 < j {
      PutStays(a, run, acts, i, j - 1, b);
    }
  }

  lemma {:induction false} LoggedStays(a: Area, run: seq<State>, acts: seq<Action>, i: nat, j: nat, n: nat, b: nat, x: Block)
    requires |run| == |acts| + 1 && Recoverable(a, run[0].disk) && Home(a, run[0].disk, b)
    requires WrittenAndLogged(acts, i, j, n, b, x)
    ensures LastLogged(a, run, acts, n, b) == x
    decreases n
  {
    if n == j + 1 {
      PutStays(a, run, acts, i, j, b);
    } else {
      LoggedStays(a, run, acts, i, j, n - 1, b, x);
    }
  }

  /** What was written and logged is what every process that holds the block reads. */
  lemma {:induction false} WrittenIsRead(a: Area, run: seq<State>, acts: seq<Action>, i: nat, j: nat, n: nat, b: nat, x: Block, q: Proc)
    requires IsRun(a, run, acts) && WrittenAndLogged(acts, i, j, n, b, x)
    requires Home(a, run[0].disk, b) && Holds(run[n], q, b) && run[n].bufs[b].valid && !run[n].bufs[b].changed
    ensures run[n].bufs[b].data == x
  {
    ReadersSeeLastLogged(a, run, acts, n, q, b);
    LoggedStays(a, run, acts, i, j, n, b, x);
  }

  /** What was written and logged before a header write is what every later recovery gives, until the next header write. */
  lemma {:induction false} WrittenSurvives(a: Area, run: seq<State>, acts: seq<Action>, i: nat, j: nat, c: nat, m: nat, b: nat, x: Block)
    requires IsRun(a, run, acts) && WrittenAndLogged(acts, i, j, c, b, x) && Home(a, run[0].disk, b)
    requires c < m < |run| && IsCommitPoint(run[c], acts[c])
    requires forall k :: c < k < m ==> !IsCommitPoint(run[k], acts[k])
    ensures Recoverable(a, run[m].disk) && |run[m].disk| == |run[0].disk| && Recovered(a, run[m].disk, b) == x
    ensures run[m].phase.Running? ==> run[m].disk[b] == x
  {
    CrashAtomicity(a, run, acts, c, m, b);
    LoggedStays(a, run, acts, i, j, c, b, x);
  }

  // ------------------------------------------------------------------
  // That transactions happen.

  lemma {:induction false} Extend(a: Area, run: seq<State>, acts: seq<Action>, e: Action) returns (run': seq<State>, acts': seq<Action>)
    requires IsRun(a, run, acts) && Enabled(a, run[|run| - 1], e)
    ensures IsRun(a, run', acts') && acts' == acts + [e] && run' == run + [Next(a, run[|run| - 1], e)]
  {
    run', acts' := run + [Next(a, run[|run| - 1], e)], acts + [e];
    forall i | 0 <= i < |acts'| ensures StepAt(a, run', acts', i) {
      if i < |acts| {
        assert StepAt(a, run, acts, i);
      }
    }
  }

  /** The system runs, with nothing logged and block b not in the cache. */
  ghost predicate Idle(a: Area, s: State, b: nat) {
    && s.phase.Running? && s.lh == [] && s.ops == map[] && s.sleepers == {} && Home(a, s.disk, b) && b !in s.bufs
    && |s.mem| == |s.disk| && forall c :: c in s.bufs ==> !s.bufs[c].changed
  }

  /** Process 0 has begun an operation and read block b. */
  ghost predicate HasRead(a: Area, s: State, b: nat) {
    && s.phase.Running? && s.lh == [] && s.ops == map[0 := {}] && Home(a, s.disk, b) && |s.mem| == |s.disk|
    && Holds(s, 0, b) && s.bufs[b].valid && forall c :: c in s.bufs && c != b ==> !s.bufs[c].changed
  }

  /** Block b is logged, alone, and the commit is about to begin. */
  ghost predicate OneLogged(a: Area, s: State, b: nat) {
    s.phase == WriteLog(0) && s.lh == [b] && s.ops == map[] && Unlocked(s, b) && Home(a, s.disk, b)
  }

  lemma {:induction false} BootRun(a: Area, disk: Disk, b: nat) returns (run: seq<State>, acts: seq<Action>)
    requires Fits(a, disk) && |disk| < WRAP && Word(disk[a.start], 0) == 0 && Home(a, disk, b)
    ensures IsRun(a, run, acts) && run[0].disk == disk && Idle(a, run[|run| - 1], b)
  {
    var s := CleanDiskBoots(a, disk);
    run, acts := [s], [];
    run, acts := Extend(a, run, acts, RecoverStep);
    run, acts := Extend(a, run, acts, RecoverStep);
  }

  lemma {:induction false} ReadRun(a: Area, run: seq<State>, acts: seq<Action>, b: nat, x: Block)
    returns (run': seq<State>, acts': seq<Action>)
    requires IsRun(a, run, acts) && Idle(a, run[|run| - 1], b)
    ensures IsRun(a, run', acts') && run <= run' && acts' == acts + [Begin(0), Get(0, b, x), Lock(0, b), Fill(0, b)]
    ensures HasRead(a, run'[|run'| - 1], b)
  {
    run', acts' := Extend(a, run, acts, Begin(0));
    run', acts' := Extend(a, run', acts', Get(0, b, x));
    run', acts' := Extend(a, run', acts', Lock(0, b));
    run', acts' := Extend(a, run', acts', Fill(0, b));
  }

  lemma {:induction false} WriteRun(a: Area, run: seq<State>, acts: seq<Action>, b: nat, x: Block)
    returns (run': seq<State>, acts': seq<Action>)
    requires IsRun(a, run, acts) && HasRead(a, run[|run| - 1], b)
    ensures IsRun(a, run', acts') && run <= run' && acts' == acts + [Change(0, b, x), LogWrite(0, b), Release(0, b), End(0)]
    ensures OneLogged(a, run'[|run'| - 1], b)
  {
    run', acts' := Extend(a, run, acts, Change(0, b, x));
    run', acts' := Extend(a, run', acts', LogWrite(0, b));
    run', acts' := Extend(a, run', acts', Release(0, b));
    run', acts' := Extend(a, run', acts', End(0));
    assert run'[|run'| - 1].ops == map[];
  }

  lemma {:induction false} LogRun(a: Area, run: seq<State>, acts: seq<Action>, b: nat) returns (run': seq<State>, acts': seq<Action>)
    requires IsRun(a, run, acts) && 2 <= a.size && OneLogged(a, run[|run| - 1], b)
    ensures IsRun(a, run', acts') && run <= run' && acts' == acts + [CommitStep]
    ensures var s := run'[|run'| - 1]; s.phase == WriteHead && s.lh == [b] && Unlocked(s, b) && Home(a, s.disk, b)
  {
    RunKeepsInv(a, run, acts, |run| - 1);
    run', acts' := Extend(a, run, acts, CommitStep);
  }

  lemma {:induction false} HeadRun(a: Area, run: seq<State>, acts: seq<Action>, b: nat) returns (run': seq<State>, acts': seq<Action>)
    requires IsRun(a, run, acts) && 2 <= a.size
    requires var s := run[|run| - 1]; s.phase == WriteHead && s.lh == [b] && Unlocked(s, b) && Home(a, s.disk, b)
    ensures IsRun(a, run', acts') && run <= run' && acts' == acts + [CommitStep]
    ensures var s := run'[|run'| - 1]; s.phase == Install(0) && s.lh == [b] && Unlocked(s, b) && Home(a, s.disk, b)
  {
    RunKeepsInv(a, run, acts, |run| - 1);
    run', acts' := Extend(a, run, acts, CommitStep);
  }

  lemma {:induction false} InstallRun(a: Area, run: seq<State>, acts: seq<Action>, b: nat) returns (run': seq<State>, acts': seq<Action>)
    requires IsRun(a, run, acts) && 2 <= a.size
    requires var s := run[|run| - 1]; s.phase == Install(0) && s.lh == [b] && Unlocked(s, b) && Home(a, s.disk, b)
    ensures IsRun(a, run', acts') && run <= run' && acts' == acts + [CommitStep, CommitStep, CommitStep]
    ensures forall k :: |run| - 1 <= k < |run'| ==> !run'[k].phase.WriteHead?
    ensures run'[|run'| - 1].phase.Running?
  {
    RunKeepsInv(a, run, acts, |run| - 1);
    run', acts' := Extend(a, run, acts, CommitStep);
    run', acts' := Extend(a, run', acts', CommitStep);
    run', acts' := Extend(a, run', acts', CommitStep);
  }

  /** From every clean disk there is a run in which any block is given any contents, and these are on disk at the end. */
  lemma {:induction false} TransactionsHappen(a: Area, disk: Disk, b: nat, x: Block) returns (run: seq<State>, acts: seq<Action>)
    requires Fits(a, disk) && |disk| < WRAP && Word(disk[a.start], 0) == 0 && Home(a, disk, b) && 2 <= a.size
    ensures IsRun(a, run, acts) && run[0].disk == disk && run[|run| - 1].phase.Running?
    ensures |run[|run| - 1].disk| == |disk| && run[|run| - 1].disk[b] == x
  {
    var boot, bootActs := BootRun(a, disk, b);
    var n := |bootActs|;
    run, acts := ReadRun(a, boot, bootActs, b, x);
    run, acts := WriteRun(a, run, acts, b, x);
    run, acts := LogRun(a, run, acts, b);
    var atHead := run[|run| - 1];
    run, acts := HeadRun(a, run, acts, b);
    run, acts := InstallRun(a, run, acts, b);
    var c := n + 9;
    assert run[c] == atHead && IsCommitPoint(run[c], acts[c]);
    assert WrittenAndLogged(acts, n + 4, n + 5, c, b, x);
    WrittenSurvives(a, run, acts, n + 4, n + 5, c, |run| - 1, b, x);
  }
}
