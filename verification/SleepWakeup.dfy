/**
 sleep and wakeup: how a process waits for a condition that a spinlock `lk` protects.

 Each process moves through the code one atomic action at a time, in any interleaving
 and for any number of processes: acquiring and releasing lk and ptable.lock are separate
 actions, and so are marking a process asleep, giving up the processor and scanning the
 process table.  The protected data, and the condition on it, are arbitrary.

 The steps are those of acquire, release, sleep and wakeup for any caller.  What a caller
 must do so that no wakeup is lost is a property of its runs, `Disciplined`.
 */
module SleepWakeup {
  import opened Common

  type Proc = nat

  datatype Pc =
    | Out
    | Wanting              // spinning on lk
    | Inside(owes: bool)   // holds lk; owes a wakeup if it made the condition true
    // sleep(chan, lk)
    | Dropping             // holds lk, spinning on ptable.lock
    | Handing              // holds both locks
    | Settling             // has released lk, not yet marked SLEEPING
    | Dozing               // marked SLEEPING, ptable.lock not yet released by the scheduler
    | Asleep
    | Woken                // RUNNABLE again
    | Resuming             // scheduled, still with ptable.lock
    // wakeup(chan)
    | Calling              // holds lk, spinning on ptable.lock
    | Scanning             // holds both locks, table not yet scanned
    | Scanned

  datatype State<D> = State(data: D, lk: Option<Proc>, pt: Option<Proc>, pcs: seq<Pc>)

  datatype Action<D> =
    | Want | AcquireLk | Update(data: D) | ReleaseLk
    | Sleep | SleepAcquirePt | SleepReleaseLk | MarkSleeping | Sched
    | Wakeup | WakeupAcquirePt | Scan | WakeupReleasePt
    | Kill | Schedule | Resume

  predicate HasLk(pc: Pc) {
    pc.Inside? || pc.Dropping? || pc.Handing? || pc.Calling? || pc.Scanning? || pc.Scanned?
  }

  predicate HasPt(pc: Pc) {
    pc.Handing? || pc.Settling? || pc.Dozing? || pc.Resuming? || pc.Scanning? || pc.Scanned?
  }

  /** In the middle of sleep, up to reacquiring lk. */
  predicate InSleep(pc: Pc) {
    || pc.Dropping? || pc.Handing? || pc.Settling? || pc.Dozing?
    || pc.Asleep? || pc.Woken? || pc.Resuming?
  }

  predicate InWakeup(pc: Pc) {
    pc.Calling? || pc.Scanning? || pc.Scanned?
  }

  /** Has given up lk in order to sleep and has not been woken. */
  predicate GoneToSleep(pc: Pc) {
    pc.Settling? || pc.Dozing? || pc.Asleep?
  }

  predicate OwesWakeup(pc: Pc) {
    pc == Inside(true) || pc.Calling? || pc.Scanning?
  }

  function Woke(pcs: seq<Pc>): (r: seq<Pc>)
    ensures |r| == |pcs|
  {
    seq(|pcs|, i requires 0 <= i < |pcs| => if pcs[i].Asleep? then Woken else pcs[i])
  }

  /**
   The calling rules: the data change only under lk, a process that has made the condition
   true does not release lk before it has called wakeup, and sleep is called only while the
   condition is false.
   */
  ghost predicate KeepsRules<D>(ready: D -> bool, s: State<D>, p: Proc, a: Action<D>)
    requires p < |s.pcs|
  {
    match a
    case Update(_) => s.pcs[p].Inside?
    case ReleaseLk => s.pcs[p] == Inside(false)
    case Sleep => !ready(s.data)
    case _ => true
  }

  /** When process p can take action a: where its code stands, and whether the lock it wants is free. */
  ghost predicate Enabled<D>(ready: D -> bool, s: State<D>, p: Proc, a: Action<D>) {
    && p < |s.pcs|
    && var pc := s.pcs[p];
    match a
    case Want => pc.Out?
    case AcquireLk => pc.Wanting? && s.lk.None?
    case Update(_) => pc.Out? || pc.Inside?
    case ReleaseLk => pc.Inside?
    case Sleep => pc.Inside?
    case SleepAcquirePt => pc.Dropping? && s.pt.None?
    case SleepReleaseLk => pc.Handing?
    case MarkSleeping => pc.Settling?
    case Sched => pc.Dozing?
    case Wakeup => pc.Inside?
    case WakeupAcquirePt => pc.Calling? && s.pt.None?
    case Scan => pc.Scanning?
    case WakeupReleasePt => pc.Scanned?
    case Kill => pc.Asleep? && s.pt.None?
    case Schedule => pc.Woken? && s.pt.None?
    case Resume => pc.Resuming?
  }

  ghost function Next<D>(ready: D -> bool, s: State<D>, p: Proc, a: Action<D>): State<D>
    requires Enabled(ready, s, p, a)
  {
    match a
    case Want => s.(pcs := s.pcs[p := Wanting])
    case AcquireLk => s.(lk := Some(p), pcs := s.pcs[p := Inside(false)])
    case Update(d) =>
      if s.pcs[p].Out? then s.(data := d)
      else s.(data := d, pcs := s.pcs[p := Inside(s.pcs[p].owes || (!ready(s.data) && ready(d)))])
    case ReleaseLk => s.(lk := None, pcs := s.pcs[p := Out])
    case Sleep => s.(pcs := s.pcs[p := Dropping])
    case SleepAcquirePt => s.(pt := Some(p), pcs := s.pcs[p := Handing])
    case SleepReleaseLk => s.(lk := None, pcs := s.pcs[p := Settling])
    case MarkSleeping => s.(pcs := s.pcs[p := Dozing])
    case Sched => s.(pt := None, pcs := s.pcs[p := Asleep])
    case Wakeup => s.(pcs := s.pcs[p := Calling])
    case WakeupAcquirePt => s.(pt := Some(p), pcs := s.pcs[p := Scanning])
    case Scan => s.(pcs := Woke(s.pcs)[p := Scanned])
    case WakeupReleasePt => s.(pt := None, pcs := s.pcs[p := Inside(false)])
    case Kill => s.(pcs := s.pcs[p := Woken])
    case Schedule => s.(pt := Some(p), pcs := s.pcs[p := Resuming])
    case Resume => s.(pt := None, pcs := s.pcs[p := Wanting])
  }

  ghost predicate Init<D>(s: State<D>) {
    s.lk.None? && s.pt.None? && forall p :: 0 <= p < |s.pcs| ==> s.pcs[p] == Out
  }

  // ------------------------------------------------------------------

  ghost predicate ProcOk<D>(ready: D -> bool, s: State<D>, p: Proc)
    requires p < |s.pcs|
  {
    var pc := s.pcs[p];
    && (s.lk == Some(p) <==> HasLk(pc))
    && (s.pt == Some(p) <==> HasPt(pc))
    && (pc.Dropping? || pc.Handing? ==> !ready(s.data))
    && (GoneToSleep(pc) && ready(s.data) ==> WakeupComing(s))
  }

  /** lk is held, and its holder must call wakeup before releasing it. */
  ghost predicate WakeupComing<D>(s: State<D>) {
    s.lk.Some? && s.lk.value < |s.pcs| && OwesWakeup(s.pcs[s.lk.value])
  }

  ghost predicate Inv<D>(ready: D -> bool, s: State<D>) {
    && (s.lk.Some? ==> s.lk.value < |s.pcs|)
    && (s.pt.Some? ==> s.pt.value < |s.pcs|)
    && forall p: Proc :: p < |s.pcs| ==> ProcOk(ready, s, p)
  }

  lemma {:induction false} ActionKeepsInv<D>(ready: D -> bool, s: State<D>, p: Proc, a: Action<D>)
    requires Inv(ready, s) && Enabled(ready, s, p, a) && KeepsRules(ready, s, p, a)
    ensures Inv(ready, Next(ready, s, p, a))
  {
    var s' := Next(ready, s, p, a);
    assert ProcOk(ready, s, p);
    forall q: Proc | q < |s'.pcs| ensures ProcOk(ready, s', q) {
      assert ProcOk(ready, s, q);
    }
  }

  ghost predicate IsRun<D>(ready: D -> bool, run: seq<State<D>>, procs: seq<Proc>, acts: seq<Action<D>>) {
    && |run| == |acts| + 1 && |procs| == |acts| && Init(run[0])
    && forall i :: 0 <= i < |acts| ==> StepAt(ready, run, procs, acts, i)
  }

  ghost predicate StepAt<D>(ready: D -> bool, run: seq<State<D>>, procs: seq<Proc>, acts: seq<Action<D>>, i: nat)
    requires i < |acts| == |procs| && |run| == |acts| + 1
  {
    Enabled(ready, run[i], procs[i], acts[i]) && run[i + 1] == Next(ready, run[i], procs[i], acts[i])
  }

  ghost predicate Disciplined<D>(ready: D -> bool, run: seq<State<D>>, procs: seq<Proc>, acts: seq<Action<D>>)
    requires |run| == |acts| + 1 && |procs| == |acts|
  {
    forall i :: 0 <= i < |acts| ==> RulesAt(ready, run, procs, acts, i)
  }

  ghost predicate RulesAt<D>(ready: D -> bool, run: seq<State<D>>, procs: seq<Proc>, acts: seq<Action<D>>, i: nat)
    requires i < |acts| == |procs| && |run| == |acts| + 1
  {
    procs[i] < |run[i].pcs| && KeepsRules(ready, run[i], procs[i], acts[i])
  }

  lemma {:induction false} RunKeepsInv<D>(ready: D -> bool, run: seq<State<D>>, procs: seq<Proc>, acts: seq<Action<D>>, n: nat)
    requires IsRun(ready, run, procs, acts) && Disciplined(ready, run, procs, acts) && n < |run|
    ensures Inv(ready, run[n])
  {
    if n > 0 {
      RunKeepsInv(ready, run, procs, acts, n - 1);
      assert StepAt(ready, run, procs, acts, n - 1) && RulesAt(ready, run, procs, acts, n - 1);
      ActionKeepsInv(ready, run[n - 1], procs[n - 1], acts[n - 1]);
    }
  }

  /**
   No lost wakeup, for every condition and every run of callers that keep the rules: if a
   process has gone to sleep and its condition is true, then lk is held by a process that is
   still to wake it.  So whenever lk is free, every sleeper's condition is false.
   */
  lemma {:induction false} NoLostWakeup<D>(ready: D -> bool, run: seq<State<D>>, procs: seq<Proc>, acts: seq<Action<D>>, n: nat, p: Proc)
    requires IsRun(ready, run, procs, acts) && Disciplined(ready, run, procs, acts) && n < |run| && p < |run[n].pcs|
    requires GoneToSleep(run[n].pcs[p]) && ready(run[n].data)
    ensures WakeupComing(run[n]) && run[n].lk != Some(p)
  {
    RunKeepsInv(ready, run, procs, acts, n);
    assert ProcOk(ready, run[n], p);
  }

  /** A process that releases lk without the wakeup it owes leaves a sleeper behind. */
  lemma {:induction false} UnpaidReleaseLoses<D>(ready: D -> bool, s: State<D>, p: Proc, q: Proc)
    requires Inv(ready, s) && Enabled(ready, s, p, ReleaseLk) && !KeepsRules(ready, s, p, ReleaseLk)
    requires ready(s.data) && q < |s.pcs| && GoneToSleep(s.pcs[q])
    ensures var s' := Next(ready, s, p, ReleaseLk);
            GoneToSleep(s'.pcs[q]) && ready(s'.data) && s'.lk.None? && !Inv(ready, s')
  {
    assert ProcOk(ready, s, q);
    var s' := Next(ready, s, p, ReleaseLk);
    assert !ProcOk(ready, s', q);
  }

  /** Whoever holds ptable.lock is in the middle of sleep or wakeup and can go on. */
  ghost function PtStep<D>(pc: Pc): Action<D> {
    match pc
    case Handing => SleepReleaseLk
    case Settling => MarkSleeping
    case Dozing => Sched
    case Scanning => Scan
    case Scanned => WakeupReleasePt
    case _ => Resume
  }

  lemma {:induction false} PtHolderGoesOn<D>(ready: D -> bool, s: State<D>)
    requires Inv(ready, s) && s.pt.Some?
    ensures s.pt.value < |s.pcs| && Enabled(ready, s, s.pt.value, PtStep(s.pcs[s.pt.value]))
  {
    assert ProcOk(ready, s, s.pt.value);
  }
}
