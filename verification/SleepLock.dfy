/**
 Sleep-locks: acquiresleep and releasesleep as callers of sleep and wakeup, with "the lock
 is free" as the condition.

 A process's role is its place in the code of these two functions.  The order of the roles
 is the order of the statements; that it keeps the rules of sleep and wakeup is proved.
 */
module SleepLock {
  import opened Common
  import opened SleepWakeup

  /** The protected fields; a pid of 0 means nobody.  Process p has pid p + 1. */
  datatype Lock = Lock(locked: bool, pid: nat)

  const Free := Lock(false, 0)

  function Pid(p: Proc): nat { p + 1 }

  datatype Role =
    | Idle
    // acquiresleep
    | Entering    // acquiring lk
    | Testing     // at the loop that waits while the lock is taken
    | Got         // has taken the lock, about to release lk
    | Holding     // in the critical section
    // releasesleep
    | Leaving     // acquiring lk
    | Clearing    // about to free the lock
    | Freed       // about to call wakeup
    | Woke        // has called wakeup, then releases lk

  datatype Client = Client(k: State<Lock>, roles: seq<Role>)

  function Ready(): Lock -> bool {
    (l: Lock) => !l.locked
  }

  /** Between taking the lock in acquiresleep and clearing it in releasesleep. */
  predicate Owns(r: Role) {
    r.Got? || r.Holding? || r.Leaving? || r.Clearing?
  }

  /** The statement a process comes to next. */
  ghost predicate Enabled(c: Client, p: Proc, a: Action<Lock>) {
    && |c.roles| == |c.k.pcs| && SleepWakeup.Enabled(Ready(), c.k, p, a)
    && var r := c.roles[p];
    match a
    case Want => r.Idle? || r.Holding?
    case Update(d) =>
      || (r.Testing? && !c.k.data.locked && d == Lock(true, Pid(p)))
      || (r.Clearing? && d == Free)
    case Sleep => r.Testing? && c.k.data.locked
    case Wakeup => r.Freed?
    case ReleaseLk => r.Got? || r.Woke?
    case _ => true
  }

  function NextRole(r: Role, a: Action<Lock>): Role {
    match a
    case Want => if r.Idle? then Entering else Leaving
    case AcquireLk => if r.Leaving? then Clearing else Testing
    case Update(_) => if r.Testing? then Got else Freed
    case Wakeup => Woke
    case ReleaseLk => if r.Got? then Holding else Idle
    case _ => r
  }

  ghost function Next(c: Client, p: Proc, a: Action<Lock>): Client
    requires Enabled(c, p, a)
  {
    Client(SleepWakeup.Next(Ready(), c.k, p, a), c.roles[p := NextRole(c.roles[p], a)])
  }

  ghost predicate Init(c: Client) {
    && SleepWakeup.Init(c.k) && c.k.data == Free && |c.roles| == |c.k.pcs|
    && forall p :: 0 <= p < |c.roles| ==> c.roles[p] == Idle
  }

  ghost predicate IsRun(run: seq<Client>, procs: seq<Proc>, acts: seq<Action<Lock>>) {
    && |run| == |acts| + 1 && |procs| == |acts| && Init(run[0])
    && forall i :: 0 <= i < |acts| ==> StepAt(run, procs, acts, i)
  }

  ghost predicate StepAt(run: seq<Client>, procs: seq<Proc>, acts: seq<Action<Lock>>, i: nat)
    requires i < |acts| == |procs| && |run| == |acts| + 1
  {
    Enabled(run[i], procs[i], acts[i]) && run[i + 1] == Next(run[i], procs[i], acts[i])
  }

  /** holdingsleep(lk) as process p would find it */
  predicate HoldingSleep(l: Lock, p: Proc) {
    l.locked && l.pid == Pid(p)
  }

  /** Where a process can be in acquire, sleep and wakeup, given its place in the caller. */
  predicate PlaceOk(r: Role, pc: Pc) {
    match r
    case Idle => pc.Out?
    case Holding => pc.Out?
    case Entering => pc.Wanting?
    case Leaving => pc.Wanting?
    case Testing => pc == Inside(false) || pc.Wanting? || InSleep(pc)
    case Got => pc == Inside(false)
    case Clearing => pc == Inside(false)
    case Freed => pc.Inside?
    case Woke => pc == Inside(false) || InWakeup(pc)
  }

  ghost predicate Inv(c: Client) {
    && |c.roles| == |c.k.pcs|
    && (c.k.data.locked ==> exists p :: 0 <= p < |c.roles| && c.k.data.pid == Pid(p))
    && forall p: Proc :: p < |c.roles| ==> RoleOk(c, p)
  }

  ghost predicate RoleOk(c: Client, p: Proc)
    requires p < |c.roles| == |c.k.pcs|
  {
    && (Owns(c.roles[p]) <==> HoldingSleep(c.k.data, p))
    && PlaceOk(c.roles[p], c.k.pcs[p])
  }

  lemma {:induction false} ActionKeepsInv(c: Client, p: Proc, a: Action<Lock>)
    requires Inv(c) && Enabled(c, p, a)
    ensures Inv(Next(c, p, a))
  {
    var c' := Next(c, p, a);
    assert RoleOk(c, p);
    forall q: Proc | q < |c'.roles| ensures RoleOk(c', q) {
      assert RoleOk(c, q);
    }
    if c'.k.data.locked && a.Update? {
      assert c'.k.data.pid == Pid(p);
    }
  }

  lemma {:induction false} RunKeepsInv(run: seq<Client>, procs: seq<Proc>, acts: seq<Action<Lock>>, n: nat)
    requires IsRun(run, procs, acts) && n < |run|
    ensures Inv(run[n])
  {
    if n > 0 {
      RunKeepsInv(run, procs, acts, n - 1);
      assert StepAt(run, procs, acts, n - 1);
      ActionKeepsInv(run[n - 1], procs[n - 1], acts[n - 1]);
    }
  }

  /** acquiresleep and releasesleep keep the rules of sleep and wakeup. */
  lemma {:induction false} ActionKeepsRules(c: Client, p: Proc, a: Action<Lock>)
    requires Inv(c) && Enabled(c, p, a)
    ensures KeepsRules(Ready(), c.k, p, a)
  {
    assert RoleOk(c, p);
  }

  ghost function Project(run: seq<Client>): (r: seq<State<Lock>>)
    ensures |r| == |run|
    ensures forall i :: 0 <= i < |run| ==> r[i] == run[i].k
  {
    seq(|run|, i requires 0 <= i < |run| => run[i].k)
  }

  lemma {:induction false} RunIsDisciplined(run: seq<Client>, procs: seq<Proc>, acts: seq<Action<Lock>>)
    requires IsRun(run, procs, acts)
    ensures SleepWakeup.IsRun(Ready(), Project(run), procs, acts)
    ensures Disciplined(Ready(), Project(run), procs, acts)
  {
    var r := Project(run);
    forall i | 0 <= i < |acts|
      ensures SleepWakeup.StepAt(Ready(), r, procs, acts, i) && RulesAt(Ready(), r, procs, acts, i)
    {
      assert StepAt(run, procs, acts, i);
      RunKeepsInv(run, procs, acts, i);
      ActionKeepsRules(run[i], procs[i], acts[i]);
    }
  }

  /**
   Safety of the sleep-lock over every run: at most one process owns it, holdingsleep is
   true for exactly that process, and a process asleep on a free lock is about to be woken.
   */
  lemma {:induction false} SleepLockIsSafe(run: seq<Client>, procs: seq<Proc>, acts: seq<Action<Lock>>, n: nat, p: Proc, q: Proc)
    requires IsRun(run, procs, acts) && n < |run|
    requires p < |run[n].roles| && q < |run[n].roles| && |run[n].k.pcs| == |run[n].roles|
    ensures Owns(run[n].roles[p]) && Owns(run[n].roles[q]) ==> p == q
    ensures HoldingSleep(run[n].k.data, p) <==> Owns(run[n].roles[p])
    ensures GoneToSleep(run[n].k.pcs[p]) && !run[n].k.data.locked ==> WakeupComing(run[n].k)
  {
    RunKeepsInv(run, procs, acts, n);
    assert RoleOk(run[n], p) && RoleOk(run[n], q);
    RunIsDisciplined(run, procs, acts);
    if GoneToSleep(run[n].k.pcs[p]) && !run[n].k.data.locked {
      NoLostWakeup(Ready(), Project(run), procs, acts, n, p);
    }
  }

  /** The next statement of the process that holds lk while ptable.lock is free. */
  ghost function LkStep(c: Client, p: Proc): Action<Lock>
    requires p < |c.roles| == |c.k.pcs|
  {
    if c.k.pcs[p].Dropping? then SleepAcquirePt
    else if c.k.pcs[p].Calling? then WakeupAcquirePt
    else
      match c.roles[p]
      case Testing => if c.k.data.locked then Sleep else Update(Lock(true, Pid(p)))
      case Clearing => Update(Free)
      case Freed => Wakeup
      case _ => ReleaseLk
  }

  /** Neither spinlock is ever held for good: some holder of one can always take its next step. */
  lemma {:induction false} NeverStuck(run: seq<Client>, procs: seq<Proc>, acts: seq<Action<Lock>>, n: nat)
    returns (p: Proc, a: Action<Lock>)
    requires IsRun(run, procs, acts) && n < |run| && (run[n].k.lk.Some? || run[n].k.pt.Some?)
    ensures Enabled(run[n], p, a) && (run[n].k.lk == Some(p) || run[n].k.pt == Some(p))
  {
    var c := run[n];
    RunKeepsInv(run, procs, acts, n);
    RunIsDisciplined(run, procs, acts);
    SleepWakeup.RunKeepsInv(Ready(), Project(run), procs, acts, n);
    if c.k.pt.Some? {
      PtHolderGoesOn(Ready(), c.k);
      p, a := c.k.pt.value, PtStep(c.k.pcs[c.k.pt.value]);
    } else {
      p := c.k.lk.value;
      a := LkStep(c, p);
      assert RoleOk(c, p) && ProcOk(Ready(), c.k, p);
    }
  }

  lemma {:induction false} Extend(run: seq<Client>, procs: seq<Proc>, acts: seq<Action<Lock>>, p: Proc, a: Action<Lock>)
    returns (run': seq<Client>, procs': seq<Proc>, acts': seq<Action<Lock>>)
    requires IsRun(run, procs, acts) && Enabled(run[|run| - 1], p, a)
    ensures IsRun(run', procs', acts') && run' == run + [Next(run[|run| - 1], p, a)]
  {
    run', procs', acts' := run + [Next(run[|run| - 1], p, a)], procs + [p], acts + [a];
    forall i | 0 <= i < |acts'| ensures StepAt(run', procs', acts', i) {
      if i < |acts| {
        assert StepAt(run, procs, acts, i);
      }
    }
  }

  /** The lock can be had: from the start, any process can come to hold it, with its pid in it. */
  lemma {:induction false} CanBeTaken(c: Client, p: Proc) returns (run: seq<Client>, procs: seq<Proc>, acts: seq<Action<Lock>>)
    requires Init(c) && p < |c.roles|
    ensures IsRun(run, procs, acts) && run[0] == c
    ensures var c' := run[|run| - 1]; |c'.roles| == |c.roles| && c'.roles[p].Holding? && c'.k.data == Lock(true, Pid(p)) && c'.k.lk.None?
  {
    run, procs, acts := [c], [], [];
    run, procs, acts := Extend(run, procs, acts, p, Want);
    run, procs, acts := Extend(run, procs, acts, p, AcquireLk);
    run, procs, acts := Extend(run, procs, acts, p, Update(Lock(true, Pid(p))));
    run, procs, acts := Extend(run, procs, acts, p, ReleaseLk);
  }
}
