/**
 The thread barrier: barrier_lock as a caller of sleep and wakeup, with "n threads have
 arrived" as the condition, after one barrier_init(n).

 A process's role is its place in the code of barrier_lock.
 */
module Barrier {
  import opened Common
  import opened SleepWakeup

  datatype Data = Data(count: nat, procCount: int)

  datatype Role =
    | Idle
    | Entering    // acquiring the lock
    | Arriving    // about to count itself
    | Waiting     // at the loop that waits for the others
    | Leaving     // has called wakeup, then releases the lock

  /** `arrivals` and `departures` count the calls of barrier_lock that began and that ended. */
  datatype Client = Client(k: State<Data>, roles: seq<Role>, arrivals: nat, departures: nat)

  function Ready(): Data -> bool {
    (d: Data) => d.count >= d.procCount
  }

  /** The statement a process comes to next. */
  ghost predicate Enabled(c: Client, p: Proc, a: Action<Data>) {
    && |c.roles| == |c.k.pcs| && SleepWakeup.Enabled(Ready(), c.k, p, a)
    && var r := c.roles[p];
    match a
    case Want => r.Idle?
    case Update(d) => r.Arriving? && d == c.k.data.(count := c.k.data.count + 1)
    case Sleep => r.Waiting? && c.k.data.count < c.k.data.procCount
    case Wakeup => r.Waiting? && !(c.k.data.count < c.k.data.procCount)
    case ReleaseLk => r.Leaving?
    case _ => true
  }

  function NextRole(r: Role, a: Action<Data>): Role {
    match a
    case Want => Entering
    case AcquireLk => if r.Entering? then Arriving else r
    case Update(_) => Waiting
    case Wakeup => Leaving
    case ReleaseLk => Idle
    case _ => r
  }

  ghost function Next(c: Client, p: Proc, a: Action<Data>): Client
    requires Enabled(c, p, a)
  {
    Client(SleepWakeup.Next(Ready(), c.k, p, a), c.roles[p := NextRole(c.roles[p], a)],
           c.arrivals + (if a.Update? then 1 else 0),
           c.departures + (if a.ReleaseLk? then 1 else 0))
  }

  /** Right after barrier_init(n). */
  ghost predicate Init(c: Client, n: int) {
    && SleepWakeup.Init(c.k) && c.k.data == Data(0, n) && |c.roles| == |c.k.pcs|
    && c.arrivals == 0 && c.departures == 0
    && forall p :: 0 <= p < |c.roles| ==> c.roles[p] == Idle
  }

  ghost predicate IsRun(n: int, run: seq<Client>, procs: seq<Proc>, acts: seq<Action<Data>>) {
    && |run| == |acts| + 1 && |procs| == |acts| && Init(run[0], n)
    && forall i :: 0 <= i < |acts| ==> StepAt(run, procs, acts, i)
  }

  ghost predicate StepAt(run: seq<Client>, procs: seq<Proc>, acts: seq<Action<Data>>, i: nat)
    requires i < |acts| == |procs| && |run| == |acts| + 1
  {
    Enabled(run[i], procs[i], acts[i]) && run[i + 1] == Next(run[i], procs[i], acts[i])
  }

  predicate PlaceOk(r: Role, pc: Pc) {
    match r
    case Idle => pc.Out?
    case Entering => pc.Wanting?
    case Arriving => pc == Inside(false)
    case Waiting => pc.Inside? || pc.Wanting? || InSleep(pc)
    case Leaving => pc == Inside(false) || InWakeup(pc)
  }

  ghost predicate Inv(n: int, c: Client) {
    && |c.roles| == |c.k.pcs| && c.k.data == Data(c.arrivals, n)
    && (c.departures > 0 ==> c.arrivals >= n)
    && forall p: Proc :: p < |c.roles| ==> RoleOk(n, c, p)
  }

  ghost predicate RoleOk(n: int, c: Client, p: Proc)
    requires p < |c.roles| == |c.k.pcs|
  {
    PlaceOk(c.roles[p], c.k.pcs[p]) && (c.roles[p].Leaving? ==> c.arrivals >= n)
  }

  lemma {:induction false} ActionKeepsInv(n: int, c: Client, p: Proc, a: Action<Data>)
    requires Inv(n, c) && Enabled(c, p, a)
    ensures Inv(n, Next(c, p, a))
  {
    var c' := Next(c, p, a);
    assert RoleOk(n, c, p);
    forall q: Proc | q < |c'.roles| ensures RoleOk(n, c', q) {
      assert RoleOk(n, c, q);
    }
  }

  lemma {:induction false} RunKeepsInv(n: int, run: seq<Client>, procs: seq<Proc>, acts: seq<Action<Data>>, m: nat)
    requires IsRun(n, run, procs, acts) && m < |run|
    ensures Inv(n, run[m])
  {
    if m > 0 {
      RunKeepsInv(n, run, procs, acts, m - 1);
      assert StepAt(run, procs, acts, m - 1);
      ActionKeepsInv(n, run[m - 1], procs[m - 1], acts[m - 1]);
    }
  }

  /** barrier_lock keeps the rules of sleep and wakeup. */
  lemma {:induction false} ActionKeepsRules(n: int, c: Client, p: Proc, a: Action<Data>)
    requires Inv(n, c) && Enabled(c, p, a)
    ensures KeepsRules(Ready(), c.k, p, a)
  {
    assert RoleOk(n, c, p);
  }

  ghost function Project(run: seq<Client>): (r: seq<State<Data>>)
    ensures |r| == |run|
    ensures forall i :: 0 <= i < |run| ==> r[i] == run[i].k
  {
    seq(|run|, i requires 0 <= i < |run| => run[i].k)
  }

  lemma {:induction false} RunIsDisciplined(n: int, run: seq<Client>, procs: seq<Proc>, acts: seq<Action<Data>>)
    requires IsRun(n, run, procs, acts)
    ensures SleepWakeup.IsRun(Ready(), Project(run), procs, acts)
    ensures Disciplined(Ready(), Project(run), procs, acts)
  {
    var r := Project(run);
    forall i | 0 <= i < |acts|
      ensures SleepWakeup.StepAt(Ready(), r, procs, acts, i) && RulesAt(Ready(), r, procs, acts, i)
    {
      assert StepAt(run, procs, acts, i);
      RunKeepsInv(n, run, procs, acts, i);
      ActionKeepsRules(n, run[i], procs[i], acts[i]);
    }
  }

  /**
   The barrier over every run: no call of barrier_lock returns before n calls have
   arrived; and once n have arrived, a process still asleep at it is about to be woken.
   */
  lemma {:induction false} BarrierHolds(n: int, run: seq<Client>, procs: seq<Proc>, acts: seq<Action<Data>>, m: nat, p: Proc)
    requires IsRun(n, run, procs, acts) && m < |run| && p < |run[m].k.pcs|
    ensures run[m].departures > 0 ==> run[m].arrivals >= n
    ensures run[m].arrivals >= n && GoneToSleep(run[m].k.pcs[p]) ==> WakeupComing(run[m].k)
  {
    RunKeepsInv(n, run, procs, acts, m);
    RunIsDisciplined(n, run, procs, acts);
    if run[m].arrivals >= n && GoneToSleep(run[m].k.pcs[p]) {
      NoLostWakeup(Ready(), Project(run), procs, acts, m, p);
    }
  }

  /** The next statement of the process that holds the lock while ptable.lock is free. */
  ghost function LkStep(c: Client, p: Proc): Action<Data>
    requires p < |c.roles| == |c.k.pcs|
  {
    if c.k.pcs[p].Dropping? then SleepAcquirePt
    else if c.k.pcs[p].Calling? then WakeupAcquirePt
    else
      match c.roles[p]
      case Arriving => Update(c.k.data.(count := c.k.data.count + 1))
      case Waiting => if c.k.data.count < c.k.data.procCount then Sleep else Wakeup
      case _ => ReleaseLk
  }

  /** Neither spinlock is ever held for good: some holder of one can always take its next step. */
  lemma {:induction false} NeverStuck(n: int, run: seq<Client>, procs: seq<Proc>, acts: seq<Action<Data>>, m: nat)
    returns (p: Proc, a: Action<Data>)
    requires IsRun(n, run, procs, acts) && m < |run| && (run[m].k.lk.Some? || run[m].k.pt.Some?)
    ensures Enabled(run[m], p, a) && (run[m].k.lk == Some(p) || run[m].k.pt == Some(p))
  {
    var c := run[m];
    RunKeepsInv(n, run, procs, acts, m);
    RunIsDisciplined(n, run, procs, acts);
    SleepWakeup.RunKeepsInv(Ready(), Project(run), procs, acts, m);
    if c.k.pt.Some? {
      PtHolderGoesOn(Ready(), c.k);
      p, a := c.k.pt.value, PtStep(c.k.pcs[c.k.pt.value]);
    } else {
      p := c.k.lk.value;
      a := LkStep(c, p);
      assert RoleOk(n, c, p) && ProcOk(Ready(), c.k, p);
    }
  }
}
