/**
 The life of processes and threads under every interleaving: fork and clone, exit, wait,
 join, kill, sleeping and scheduling, each action being one section under ptable.lock or
 one of the unlocked steps in which fork fills in a slot it has reserved.
 */
module Lifecycle {
  import opened Common
  import opened ProcTable

  /** What a process is in the middle of. */
  datatype Doing =
    | InUser
    | InWait
    | InJoin
    | Reserving(child: Slot)   // has an EMBRYO, whose parent is not yet set
    | Filling(child: Slot)     // has set the parent of its EMBRYO

  datatype State = State(
    t: Table,
    doing: seq<Doing>,
    init: Slot,
    nextPid: nat,
    exited: seq<nat>,          // pids of processes that have exited, in order
    reaped: seq<nat>)          // pids returned by wait and join, in order

  datatype Action =
    | Reserve(i: Slot) | GiveUp | Fill(pgdir: nat) | Launch
    | Exit
    | WaitReap(i: Slot) | WaitFail | WaitSleep
    | JoinReap(i: Slot) | JoinSleep
    | SleepOn(id: nat) | WakeAll(id: nat) | Kill(i: Slot)
    | Schedule | Yield

  predicate Live(ps: ProcState) {
    ps.Sleeping? || ps.Runnable? || ps.Running?
  }

  predicate Started(ps: ProcState) {
    Live(ps) || ps.Zombie?
  }

  predicate NoZombieThread(t: Table, c: Slot)
    requires c < |t|
  {
    forall i: Slot :: i < |t| ==> !IsZombieThread(t, i, c)
  }

  /** When the process in slot c can take action a. */
  predicate Enabled(s: State, c: Slot, a: Action) {
    && c < |s.t| == |s.doing|
    && var p, d := s.t[c], s.doing[c];
    match a
    case Reserve(i) => p.state.Running? && d.InUser? && i < |s.t| && s.t[i].state.Unused?
    case GiveUp => p.state.Running? && d.Reserving? && d.child < |s.t|
    case Fill(_) => p.state.Running? && d.Reserving? && d.child < |s.t|
    case Launch => p.state.Running? && d.Filling? && d.child < |s.t|
    case Exit => p.state.Running? && d.InUser? && c != s.init && p.parent.Some?
    case WaitReap(i) => p.state.Running? && (d.InUser? || d.InWait?) && i < |s.t| && IsZombieChild(s.t[i], c)
    case WaitFail =>
      p.state.Running? && (d.InUser? || d.InWait?) && !HasZombieChild(s.t, c) && (!HasChild(s.t, c) || p.killed)
    case WaitSleep =>
      p.state.Running? && (d.InUser? || d.InWait?) && !HasZombieChild(s.t, c) && HasChild(s.t, c) && !p.killed
    case JoinReap(i) => p.state.Running? && (d.InUser? || d.InJoin?) && i < |s.t| && IsZombieThread(s.t, i, c)
    case JoinSleep => p.state.Running? && (d.InUser? || d.InJoin?) && NoZombieThread(s.t, c)
    case SleepOn(_) => p.state.Running? && d.InUser?
    case WakeAll(_) => true
    case Kill(i) => i < |s.t|
    case Schedule => p.state.Runnable?
    case Yield => p.state.Running?
  }

  function Next(s: State, c: Slot, a: Action): State
    requires Enabled(s, c, a)
  {
    var p := s.t[c];
    match a
    case Reserve(i) =>
      s.(t := s.t[i := s.t[i].(state := Embryo, pid := s.nextPid)],
         nextPid := s.nextPid + 1, doing := s.doing[c := Reserving(i)])
    case GiveUp =>
      var i := s.doing[c].child;
      s.(t := s.t[i := s.t[i].(state := Unused)], doing := s.doing[c := InUser])
    case Fill(pgdir) =>
      var i := s.doing[c].child;
      s.(t := s.t[i := s.t[i].(parent := Some(c), pgdir := pgdir)], doing := s.doing[c := Filling(i)])
    case Launch =>
      var i := s.doing[c].child;
      s.(t := s.t[i := s.t[i].(state := Runnable)], doing := s.doing[c := InUser])
    case Exit =>
      s.(t := Exited(s.t, c, s.init), exited := s.exited + [p.pid])
    case WaitReap(i) =>
      s.(t := Reaped(s.t, i), reaped := s.reaped + [s.t[i].pid], doing := s.doing[c := InUser])
    case WaitFail => s.(doing := s.doing[c := InUser])
    case WaitSleep => s.(t := s.t[c := p.(state := Sleeping(OfProc(c)))], doing := s.doing[c := InWait])
    case JoinReap(i) =>
      s.(t := Reaped(s.t, i), reaped := s.reaped + [s.t[i].pid], doing := s.doing[c := InUser])
    case JoinSleep => s.(t := s.t[c := p.(state := Sleeping(OfProc(c)))], doing := s.doing[c := InJoin])
    case SleepOn(id) => s.(t := s.t[c := p.(state := Sleeping(Other(id)))])
    case WakeAll(id) => s.(t := Woken(s.t, Other(id)))
    case Kill(i) => s.(t := Killed(s.t, i))
    case Schedule => s.(t := s.t[c := p.(state := Running)])
    case Yield => s.(t := s.t[c := p.(state := Runnable)])
  }

  /** After userinit: one process, which has no parent. */
  ghost predicate Init(s: State) {
    && s.init < |s.t| == |s.doing| && s.exited == [] && s.reaped == [] && s.nextPid == 2
    && (forall i: Slot :: i < |s.t| ==> s.doing[i] == InUser && s.t[i].parent == None)
    && s.t[s.init].state == Runnable && s.t[s.init].pid == 1
    && forall i: Slot :: i < |s.t| && i != s.init ==> s.t[i].state == Unused
  }

  ghost predicate IsRun(run: seq<State>, actors: seq<Slot>, acts: seq<Action>) {
    && |run| == |acts| + 1 && |actors| == |acts| && Init(run[0])
    && forall i :: 0 <= i < |acts| ==> StepAt(run, actors, acts, i)
  }

  ghost predicate StepAt(run: seq<State>, actors: seq<Slot>, acts: seq<Action>, i: nat)
    requires i < |acts| == |actors| && |run| == |acts| + 1
  {
    Enabled(run[i], actors[i], acts[i]) && run[i + 1] == Next(run[i], actors[i], acts[i])
  }

  // ------------------------------------------------------------------
  // Parents.

  /** The embryo a process is setting up. */
  function EmbryoOf(d: Doing): Option<Slot> {
    if d.Reserving? || d.Filling? then Some(d.child) else None
  }

  ghost predicate ParentOk(s: State, i: Slot)
    requires i < |s.t| == |s.doing|
  {
    var p := s.t[i];
    && (p.parent.Some? ==> p.parent.value < |s.t| && p.parent.value != i && Live(s.t[p.parent.value].state))
    && (p.state.Unused? || i == s.init ==> p.parent.None?)
    && (Started(p.state) && i != s.init ==> p.parent.Some?)
    && (p.state.Embryo? ==> p.parent.None? || Filled(s, i, p.parent.value))
    && DoingOk(s, i)
  }

  predicate Filled(s: State, i: Slot, c: Slot) {
    c < |s.doing| && s.doing[c] == Filling(i)
  }

  ghost predicate DoingOk(s: State, c: Slot)
    requires c < |s.t| == |s.doing|
  {
    match s.doing[c]
    case InUser => !s.t[c].state.Sleeping? || s.t[c].state.chan.Other?
    case InWait => Live(s.t[c].state) && (s.t[c].state.Sleeping? ==> s.t[c].state.chan == OfProc(c))
    case InJoin => Live(s.t[c].state) && (s.t[c].state.Sleeping? ==> s.t[c].state.chan == OfProc(c))
    case Reserving(i) => Busy(s, c, i) && s.t[i].parent.None?
    case Filling(i) => Busy(s, c, i) && s.t[i].parent == Some(c)
  }

  predicate Busy(s: State, c: Slot, i: Slot)
    requires c < |s.t|
  {
    (s.t[c].state.Running? || s.t[c].state.Runnable?) && i < |s.t| && s.t[i].state.Embryo?
  }

  ghost predicate OneForker(s: State)
    requires |s.t| == |s.doing|
  {
    forall c: Slot, d: Slot :: c < |s.t| && d < |s.t| && EmbryoOf(s.doing[c]).Some? && EmbryoOf(s.doing[c]) == EmbryoOf(s.doing[d]) ==> c == d
  }

  ghost predicate Parents(s: State) {
    && s.init < |s.t| == |s.doing| && Live(s.t[s.init].state)
    && OneForker(s)
    && forall i: Slot :: i < |s.t| ==> ParentOk(s, i)
  }

  // ------------------------------------------------------------------
  // Nobody sleeps through the exit of a child.

  /** A process asleep in wait has no zombie child; one asleep in join no zombie thread. */
  ghost predicate NotMissed(s: State, c: Slot)
    requires c < |s.t| == |s.doing|
  {
    s.t[c].state.Sleeping? ==>
      && (s.doing[c].InWait? ==> !HasZombieChild(s.t, c))
      && (s.doing[c].InJoin? ==> NoZombieThread(s.t, c))
  }

  ghost predicate NoneMissed(s: State) {
    |s.t| == |s.doing| && forall c: Slot :: c < |s.t| ==> NotMissed(s, c)
  }

  // ------------------------------------------------------------------
  // Pids.

  ghost predicate PidOk(s: State, i: Slot)
    requires i < |s.t|
  {
    !s.t[i].state.Unused? ==>
      && 0 < s.t[i].pid < s.nextPid
      && s.t[i].pid !in s.reaped
      && (s.t[i].pid in s.exited <==> s.t[i].state.Zombie?)
      && forall j: Slot :: j < |s.t| && j != i && !s.t[j].state.Unused? ==> s.t[j].pid != s.t[i].pid
  }

  ghost predicate Pids(s: State) {
    && Distinct(s.exited) && Distinct(s.reaped) && s.nextPid > 0
    && (forall x :: x in s.reaped ==> x in s.exited)
    && (forall x :: x in s.exited ==> x < s.nextPid)
    && forall i: Slot :: i < |s.t| ==> PidOk(s, i)
  }

  ghost predicate Inv(s: State) {
    Parents(s) && NoneMissed(s) && Pids(s)
  }

  // ------------------------------------------------------------------
  // Preservation.

  lemma {:induction false} ForkKeepsParents(s: State, c: Slot, a: Action)
    requires Inv(s) && Enabled(s, c, a) && (a.Reserve? || a.GiveUp? || a.Fill? || a.Launch?)
    ensures Parents(Next(s, c, a))
  {
    var s' := Next(s, c, a);
    forall i: Slot | i < |s'.t| ensures ParentOk(s', i) {
      if a.Reserve? {
        ReserveKeepsParentOf(s, c, a.i, i);
      } else if a.GiveUp? {
        GiveUpKeepsParentOf(s, c, i);
      } else {
        FillKeepsParentOf(s, c, a, i);
      }
    }
    ForkKeepsOneForker(s, c, a);
    assert ParentOk(s, c);
  }

  lemma {:induction false} ReserveKeepsParentOf(s: State, c: Slot, n: Slot, i: Slot)
    requires Inv(s) && Enabled(s, c, Reserve(n)) && i < |s.t|
    ensures ParentOk(Next(s, c, Reserve(n)), i)
  {
    assert ParentOk(s, c) && ParentOk(s, n) && ParentOk(s, i);
  }

  lemma {:induction false} GiveUpKeepsParentOf(s: State, c: Slot, i: Slot)
    requires Inv(s) && Enabled(s, c, GiveUp) && i < |s.t|
    ensures ParentOk(Next(s, c, GiveUp), i)
  {
    assert ParentOk(s, c) && ParentOk(s, i);
  }

  lemma {:induction false} FillKeepsParentOf(s: State, c: Slot, a: Action, i: Slot)
    requires Inv(s) && Enabled(s, c, a) && i < |s.t| && (a.Fill? || a.Launch?)
    ensures ParentOk(Next(s, c, a), i)
  {
    assert ParentOk(s, c) && ParentOk(s, i);
  }

  lemma {:induction false} ForkKeepsOneForker(s: State, c: Slot, a: Action)
    requires Inv(s) && Enabled(s, c, a) && (a.Reserve? || a.GiveUp? || a.Fill? || a.Launch?)
    ensures var s' := Next(s, c, a); |s'.t| == |s'.doing| && OneForker(s')
  {
    if a.Reserve? {
      forall d: Slot | d < |s.t| ensures EmbryoOf(s.doing[d]) != Some(a.i) {
        assert ParentOk(s, d);
      }
    }
  }

  lemma {:induction false} ReapKeepsParents(s: State, c: Slot, a: Action)
    requires Inv(s) && Enabled(s, c, a) && (a.WaitReap? || a.JoinReap?)
    ensures Parents(Next(s, c, a))
  {
    var s' := Next(s, c, a);
    forall i: Slot | i < |s'.t| ensures ParentOk(s', i) {
      assert ParentOk(s, i) && ParentOk(s, a.i);
    }
  }

  lemma {:induction false} ExitKeepsParentOf(s: State, c: Slot, i: Slot)
    requires Inv(s) && Enabled(s, c, Exit) && i < |s.t|
    ensures ParentOk(Next(s, c, Exit), i)
  {
    assert ParentOk(s, c) && ParentOk(s, i);
    ExitedAt(s.t, c, s.init, i);
    ExitedAt(s.t, c, s.init, s.init);
    if s.t[i].parent.Some? {
      ExitedAt(s.t, c, s.init, s.t[i].parent.value);
    }
    if EmbryoOf(s.doing[i]).Some? {
      ExitedAt(s.t, c, s.init, s.doing[i].child);
    }
  }

  lemma {:induction false} ExitKeepsParents(s: State, c: Slot)
    requires Inv(s) && Enabled(s, c, Exit)
    ensures Parents(Next(s, c, Exit))
  {
    var s' := Next(s, c, Exit);
    assert ParentOk(s, c);
    ExitedAt(s.t, c, s.init, s.init);
    forall i: Slot | i < |s'.t| ensures ParentOk(s', i) {
      ExitKeepsParentOf(s, c, i);
    }
  }

  lemma {:induction false} OtherKeepsParents(s: State, c: Slot, a: Action)
    requires Inv(s) && Enabled(s, c, a)
    requires !(a.Reserve? || a.GiveUp? || a.Fill? || a.Launch? || a.WaitReap? || a.JoinReap? || a.Exit?)
    ensures Parents(Next(s, c, a))
  {
    var s' := Next(s, c, a);
    forall i: Slot | i < |s'.t| ensures ParentOk(s', i) {
      if a.WakeAll? || a.Kill? {
        WakingKeepsParentOf(s, c, a, i);
      } else if a.Schedule? || a.Yield? {
        RunningKeepsParentOf(s, c, a, i);
      } else if a.WaitFail? {
        WaitFailKeepsParentOf(s, c, i);
      } else {
        SleepKeepsParentOf(s, c, a, i);
      }
    }
  }

  lemma {:induction false} WaitFailKeepsParentOf(s: State, c: Slot, i: Slot)
    requires Inv(s) && Enabled(s, c, WaitFail) && i < |s.t|
    ensures ParentOk(Next(s, c, WaitFail), i)
  {
    assert ParentOk(s, c) && ParentOk(s, i);
  }

  lemma {:induction false} SleepKeepsParentOf(s: State, c: Slot, a: Action, i: Slot)
    requires Inv(s) && Enabled(s, c, a) && i < |s.t| && (a.WaitSleep? || a.JoinSleep? || a.SleepOn?)
    ensures ParentOk(Next(s, c, a), i)
  {
    assert ParentOk(s, c) && ParentOk(s, i);
  }

  lemma {:induction false} WakingKeepsParentOf(s: State, c: Slot, a: Action, i: Slot)
    requires Inv(s) && Enabled(s, c, a) && i < |s.t| && (a.WakeAll? || a.Kill?)
    ensures ParentOk(Next(s, c, a), i)
  {
    assert ParentOk(s, i);
  }

  lemma {:induction false} RunningKeepsParentOf(s: State, c: Slot, a: Action, i: Slot)
    requires Inv(s) && Enabled(s, c, a) && i < |s.t| && (a.Schedule? || a.Yield?)
    ensures ParentOk(Next(s, c, a), i)
  {
    assert ParentOk(s, c) && ParentOk(s, i);
  }

  /** No slot gains a zombie in the eyes of a sleeping parent, and no sleeper is new. */
  lemma {:induction false} MissedFrame(s: State, s': State)
    requires NoneMissed(s) && |s'.t| == |s.t| == |s'.doing|
    requires forall i: Slot :: i < |s.t| && s'.t[i].state.Zombie? ==>
               s'.t[i].parent == s.t[i].parent && s'.t[i].pgdir == s.t[i].pgdir && s.t[i].state.Zombie?
    requires forall i: Slot :: i < |s.t| && s'.t[i].state.Sleeping? ==>
               s.t[i].state.Sleeping? && s'.t[i].pgdir == s.t[i].pgdir && s'.doing[i] == s.doing[i]
    ensures NoneMissed(s')
  {
    forall c: Slot | c < |s'.t| ensures NotMissed(s', c) {
      assert NotMissed(s, c);
      if s'.t[c].state.Sleeping? && s'.doing[c].InJoin? {
        forall i: Slot | i < |s'.t| ensures !IsZombieThread(s'.t, i, c) {
          assert !IsZombieThread(s.t, i, c);
        }
      }
    }
  }

  lemma {:induction false} SleepMissesNone(s: State, c: Slot, a: Action)
    requires Inv(s) && Enabled(s, c, a) && (a.WaitSleep? || a.JoinSleep? || a.SleepOn?)
    ensures NoneMissed(Next(s, c, a))
  {
    var s' := Next(s, c, a);
    forall d: Slot | d < |s'.t| ensures NotMissed(s', d) {
      assert NotMissed(s, d);
      if s'.t[d].state.Sleeping? && s'.doing[d].InJoin? {
        forall i: Slot | i < |s'.t| ensures !IsZombieThread(s'.t, i, d) {
          assert !IsZombieThread(s.t, i, d);
        }
      }
    }
  }

  /** exit wakes whoever becomes the parent of a zombie. */
  lemma {:induction false} ExitMissesNone(s: State, c: Slot)
    requires Inv(s) && Enabled(s, c, Exit)
    ensures NoneMissed(Next(s, c, Exit))
  {
    var s' := Next(s, c, Exit);
    assert ParentOk(s, c);
    forall d: Slot | d < |s'.t| ensures NotMissed(s', d) {
      assert ParentOk(s, d) && NotMissed(s, d);
      ExitedAt(s.t, c, s.init, d);
      if s'.t[d].state.Sleeping? && !s'.doing[d].InUser? {
        forall i: Slot | i < |s'.t| ensures IsZombieChild(s'.t[i], d) ==> IsZombieChild(s.t[i], d) {
          ExitedAt(s.t, c, s.init, i);
          assert s.t[i].state.Zombie? && s.t[i].parent == Some(c) ==> HasZombieChild(s.t, c);
        }
        forall i: Slot | i < |s'.t| ensures IsZombieThread(s'.t, i, d) ==> IsZombieThread(s.t, i, d) {
          ExitedAt(s.t, c, s.init, i);
        }
      }
    }
  }

  lemma {:induction false} OtherMissesNone(s: State, c: Slot, a: Action)
    requires Inv(s) && Enabled(s, c, a)
    requires !(a.WaitSleep? || a.JoinSleep? || a.SleepOn? || a.Exit?)
    ensures NoneMissed(Next(s, c, a))
  {
    var s' := Next(s, c, a);
    assert ParentOk(s, c);
    MissedFrame(s, s');
  }

  lemma {:induction false} ReserveKeepsPids(s: State, c: Slot, a: Action)
    requires Inv(s) && Enabled(s, c, a) && a.Reserve?
    ensures Pids(Next(s, c, a))
  {
    var s' := Next(s, c, a);
    forall j: Slot | j < |s.t| && !s.t[j].state.Unused? ensures s.t[j].pid < s.nextPid {
      assert PidOk(s, j);
    }
    forall i: Slot | i < |s'.t| ensures PidOk(s', i) {
      assert PidOk(s, i);
    }
  }

  lemma {:induction false} ReapKeepsPids(s: State, c: Slot, a: Action)
    requires Inv(s) && Enabled(s, c, a) && (a.WaitReap? || a.JoinReap?)
    ensures Pids(Next(s, c, a))
  {
    var s' := Next(s, c, a);
    assert PidOk(s, a.i);
    forall i: Slot | i < |s'.t| ensures PidOk(s', i) {
      assert PidOk(s, i);
    }
  }

  lemma {:induction false} ExitKeepsPids(s: State, c: Slot)
    requires Inv(s) && Enabled(s, c, Exit)
    ensures Pids(Next(s, c, Exit))
  {
    var s' := Next(s, c, Exit);
    assert PidOk(s, c);
    forall i: Slot | i < |s'.t| ensures s'.t[i].pid == s.t[i].pid && (s'.t[i].state.Unused? <==> s.t[i].state.Unused?) {
      ExitedAt(s.t, c, s.init, i);
    }
    forall i: Slot | i < |s'.t| ensures PidOk(s', i) {
      assert PidOk(s, i);
      ExitedAt(s.t, c, s.init, i);
    }
  }

  lemma {:induction false} OtherKeepsPids(s: State, c: Slot, a: Action)
    requires Inv(s) && Enabled(s, c, a) && !(a.Reserve? || a.WaitReap? || a.JoinReap? || a.Exit?)
    ensures Pids(Next(s, c, a))
  {
    var s' := Next(s, c, a);
    forall i: Slot | i < |s'.t| ensures PidOk(s', i) {
      OtherKeepsPidOf(s, c, a, i);
    }
  }

  /** Slot j keeps its pid, and does not come into use or become or cease to be a zombie. */
  ghost predicate KeepsPidAt(t: Table, t': Table, j: Slot)
    requires j < |t| == |t'|
  {
    && t'[j].pid == t[j].pid
    && (!t'[j].state.Unused? ==> !t[j].state.Unused? && (t'[j].state.Zombie? <==> t[j].state.Zombie?))
  }

  lemma {:induction false} OtherKeepsPidAt(s: State, c: Slot, a: Action, j: Slot)
    requires Inv(s) && Enabled(s, c, a) && !(a.Reserve? || a.WaitReap? || a.JoinReap? || a.Exit?) && j < |s.t|
    ensures |Next(s, c, a).t| == |s.t| && KeepsPidAt(s.t, Next(s, c, a).t, j)
  {
    assert ParentOk(s, c);
  }

  lemma {:induction false} KeptPidOk(s: State, s': State, i: Slot)
    requires i < |s.t| == |s'.t| && PidOk(s, i)
    requires s'.nextPid == s.nextPid && s'.exited == s.exited && s'.reaped == s.reaped
    requires forall j: Slot :: j < |s.t| ==> KeepsPidAt(s.t, s'.t, j)
    ensures PidOk(s', i)
  {
    assert KeepsPidAt(s.t, s'.t, i);
    if !s'.t[i].state.Unused? {
      forall j: Slot | j < |s.t| && j != i && !s'.t[j].state.Unused? ensures s'.t[j].pid != s'.t[i].pid {
        assert KeepsPidAt(s.t, s'.t, j);
      }
    }
  }

  lemma {:induction false} OtherKeepsPidOf(s: State, c: Slot, a: Action, i: Slot)
    requires Inv(s) && Enabled(s, c, a) && !(a.Reserve? || a.WaitReap? || a.JoinReap? || a.Exit?) && i < |s.t|
    ensures PidOk(Next(s, c, a), i)
  {
    var s' := Next(s, c, a);
    forall j: Slot | j < |s.t| ensures |s'.t| == |s.t| && KeepsPidAt(s.t, s'.t, j) {
      OtherKeepsPidAt(s, c, a, j);
    }
    assert PidOk(s, i);
    KeptPidOk(s, s', i);
  }

  lemma {:induction false} ActionKeepsInv(s: State, c: Slot, a: Action)
    requires Inv(s) && Enabled(s, c, a)
    ensures Inv(Next(s, c, a))
  {
    ActionKeepsParents(s, c, a);
    ActionMissesNone(s, c, a);
    ActionKeepsPids(s, c, a);
  }

  lemma {:induction false} ActionKeepsParents(s: State, c: Slot, a: Action)
    requires Inv(s) && Enabled(s, c, a)
    ensures Parents(Next(s, c, a))
  {
    if a.Exit? {
      ExitKeepsParents(s, c);
    } else if a.WaitReap? || a.JoinReap? {
      ReapKeepsParents(s, c, a);
    } else if a.Reserve? || a.GiveUp? || a.Fill? || a.Launch? {
      ForkKeepsParents(s, c, a);
    } else {
      OtherKeepsParents(s, c, a);
    }
  }

  lemma {:induction false} ActionMissesNone(s: State, c: Slot, a: Action)
    requires Inv(s) && Enabled(s, c, a)
    ensures NoneMissed(Next(s, c, a))
  {
    if a.Exit? {
      ExitMissesNone(s, c);
    } else if a.WaitSleep? || a.JoinSleep? || a.SleepOn? {
      SleepMissesNone(s, c, a);
    } else {
      OtherMissesNone(s, c, a);
    }
  }

  lemma {:induction false} ActionKeepsPids(s: State, c: Slot, a: Action)
    requires Inv(s) && Enabled(s, c, a)
    ensures Pids(Next(s, c, a))
  {
    if a.Exit? {
      ExitKeepsPids(s, c);
    } else if a.WaitReap? || a.JoinReap? {
      ReapKeepsPids(s, c, a);
    } else if a.Reserve? {
      ReserveKeepsPids(s, c, a);
    } else {
      OtherKeepsPids(s, c, a);
    }
  }

  lemma {:induction false} RunKeepsInv(run: seq<State>, actors: seq<Slot>, acts: seq<Action>, n: nat)
    requires IsRun(run, actors, acts) && n < |run|
    ensures Inv(run[n])
  {
    if n > 0 {
      RunKeepsInv(run, actors, acts, n - 1);
      assert StepAt(run, actors, acts, n - 1);
      ActionKeepsInv(run[n - 1], actors[n - 1], acts[n - 1]);
    }
  }

  /**
   The exit and reap protocol over every run: every started process but init has a live
   parent; nobody sleeps in wait with a zombie child or in join with a zombie thread; and
   each pid is returned by at most one wait or join, and only after its process exited.
   */
  lemma {:induction false} ExitAndReapAreSafe(run: seq<State>, actors: seq<Slot>, acts: seq<Action>, n: nat)
    requires IsRun(run, actors, acts) && n < |run|
    ensures var s := run[n];
            && s.init < |s.t| == |s.doing|
            && (forall i: Slot :: i < |s.t| && i != s.init && Started(s.t[i].state) ==>
                  s.t[i].parent.Some? && s.t[i].parent.value < |s.t| && Live(s.t[s.t[i].parent.value].state))
            && (forall c: Slot :: c < |s.t| && s.t[c].state.Sleeping? && s.doing[c].InWait? ==> !HasZombieChild(s.t, c))
            && (forall c: Slot :: c < |s.t| && s.t[c].state.Sleeping? && s.doing[c].InJoin? ==> NoZombieThread(s.t, c))
            && Distinct(s.reaped) && forall x :: x in s.reaped ==> x in s.exited
  {
    RunKeepsInv(run, actors, acts, n);
    var s := run[n];
    forall i: Slot | i < |s.t| && i != s.init && Started(s.t[i].state)
      ensures s.t[i].parent.Some? && s.t[i].parent.value < |s.t| && Live(s.t[s.t[i].parent.value].state)
    {
      assert ParentOk(s, i);
    }
    forall c: Slot | c < |s.t| && s.t[c].state.Sleeping?
      ensures s.doing[c].InWait? ==> !HasZombieChild(s.t, c)
      ensures s.doing[c].InJoin? ==> NoZombieThread(s.t, c)
    {
      assert NotMissed(s, c);
    }
  }

  // ------------------------------------------------------------------
  // What the table says, in terms of the actions that led to it.

  predicate IsReap(a: Action, i: Slot) {
    (a.WaitReap? || a.JoinReap?) && a.i == i
  }

  /** The slot that process c reserved last. */
  ghost function LastReserved(actors: seq<Slot>, acts: seq<Action>, n: nat, c: Slot): Option<Slot>
    requires n <= |acts| == |actors|
  {
    if n == 0 then None
    else if actors[n - 1] == c && acts[n - 1].Reserve? then Some(acts[n - 1].i)
    else LastReserved(actors, acts, n - 1, c)
  }

  /** Step n is the one in which fork or clone, by its actor, fills in slot i. */
  ghost predicate FillsAt(actors: seq<Slot>, acts: seq<Action>, n: nat, i: Slot)
    requires n < |acts| == |actors|
  {
    acts[n].Fill? && LastReserved(actors, acts, n, actors[n]) == Some(i)
  }

  /** Who forked the process in slot i, or init if that one has exited. */
  ghost function Forker(init: Slot, actors: seq<Slot>, acts: seq<Action>, n: nat, i: Slot): Option<Slot>
    requires n <= |acts| == |actors|
  {
    if n == 0 then None
    else
      var before := Forker(init, actors, acts, n - 1, i);
      if FillsAt(actors, acts, n - 1, i) then Some(actors[n - 1])
      else if IsReap(acts[n - 1], i) then None
      else if acts[n - 1].Exit? && before == Some(actors[n - 1]) then Some(init)
      else before
  }

  /** Whether slot i was killed since it was last reaped. */
  ghost function KilledSince(killed: bool, acts: seq<Action>, n: nat, i: Slot): bool
    requires n <= |acts|
  {
    if n == 0 then killed
    else if acts[n - 1] == Kill(i) then true
    else if IsReap(acts[n - 1], i) then false
    else KilledSince(killed, acts, n - 1, i)
  }

  /** The page directory given to slot i when it was last filled in. */
  ghost function FilledPgdir(pgdir: nat, actors: seq<Slot>, acts: seq<Action>, n: nat, i: Slot): nat
    requires n <= |acts| == |actors|
  {
    if n == 0 then pgdir
    else if FillsAt(actors, acts, n - 1, i) then acts[n - 1].pgdir
    else FilledPgdir(pgdir, actors, acts, n - 1, i)
  }

  lemma {:induction false} ReservedIsHistory(run: seq<State>, actors: seq<Slot>, acts: seq<Action>, n: nat, c: Slot)
    requires IsRun(run, actors, acts) && n < |run| && c < |run[0].t|
    ensures |run[n].t| == |run[n].doing| == |run[0].t| && run[n].init == run[0].init
    ensures EmbryoOf(run[n].doing[c]).Some? ==> EmbryoOf(run[n].doing[c]) == LastReserved(actors, acts, n, c)
  {
    if n > 0 {
      ReservedIsHistory(run, actors, acts, n - 1, c);
      assert StepAt(run, actors, acts, n - 1);
    }
  }

  /** The parent of a process is who forked it, or init; only kill marks it; its page directory is the one it was given. */
  lemma {:induction false} TableIsHistory(run: seq<State>, actors: seq<Slot>, acts: seq<Action>, n: nat, i: Slot)
    requires IsRun(run, actors, acts) && n < |run| && i < |run[0].t|
    ensures |run[n].t| == |run[0].t|
    ensures run[n].t[i].parent == Forker(run[0].init, actors, acts, n, i)
    ensures run[n].t[i].killed == KilledSince(run[0].t[i].killed, acts, n, i)
    ensures run[n].t[i].pgdir == FilledPgdir(run[0].t[i].pgdir, actors, acts, n, i)
  {
    if n > 0 {
      TableIsHistory(run, actors, acts, n - 1, i);
      assert StepAt(run, actors, acts, n - 1);
      ReservedIsHistory(run, actors, acts, n - 1, actors[n - 1]);
      SlotAfter(run[n - 1], actors[n - 1], acts[n - 1], i);
    }
  }

  lemma {:induction false} SlotAfter(s: State, c: Slot, a: Action, i: Slot)
    requires Enabled(s, c, a) && i < |s.t|
    ensures var s' := Next(s, c, a);
            && |s'.t| == |s.t|
            && s'.t[i].pid == (if a == Reserve(i) then s.nextPid else if IsReap(a, i) then 0 else s.t[i].pid)
            && s'.t[i].killed == (a == Kill(i) || (s.t[i].killed && !IsReap(a, i)))
            && s'.t[i].pgdir == (if a.Fill? && s.doing[c].child == i then a.pgdir else s.t[i].pgdir)
            && s'.t[i].parent == ParentAfter(s, c, a, i)
  {
    if a.Exit? {
      ExitedAt(s.t, c, s.init, i);
    }
  }

  lemma {:induction false} StateOfSlotAfter(s: State, c: Slot, a: Action, i: Slot)
    requires Enabled(s, c, a) && i < |s.t|
    ensures |Next(s, c, a).t| == |s.t| && Next(s, c, a).t[i].state == StateAfter(s, c, a, i)
  {
    if a.Exit? {
      ExitedAt(s.t, c, s.init, i);
    }
  }

  /** The state of the process in slot i after process c has done a. */
  ghost function StateAfter(s: State, c: Slot, a: Action, i: Slot): ProcState
    requires Enabled(s, c, a) && i < |s.t|
  {
    var asleep := s.t[i].state.Sleeping?;
    if a == Reserve(i) then Embryo
    else if IsReap(a, i) || (a.GiveUp? && s.doing[c].child == i) then Unused
    else if (a.Launch? && s.doing[c].child == i) || (a.Yield? && c == i) then Runnable
    else if a.Schedule? && c == i then Running
    else if a.Exit? && c == i then Zombie
    else if (a.WaitSleep? || a.JoinSleep?) && c == i then Sleeping(OfProc(c))
    else if a.SleepOn? && c == i then Sleeping(Other(a.id))
    else if asleep && (a == Kill(i) || (a.WakeAll? && s.t[i].state.chan == Other(a.id)) || (a.Exit? && ExitWakes(s.t, c, s.init, s.t[i]))) then Runnable
    else s.t[i].state
  }

  function ParentAfter(s: State, c: Slot, a: Action, i: Slot): Option<Slot>
    requires Enabled(s, c, a) && i < |s.t|
  {
    if a.Fill? && s.doing[c].child == i then Some(c)
    else if IsReap(a, i) then None
    else if a.Exit? && s.t[i].parent == Some(c) then Some(s.init)
    else s.t[i].parent
  }

  /** After wakeup(id) nobody sleeps on it, and nobody else is touched. */
  lemma {:induction false} WakeupReachesAll(s: State, c: Slot, id: nat, i: Slot)
    requires Enabled(s, c, WakeAll(id)) && i < |s.t|
    ensures var s' := Next(s, c, WakeAll(id));
            && |s'.t| == |s.t| && s'.t[i].state != Sleeping(Other(id))
            && (s.t[i].state == Sleeping(Other(id)) ==> s'.t[i] == s.t[i].(state := Runnable))
            && (s.t[i].state != Sleeping(Other(id)) ==> s'.t[i] == s.t[i])
  {
  }

  ghost predicate ExitsAt(run: seq<State>, actors: seq<Slot>, acts: seq<Action>, n: nat, pid: nat)
    requires n < |acts| == |actors| && |run| == |acts| + 1
  {
    acts[n].Exit? && actors[n] < |run[n].t| && run[n].t[actors[n]].pid == pid
  }

  /** At step n wait or join returns pid. */
  ghost predicate ReturnsAt(run: seq<State>, acts: seq<Action>, n: nat, pid: nat)
    requires n < |acts| && |run| == |acts| + 1
  {
    (acts[n].WaitReap? || acts[n].JoinReap?) && acts[n].i < |run[n].t| && run[n].t[acts[n].i].pid == pid
  }

  lemma {:induction false} ListsAreHistory(run: seq<State>, actors: seq<Slot>, acts: seq<Action>, n: nat, pid: nat)
    requires IsRun(run, actors, acts) && n < |run|
    ensures pid in run[n].exited <==> exists m :: 0 <= m < n && ExitsAt(run, actors, acts, m, pid)
    ensures pid in run[n].reaped <==> exists m :: 0 <= m < n && ReturnsAt(run, acts, m, pid)
  {
    if n > 0 {
      ListsAreHistory(run, actors, acts, n - 1, pid);
      ListsAfter(run, actors, acts, n - 1, pid);
    }
  }

  lemma {:induction false} ListsAfter(run: seq<State>, actors: seq<Slot>, acts: seq<Action>, n: nat, pid: nat)
    requires IsRun(run, actors, acts) && n < |acts|
    ensures pid in run[n + 1].exited <==> pid in run[n].exited || ExitsAt(run, actors, acts, n, pid)
    ensures pid in run[n + 1].reaped <==> pid in run[n].reaped || ReturnsAt(run, acts, n, pid)
  {
    assert StepAt(run, actors, acts, n);
  }

  /**
   wait and join in every run: a pid is returned to the process that forked it, or to init
   if that one has exited, after it has itself exited, and never a second time.
   */
  lemma {:induction false} ReturnedOnceToItsForker(run: seq<State>, actors: seq<Slot>, acts: seq<Action>, n: nat, pid: nat)
    requires IsRun(run, actors, acts) && n < |acts| && ReturnsAt(run, acts, n, pid)
    ensures Forker(run[0].init, actors, acts, n, acts[n].i) == Some(actors[n])
    ensures exists m :: 0 <= m < n && ExitsAt(run, actors, acts, m, pid)
    ensures forall m :: 0 <= m < n ==> !ReturnsAt(run, acts, m, pid)
  {
    var i := acts[n].i;
    assert StepAt(run, actors, acts, n);
    ReservedIsHistory(run, actors, acts, n, 0);
    TableIsHistory(run, actors, acts, n, i);
    RunKeepsInv(run, actors, acts, n);
    assert PidOk(run[n], i);
    ListsAreHistory(run, actors, acts, n, pid);
  }

  // ------------------------------------------------------------------
  // That processes are forked, exit and are waited for.

  lemma {:induction false} Extend(run: seq<State>, actors: seq<Slot>, acts: seq<Action>, c: Slot, a: Action)
    returns (run': seq<State>, actors': seq<Slot>, acts': seq<Action>)
    requires IsRun(run, actors, acts) && Enabled(run[|run| - 1], c, a)
    ensures IsRun(run', actors', acts') && run' == run + [Next(run[|run| - 1], c, a)] && actors' == actors + [c] && acts' == acts + [a]
  {
    run', actors', acts' := run + [Next(run[|run| - 1], c, a)], actors + [c], acts + [a];
    forall i | 0 <= i < |acts'| ensures StepAt(run', actors', acts', i) {
      if i < |acts| {
        assert StepAt(run, actors, acts, i);
      }
    }
  }

  lemma {:induction false} ForkRun(s: State, j: Slot, pgdir: nat) returns (run: seq<State>, actors: seq<Slot>, acts: seq<Action>)
    requires Init(s) && j < |s.t| && j != s.init
    ensures IsRun(run, actors, acts) && run[0] == s
    ensures var s' := run[|run| - 1];
            && |s'.t| == |s'.doing| == |s.t| && s'.init == s.init
            && s'.t[s.init].state.Running? && s'.doing[s.init].InUser?
            && s'.t[j].state.Runnable? && s'.t[j].pid == 2 && s'.t[j].parent == Some(s.init) && s'.doing[j].InUser?
  {
    run, actors, acts := [s], [], [];
    run, actors, acts := Extend(run, actors, acts, s.init, Schedule);
    run, actors, acts := Extend(run, actors, acts, s.init, Reserve(j));
    run, actors, acts := Extend(run, actors, acts, s.init, Fill(pgdir));
    run, actors, acts := Extend(run, actors, acts, s.init, Launch);
  }

  /** From every initial table with a free slot: init forks a child there, which exits, and wait returns its pid. */
  lemma {:induction false} ChildrenAreReaped(s: State, j: Slot, pgdir: nat) returns (run: seq<State>, actors: seq<Slot>, acts: seq<Action>)
    requires Init(s) && j < |s.t| && j != s.init
    ensures IsRun(run, actors, acts) && run[0] == s && |acts| > 0
    ensures acts[|acts| - 1] == WaitReap(j) && actors[|acts| - 1] == s.init && ReturnsAt(run, acts, |acts| - 1, 2)
    ensures |run[|run| - 1].t| == |s.t| && run[|run| - 1].t[j].state.Unused?
  {
    run, actors, acts := ForkRun(s, j, pgdir);
    run, actors, acts := Extend(run, actors, acts, j, Schedule);
    var s1 := run[|run| - 1];
    ExitedAt(s1.t, j, s.init, j);
    ExitedAt(s1.t, j, s.init, s.init);
    run, actors, acts := Extend(run, actors, acts, j, Exit);
    run, actors, acts := Extend(run, actors, acts, s.init, WaitReap(j));
  }
}
