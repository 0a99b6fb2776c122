/**
 The process table: what waking, exiting and reaping do to it.

 The table operations are first given as functions on the table; class `Ptable` holds the
 loops that compute them.  Processes are known by their slot.
 */
module ProcTable {
  import opened Common

  type Slot = nat

  /** What a process sleeps on: a process (in wait and join) or something else. */
  datatype Chan = OfProc(p: Slot) | Other(id: nat)

  datatype ProcState = Unused | Embryo | Sleeping(chan: Chan) | Runnable | Running | Zombie

  datatype Proc = Proc(state: ProcState, pid: nat, parent: Option<Slot>, killed: bool, pgdir: nat)

  type Table = seq<Proc>

  // ------------------------------------------------------------------
  // Table operations.

  function WokenProc(p: Proc, chan: Chan): Proc {
    if p.state == Sleeping(chan) then p.(state := Runnable) else p
  }

  /** wakeup1 */
  function Woken(t: Table, chan: Chan): (r: Table)
    ensures |r| == |t| && forall i :: 0 <= i < |t| ==> r[i] == WokenProc(t[i], chan)
  {
    seq(|t|, i requires 0 <= i < |t| => WokenProc(t[i], chan))
  }

  predicate IsZombieChild(p: Proc, parent: Slot) {
    p.parent == Some(parent) && p.state.Zombie?
  }

  /** A child that join(parent) looks for: a thread in the same address space. */
  predicate IsZombieThread(t: Table, i: Slot, parent: Slot)
    requires i < |t| && parent < |t|
  {
    IsZombieChild(t[i], parent) && t[i].pgdir == t[parent].pgdir
  }

  predicate HasZombieChild(t: Table, parent: Slot) {
    exists i :: 0 <= i < |t| && IsZombieChild(t[i], parent)
  }

  predicate HasChild(t: Table, parent: Slot) {
    exists i :: 0 <= i < |t| && t[i].parent == Some(parent)
  }

  function AdoptedProc(p: Proc, from: Slot, to: Slot): Proc {
    if p.parent == Some(from) then p.(parent := Some(to)) else p
  }

  /** All children of `from` become children of `to`. */
  function Adopted(t: Table, from: Slot, to: Slot): (r: Table)
    ensures |r| == |t| && forall i :: 0 <= i < |t| ==> r[i] == AdoptedProc(t[i], from, to)
  {
    seq(|t|, i requires 0 <= i < |t| => AdoptedProc(t[i], from, to))
  }

  /** exit's loop: children are passed to init, which is woken if one of them is a zombie. */
  function Abandoned(t: Table, c: Slot, init: Slot): (r: Table)
    ensures |r| == |t|
  {
    if HasZombieChild(t, c) then Woken(Adopted(t, c, init), OfProc(init)) else Adopted(t, c, init)
  }

  /** The whole of exit under ptable.lock. */
  function Exited(t: Table, c: Slot, init: Slot): (r: Table)
    requires c < |t| && t[c].parent.Some?
    ensures |r| == |t|
  {
    var t1 := Woken(t, OfProc(t[c].parent.value));
    var t2 := Abandoned(t1, c, init);
    t2[c := t2[c].(state := Zombie)]
  }

  /** exit wakes p: it waits for the exiting process, or it is init and inherits a zombie. */
  ghost predicate ExitWakes(t: Table, c: Slot, init: Slot, p: Proc)
    requires c < |t| && t[c].parent.Some?
  {
    || p.state == Sleeping(OfProc(t[c].parent.value))
    || (p.state == Sleeping(OfProc(init)) && exists k :: 0 <= k < |t| && t[k].parent == Some(c) && t[k].state.Zombie?)
  }

  /** What exit does to each slot: whom it wakes, whom it hands to init, whom it leaves alone. */
  lemma {:induction false} ExitedAt(t: Table, c: Slot, init: Slot, i: Slot)
    requires c < |t| && t[c].parent.Some? && i < |t|
    ensures var p := t[i];
            Exited(t, c, init)[i] ==
            p.(state := if i == c then Zombie else if ExitWakes(t, c, init, p) then Runnable else p.state,
               parent := if p.parent == Some(c) then Some(init) else p.parent)
  {
    assert HasZombieChild(t, c) <==> exists k :: 0 <= k < |t| && t[k].parent == Some(c) && t[k].state.Zombie?;
    var t1 := Woken(t, OfProc(t[c].parent.value));
    if HasZombieChild(t, c) {
      var k :| 0 <= k < |t| && IsZombieChild(t[k], c);
      assert IsZombieChild(t1[k], c);
    }
  }

  /** wait and join give the slot of a reaped child back. */
  function Reaped(t: Table, i: Slot): (r: Table)
    requires i < |t|
  {
    t[i := t[i].(state := Unused, pid := 0, parent := None, killed := false)]
  }

  function Killed(t: Table, i: Slot): (r: Table)
    requires i < |t|
  {
    var q := t[i].(killed := true);
    t[i := if q.state.Sleeping? then q.(state := Runnable) else q]
  }

  class Ptable {
    var t: Table

    constructor (t: Table)
      ensures this.t == t
    {
      this.t := t;
    }

    method Wakeup1(chan: Chan)
      modifies this
      ensures |t| == |old(t)|
      ensures forall i :: 0 <= i < |t| ==>
                t[i] == if old(t)[i].state == Sleeping(chan) then old(t)[i].(state := Runnable) else old(t)[i]
      ensures t == Woken(old(t), chan)
    {
      for i := 0 to |t|
        invariant |t| == |old(t)|
        invariant forall k :: 0 <= k < i ==> t[k] == WokenProc(old(t)[k], chan)
        invariant forall k :: i <= k < |t| ==> t[k] == old(t)[k]
      {
        if t[i].state == Sleeping(chan) {
          t := t[i := t[i].(state := Runnable)];
        }
      }
    }

    /** Slots below i have been passed to init, which has been woken if there was need. */
    ghost predicate AdoptedSoFar(t0: Table, i: nat, c: Slot, init: Slot, woke: bool)
      reads this
    {
      && |t| == |t0| && i <= |t|
      && (woke <==> exists k :: 0 <= k < i && IsZombieChild(t0[k], c))
      && forall k :: 0 <= k < |t| ==>
           t[k] == var p := if k < i then AdoptedProc(t0[k], c, init) else t0[k];
                   if woke then WokenProc(p, OfProc(init)) else p
    }

    method AbandonChildren(c: Slot, init: Slot)
      modifies this
      ensures t == Abandoned(old(t), c, init)
      ensures |t| == |old(t)| && forall i :: 0 <= i < |t| ==>
                t[i].parent == (if old(t)[i].parent == Some(c) then Some(init) else old(t)[i].parent)
    {
      ghost var woke := false;
      for i := 0 to |t|
        invariant AdoptedSoFar(old(t), i, c, init, woke)
      {
        if t[i].parent == Some(c) {
          t := t[i := t[i].(parent := Some(init))];
          if t[i].state.Zombie? {
            Wakeup1(OfProc(init));
            woke := true;
          }
        }
      }
      assert woke <==> HasZombieChild(old(t), c);
    }

    method Exit(c: Slot, init: Slot)
      requires c < |t| && t[c].parent.Some?
      modifies this
      ensures t == Exited(old(t), c, init) && |t| == |old(t)|
      ensures forall i: Slot :: i < |t| ==>
                var p := old(t)[i];
                t[i] == p.(state := if i == c then Zombie else if ExitWakes(old(t), c, init, p) then Runnable else p.state,
                           parent := if p.parent == Some(c) then Some(init) else p.parent)
    {
      Wakeup1(OfProc(t[c].parent.value));
      AbandonChildren(c, init);
      t := t[c := t[c].(state := Zombie)];
      forall i: Slot | i < |t|
        ensures var p := old(t)[i];
                t[i] == p.(state := if i == c then Zombie else if ExitWakes(old(t), c, init, p) then Runnable else p.state,
                           parent := if p.parent == Some(c) then Some(init) else p.parent)
      {
        ExitedAt(old(t), c, init, i);
      }
    }

    /** The part of wait and join that gives the slot of a zombie back. */
    method Reap(i: Slot)
      requires i < |t|
      modifies this
      ensures t == Reaped(old(t), i)
      ensures |t| == |old(t)| && t[i] == Proc(Unused, 0, None, false, old(t)[i].pgdir)
      ensures forall k :: 0 <= k < |t| && k != i ==> t[k] == old(t)[k]
    {
      t := t[i := t[i].(pid := 0, parent := None, killed := false, state := Unused)];
    }

    /** kill: the first process with this pid is marked, and woken wherever it sleeps. */
    method Kill(pid: nat) returns (found: Option<Slot>)
      modifies this
      ensures |t| == |old(t)|
      ensures found.None? ==> t == old(t) && forall k :: 0 <= k < |t| ==> t[k].pid != pid
      ensures found.Some? ==> found.value < |t| && old(t)[found.value].pid == pid
      ensures found.Some? ==> forall k :: 0 <= k < found.value ==> old(t)[k].pid != pid
      ensures found.Some? ==> t == Killed(old(t), found.value)
      ensures found.Some? ==>
                var p := old(t)[found.value];
                t[found.value] == p.(killed := true, state := if p.state.Sleeping? then Runnable else p.state)
      ensures forall k :: 0 <= k < |t| && found != Some(k) ==> t[k] == old(t)[k]
    {
      for i := 0 to |t|
        invariant t == old(t) && forall k :: 0 <= k < i ==> t[k].pid != pid
      {
        if t[i].pid == pid {
          t := t[i := t[i].(killed := true)];
          if t[i].state.Sleeping? {
            t := t[i := t[i].(state := Runnable)];
          }
          return Some(i);
        }
      }
      return None;
    }

    /** wait's scan: the first zombie child, and whether there is any child at all. */
    method ScanChildren(c: Slot) returns (zombie: Option<Slot>, haveKids: bool)
      ensures zombie.Some? ==> zombie.value < |t| && IsZombieChild(t[zombie.value], c)
      ensures zombie.None? <==> !HasZombieChild(t, c)
      ensures haveKids <==> HasChild(t, c)
    {
      haveKids := false;
      for i := 0 to |t|
        invariant forall k :: 0 <= k < i ==> !IsZombieChild(t[k], c)
        invariant haveKids <==> exists k :: 0 <= k < i && t[k].parent == Some(c)
      {
        if t[i].parent == Some(c) {
          haveKids := true;
          if t[i].state.Zombie? {
            return Some(i), true;
          }
        }
      }
      return None, haveKids;
    }

    /** join's scan: the first zombie child in the caller's own address space. */
    method ScanThreads(c: Slot) returns (zombie: Option<Slot>)
      requires c < |t|
      ensures zombie.Some? ==> zombie.value < |t| && IsZombieThread(t, zombie.value, c)
      ensures zombie.None? ==> forall i: Slot :: i < |t| ==> !IsZombieThread(t, i, c)
    {
      for i := 0 to |t|
        invariant forall k: Slot :: k < i ==> !IsZombieThread(t, k, c)
      {
        if t[i].parent == Some(c) && t[i].pgdir == t[c].pgdir && t[i].state.Zombie? {
          return Some(i);
        }
      }
      return None;
    }
  }
}
