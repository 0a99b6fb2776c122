/**
 The user-level ticket lock: an atomic fetch-and-increment hands out tickets, and
 each thread spins until the counter being served equals its ticket.

 Both counters are 32 bits wide and wrap.  The release `now_serving += 1` is not
 atomic, so it is split into a load and a store.  Any number of threads take these
 steps in any interleaving.
 */
module TicketLock {
  import opened Common

  type Thread = nat

  /** Where a thread stands in acquire, critical section and release. */
  datatype Pc =
    | Idle
    | Spinning(me: nat)
    | Critical
    | Storing(loaded: nat)

  /**
   The two counters, every thread's position, and the history of the run: who drew
   tickets, who entered, and how many releases were completed.
   */
  datatype State = State(
    nextTicket: nat,
    nowServing: nat,
    pcs: seq<Pc>,
    drawn: seq<Thread>,
    entered: seq<Thread>,
    released: nat)

  ghost predicate Init(threads: nat, s: State) {
    s == State(0, 0, seq(threads, _ => Idle), [], [], 0)
  }

  /** `me = read_and_increment(&next_ticket)` */
  ghost predicate Draw(s: State, t: Thread, s': State) {
    && t < |s.pcs| && s.pcs[t].Idle?
    && s' == s.(nextTicket := (s.nextTicket + 1) % WRAP,
                pcs := s.pcs[t := Spinning(s.nextTicket)],
                drawn := s.drawn + [t])
  }

  /** The spin loop sees its own ticket. */
  ghost predicate Enter(s: State, t: Thread, s': State) {
    && t < |s.pcs| && s.pcs[t] == Spinning(s.nowServing)
    && s' == s.(pcs := s.pcs[t := Critical], entered := s.entered + [t])
  }

  ghost predicate Load(s: State, t: Thread, s': State) {
    && t < |s.pcs| && s.pcs[t].Critical?
    && s' == s.(pcs := s.pcs[t := Storing(s.nowServing)])
  }

  ghost predicate Store(s: State, t: Thread, s': State) {
    && t < |s.pcs| && s.pcs[t].Storing?
    && s' == s.(nowServing := (s.pcs[t].loaded + 1) % WRAP,
                pcs := s.pcs[t := Idle],
                released := s.released + 1)
  }

  ghost predicate Step(s: State, t: Thread, s': State) {
    Draw(s, t, s') || Enter(s, t, s') || Load(s, t, s') || Store(s, t, s')
  }

  /** Any interleaving: actors[i] takes the step from run[i] to run[i + 1]. */
  ghost predicate IsRun(threads: nat, run: seq<State>, actors: seq<Thread>) {
    && |run| == |actors| + 1
    && Init(threads, run[0])
    && forall i :: 0 <= i < |actors| ==> Step(run[i], actors[i], run[i + 1])
  }

  /** Between its entry and the store of its release. */
  predicate Holds(s: State, t: Thread) {
    t < |s.pcs| && (s.pcs[t].Critical? || s.pcs[t].Storing?)
  }

  ghost predicate Exclusive(s: State) {
    forall t, u :: Holds(s, t) && Holds(s, u) ==> t == u
  }

  /** Threads with a drawn and unreleased ticket, in ticket order. */
  function Queue(s: State): seq<Thread>
    requires s.released <= |s.drawn|
  {
    s.drawn[s.released..]
  }

  /** How many tickets are drawn and not yet released. */
  function Outstanding(s: State): int {
    |s.drawn| - s.released
  }

  /** The pc of the thread at place k of the queue. */
  ghost predicate Placed(s: State, q: seq<Thread>, k: nat)
    requires k < |q|
  {
    && q[k] < |s.pcs|
    && (s.pcs[q[k]] == Spinning((s.nowServing + k) % WRAP)
        || (k == 0 && |s.entered| == s.released + 1
            && (s.pcs[q[k]] == Critical || s.pcs[q[k]] == Storing(s.nowServing))))
  }

  ghost predicate Inv(s: State) {
    && s.released <= |s.entered| <= s.released + 1
    && s.released <= |s.drawn| && s.entered <= s.drawn
    && s.nowServing == s.released % WRAP
    && s.nextTicket == |s.drawn| % WRAP
    && var q := Queue(s);
    && Distinct(q)
    && (forall k :: 0 <= k < |q| ==> Placed(s, q, k))
    && (forall t: Thread :: t < |s.pcs| && !s.pcs[t].Idle? ==> t in q)
    && (|s.entered| == s.released + 1 ==> |q| > 0 && Holds(s, q[0]))
  }

  /** Distinct numbers below a bound are at most as many as the bound. */
  lemma {:induction false} Pigeonhole(q: seq<Thread>, bound: nat)
    requires Distinct(q) && forall k :: 0 <= k < |q| ==> q[k] < bound
    ensures |q| <= bound
    decreases bound
  {
    if |q| == 0 {
      return;
    }
    assert q[0] < bound;
    if k :| 0 <= k < |q| && q[k] == bound - 1 {
      var rest := q[..k] + q[k + 1..];
      Pigeonhole(rest, bound - 1);
    } else {
      Pigeonhole(q, bound - 1);
    }
  }

  lemma QueueFits(s: State)
    requires Inv(s)
    ensures |Queue(s)| <= |s.pcs|
  {
    forall k | 0 <= k < |Queue(s)| ensures Queue(s)[k] < |s.pcs| {
      assert Placed(s, Queue(s), k);
    }
    Pigeonhole(Queue(s), |s.pcs|);
  }

  lemma AddMod(a: nat, b: nat)
    ensures (a % WRAP + b) % WRAP == (a + b) % WRAP
  {
  }

  lemma DrawKeepsPlaces(s: State, t: Thread, s': State, q: seq<Thread>)
    requires Inv(s) && Draw(s, t, s') && q == Queue(s) && forall k :: 0 <= k < |q| ==> q[k] != t
    ensures forall k :: 0 <= k < |q + [t]| ==> Placed(s', q + [t], k)
  {
    var q' := q + [t];
    AddMod(s.released, |q|);
    forall k | 0 <= k < |q'| ensures Placed(s', q', k) {
      if k < |q| {
        assert Placed(s, q, k) && q'[k] == q[k];
      }
    }
  }

  lemma DrawKeepsInv(s: State, t: Thread, s': State)
    requires Inv(s) && Draw(s, t, s')
    ensures Inv(s')
  {
    DrawJoinsQueue(s, t, s');
    DrawKeepsPlaces(s, t, s', Queue(s));
    AddMod(|s.drawn|, 1);
  }

  lemma DrawJoinsQueue(s: State, t: Thread, s': State)
    requires Inv(s) && Draw(s, t, s')
    ensures Queue(s') == Queue(s) + [t] && t !in Queue(s) && Distinct(Queue(s'))
    ensures forall u: Thread :: u < |s'.pcs| && !s'.pcs[u].Idle? ==> u in Queue(s')
  {
    var q, q' := Queue(s), Queue(s');
    assert q' == q + [t];
    forall k | 0 <= k < |q| ensures q[k] != t {
      assert Placed(s, q, k);
    }
    forall u: Thread | u < |s'.pcs| && !s'.pcs[u].Idle? ensures u in q' {
      if u == t {
        assert q'[|q|] == t;
      } else {
        assert u in q;
      }
    }
  }

  /** Only the first in the queue can see its own ticket being served. */
  lemma SeesOwnTicket(s: State, k: nat)
    requires Inv(s) && Outstanding(s) <= WRAP
    requires k < |Queue(s)| && Queue(s)[k] < |s.pcs| && s.pcs[Queue(s)[k]] == Spinning(s.nowServing)
    ensures k == 0
  {
    assert Placed(s, Queue(s), k);
  }

  lemma EnterKeepsInv(s: State, t: Thread, s': State)
    requires Inv(s) && Outstanding(s) <= WRAP && Enter(s, t, s')
    ensures Inv(s') && s.released == |s.entered|
  {
    var q := Queue(s);
    var k :| 0 <= k < |q| && q[k] == t;
    SeesOwnTicket(s, k);
    assert Placed(s, q, 0) && q[0] == t;
    assert Queue(s') == q;
    assert s'.entered == s.drawn[..s.released + 1];
    forall j | 0 <= j < |q| ensures Placed(s', q, j) {
      assert Placed(s, q, j);
    }
  }

  lemma LoadKeepsInv(s: State, t: Thread, s': State)
    requires Inv(s) && Load(s, t, s')
    ensures Inv(s')
  {
    var q := Queue(s);
    var k :| 0 <= k < |q| && q[k] == t;
    assert Queue(s') == q && Placed(s, q, k);
    forall j | 0 <= j < |q| ensures Placed(s', q, j) {
      assert Placed(s, q, j);
    }
  }

  lemma StoreKeepsInv(s: State, t: Thread, s': State)
    requires Inv(s) && Store(s, t, s')
    ensures Inv(s')
  {
    var q, q' := Queue(s), Queue(s');
    var k :| 0 <= k < |q| && q[k] == t;
    assert Placed(s, q, k) && k == 0 && q' == q[1..];
    assert s'.nowServing == s'.released % WRAP by { AddMod(s.released, 1); }
    forall j | 0 <= j < |q'| ensures Placed(s', q', j) {
      assert Placed(s, q, j + 1) && q'[j] == q[j + 1] && q'[j] != t;
      AddMod(s.released, j + 1);
      AddMod(s'.released, j);
    }
    forall u: Thread | u < |s'.pcs| && !s'.pcs[u].Idle? ensures u in q' {
      assert u in q && u != q[0];
    }
  }

  lemma {:induction false} RunKeepsInv(threads: nat, run: seq<State>, actors: seq<Thread>, n: nat)
    requires IsRun(threads, run, actors) && n < |run|
    requires forall i :: 0 <= i < n ==> Outstanding(run[i]) <= WRAP
    ensures Inv(run[n]) && |run[n].pcs| == threads
    decreases n
  {
    if n > 0 {
      RunKeepsInv(threads, run, actors, n - 1);
      var s, t, s' := run[n - 1], actors[n - 1], run[n];
      assert Step(s, t, s');
      if Draw(s, t, s') { DrawKeepsInv(s, t, s'); }
      else if Enter(s, t, s') { EnterKeepsInv(s, t, s'); }
      else if Load(s, t, s') { LoadKeepsInv(s, t, s'); }
      else { StoreKeepsInv(s, t, s'); }
    }
  }

  /** The three histories are what they say, going by where the threads stand. */
  lemma {:induction false} HistoriesAreReal(threads: nat, run: seq<State>, actors: seq<Thread>, n: nat)
    requires IsRun(threads, run, actors) && n < |actors|
    ensures var s, s', t := run[n], run[n + 1], actors[n];
            && t < |s.pcs| == |s'.pcs| && (forall u :: 0 <= u < |s.pcs| && u != t ==> s'.pcs[u] == s.pcs[u])
            && s'.drawn == (if s.pcs[t].Idle? && s'.pcs[t].Spinning? then s.drawn + [t] else s.drawn)
            && s'.entered == (if s.pcs[t].Spinning? && s'.pcs[t].Critical? then s.entered + [t] else s.entered)
            && s'.released == (if s.pcs[t].Storing? && s'.pcs[t].Idle? then s.released + 1 else s.released)
  {
    assert Step(run[n], actors[n], run[n + 1]);
  }

  lemma InvExcludes(s: State)
    requires Inv(s)
    ensures Exclusive(s)
  {
    forall t | Holds(s, t) ensures |Queue(s)| > 0 && t == Queue(s)[0] {
      var k :| 0 <= k < |Queue(s)| && Queue(s)[k] == t;
      assert Placed(s, Queue(s), k);
    }
  }

  /**
   Safety of the ticket lock over every run of any number of threads: as long as no more
   than 2^32 tickets are outstanding at once, in every state of every interleaving at most
   one thread holds the lock, and the order of entry is a prefix of the order in which
   tickets were drawn, however often the counters wrap.
   */
  lemma {:induction false} TicketLockIsSafe(threads: nat, run: seq<State>, actors: seq<Thread>)
    requires IsRun(threads, run, actors)
    requires forall i :: 0 <= i < |run| ==> Outstanding(run[i]) <= WRAP
    ensures forall n :: 0 <= n < |run| ==> Exclusive(run[n]) && run[n].entered <= run[n].drawn
  {
    forall n | 0 <= n < |run| ensures Exclusive(run[n]) && run[n].entered <= run[n].drawn {
      RunKeepsInv(threads, run, actors, n);
      InvExcludes(run[n]);
    }
  }

  /** At most 2^32 threads never have more than 2^32 tickets outstanding, so for them the lock is always safe. */
  lemma {:induction false} FewThreadsFit(threads: nat, run: seq<State>, actors: seq<Thread>, n: nat)
    requires threads <= WRAP && IsRun(threads, run, actors) && n < |run|
    ensures forall i :: 0 <= i <= n ==> Outstanding(run[i]) <= WRAP
    decreases n
  {
    if n > 0 {
      FewThreadsFit(threads, run, actors, n - 1);
    }
    RunKeepsInv(threads, run, actors, n);
    QueueFits(run[n]);
  }

  /** The state after threads 0..n-1 each drew a ticket, and the run that leads there. */
  function AfterDraws(threads: nat, n: nat): State
    requires n <= threads
  {
    State(n % WRAP, 0, seq(threads, t => if t < n then Spinning(t % WRAP) else Idle), seq(n, t => t), [], 0)
  }

  lemma {:induction false} DrawsAreARun(threads: nat, n: nat) returns (run: seq<State>, actors: seq<Thread>)
    requires n <= threads
    ensures IsRun(threads, run, actors) && run[|run| - 1] == AfterDraws(threads, n)
    decreases n
  {
    if n == 0 {
      assert AfterDraws(threads, 0).pcs == seq(threads, _ => Idle);
      run, actors := [AfterDraws(threads, 0)], [];
    } else {
      run, actors := DrawsAreARun(threads, n - 1);
      var s, s' := AfterDraws(threads, n - 1), AfterDraws(threads, n);
      assert s'.nextTicket == (s.nextTicket + 1) % WRAP by { AddMod(n - 1, 1); }
      assert s'.pcs == s.pcs[n - 1 := Spinning(s.nextTicket)];
      assert s'.drawn == s.drawn + [n - 1];
      assert Draw(s, n - 1, s');
      run, actors := Extend(threads, run, actors, n - 1, s');
    }
  }

  lemma Extend(threads: nat, run: seq<State>, actors: seq<Thread>, t: Thread, s': State)
    returns (run': seq<State>, actors': seq<Thread>)
    requires IsRun(threads, run, actors) && Step(run[|run| - 1], t, s')
    ensures IsRun(threads, run', actors') && run' == run + [s']
  {
    run', actors' := run + [s'], actors + [t];
    forall i | 0 <= i < |actors'| ensures Step(run'[i], actors'[i], run'[i + 1]) {
      if i < |actors| {
        assert Step(run[i], actors[i], run[i + 1]);
      }
    }
  }

  /**
   The bound on tickets is exact: from every state with more than 2^32 of them outstanding,
   however it was first reached, at most two steps lead to a state in which two threads
   hold the lock.
   */
  lemma {:induction false} OneTicketTooMany(threads: nat, run: seq<State>, actors: seq<Thread>)
    returns (run': seq<State>, actors': seq<Thread>)
    requires IsRun(threads, run, actors) && Outstanding(run[|run| - 1]) > WRAP
    requires forall i :: 0 <= i < |run| - 1 ==> Outstanding(run[i]) <= WRAP
    ensures IsRun(threads, run', actors') && run <= run' && |run'| <= |run| + 2
    ensures !Exclusive(run'[|run'| - 1])
  {
    RunKeepsInv(threads, run, actors, |run| - 1);
    run', actors' := run, actors;
    var s := run[|run| - 1];
    var q := Queue(s);
    assert Placed(s, q, 0) && Placed(s, q, WRAP) && q[0] != q[WRAP];
    SameTicket(s.released);
    if s.pcs[q[0]].Spinning? {
      var s1 := s.(pcs := s.pcs[q[0] := Critical], entered := s.entered + [q[0]]);
      assert Enter(s, q[0], s1);
      run', actors' := Extend(threads, run', actors', q[0], s1);
      s := s1;
    }
    var s2 := s.(pcs := s.pcs[q[WRAP] := Critical], entered := s.entered + [q[WRAP]]);
    assert Enter(s, q[WRAP], s2);
    run', actors' := Extend(threads, run', actors', q[WRAP], s2);
    assert Holds(s2, q[0]) && Holds(s2, q[WRAP]);
  }

  lemma SameTicket(a: nat)
    ensures (a % WRAP + WRAP) % WRAP == a % WRAP
  {
  }

  /**
   So is the bound on threads: with one thread more than 2^32 there is a run in which
   two threads hold the same ticket value and are in the critical section together.
   */
  lemma {:induction false} TooManyThreadsCollide(threads: nat)
    returns (run: seq<State>, actors: seq<Thread>)
    requires threads > WRAP
    ensures IsRun(threads, run, actors)
    ensures !Exclusive(run[|run| - 1])
  {
    run, actors := DrawsAreARun(threads, WRAP + 1);
    var s0 := run[|run| - 1];
    var s1 := s0.(pcs := s0.pcs[0 := Critical], entered := [0]);
    assert Enter(s0, 0, s1);
    run, actors := Extend(threads, run, actors, 0, s1);
    assert s1.pcs[WRAP] == Spinning(0);
    var s2 := s1.(pcs := s1.pcs[WRAP := Critical], entered := [0, WRAP]);
    assert Enter(s1, WRAP, s2);
    run, actors := Extend(threads, run, actors, WRAP, s2);
    assert Holds(s2, 0) && Holds(s2, WRAP);
  }
}
