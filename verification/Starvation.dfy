/**
  A caller of suspend_threads that never comes back (lib/suspend.c:75-83): three
  threads, a fair scheduler and a fair mutex. Thread 0 waits for the stop of thread
  1 to end; whenever it does, thread 1 takes the mutex first and asks for another.
 */
module Starvation {
  import opened Leb
  import opened Suspend
  import opened Fairness
  import opened Callers

  function Three(owner: Option<Tid>, phase: Phase, nparked: int, p0: Point, p1: Point, p2: Point): Cluster {
    Cluster(owner, phase, 3, nparked, map[0 := p0, 1 := p1, 2 := p2], NotJoining)
  }

  /** The states of the run: five to begin with, and then eighteen again and again. */
  function StateNo(k: nat): Cluster {
    match k
    case 0 => Three(None, Normal, 0, Running, Running, Running)
    case 1 => Three(None, Normal, 0, Running, SuspendEntry, Running)
    case 2 => Three(Some(1), Normal, 0, Running, Retry, Running)
    case 3 => Three(None, Stopping, 0, Running, Asleep(ForPark), Running)
    case 4 => Three(None, Stopping, 0, SuspendEntry, Asleep(ForPark), Running)
    case 5 => Three(Some(0), Stopping, 0, Retry, Asleep(ForPark), Running)
    case 6 => Three(None, Stopping, 1, Asleep(InParked(true)), Asleep(ForPark), Running)
    case 7 => Three(None, Stopping, 1, Asleep(InParked(true)), Asleep(ForPark), SeenStopping)
    case 8 => Three(Some(2), Stopping, 1, Asleep(InParked(true)), Asleep(ForPark), ParkEntry)
    case 9 => Three(None, Stopping, 2, Woken(InParked(true)), Woken(ForPark), Asleep(InParked(false)))
    case 10 => Three(Some(1), Stopping, 2, Woken(InParked(true)), Relocked(ForPark), Asleep(InParked(false)))
    case 11 => Three(None, Stopping, 2, Woken(InParked(true)), Critical, Asleep(InParked(false)))
    case 12 => Three(Some(1), Stopping, 2, Woken(InParked(true)), ResumeLocked, Asleep(InParked(false)))
    case 13 => Three(None, Resuming, 2, Woken(InParked(true)), Running, Woken(InParked(false)))
    case 14 => Three(Some(0), Resuming, 2, Relocked(InParked(true)), Running, Woken(InParked(false)))
    case 15 => Three(Some(0), Resuming, 1, Retry, Running, Woken(InParked(false)))
    case 16 => Three(None, Resuming, 1, Asleep(ForResume), Running, Woken(InParked(false)))
    case 17 => Three(Some(2), Resuming, 1, Asleep(ForResume), Running, Relocked(InParked(false)))
    case 18 => Three(None, Normal, 0, Woken(ForResume), Running, Running)
    case 19 => Three(None, Normal, 0, Woken(ForResume), SuspendEntry, Running)
    case 20 => Three(Some(1), Normal, 0, Woken(ForResume), Retry, Running)
    case 21 => Three(None, Stopping, 0, Woken(ForResume), Asleep(ForPark), Running)
    case _ => Three(Some(0), Stopping, 0, Relocked(ForResume), Asleep(ForPark), Running)
  }

  const ACTIONS: seq<Action> := [
    Suspend(1), Lock(1), Section(1), Suspend(0), Lock(0), Section(0),
    Test(2), Lock(2), Section(2), Lock(1), Section(1), Lock(1),
    Section(1), Lock(0), Section(0), Section(0), Lock(2), Section(2),
    Suspend(1), Lock(1), Section(1), Lock(0), Section(0)
  ]

  function NextNo(k: nat): nat { if k < 22 then k + 1 else 5 }

  /** Calls, and the test outside the lock. */
  lemma CallStep(k: nat)
    requires k in {0, 3, 6, 18}
    ensures Enabled(StateNo(k), ACTIONS[k]) && Next(StateNo(k), ACTIONS[k]) == StateNo(NextNo(k))
  {
    hide RunSection, Remove, JoinLoop;
    if k == 0 { assert Next(StateNo(0), Suspend(1)).at == StateNo(1).at; }
    else if k == 3 { assert Next(StateNo(3), Suspend(0)).at == StateNo(4).at; }
    else if k == 6 { assert Next(StateNo(6), Test(2)).at == StateNo(7).at; }
    else if k == 18 { assert Next(StateNo(18), Suspend(1)).at == StateNo(19).at; }
  }

  /** The mutex is taken. */
  lemma LockStep0(k: nat)
    requires k in {1, 4, 7, 9}
    ensures Enabled(StateNo(k), ACTIONS[k]) && Next(StateNo(k), ACTIONS[k]) == StateNo(NextNo(k))
  {
    hide RunSection, Remove, JoinLoop;
    if k == 1 { assert Next(StateNo(1), Lock(1)).at == StateNo(2).at; }
    else if k == 4 { assert Next(StateNo(4), Lock(0)).at == StateNo(5).at; }
    else if k == 7 { assert Next(StateNo(7), Lock(2)).at == StateNo(8).at; }
    else if k == 9 { assert Next(StateNo(9), Lock(1)).at == StateNo(10).at; }
  }

  /** The mutex is taken. */
  lemma LockStep1(k: nat)
    requires k in {11, 13, 16}
    ensures Enabled(StateNo(k), ACTIONS[k]) && Next(StateNo(k), ACTIONS[k]) == StateNo(NextNo(k))
  {
    hide RunSection, Remove, JoinLoop;
    if k == 11 { assert Next(StateNo(11), Lock(1)).at == StateNo(12).at; }
    else if k == 13 { assert Next(StateNo(13), Lock(0)).at == StateNo(14).at; }
    else if k == 16 { assert Next(StateNo(16), Lock(2)).at == StateNo(17).at; }
  }

  /** The mutex is taken. */
  lemma LockStep2(k: nat)
    requires k in {19, 21}
    ensures Enabled(StateNo(k), ACTIONS[k]) && Next(StateNo(k), ACTIONS[k]) == StateNo(NextNo(k))
  {
    hide RunSection, Remove, JoinLoop;
    if k == 19 { assert Next(StateNo(19), Lock(1)).at == StateNo(20).at; }
    else if k == 21 { assert Next(StateNo(21), Lock(0)).at == StateNo(22).at; }
  }

  /** What happens under it. */
  lemma SectionStep0(k: nat)
    requires k in {2, 5}
    ensures Enabled(StateNo(k), ACTIONS[k]) && Next(StateNo(k), ACTIONS[k]) == StateNo(NextNo(k))
  {
    hide Remove, JoinLoop, Resume;
    if k == 2 { assert Next(StateNo(2), Section(1)).at == StateNo(3).at; }
    else if k == 5 { assert Next(StateNo(5), Section(0)).at == StateNo(6).at; }
  }

  /** What happens under it. */
  lemma SectionStep1(k: nat)
    requires k in {8, 10}
    ensures Enabled(StateNo(k), ACTIONS[k]) && Next(StateNo(k), ACTIONS[k]) == StateNo(NextNo(k))
  {
    hide Remove, JoinLoop, Resume, FromRetry;
    if k == 8 { assert Next(StateNo(8), Section(2)).at == StateNo(9).at; }
    else if k == 10 { assert Next(StateNo(10), Section(1)).at == StateNo(11).at; }
  }

  /** What happens under it. */
  lemma SectionStep2(k: nat)
    requires k in {12, 14}
    ensures Enabled(StateNo(k), ACTIONS[k]) && Next(StateNo(k), ACTIONS[k]) == StateNo(NextNo(k))
  {
    hide Remove, JoinLoop, Park;
    if k == 12 { assert Next(StateNo(12), Section(1)).at == StateNo(13).at; }
    else if k == 14 { assert Next(StateNo(14), Section(0)).at == StateNo(15).at; }
  }

  /** What happens under it. */
  lemma SectionStep3(k: nat)
    requires k in {15, 17}
    ensures Enabled(StateNo(k), ACTIONS[k]) && Next(StateNo(k), ACTIONS[k]) == StateNo(NextNo(k))
  {
    hide Remove, JoinLoop, Park, Resume;
    if k == 15 { assert Next(StateNo(15), Section(0)).at == StateNo(16).at; }
    else if k == 17 { assert Next(StateNo(17), Section(2)).at == StateNo(18).at; }
  }

  /** What happens under it. */
  lemma SectionStep4(k: nat)
    requires k in {20, 22}
    ensures Enabled(StateNo(k), ACTIONS[k]) && Next(StateNo(k), ACTIONS[k]) == StateNo(NextNo(k))
  {
    hide Remove, JoinLoop, Park, Resume;
    if k == 20 { assert Next(StateNo(20), Section(1)).at == StateNo(21).at; }
    else if k == 22 { assert Next(StateNo(22), Section(0)).at == StateNo(5).at; }
  }

  lemma StepNo(k: nat)
    requires k < 23
    ensures Enabled(StateNo(k), ACTIONS[k]) && Next(StateNo(k), ACTIONS[k]) == StateNo(NextNo(k))
  {
    hide Enabled, Next, StateNo, NextNo;
    if k in {0, 3, 6, 18} { CallStep(k); }
    else if k in {1, 4, 7, 9} { LockStep0(k); } else if k in {11, 13, 16} { LockStep1(k); } else if k in {19, 21} { LockStep2(k); }
    else if k in {2, 5} { SectionStep0(k); } else if k in {8, 10} { SectionStep1(k); } else if k in {12, 14} { SectionStep2(k); }
    else if k in {15, 17} { SectionStep3(k); } else { SectionStep4(k); }
  }

  /** Where the run is after `n` actions. */
  function Pos(n: nat): (k: nat)
    ensures k < 23
  {
    if n < 23 then n else 5 + (n - 5) % 18
  }

  lemma PosNext(n: nat)
    ensures Pos(n + 1) == NextNo(Pos(n))
  {
    if n >= 22 {
      assert (n + 1 - 5) % 18 == ((n - 5) % 18 + 1) % 18;
    }
  }

  /** The next time after `n` that the loop is at its `k`-th state. */
  lemma Again(n: nat, k: nat) returns (j: nat)
    requires 5 <= k < 23
    ensures j >= n && Pos(j) == k
  {
    j := k + 18 * (n + 1);
    assert (j - 5) % 18 == (k - 5 + 18 * (n + 1)) % 18 == k - 5;
  }

  /** Each thread acts in the loop. */
  lemma Turn(run: nat -> Action, t: Tid, n: nat)
    requires t < 3 && forall m: nat :: run(m) == ACTIONS[Pos(m)]
    ensures ActsFrom(run, t, n)
  {
    hide Pos;
    var k := if t == 0 then 13 else if t == 1 then 9 else 7;
    var j := Again(n, k);
    assert run(j) == ACTIONS[Pos(j)];
    assert Actor(run(j)) == Some(t);
  }

  lemma ThreadsOf(k: nat, t: Tid)
    requires t in StateNo(k).at
    ensures t < 3
  {
  }

  lemma NeverAlone(k: nat)
    ensures 0 in StateNo(k).at && !Alone(StateNo(k).at[0])
    ensures k >= 4 ==> Asking(StateNo(k).at[0])
  {
  }

  /** A fair run without joins in which thread 0 calls suspend_threads, asks for ever, and is never alone. */
  lemma CallerStarves() returns (st: nat -> Cluster, run: nat -> Action)
    ensures IsRun(st, run) && Fair(st, run) && NobodyJoins(run) && Init(st(0))
    ensures st(4).at.Keys == {0, 1, 2} && st(4).at[0] == SuspendEntry
    ensures forall n: nat :: 0 in st(n).at && !Alone(st(n).at[0]) && (n >= 4 ==> Asking(st(n).at[0]))
  {
    hide StateNo, NextNo, Enabled, Next, Alone, Asking, Pos, Actor;
    st, run := (n: nat) => StateNo(Pos(n)), (n: nat) => ACTIONS[Pos(n)];
    forall n: nat ensures Enabled(st(n), run(n)) && st(n + 1) == Next(st(n), run(n)) {
      StepNo(Pos(n));
      PosNext(n);
    }
    forall n: nat, t | t in st(n).at && !st(n).at[t].Asleep? ensures ActsFrom(run, t, n) {
      ThreadsOf(Pos(n), t);
      Turn(run, t, n);
    }
    forall n: nat ensures !run(n).Add? { NoAdd(Pos(n)); }
    forall n: nat ensures 0 in st(n).at && !Alone(st(n).at[0]) && (n >= 4 ==> Asking(st(n).at[0])) {
      NeverAlone(Pos(n));
      PosLate(n);
    }
    Begins();
  }

  lemma NoAdd(k: nat)
    requires k < 23
    ensures !ACTIONS[k].Add?
  {
  }

  lemma PosLate(n: nat)
    ensures n >= 4 ==> Pos(n) >= 4
  {
  }

  lemma Begins()
    ensures Init(StateNo(Pos(0))) && StateNo(Pos(4)).at.Keys == {0, 1, 2} && StateNo(Pos(4)).at[0] == SuspendEntry
  {
    assert StateNo(0).at.Keys == {0, 1, 2};
    assert StateNo(4).at.Keys == {0, 1, 2};
  }
}
