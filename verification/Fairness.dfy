/**
  Under a fair scheduler and a fair mutex a stop is not only possible but
  happens (lib/suspend.c:51-106): in every infinite run without joins in which
  whoever is not asleep acts again, everybody parks and suspend_threads returns.
 */
module Fairness {
  import opened Leb
  import opened Suspend
  import opened Progress

  /** The thread that an action is one of, if it is one that it decides to take. */
  function Actor(a: Action): Option<Tid> {
    match a
    case Test(t) => Some(t)
    case Suspend(t) => Some(t)
    case Lock(t) => Some(t)
    case Section(t) => Some(t)
    case Leave(t) => Some(t)
    case Add(t, _) => Some(t)
    case _ => None
  }

  /** An infinite run: the states and the actions between them. */
  ghost predicate IsRun(st: nat -> Cluster, run: nat -> Action) {
    forall n: nat :: Enabled(st(n), run(n)) && st(n + 1) == Next(st(n), run(n))
  }

  ghost predicate ActsFrom(run: nat -> Action, t: Tid, n: nat) { exists j: nat :: j >= n && Actor(run(j)) == Some(t) }

  /** Running threads come by suspend_parked, the mutex is granted, sections end. */
  ghost predicate Fair(st: nat -> Cluster, run: nat -> Action) {
    forall n: nat, t :: t in st(n).at && !st(n).at[t].Asleep? ==> ActsFrom(run, t, n)
  }

  ghost predicate NobodyJoins(run: nat -> Action) { forall n: nat :: !run(n).Add? }

  // ---- what is left to do ----

  /** How many actions of its own a thread is away from being parked; nothing, for the suspender. */
  function Left(pt: Point): nat {
    match pt
    case Running => 3
    case SeenStopping => 2
    case ParkEntry => 1
    case SuspendEntry => 2
    case Retry => 1
    case Asleep(w) => if w.ForResume? then 3 else 0
    case Woken(w) => if w.ForResume? then 3 else 0
    case Relocked(w) => if w.ForResume? then 2 else 0
    case Critical => 0
    case ResumeLocked => 0
  }

  ghost function Work(s: Cluster): nat { Sum(s.at, Left) }

  /** No action takes an incomplete stop back, and whoever is not parked can only bring it nearer. */
  lemma ActionHelps(s: Cluster, a: Action)
    requires Inv(s) && Incomplete(s) && Enabled(s, a) && !a.Add?
    ensures Next(s, a).phase == Stopping && Work(Next(s, a)) <= Work(s)
    ensures a.Test? || a.Suspend? || a.Leave? || (Actor(a).Some? && Left(s.at[Actor(a).value]) > 0) ==> Work(Next(s, a)) < Work(s)
  {
    hide Sum, NoLostWakeup, Counts;
    match a {
      case Test(t) => SumMove(s.at, Left, t, SeenStopping);
      case Suspend(t) => SumMove(s.at, Left, t, SuspendEntry);
      case Lock(t) => SumMove(s.at, Left, t, Entry(s.at[t]).value);
      case Section(t) => SectionHelps(s, t);
      case Spurious(t) => SumMove(s.at, Left, t, Woken(s.at[t].w));
      case Leave(t) =>
        SumWithout(s.at, Left, t);
        SumWake(s.at - {t}, Left);
      case _ =>
    }
  }

  lemma SectionHelps(s: Cluster, t: Tid)
    requires Inv(s) && Incomplete(s) && Enabled(s, Section(t))
    ensures var s2 := Next(s, Section(t));
            s2.phase == Stopping && Work(s2) == Work(s) - if s.at[t].Relocked? && s.at[t].w.ForResume? then 1 else Left(s.at[t])
  {
    hide Sum, NoLostWakeup, Counts;
    match s.at[t] {
      case ParkEntry => ParkHelps(s, t, false);
      case Retry => ParkHelps(s, t, true);
      case Relocked(w) => SumMove(s.at, Left, t, if w.ForResume? then Retry else Asleep(w));
      case ResumeLocked => NotAlone(s, t);
    }
  }

  lemma ParkHelps(s: Cluster, t: Tid, again: bool)
    requires s.phase == Stopping && t in s.at && !s.at[t].Asleep?
    ensures Park(s, t, again).phase == Stopping && Work(Park(s, t, again)) == Work(s) - Left(s.at[t])
  {
    hide Sum;
    SumWake(s.at, Left);
    SumMove(s.at, Left, t, Asleep(InParked(again)));
    SumMove(WakeAll(s.at), Left, t, Asleep(InParked(again)));
  }

  /** Others do not move a thread that is not asleep. */
  lemma OthersLeaveBe(s: Cluster, a: Action, u: Tid)
    requires Enabled(s, a) && u in s.at && !s.at[u].Asleep? && Actor(a) != Some(u)
    ensures u in Next(s, a).at && Next(s, a).at[u] == s.at[u]
  {
  }

  // ---- everybody parks ----

  /** To the next action of `u`, or to where the stop is complete. */
  lemma {:induction false} Walk(st: nat -> Cluster, run: nat -> Action, i: nat, j: nat, u: Tid) returns (k: nat)
    requires IsRun(st, run) && NobodyJoins(run) && i <= j && Actor(run(j)) == Some(u)
    requires Inv(st(i)) && Incomplete(st(i)) && u in st(i).at && !st(i).at[u].Asleep?
    ensures i <= k && Inv(st(k)) && st(k).phase == Stopping
    ensures Incomplete(st(k)) ==>
              Actor(run(k)) == Some(u) && u in st(k).at && st(k).at[u] == st(i).at[u] && Work(st(k)) <= Work(st(i))
    decreases j - i
  {
    hide Inv, Enabled, Next, Incomplete, Work;
    if Actor(run(i)) == Some(u) {
      k := i;
      StillStopping(st(i));
    } else {
      Onwards(st, run, i);
      OthersLeaveBe(st(i), run(i), u);
      if Incomplete(st(i + 1)) { k := Walk(st, run, i + 1, j, u); } else { k := i + 1; }
    }
  }

  lemma StillStopping(s: Cluster)
    requires Incomplete(s)
    ensures s.phase == Stopping
  {
  }

  lemma Onwards(st: nat -> Cluster, run: nat -> Action, i: nat)
    requires IsRun(st, run) && NobodyJoins(run) && Inv(st(i)) && Incomplete(st(i))
    ensures Enabled(st(i), run(i)) && st(i + 1) == Next(st(i), run(i)) && !run(i).Add?
    ensures Inv(st(i + 1)) && st(i + 1).phase == Stopping && Work(st(i + 1)) <= Work(st(i))
    ensures Actor(run(i)).Some? && Left(st(i).at[Actor(run(i)).value]) > 0 ==> Work(st(i + 1)) < Work(st(i))
  {
    hide Inv, Enabled, Next, Incomplete, Work;
    assert Enabled(st(i), run(i));
    StepKeepsInv(st(i), run(i));
    ActionHelps(st(i), run(i));
    if Actor(run(i)).Some? { ActorThere(st(i), run(i)); }
  }

  lemma ActorThere(s: Cluster, a: Action)
    requires Enabled(s, a) && Actor(a).Some?
    ensures Actor(a).value in s.at
  {
  }

  /** In every fair run without joins everybody parks. */
  lemma {:induction false} EverybodyParks(st: nat -> Cluster, run: nat -> Action, i: nat) returns (n: nat)
    requires IsRun(st, run) && Fair(st, run) && NobodyJoins(run) && Inv(st(i)) && st(i).phase == Stopping
    ensures n >= i && Inv(st(n)) && st(n).phase == Stopping && !Incomplete(st(n))
    decreases Work(st(i))
  {
    hide Inv, Enabled, Next, Incomplete, Work, Left;
    n := i;
    if Incomplete(st(i)) {
      var u := Unparked(st(i));
      assert ActsFrom(run, u, i);
      var j: nat :| j >= i && Actor(run(j)) == Some(u);
      n := Walk(st, run, i, j, u);
      if Incomplete(st(n)) {
        Onwards(st, run, n);
        n := EverybodyParks(st, run, n + 1);
      }
    }
  }

  lemma Unparked(s: Cluster) returns (u: Tid)
    requires Inv(s) && Incomplete(s)
    ensures u in s.at && !s.at[u].Asleep? && Left(s.at[u]) > 0
  {
    u := SomeoneUnparked(s);
  }

  // ---- and suspend_threads returns ----

  /** A complete stop stays complete until the suspender acts. */
  lemma StaysComplete(s: Cluster, a: Action, t: Tid)
    requires Inv(s) && s.phase == Stopping && !Incomplete(s) && t in Suspenders(s.at) && Enabled(s, a) && Actor(a) != Some(t)
    ensures var s2 := Next(s, a);
            s2.phase == Stopping && !Incomplete(s2) && t in Suspenders(s2.at) && s2.at[t] == s.at[t]
  {
    SuspenderNotAsleep(s, t);
    if Actor(a).Some? {
      var u := Actor(a).value;
      assert u !in Suspenders(s.at);
      if !Parked(s.at[u]) { Room(s, t, u); }
    }
    OthersLeaveBe(s, a, t);
  }

  lemma SuspenderNotAsleep(s: Cluster, t: Tid)
    requires Inv(s) && s.phase == Stopping && !Incomplete(s) && t in Suspenders(s.at)
    ensures !s.at[t].Asleep?
  {
  }

  /** To the next action of the suspender of a complete stop. */
  lemma {:induction false} WalkComplete(st: nat -> Cluster, run: nat -> Action, i: nat, j: nat, t: Tid) returns (k: nat)
    requires IsRun(st, run) && i <= j && Actor(run(j)) == Some(t)
    requires Inv(st(i)) && st(i).phase == Stopping && !Incomplete(st(i)) && t in Suspenders(st(i).at)
    ensures i <= k && Inv(st(k)) && st(k).phase == Stopping && !Incomplete(st(k)) && t in Suspenders(st(k).at)
    ensures Actor(run(k)) == Some(t) && st(k).at[t] == st(i).at[t]
    decreases j - i
  {
    hide Inv, Enabled, Next, Incomplete, Suspenders;
    if Actor(run(i)) == Some(t) {
      k := i;
    } else {
      assert Enabled(st(i), run(i));
      StepKeepsInv(st(i), run(i));
      StaysComplete(st(i), run(i), t);
      k := WalkComplete(st, run, i + 1, j, t);
    }
  }

  /** The suspender's own actions: it takes the lock, and then has the world for itself. */
  lemma SuspenderActs(s: Cluster, a: Action, t: Tid)
    requires Inv(s) && s.phase == Stopping && !Incomplete(s) && t in Suspenders(s.at) && Enabled(s, a) && Actor(a) == Some(t)
    requires !Alone(s.at[t])
    ensures var s2 := Next(s, a); t in s2.at && s2.phase == Stopping
    ensures var s2 := Next(s, a);
            if s.at[t].Relocked? then Alone(s2.at[t])
            else s2.at[t] == Relocked(ForPark) && !Incomplete(s2) && t in Suspenders(s2.at)
  {
    SuspenderNotAsleep(s, t);
  }

  /** In every fair run without joins whoever has asked for a stop gets it. */
  lemma SuspendReturns(st: nat -> Cluster, run: nat -> Action, i: nat) returns (n: nat, t: Tid)
    requires IsRun(st, run) && Fair(st, run) && NobodyJoins(run) && Inv(st(i)) && st(i).phase == Stopping
    ensures n >= i && t in st(n).at && Alone(st(n).at[t]) && Inv(st(n)) && Safe(st(n))
  {
    hide Inv, Incomplete, Suspenders, Alone, Safe, Enabled, Next;
    n := EverybodyParks(st, run, i);
    t := HasSuspender(st(n));
    n := Entered(st, run, n, t);
    InvIsSafe(st(n));
  }

  lemma {:induction false} Entered(st: nat -> Cluster, run: nat -> Action, i: nat, t: Tid) returns (n: nat)
    requires IsRun(st, run) && Fair(st, run)
    requires Inv(st(i)) && st(i).phase == Stopping && !Incomplete(st(i)) && t in Suspenders(st(i).at)
    ensures n >= i && Inv(st(n)) && t in st(n).at && Alone(st(n).at[t])
    decreases !st(i).at[t].Relocked?
  {
    hide Inv, Incomplete, Suspenders, Alone, Enabled, Next;
    SuspenderIn(st(i), t);
    n := i;
    if !Alone(st(i).at[t]) {
      SuspenderNotAsleep(st(i), t);
      assert ActsFrom(run, t, i);
      var j: nat :| j >= i && Actor(run(j)) == Some(t);
      n := WalkComplete(st, run, i, j, t);
      SuspenderIn(st(n), t);
      assert Enabled(st(n), run(n));
      StepKeepsInv(st(n), run(n));
      SuspenderActs(st(n), run(n), t);
      if st(n).at[t].Relocked? { n := n + 1; } else { n := Entered(st, run, n + 1, t); }
    }
  }

  lemma SuspenderIn(s: Cluster, t: Tid)
    requires t in Suspenders(s.at)
    ensures t in s.at
  {
  }
}
