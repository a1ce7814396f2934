/**
  What suspend_threads promises to the thread that calls it (lib/suspend.c:68-106):
  it comes back only when that thread has the world for itself. It does come back,
  in every fair run without joins, unless others suspend the world again and again:
  a thread that has waited for one stop to end may be overtaken by the next.
 */
module Callers {
  import opened Leb
  import opened Suspend
  import opened Progress
  import opened Fairness

  /** In suspend_threads, and not back yet. */
  predicate Asking(pt: Point) {
    pt.SuspendEntry? || pt.Retry? || ((pt.Asleep? || pt.Woken? || pt.Relocked?) && pt.w != InParked(false))
  }

  // ---- a caller comes back alone ----

  /** The actions of others only wake a thread. */
  lemma OtherPoint(s: Cluster, a: Action, t: Tid)
    requires Enabled(s, a) && t in s.at && Actor(a) != Some(t)
    ensures t in Next(s, a).at
    ensures Next(s, a).at[t] == s.at[t] || (s.at[t].Asleep? && Next(s, a).at[t] == Woken(s.at[t].w))
  {
  }

  /** Its own lead a caller to the end of suspend_threads, and from there to that of resume_threads. */
  lemma OwnPoint(s: Cluster, a: Action, t: Tid)
    requires Enabled(s, a) && t in s.at && Actor(a) == Some(t)
    ensures Asking(s.at[t]) ==> t in Next(s, a).at && (Asking(Next(s, a).at[t]) || Alone(Next(s, a).at[t]))
    ensures t in Next(s, a).at && !Asking(s.at[t]) && !Alone(s.at[t]) && !a.Suspend? ==> !Asking(Next(s, a).at[t]) && !Alone(Next(s, a).at[t])
  {
  }

  lemma AskingStep(s: Cluster, a: Action, t: Tid)
    requires Enabled(s, a) && t in s.at && Asking(s.at[t])
    ensures t in Next(s, a).at && (Asking(Next(s, a).at[t]) || Alone(Next(s, a).at[t]))
  {
    hide Enabled, Next;
    if Actor(a) == Some(t) { OwnPoint(s, a, t); } else { OtherPoint(s, a, t); }
  }

  /** Between a call of suspend_threads and running again there is a state in which the caller is alone. */
  lemma {:induction false} ComesBackAlone(s: Cluster, run: seq<Action>, t: Tid) returns (k: nat)
    requires CanRun(s, run) && t in s.at && Asking(s.at[t])
    requires t !in After(s, run).at || !Asking(After(s, run).at[t])
    ensures k <= |run| && CanRun(s, run[..k]) && t in After(s, run[..k]).at && Alone(After(s, run[..k]).at[t])
    decreases |run|
  {
    hide Enabled, Next, Asking, Alone;
    var s1 := Next(s, run[0]);
    AskingStep(s, run[0], t);
    if Alone(s1.at[t]) {
      OneAction(s, run[0]);
      assert run[..1] == [run[0]];
      k := 1;
    } else {
      var i := ComesBackAlone(s1, run[1..], t);
      assert run[..1 + i][1..] == run[1..][..i];
      k := 1 + i;
    }
  }

  /** Also in the run from one thread's call to its return, everybody else is blocked in parked there. */
  lemma CallerHadTheWorld(s: Cluster, run: seq<Action>, t: Tid) returns (k: nat)
    requires Inv(s) && CanRun(s, run) && t in s.at && s.at[t] == SuspendEntry
    requires t in After(s, run).at && After(s, run).at[t] == Running
    ensures k <= |run| && CanRun(s, run[..k]) && t in After(s, run[..k]).at && Alone(After(s, run[..k]).at[t])
    ensures forall u :: u in After(s, run[..k]).at && u != t ==> Parked(After(s, run[..k]).at[u])
  {
    hide Inv, Enabled, Next;
    k := ComesBackAlone(s, run, t);
    RunKeepsInv(s, run[..k]);
    InvIsSafe(After(s, run[..k]));
  }

  // ---- infinite runs ----

  /** A caller asks until it is alone. */
  lemma {:induction false} AsksUntil(st: nat -> Cluster, run: nat -> Action, i: nat, n: nat, t: Tid) returns (k: nat)
    requires IsRun(st, run) && i <= n && Inv(st(i)) && t in st(i).at && Asking(st(i).at[t])
    ensures i <= k <= n && Inv(st(k)) && t in st(k).at && (Alone(st(k).at[t]) || (k == n && Asking(st(k).at[t])))
    decreases n - i
  {
    hide Inv, Enabled, Next, Asking, Alone;
    k := i;
    if i < n {
      assert Enabled(st(i), run(i));
      AskingStep(st(i), run(i), t);
      StepKeepsInv(st(i), run(i));
      k := i + 1;
      if !Alone(st(i + 1).at[t]) { k := AsksUntil(st, run, i + 1, n, t); }
    }
  }

  lemma {:induction false} InvAt(st: nat -> Cluster, run: nat -> Action, i: nat, n: nat)
    requires IsRun(st, run) && i <= n && Inv(st(i))
    ensures Inv(st(n))
    decreases n - i
  {
    hide Inv, Enabled, Next;
    if i < n {
      assert Enabled(st(i), run(i));
      StepKeepsInv(st(i), run(i));
      InvAt(st, run, i + 1, n);
    }
  }

  // ---- Resuming comes to an end ----

  /** How many actions of its own a parked thread is away from having left parked. */
  function Stay(pt: Point): nat {
    match pt
    case Asleep(w) => if w.InParked? then 2 else 0
    case Woken(w) => if w.InParked? then 2 else 0
    case Relocked(w) => if w.InParked? then 1 else 0
    case _ => 0
  }

  ghost function Stays(s: Cluster): nat { Sum(s.at, Stay) }

  /** In Resuming nobody parks, and parked threads can only get nearer to leaving. */
  lemma ResumingHelps(s: Cluster, a: Action)
    requires Inv(s) && s.phase == Resuming && Enabled(s, a) && !a.Add?
    ensures Next(s, a).phase != Stopping && Stays(Next(s, a)) <= Stays(s)
    ensures Actor(a).Some? && Stay(s.at[Actor(a).value]) > 0 ==> Stays(Next(s, a)) < Stays(s)
  {
    hide Sum, Counts;
    match a {
      case Test(t) =>
      case Suspend(t) => SumMove(s.at, Stay, t, SuspendEntry);
      case Lock(t) => SumMove(s.at, Stay, t, Entry(s.at[t]).value);
      case Section(t) => ResumingSection(s, t);
      case Spurious(t) => SumMove(s.at, Stay, t, Woken(s.at[t].w));
      case Leave(t) => SumWithout(s.at, Stay, t);
      case _ =>
    }
  }

  lemma ResumingSection(s: Cluster, t: Tid)
    requires Inv(s) && s.phase == Resuming && Enabled(s, Section(t))
    ensures var s2 := Next(s, Section(t)); s2.phase != Stopping && Stays(s2) + Stay(s.at[t]) == Stays(s)
  {
    hide Sum, Counts;
    NoSuspender(s, t);
    match s.at[t] {
      case ParkEntry =>
      case Retry => SumMove(s.at, Stay, t, Asleep(ForResume));
      case Relocked(w) =>
        SumMove(s.at, Stay, t, if w == InParked(false) then Running else Retry);
        SumWake(s.at, Stay);
        SumMove(WakeAll(s.at), Stay, t, if w == InParked(false) then Running else Retry);
      case ResumeLocked =>
    }
  }

  lemma NoSuspender(s: Cluster, t: Tid)
    requires Inv(s) && s.phase == Resuming && t in s.at
    ensures !Suspender(s.at[t]) && !s.at[t].ParkEntry?
  {
    Listed(s, t);
  }

  lemma Listed(s: Cluster, t: Tid)
    requires t in s.at
    ensures (Suspender(s.at[t]) <==> t in Suspenders(s.at)) && (Parked(s.at[t]) <==> t in ParkedSet(s.at))
  {
  }

  lemma SomebodyParked(s: Cluster) returns (u: Tid)
    requires Inv(s) && s.phase == Resuming
    ensures u in s.at && Parked(s.at[u]) && !s.at[u].Asleep? && Stay(s.at[u]) > 0
  {
    assert ParkedSet(s.at) != {};
    u :| u in ParkedSet(s.at);
  }

  /** To the next action of `u`, or to where Resuming has ended. */
  lemma {:induction false} WalkResuming(st: nat -> Cluster, run: nat -> Action, i: nat, j: nat, u: Tid) returns (k: nat)
    requires IsRun(st, run) && NobodyJoins(run) && i <= j && Actor(run(j)) == Some(u)
    requires Inv(st(i)) && st(i).phase == Resuming && u in st(i).at && !st(i).at[u].Asleep?
    ensures i <= k && Inv(st(k)) && st(k).phase != Stopping
    ensures st(k).phase == Resuming ==>
              Actor(run(k)) == Some(u) && u in st(k).at && st(k).at[u] == st(i).at[u] && Stays(st(k)) <= Stays(st(i))
    decreases j - i
  {
    hide Inv, Enabled, Next, Stays;
    if Actor(run(i)) == Some(u) {
      k := i;
    } else {
      assert Enabled(st(i), run(i));
      StepKeepsInv(st(i), run(i));
      ResumingHelps(st(i), run(i));
      OthersLeaveBe(st(i), run(i), u);
      if st(i + 1).phase == Resuming { k := WalkResuming(st, run, i + 1, j, u); } else { k := i + 1; }
    }
  }

  /** In every fair run without joins everybody leaves parked. */
  lemma {:induction false} BackToNormal(st: nat -> Cluster, run: nat -> Action, i: nat) returns (n: nat)
    requires IsRun(st, run) && Fair(st, run) && NobodyJoins(run) && Inv(st(i)) && st(i).phase == Resuming
    ensures n >= i && Inv(st(n)) && st(n).phase == Normal
    decreases Stays(st(i))
  {
    hide Inv, Enabled, Next, Stays, Stay, Parked;
    var u := SomebodyParked(st(i));
    assert ActsFrom(run, u, i);
    var j: nat :| j >= i && Actor(run(j)) == Some(u);
    n := WalkResuming(st, run, i, j, u);
    if st(n).phase == Resuming {
      assert Enabled(st(n), run(n));
      StepKeepsInv(st(n), run(n));
      ResumingHelps(st(n), run(n));
      n := n + 1;
      if st(n).phase == Resuming { n := BackToNormal(st, run, n); }
    }
  }

  // ---- somebody gets a stop ----

  /** How far a caller is from asking for a stop, in Normal. */
  function Rank(pt: Point): nat {
    match pt
    case Woken(_) => 3
    case Relocked(_) => 2
    case SuspendEntry => 2
    case _ => 1
  }

  lemma AskingInNormal(s: Cluster, t: Tid)
    requires Inv(s) && s.phase == Normal && t in s.at && Asking(s.at[t])
    ensures !s.at[t].Asleep? && (s.at[t].SuspendEntry? || s.at[t].Retry? || s.at[t] == Woken(ForResume) || s.at[t] == Relocked(ForResume))
  {
    Listed(s, t);
    assert ParkedSet(s.at) == {};
  }

  lemma NormalGoes(s: Cluster, a: Action)
    requires Inv(s) && s.phase == Normal && Enabled(s, a)
    ensures Next(s, a).phase != Resuming
  {
    if a.Section? { Listed(s, a.t); }
  }

  lemma CallerActs(s: Cluster, a: Action, t: Tid)
    requires Inv(s) && s.phase == Normal && t in s.at && Asking(s.at[t]) && Enabled(s, a) && Actor(a) == Some(t)
    ensures t in Next(s, a).at
    ensures Next(s, a).phase == Stopping ||
            (Next(s, a).phase == Normal && Asking(Next(s, a).at[t]) && Rank(Next(s, a).at[t]) < Rank(s.at[t]))
  {
    AskingInNormal(s, t);
  }

  /** To the next action of the caller, or to where a stop has been asked for. */
  lemma {:induction false} WalkNormal(st: nat -> Cluster, run: nat -> Action, i: nat, j: nat, t: Tid) returns (k: nat)
    requires IsRun(st, run) && NobodyJoins(run) && i <= j && Actor(run(j)) == Some(t)
    requires Inv(st(i)) && st(i).phase == Normal && t in st(i).at && !st(i).at[t].Asleep?
    ensures i <= k && Inv(st(k)) && st(k).phase != Resuming
    ensures st(k).phase == Normal ==> Actor(run(k)) == Some(t) && t in st(k).at && st(k).at[t] == st(i).at[t]
    decreases j - i
  {
    hide Inv, Enabled, Next;
    if Actor(run(i)) == Some(t) {
      k := i;
    } else {
      assert Enabled(st(i), run(i));
      StepKeepsInv(st(i), run(i));
      NormalGoes(st(i), run(i));
      OthersLeaveBe(st(i), run(i), t);
      if st(i + 1).phase == Normal { k := WalkNormal(st, run, i + 1, j, t); } else { k := i + 1; }
    }
  }

  /** In Normal a caller gets somebody to ask for a stop. */
  lemma {:induction false} StopAsked(st: nat -> Cluster, run: nat -> Action, i: nat, t: Tid) returns (n: nat)
    requires IsRun(st, run) && Fair(st, run) && NobodyJoins(run)
    requires Inv(st(i)) && st(i).phase == Normal && t in st(i).at && Asking(st(i).at[t])
    ensures n >= i && Inv(st(n)) && st(n).phase == Stopping
    decreases Rank(st(i).at[t])
  {
    hide Inv, Enabled, Next, Asking, Rank;
    AskingInNormal(st(i), t);
    assert ActsFrom(run, t, i);
    var j: nat :| j >= i && Actor(run(j)) == Some(t);
    n := WalkNormal(st, run, i, j, t);
    if st(n).phase == Normal {
      assert Enabled(st(n), run(n));
      StepKeepsInv(st(n), run(n));
      CallerActs(st(n), run(n), t);
      n := n + 1;
      if st(n).phase == Normal { n := StopAsked(st, run, n, t); }
    }
  }

  /** While somebody asks, somebody gets the world for itself. */
  lemma SomebodyAlone(st: nat -> Cluster, run: nat -> Action, i: nat, t: Tid) returns (n: nat, u: Tid)
    requires IsRun(st, run) && Fair(st, run) && NobodyJoins(run) && Inv(st(i)) && t in st(i).at && Asking(st(i).at[t])
    ensures n >= i && Inv(st(n)) && u in st(n).at && Alone(st(n).at[u])
  {
    hide Inv, Asking, Alone, Safe, IsRun, Fair;
    var m := i;
    if st(i).phase == Resuming {
      m := BackToNormal(st, run, i);
      var k := AsksUntil(st, run, i, m, t);
      if Alone(st(k).at[t]) { return k, t; }
    }
    if st(m).phase == Normal { m := StopAsked(st, run, m, t); }
    n, u := SuspendReturns(st, run, m);
  }

  // ---- every caller is served, unless it is overtaken for ever ----

  function Callers(at: map<Tid, Point>): set<Tid> { set t | t in at && (Asking(at[t]) || Alone(at[t])) }

  ghost predicate NoMoreCalls(run: nat -> Action, i: nat) { forall n: nat :: n >= i ==> !run(n).Suspend? }

  lemma CallersShrink(s: Cluster, a: Action)
    requires Enabled(s, a) && !a.Suspend?
    ensures Callers(Next(s, a).at) <= Callers(s.at)
  {
    forall u | u in Callers(Next(s, a).at) ensures u in Callers(s.at) { NotNew(s, a, u); }
  }

  lemma NotNew(s: Cluster, a: Action, u: Tid)
    requires Enabled(s, a) && !a.Suspend? && u in Next(s, a).at && (Asking(Next(s, a).at[u]) || Alone(Next(s, a).at[u]))
    ensures u in s.at && (Asking(s.at[u]) || Alone(s.at[u]))
  {
    hide Enabled, Next;
    NewcomerRuns(s, a, u);
    if u in s.at { if Actor(a) == Some(u) { OwnPoint(s, a, u); } else { OtherPoint(s, a, u); } }
  }

  lemma NewcomerRuns(s: Cluster, a: Action, u: Tid)
    requires Enabled(s, a) && u in Next(s, a).at
    ensures u !in s.at ==> Next(s, a).at[u] == Running
  {
  }

  /** To where the thread that is alone has called resume_threads. */
  lemma {:induction false} Releases(st: nat -> Cluster, run: nat -> Action, i: nat, j: nat, u: Tid) returns (n: nat)
    requires IsRun(st, run) && Fair(st, run) && NoMoreCalls(run, i) && Inv(st(i)) && u in st(i).at && Alone(st(i).at[u])
    requires i <= j && Actor(run(j)) == Some(u)
    ensures n >= i && Inv(st(n)) && Callers(st(n).at) <= Callers(st(i).at) - {u}
    decreases if st(i).at[u].Critical? then 1 else 0, j - i
  {
    hide Inv, Enabled, Next, Asking, Callers;
    assert Enabled(st(i), run(i));
    StepKeepsInv(st(i), run(i));
    CallersShrink(st(i), run(i));
    if Actor(run(i)) == Some(u) {
      AloneActs(st(i), run(i), u);
      if st(i).at[u].Critical? {
        assert ActsFrom(run, u, i + 1);
        var j2: nat :| j2 >= i + 1 && Actor(run(j2)) == Some(u);
        n := Releases(st, run, i + 1, j2, u);
      } else {
        n := i + 1;
      }
    } else {
      OthersLeaveBe(st(i), run(i), u);
      n := Releases(st, run, i + 1, j, u);
    }
  }

  lemma AloneActs(s: Cluster, a: Action, u: Tid)
    requires Enabled(s, a) && u in s.at && Alone(s.at[u]) && Actor(a) == Some(u)
    ensures if s.at[u].Critical? then u in Next(s, a).at && Next(s, a).at[u] == ResumeLocked
            else u in Next(s, a).at && u !in Callers(Next(s, a).at)
  {
  }

  /** In every fair run without joins a caller gets the world for itself, once there are no new calls by others. */
  lemma {:induction false} CallerServed(st: nat -> Cluster, run: nat -> Action, i: nat, t: Tid) returns (n: nat)
    requires IsRun(st, run) && Fair(st, run) && NobodyJoins(run) && NoMoreCalls(run, i)
    requires Inv(st(i)) && t in st(i).at && Asking(st(i).at[t])
    ensures n >= i && t in st(n).at && Alone(st(n).at[t]) && Safe(st(n))
    decreases |Callers(st(i).at)|
  {
    hide Inv, Asking, Alone, Safe, IsRun, Callers;
    var m, u := SomebodyAlone(st, run, i, t);
    ShrinkUntil(st, run, i, m);
    n := AsksUntil(st, run, i, m, t);
    if !Alone(st(n).at[t]) {
      NotAsleep(st(m).at[u]);
      assert ActsFrom(run, u, m);
      var j: nat :| j >= m && Actor(run(j)) == Some(u);
      var k := Releases(st, run, m, j, u);
      Fewer(Callers(st(k).at), Callers(st(i).at), u);
      AloneCalls(st(m), u);
      n := AsksUntil(st, run, m, k, t);
      if !Alone(st(n).at[t]) { n := CallerServed(st, run, k, t); }
    }
    InvAt(st, run, i, n);
    InvIsSafe(st(n));
  }

  lemma NotAsleep(pt: Point)
    requires Alone(pt)
    ensures !pt.Asleep?
  {
  }

  lemma AloneCalls(s: Cluster, u: Tid)
    requires u in s.at && Alone(s.at[u])
    ensures u in Callers(s.at)
  {
  }

  lemma Fewer(a: set<Tid>, b: set<Tid>, u: Tid)
    ensures a <= b - {u} && u in b ==> |a| < |b|
  {
    if a <= b - {u} && u in b { Subset(a, b - {u}); }
  }

  lemma {:induction false} ShrinkUntil(st: nat -> Cluster, run: nat -> Action, i: nat, n: nat)
    requires IsRun(st, run) && NoMoreCalls(run, i) && i <= n
    ensures Callers(st(n).at) <= Callers(st(i).at)
    decreases n - i
  {
    hide Enabled, Next, Callers;
    if i < n {
      assert Enabled(st(i), run(i));
      CallersShrink(st(i), run(i));
      ShrinkUntil(st, run, i + 1, n);
    }
  }

  ghost predicate AloneAt(st: nat -> Cluster, n: nat, t: Tid) { t in st(n).at && Alone(st(n).at[t]) }

  /** There is a call of suspend_threads by another thread at `n` or later. */
  ghost predicate OtherCalls(run: nat -> Action, n: nat, t: Tid) { exists m: nat :: m >= n && run(m).Suspend? && run(m).t != t }

  /**
    In every fair run without joins a caller gets the world for itself, or there
    is no end to the calls of others. (Starvation shows that the latter happens.)
   */
  lemma ServedOrOvertaken(st: nat -> Cluster, run: nat -> Action, i: nat, t: Tid)
    requires IsRun(st, run) && Fair(st, run) && NobodyJoins(run)
    requires Inv(st(i)) && t in st(i).at && Asking(st(i).at[t])
    ensures (exists n: nat :: n >= i && AloneAt(st, n, t)) || (forall n: nat :: n >= i ==> OtherCalls(run, n, t))
  {
    hide Inv, Asking, Alone, Safe, IsRun, Fair;
    if n: nat :| n >= i && !OtherCalls(run, n, t) {
      var k := AsksUntil(st, run, i, n, t);
      if Alone(st(k).at[t]) {
        assert AloneAt(st, k, t);
      } else {
        var j := NoMoreOrAlone(st, run, n, t);
        assert AloneAt(st, j, t);
      }
    }
  }

  /** While it asks, a thread does not call again. */
  lemma NoMoreOrAlone(st: nat -> Cluster, run: nat -> Action, n: nat, t: Tid) returns (j: nat)
    requires IsRun(st, run) && Fair(st, run) && NobodyJoins(run) && !OtherCalls(run, n, t)
    requires Inv(st(n)) && t in st(n).at && Asking(st(n).at[t])
    ensures j >= n && AloneAt(st, j, t)
  {
    hide Inv, Alone, Safe, Fair, Next;
    if NoMoreCalls(run, n) {
      j := CallerServed(st, run, n, t);
    } else {
      var m: nat :| m >= n && run(m).Suspend?;
      assert run(m).t == t;
      assert Enabled(st(m), run(m));
      j := AsksUntil(st, run, n, m, t);
    }
  }
}
