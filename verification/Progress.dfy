/**
  The protocol of Suspend never deadlocks: whoever asks for the world to stop
  can get it, and a stopped world can always go on. From every reachable state
  there is a run to that effect in which no thread joins or leaves the cluster
  and no wait ends spuriously.
 */
module Progress {
  import opened Leb
  import opened Suspend

  // ---- sums over the threads ----

  ghost function Sum(at: map<Tid, Point>, c: Point -> nat): nat
    decreases |at|
  {
    if at == map[] then 0
    else
      var t :| t in at;
      Smaller(at, t);
      c(at[t]) + Sum(at - {t}, c)
  }

  lemma Smaller(at: map<Tid, Point>, t: Tid)
    requires t in at
    ensures |at - {t}| < |at|
  {
    assert (at - {t}).Keys == at.Keys - {t};
  }

  lemma {:induction false} SumWithout(at: map<Tid, Point>, c: Point -> nat, t: Tid)
    requires t in at
    ensures Sum(at, c) == c(at[t]) + Sum(at - {t}, c)
    decreases |at|
  {
    var u :| u in at && Sum(at, c) == c(at[u]) + Sum(at - {u}, c);
    if u != t {
      Smaller(at, t);
      Smaller(at, u);
      SumWithout(at - {u}, c, t);
      SumWithout(at - {t}, c, u);
      assert at - {u} - {t} == at - {t} - {u};
    }
  }

  /** Moving one thread changes the sum by what it costs. */
  lemma SumMove(at: map<Tid, Point>, c: Point -> nat, t: Tid, pt: Point)
    requires t in at
    ensures Sum(at[t := pt], c) + c(at[t]) == Sum(at, c) + c(pt)
  {
    SumWithout(at, c, t);
    SumWithout(at[t := pt], c, t);
    assert at[t := pt] - {t} == at - {t};
  }

  lemma {:induction false} SumWake(at: map<Tid, Point>, c: Point -> nat)
    requires forall w :: c(Asleep(w)) == c(Woken(w))
    ensures Sum(WakeAll(at), c) == Sum(at, c)
    decreases |at|
  {
    if at == map[] {
      assert WakeAll(at) == map[];
    } else {
      var t :| t in at;
      SumWithout(at, c, t);
      SumWithout(WakeAll(at), c, t);
      assert WakeAll(at) - {t} == WakeAll(at - {t});
      Smaller(at, t);
      SumWake(at - {t}, c);
    }
  }

  // ---- stopping ----

  /** How many more actions until a thread is parked. */
  function ToPark(pt: Point): nat {
    match pt
    case Running => 3
    case SeenStopping => 2
    case ParkEntry => 1
    case SuspendEntry => 2
    case Retry => 1
    case Asleep(w) => if w.ForResume? then 3 else 0
    case Woken(w) => if w.ForResume? then 3 else 0
    case Relocked(w) => if w.ForResume? then 2 else 1
    case Critical => 0
    case ResumeLocked => 0
  }

  /** The world is asked to stop, and somebody has not parked yet. */
  predicate Incomplete(s: Cluster) { s.phase == Stopping && s.nrunners != s.nparked + 1 }

  /** An action that brings the world nearer to a stop. */
  predicate Advances(s: Cluster, a: Action) {
    && (a.Test? || a.Lock? || a.Section?) && Enabled(s, a)
  }

  /** While the stop is incomplete some runner is not parked, and can go on. */
  lemma SomeoneUnparked(s: Cluster) returns (t: Tid)
    requires Inv(s) && Incomplete(s)
    ensures t in s.at && !Parked(s.at[t]) && !Suspender(s.at[t])
    ensures s.nparked + 2 <= s.nrunners
  {
    var u :| u in Suspenders(s.at);
    Room(s, u, u);
    var rest := s.at.Keys - ParkedSet(s.at) - {u};
    Subset(s.at.Keys, ParkedSet(s.at) + {u} + rest);
    assert |s.at.Keys| <= |ParkedSet(s.at)| + 1 + |rest|;
    t :| t in rest;
    assert Suspender(s.at[t]) ==> t in Suspenders(s.at);
  }

  lemma HolderAdvances(s: Cluster, u: Tid)
    requires Inv(s) && Incomplete(s) && s.owner == Some(u)
    ensures Enabled(s, Section(u)) && Next(s, Section(u)).phase == Stopping
    ensures Sum(Next(s, Section(u)).at, ToPark) < Sum(s.at, ToPark)
  {
    hide Sum, NoLostWakeup, Counts;
    assert u in s.at && Holds(s.at[u]);
    match s.at[u] {
      case ParkEntry => ParkAdvances(s, u, false);
      case Retry => ParkAdvances(s, u, true);
      case Relocked(w) =>
        SumMove(s.at, ToPark, u, if w.ForResume? then Retry else Asleep(w));
      case ResumeLocked => NotAlone(s, u);
    }
  }

  lemma NotAlone(s: Cluster, u: Tid)
    requires Inv(s) && Incomplete(s) && u in s.at
    ensures !Alone(s.at[u])
  {
    assert Alone(s.at[u]) ==> u in Suspenders(s.at);
  }

  lemma ParkAdvances(s: Cluster, u: Tid, again: bool)
    requires s.phase == Stopping && u in s.at && ToPark(s.at[u]) == 1 && !s.at[u].Asleep?
    ensures Sum(Park(s, u, again).at, ToPark) < Sum(s.at, ToPark)
  {
    hide Sum;
    SumWake(s.at, ToPark);
    SumMove(s.at, ToPark, u, Asleep(InParked(again)));
    SumMove(WakeAll(s.at), ToPark, u, Asleep(InParked(again)));
  }

  /** Some thread can always bring the stop nearer. */
  lemma StopAdvances(s: Cluster) returns (a: Action)
    requires Inv(s) && Incomplete(s)
    ensures Advances(s, a) && Next(s, a).phase == Stopping && Sum(Next(s, a).at, ToPark) < Sum(s.at, ToPark)
  {
    hide Sum, Counts, Phases;
    if s.owner.Some? {
      a := Section(s.owner.value);
      HolderAdvances(s, s.owner.value);
    } else {
      var t := SomeoneUnparked(s);
      if s.at[t] == Running {
        a := Test(t);
        SumMove(s.at, ToPark, t, SeenStopping);
      } else {
        a := Lock(t);
        SumMove(s.at, ToPark, t, Entry(s.at[t]).value);
      }
    }
  }

  lemma Then(s: Cluster, a: Action, run: seq<Action>)
    requires Enabled(s, a) && CanRun(Next(s, a), run)
    ensures CanRun(s, [a] + run) && After(s, [a] + run) == After(Next(s, a), run)
  {
    hide Enabled, Next;
    assert ([a] + run)[1..] == run;
  }

  lemma {:induction false} StopCompletes(s: Cluster) returns (run: seq<Action>)
    requires Inv(s) && s.phase == Stopping
    ensures CanRun(s, run) && Inv(After(s, run)) && After(s, run).phase == Stopping && !Incomplete(After(s, run))
    ensures forall a :: a in run ==> a.Test? || a.Lock? || a.Section?
    decreases Sum(s.at, ToPark)
  {
    hide Inv, Enabled, Next, Sum, Mutex;
    if Incomplete(s) {
      var a := StopAdvances(s);
      StepKeepsInv(s, a);
      var rest := StopCompletes(Next(s, a));
      Then(s, a, rest);
      run := [a] + rest;
    } else {
      run := [];
    }
  }

  // ---- and the suspender gets the world for itself ----

  /** If `u` holds the lock in a stopped world and is not its suspender, it goes back to sleep. */
  lemma OtherSleeps(s: Cluster, t: Tid, u: Tid)
    requires Inv(s) && s.phase == Stopping && !Incomplete(s) && t in Suspenders(s.at) && s.owner == Some(u) && u != t
    ensures u in s.at && Parked(s.at[u]) && Enabled(s, Section(u)) && Next(s, Section(u)) == Sleep(s, u, s.at[u].w)
  {
    assert u !in Suspenders(s.at);
    if !Parked(s.at[u]) { Room(s, t, u); }
  }

  /** The suspender of a stopped world, with the lock free or its own. */
  lemma {:induction false} LockFree(s: Cluster, t: Tid) returns (run: seq<Action>)
    requires Inv(s) && s.phase == Stopping && !Incomplete(s) && t in Suspenders(s.at)
    ensures CanRun(s, run) && forall a :: a in run ==> a.Test? || a.Lock? || a.Section?
    ensures var s2 := After(s, run);
            && Inv(s2) && s2.phase == Stopping && !Incomplete(s2) && t in s2.at && t in Suspenders(s2.at) && s2.at[t] == s.at[t]
            && (s2.owner == None || s2.owner == Some(t))
  {
    if s.owner.Some? && s.owner.value != t {
      var u := s.owner.value;
      OtherSleeps(s, t, u);
      StepKeepsInv(s, Section(u));
      OneAction(s, Section(u));
      run := [Section(u)];
      assert t in Suspenders(After(s, run).at);
    } else {
      run := [];
    }
  }

  lemma SuspenderAwake(s: Cluster, t: Tid)
    requires Inv(s) && s.phase == Stopping && !Incomplete(s) && t in Suspenders(s.at) && (s.owner == None || s.owner == Some(t))
    ensures match s.at[t]
            case Woken(w) => w == ForPark && s.owner == None
            case Relocked(w) => w == ForPark && s.owner == Some(t)
            case Critical => s.owner == None
            case ResumeLocked => s.owner == Some(t)
            case _ => false
  {
  }

  lemma Enters(s: Cluster, t: Tid) returns (run: seq<Action>)
    requires Inv(s) && s.phase == Stopping && !Incomplete(s) && t in Suspenders(s.at) && (s.owner == None || s.owner == Some(t))
    ensures CanRun(s, run) && forall a :: a in run ==> a.Test? || a.Lock? || a.Section?
    ensures var s2 := After(s, run); t in s2.at && Alone(s2.at[t])
  {
    hide Inv, Counts, Phases;
    SuspenderAwake(s, t);
    match s.at[t] {
      case Woken(w) =>
        var s1 := Next(s, Lock(t));
        assert Next(s1, Section(t)) == Unlock(s1, t, Critical);
        LockAndRun(s, t);
        run := [Lock(t), Section(t)];
      case Relocked(w) =>
        OneAction(s, Section(t));
        run := [Section(t)];
      case _ => run := [];
    }
  }

  /** From every reachable state in which the world is asked to stop, it can be stopped. */
  lemma CanStop(s: Cluster) returns (run: seq<Action>, t: Tid)
    requires Inv(s) && s.phase == Stopping
    ensures CanRun(s, run) && Inv(After(s, run)) && t in After(s, run).at && Alone(After(s, run).at[t])
    ensures forall a :: a in run ==> a.Test? || a.Lock? || a.Section?
  {
    hide Inv, Enabled, Next, Alone;
    var r1 := StopCompletes(s);
    var s1 := After(s, r1);
    t := HasSuspender(s1);
    var r2 := LockFree(s1, t);
    var s2 := After(s1, r2);
    var r3 := Enters(s2, t);
    Append(s1, r2, r3);
    Append(s, r1, r2 + r3);
    run := r1 + (r2 + r3);
    RunKeepsInv(s, run);
  }

  lemma HasSuspender(s: Cluster) returns (t: Tid)
    requires Inv(s) && s.phase == Stopping
    ensures t in Suspenders(s.at)
  {
    t :| t in Suspenders(s.at);
  }

  // ---- going on ----

  /** How many more actions until a thread has left parked. */
  function ToLeave(pt: Point): nat {
    match pt
    case Asleep(w) => if w.InParked? then 3 else 0
    case Woken(w) => if w.InParked? then 3 else 0
    case Relocked(w) => 2
    case Retry => 1
    case _ => 0
  }

  lemma HolderLeaves(s: Cluster, u: Tid)
    requires Inv(s) && s.phase == Resuming && s.owner == Some(u)
    ensures Enabled(s, Section(u)) && Next(s, Section(u)).phase != Stopping
    ensures Sum(Next(s, Section(u)).at, ToLeave) < Sum(s.at, ToLeave)
  {
    hide Sum, Counts, NoLostWakeup;
    assert u in s.at && Holds(s.at[u]);
    assert Suspender(s.at[u]) ==> u in Suspenders(s.at);
    SumWake(s.at, ToLeave);
    match s.at[u] {
      case Retry => SumMove(s.at, ToLeave, u, Asleep(ForResume));
      case Relocked(w) =>
        SumMove(s.at, ToLeave, u, Retry);
        SumMove(s.at, ToLeave, u, Running);
        SumMove(WakeAll(s.at), ToLeave, u, Retry);
        SumMove(WakeAll(s.at), ToLeave, u, Running);
    }
  }

  lemma ResumeAdvances(s: Cluster) returns (a: Action)
    requires Inv(s) && s.phase == Resuming
    ensures Advances(s, a) && Next(s, a).phase != Stopping && Sum(Next(s, a).at, ToLeave) < Sum(s.at, ToLeave)
  {
    hide Sum;
    if s.owner.Some? {
      a := Section(s.owner.value);
      HolderLeaves(s, s.owner.value);
    } else {
      assert |ParkedSet(s.at)| > 0;
      var t :| t in ParkedSet(s.at);
      a := Lock(t);
      SumMove(s.at, ToLeave, t, Entry(s.at[t]).value);
    }
  }

  lemma {:induction false} ResumeCompletes(s: Cluster) returns (run: seq<Action>)
    requires Inv(s) && s.phase != Stopping
    ensures CanRun(s, run) && After(s, run).phase == Normal
    ensures forall a :: a in run ==> a.Test? || a.Lock? || a.Section?
    decreases Sum(s.at, ToLeave)
  {
    hide Inv, Enabled, Next, Sum, Mutex;
    if s.phase == Resuming {
      var a := ResumeAdvances(s);
      StepKeepsInv(s, a);
      var rest := ResumeCompletes(Next(s, a));
      Then(s, a, rest);
      run := [a] + rest;
    } else {
      run := [];
    }
  }

  /** A suspender that is alone calls resume_threads. */
  lemma Releases(s: Cluster, t: Tid) returns (run: seq<Action>)
    requires Inv(s) && t in s.at && Alone(s.at[t]) && (s.owner == None || s.owner == Some(t))
    ensures CanRun(s, run) && After(s, run).phase != Stopping
    ensures forall a :: a in run ==> a.Test? || a.Lock? || a.Section?
  {
    if s.at[t].Critical? {
      LockAndRun(s, t);
      run := [Lock(t), Section(t)];
    } else {
      OneAction(s, Section(t));
      run := [Section(t)];
    }
  }

  lemma AloneFacts(s: Cluster, t: Tid)
    requires Inv(s) && t in s.at && Alone(s.at[t])
    ensures s.phase == Stopping && !Incomplete(s) && t in Suspenders(s.at)
  {
    assert t in Suspenders(s.at);
  }

  /** From every reachable state the cluster can get back to where nobody is stopped or stopping. */
  lemma CanGoOn(s: Cluster) returns (run: seq<Action>)
    requires Inv(s)
    ensures CanRun(s, run) && After(s, run).phase == Normal
    ensures forall a :: a in run ==> a.Test? || a.Lock? || a.Section?
  {
    hide Inv, Enabled, Next, Alone;
    if s.phase == Stopping {
      var r1, t := CanStop(s);
      var s1 := After(s, r1);
      AloneFacts(s1, t);
      var r2 := LockFree(s1, t);
      var s2 := After(s1, r2);
      var r3 := Releases(s2, t);
      var s3 := After(s2, r3);
      RunKeepsInv(s2, r3);
      var r4 := ResumeCompletes(s3);
      Append(s2, r3, r4);
      Append(s1, r2, r3 + r4);
      Append(s, r1, r2 + (r3 + r4));
      run := r1 + (r2 + (r3 + r4));
    } else {
      run := ResumeCompletes(s);
    }
  }

  /** No run ends in a deadlock: every reachable state has a run on to a state without a stop. */
  lemma NoDeadlock(s: Cluster, run: seq<Action>) returns (more: seq<Action>)
    requires Init(s) && CanRun(s, run)
    ensures CanRun(s, run + more) && After(s, run + more).phase == Normal
    ensures forall a :: a in more ==> a.Test? || a.Lock? || a.Section?
  {
    hide Inv, Enabled, Next;
    InitInv(s);
    RunKeepsInv(s, run);
    more := CanGoOn(After(s, run));
    Append(s, run, more);
  }

  /** While nobody joins, the number of runners still to park does not grow, and parking is what brings it down. */
  lemma MeasureShrinks(s: Cluster, a: Action)
    requires Inv(s) && s.phase == Stopping && Enabled(s, a) && !a.Add?
    ensures var s2 := Next(s, a);
            s2.phase == Stopping ==> 0 <= s2.nrunners - s2.nparked - 1 <= s.nrunners - s.nparked - 1
    ensures var s2 := Next(s, a);
            a.Section? && (s.at[a.t].ParkEntry? || s.at[a.t].Retry?) ==>
              s2.nrunners - s2.nparked - 1 == s.nrunners - s.nparked - 2
  {
    StepKeepsInv(s, a);
    var s2 := Next(s, a);
    if s2.phase == Stopping {
      var u := HasSuspender(s2);
      Room(s2, u, u);
    }
    hide Inv;
    if a.Section? { NoUnpark(s, a.t); }
  }

  lemma NoUnpark(s: Cluster, t: Tid)
    requires Inv(s) && s.phase == Stopping && Enabled(s, Section(t))
    ensures Next(s, Section(t)).nrunners == s.nrunners
    ensures Next(s, Section(t)).nparked == s.nparked + (if s.at[t].ParkEntry? || s.at[t].Retry? then 1 else 0)
  {
  }
}
