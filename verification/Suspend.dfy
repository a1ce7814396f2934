/**
  Stop-the-world suspension (lib/suspend.c) over a cluster of threads
  (lib/cluster.c): a mutex, a condition variable with an explicit set of
  waiters, the counters nrunners and nparked, and a three-valued state.

  A thread's program point says where it is in suspend_parked, suspend_threads
  and resume_threads. One action runs from one point to the next: to a lock, to
  a wait, or to where the lock is given up. The test of the state in
  suspend_parked is outside the lock, and is an action of its own.
 */
module Suspend {
  import opened Leb

  type Tid = nat

  datatype Phase = Normal | Stopping | Resuming

  /** What a thread waits for on stop_cv; `again` is a wait in suspend_threads. */
  datatype Wait = InParked(again: bool) | ForResume | ForPark

  datatype Point =
    | Running              // executing
    | SeenStopping         // suspend_parked: the unlocked test was true
    | ParkEntry            // suspend_parked: locked, before parked()
    | SuspendEntry         // suspend_threads: before the lock
    | Retry                // suspend_threads: locked, at the label
    | Asleep(w: Wait)      // in the waiter set of stop_cv
    | Woken(w: Wait)       // signalled, wants the lock back
    | Relocked(w: Wait)    // has it
    | Critical             // suspend_threads has returned
    | ResumeLocked         // resume_threads: locked

  /** The thread in cluster_join: asleep on the other condition variable, or not. */
  datatype Joiner = NotJoining | JoinAsleep | JoinWoken | Joined

  datatype Cluster = Cluster(owner: Option<Tid>, phase: Phase, nrunners: int, nparked: int, at: map<Tid, Point>, join: Joiner)

  // ---- the functions, section by section ----

  /** toywasm_cv_broadcast on stop_cv. */
  function WakeAll(at: map<Tid, Point>): map<Tid, Point> {
    map t | t in at :: if at[t].Asleep? then Woken(at[t].w) else at[t]
  }

  function Broadcast(s: Cluster): Cluster { s.(at := WakeAll(s.at)) }

  function Goto(s: Cluster, t: Tid, pt: Point): Cluster { s.(at := s.at[t := pt]) }

  /** toywasm_cv_wait: into the waiter set, and the lock is free. */
  function Sleep(s: Cluster, t: Tid, w: Wait): Cluster { Goto(s, t, Asleep(w)).(owner := None) }

  function Unlock(s: Cluster, t: Tid, pt: Point): Cluster { Goto(s, t, pt).(owner := None) }

  /** parked up to its wait. */
  function Park(s: Cluster, t: Tid, again: bool): Cluster {
    var s1 := s.(nparked := s.nparked + 1);
    var s2 := if s1.nrunners == s1.nparked + 1 then Broadcast(s1) else s1;
    AfterWait(s2, t, again)
  }

  /** parked at its loop condition: wait on, or leave. */
  function AfterWait(s: Cluster, t: Tid, again: bool): Cluster {
    if s.phase == Stopping then Sleep(s, t, InParked(again))
    else
      var s1 := s.(nparked := s.nparked - 1);
      var s2 := if s1.nparked == 0 then Broadcast(s1.(phase := Normal)) else s1;
      if again then Goto(s2, t, Retry) else Unlock(s2, t, Running)
  }

  /** suspend_threads from its label on. */
  function FromRetry(s: Cluster, t: Tid): Cluster {
    if s.phase == Stopping then Park(s, t, true)
    else if s.phase == Resuming then Sleep(s, t, ForResume)
    else AwaitParked(s.(phase := Stopping), t)
  }

  /** suspend_threads at the loop that waits for the others to park. */
  function AwaitParked(s: Cluster, t: Tid): Cluster {
    if s.nrunners != s.nparked + 1 then Sleep(s, t, ForPark) else Unlock(s, t, Critical)
  }

  function Resume(s: Cluster, t: Tid): Cluster {
    Unlock(Broadcast(s.(phase := if s.nparked > 0 then Resuming else Normal)), t, Running)
  }

  // ---- actions ----

  datatype Action =
    | Test(t: Tid)             // the unlocked test
    | Suspend(t: Tid)          // call suspend_threads
    | Lock(t: Tid)             // take the free mutex
    | Section(t: Tid)          // run under the mutex
    | Spurious(t: Tid)         // a wait may end for no reason
    | Add(t: Tid, child: Tid)  // a runner adds a thread
    | Leave(t: Tid)            // a runner leaves the cluster
    | Join | JoinRelock | JoinSpurious

  /** Where a thread is once it has the mutex. */
  function Entry(pt: Point): Option<Point> {
    match pt
    case SeenStopping => Some(ParkEntry)
    case SuspendEntry => Some(Retry)
    case Woken(w) => Some(Relocked(w))
    case Critical => Some(ResumeLocked)
    case _ => None
  }

  predicate Holds(pt: Point) { pt.ParkEntry? || pt.Retry? || pt.Relocked? || pt.ResumeLocked? }

  predicate Enabled(s: Cluster, a: Action) {
    match a
    case Test(t) => t in s.at && s.at[t] == Running
    case Suspend(t) => t in s.at && s.at[t] == Running
    case Lock(t) => t in s.at && s.owner == None && Entry(s.at[t]).Some?
    case Section(t) => t in s.at && s.owner == Some(t) && Holds(s.at[t])
    case Spurious(t) => t in s.at && s.at[t].Asleep?
    case Add(t, child) => t in s.at && s.at[t] == Running && child !in s.at && s.owner == None
    case Leave(t) => t in s.at && s.at[t] == Running && s.owner == None
    case Join => s.join == NotJoining && s.owner == None
    case JoinRelock => s.join == JoinWoken && s.owner == None
    case JoinSpurious => s.join == JoinAsleep
  }

  function RunSection(s: Cluster, t: Tid): Cluster
    requires t in s.at && Holds(s.at[t])
  {
    match s.at[t]
    case ParkEntry => Park(s, t, false)
    case Retry => FromRetry(s, t)
    case Relocked(w) =>
      (match w
       case InParked(again) => AfterWait(s, t, again)
       case ForResume => Goto(s, t, Retry)
       case ForPark => AwaitParked(s, t))
    case ResumeLocked => Resume(s, t)
  }

  /** cluster_remove_thread. */
  function Remove(s: Cluster, t: Tid): Cluster
    requires t in s.at
  {
    var s1 := s.(nrunners := s.nrunners - 1, at := s.at - {t});
    var s2 := if s1.nrunners == 0 && s1.join == JoinAsleep then s1.(join := JoinWoken) else s1;
    if s2.phase == Stopping then Broadcast(s2) else s2
  }

  /** cluster_join at its loop condition. */
  function JoinLoop(s: Cluster): Cluster { s.(join := if s.nrunners > 0 then JoinAsleep else Joined) }

  function Next(s: Cluster, a: Action): Cluster
    requires Enabled(s, a)
  {
    match a
    case Test(t) => if s.phase == Stopping then Goto(s, t, SeenStopping) else s
    case Suspend(t) => Goto(s, t, SuspendEntry)
    case Lock(t) => Goto(s, t, Entry(s.at[t]).value).(owner := Some(t))
    case Section(t) => RunSection(s, t)
    case Spurious(t) => Goto(s, t, Woken(s.at[t].w))
    case Add(_, child) => s.(nrunners := s.nrunners + 1, at := s.at[child := Running])
    case Leave(t) => Remove(s, t)
    case Join => JoinLoop(s)
    case JoinRelock => JoinLoop(s)
    case JoinSpurious => s.(join := JoinWoken)
  }

  /** A cluster whose threads have just been added. */
  predicate Init(s: Cluster) {
    s == Cluster(None, Normal, |s.at|, 0, s.at, NotJoining) && forall t :: t in s.at ==> s.at[t] == Running
  }

  // ---- the invariant ----

  predicate Parked(pt: Point) { (pt.Asleep? || pt.Woken? || pt.Relocked?) && pt.w.InParked? }

  /** The thread that has set Stopping and not yet resumed. */
  predicate Suspender(pt: Point) {
    pt.Critical? || pt.ResumeLocked? || ((pt.Asleep? || pt.Woken? || pt.Relocked?) && pt.w.ForPark?)
  }

  /** Between the return of suspend_threads and the end of resume_threads. */
  predicate Alone(pt: Point) { pt.Critical? || pt.ResumeLocked? }

  function ParkedSet(at: map<Tid, Point>): set<Tid> { set t | t in at && Parked(at[t]) }

  function Suspenders(at: map<Tid, Point>): set<Tid> { set t | t in at && Suspender(at[t]) }

  /** nrunners and nparked count exactly the threads and the parked ones. */
  predicate Counts(s: Cluster) { s.nrunners == |s.at| && s.nparked == |ParkedSet(s.at)| }

  predicate Mutex(s: Cluster) {
    && (forall t :: t in s.at && Holds(s.at[t]) ==> s.owner == Some(t))
    && (s.owner.Some? ==> s.owner.value in s.at && Holds(s.at[s.owner.value]))
  }

  /** One suspender in Stopping, none otherwise; nobody is parked in Normal, somebody is in Resuming. */
  predicate Phases(s: Cluster) {
    && (forall t, u :: t in Suspenders(s.at) && u in Suspenders(s.at) ==> t == u)
    && (s.phase == Stopping <==> Suspenders(s.at) != {})
    && (s.phase == Normal ==> s.nparked == 0)
    && (s.phase == Resuming ==> s.nparked > 0)
  }

  /** While one thread is alone every other one is parked. */
  predicate StoppedWorld(s: Cluster) {
    forall t :: t in Suspenders(s.at) && Alone(s.at[t]) ==> s.nrunners == s.nparked + 1
  }

  /** The unlocked test is still true when its thread has the lock. */
  predicate TestHolds(s: Cluster) {
    forall t :: t in s.at && (s.at[t].SeenStopping? || s.at[t].ParkEntry?) ==> s.phase == Stopping
  }

  /** Whoever sleeps has something to wait for. */
  predicate NoLostWakeup(s: Cluster) {
    && (forall t :: t in s.at && s.at[t].Asleep? ==>
          match s.at[t].w
          case InParked(_) => s.phase == Stopping
          case ForResume => s.phase == Resuming
          case ForPark => s.nrunners != s.nparked + 1)
    && (s.join == JoinAsleep ==> s.nrunners > 0)
    && (s.join == Joined ==> s.nrunners == 0)
  }

  predicate Inv(s: Cluster) {
    Counts(s) && Mutex(s) && Phases(s) && StoppedWorld(s) && TestHolds(s) && NoLostWakeup(s)
  }

  // ---- counting ----

  /** A thread that is not parked leaves room for itself, two leave room for both. */
  lemma Room(s: Cluster, t: Tid, u: Tid)
    requires Counts(s) && t in s.at && u in s.at && !Parked(s.at[t]) && !Parked(s.at[u])
    ensures s.nparked + 1 <= s.nrunners
    ensures t != u ==> s.nparked + 2 <= s.nrunners
  {
    Subset(ParkedSet(s.at), s.at.Keys - {t} - {u});
  }

  /** While `t` runs, nobody else is alone. */
  lemma Apart(s: Cluster, t: Tid)
    requires Counts(s) && StoppedWorld(s) && t in s.at && !Parked(s.at[t])
    ensures s.nparked + 1 <= s.nrunners
    ensures forall u :: u in Suspenders(s.at) && u != t ==> s.nparked + 2 <= s.nrunners && !Alone(s.at[u])
    ensures Alone(s.at[t]) ==> forall u :: u in s.at && u != t ==> Parked(s.at[u])
  {
    forall u | u in s.at && !Parked(s.at[u]) ensures s.nparked + 1 <= s.nrunners && (u != t ==> s.nparked + 2 <= s.nrunners) {
      Room(s, t, u);
    }
    assert Alone(s.at[t]) ==> t in Suspenders(s.at);
  }

  lemma Subset<T>(a: set<T>, b: set<T>)
    requires a <= b
    ensures |a| <= |b|
  {
    assert b == a + (b - a);
  }

  /** Moving `t` to `pt` changes the set of suspenders as it should. */
  lemma Moved(at: map<Tid, Point>, t: Tid, pt: Point)
    requires t in at
    ensures Suspenders(at[t := pt]) == (if Suspender(pt) then Suspenders(at) + {t} else Suspenders(at) - {t})
    ensures t in Suspenders(at) <==> Suspender(at[t])
  {
  }

  lemma SameParked(at: map<Tid, Point>, t: Tid, pt: Point)
    requires t in at && Parked(pt) == Parked(at[t])
    ensures ParkedSet(at[t := pt]) == ParkedSet(at) && |at[t := pt]| == |at|
    ensures Suspenders(at[t := pt]) == (if Suspender(pt) then Suspenders(at) + {t} else Suspenders(at) - {t})
    ensures t in Suspenders(at) <==> Suspender(at[t])
  {
    Moved(at, t, pt);
    assert at[t := pt].Keys == at.Keys;
  }

  lemma NowParked(at: map<Tid, Point>, t: Tid, pt: Point)
    requires t in at && Parked(pt) && !Parked(at[t])
    ensures |ParkedSet(at[t := pt])| == |ParkedSet(at)| + 1 && |at[t := pt]| == |at|
    ensures Suspenders(at[t := pt]) == (if Suspender(pt) then Suspenders(at) + {t} else Suspenders(at) - {t})
    ensures t in Suspenders(at) <==> Suspender(at[t])
  {
    Moved(at, t, pt);
    assert ParkedSet(at[t := pt]) == ParkedSet(at) + {t};
    assert at[t := pt].Keys == at.Keys;
  }

  lemma NoLongerParked(at: map<Tid, Point>, t: Tid, pt: Point)
    requires t in at && !Parked(pt) && Parked(at[t])
    ensures |ParkedSet(at[t := pt])| == |ParkedSet(at)| - 1 && |at[t := pt]| == |at|
    ensures Suspenders(at[t := pt]) == (if Suspender(pt) then Suspenders(at) + {t} else Suspenders(at) - {t})
    ensures t in Suspenders(at) <==> Suspender(at[t])
  {
    Moved(at, t, pt);
    assert ParkedSet(at[t := pt]) == ParkedSet(at) - {t};
    assert at[t := pt].Keys == at.Keys;
  }

  lemma SameWhenWoken(at: map<Tid, Point>)
    ensures ParkedSet(WakeAll(at)) == ParkedSet(at) && Suspenders(WakeAll(at)) == Suspenders(at) && |WakeAll(at)| == |at|
  {
    assert WakeAll(at).Keys == at.Keys;
  }

  lemma OneMore(at: map<Tid, Point>, t: Tid)
    requires t !in at
    ensures ParkedSet(at[t := Running]) == ParkedSet(at) && Suspenders(at[t := Running]) == Suspenders(at)
    ensures |at[t := Running]| == |at| + 1
  {
    assert at[t := Running].Keys == at.Keys + {t};
  }

  lemma OneLess(at: map<Tid, Point>, t: Tid)
    requires t in at && at[t] == Running
    ensures ParkedSet(at - {t}) == ParkedSet(at) && Suspenders(at - {t}) == Suspenders(at) && |at - {t}| == |at| - 1
  {
    assert (at - {t}).Keys == at.Keys - {t};
  }

  // ---- the invariant is kept ----

  /** What a thread at `pt` relies on. */
  predicate PointOk(s: Cluster, pt: Point) {
    match pt
    case SeenStopping => s.phase == Stopping
    case ParkEntry => s.phase == Stopping
    case Asleep(w) =>
      (match w
       case InParked(_) => s.phase == Stopping
       case ForResume => s.phase == Resuming
       case ForPark => s.nrunners != s.nparked + 1)
    case _ => true
  }

  /** `t` goes from one point to another of its kind, and takes or gives up the lock. */
  predicate Moves(s: Cluster, t: Tid, pt: Point, owner: Option<Tid>) {
    && t in s.at && Parked(pt) == Parked(s.at[t]) && Suspender(pt) == Suspender(s.at[t]) && (Alone(pt) ==> Alone(s.at[t]))
    && (s.owner == owner || s.owner == Some(t) || s.owner == None)
    && (Holds(pt) <==> owner == Some(t)) && (owner != Some(t) ==> s.owner == owner || (s.owner == Some(t) && owner == None))
    && PointOk(s, pt)
  }

  lemma MoveCounts(s: Cluster, t: Tid, pt: Point, owner: Option<Tid>)
    requires Counts(s) && Phases(s) && StoppedWorld(s) && Moves(s, t, pt, owner)
    ensures var s2 := Goto(s, t, pt).(owner := owner); Counts(s2) && Phases(s2) && StoppedWorld(s2)
  {
    SameParked(s.at, t, pt);
    assert Suspenders(s.at[t := pt]) == Suspenders(s.at);
  }

  lemma MovePoints(s: Cluster, t: Tid, pt: Point, owner: Option<Tid>)
    requires Mutex(s) && TestHolds(s) && NoLostWakeup(s) && Moves(s, t, pt, owner)
    ensures var s2 := Goto(s, t, pt).(owner := owner); Mutex(s2) && TestHolds(s2) && NoLostWakeup(s2)
  {
  }

  lemma MoveInv(s: Cluster, t: Tid, pt: Point, owner: Option<Tid>)
    requires Inv(s) && Moves(s, t, pt, owner)
    ensures Inv(Goto(s, t, pt).(owner := owner))
  {
    hide Counts, Phases, StoppedWorld, Mutex, TestHolds, NoLostWakeup, Moves;
    MoveCounts(s, t, pt, owner);
    MovePoints(s, t, pt, owner);
  }

  /** Nobody is in the waiter set. */
  predicate Awake(s: Cluster) { forall t :: t in s.at ==> !s.at[t].Asleep? }

  lemma BroadcastInv(s: Cluster)
    requires Inv(s)
    ensures Broadcast(s).at.Keys == s.at.Keys
    ensures Inv(Broadcast(s)) && Awake(Broadcast(s)) && forall t :: t in s.at && !s.at[t].Asleep? ==> Broadcast(s).at[t] == s.at[t]
  {
    SameWhenWoken(s.at);
  }

  /** Parking, when whoever waits for it is awake. */
  lemma ParkingInv(s: Cluster, t: Tid, again: bool)
    requires Inv(s) && t in s.at && s.owner == Some(t) && (s.at[t].ParkEntry? || s.at[t].Retry?) && s.phase == Stopping
    requires s.nrunners == s.nparked + 2 ==> Awake(s)
    ensures Inv(Sleep(s.(nparked := s.nparked + 1), t, InParked(again)))
  {
    NowParked(s.at, t, Asleep(InParked(again)));
    Apart(s, t);
  }

  lemma ParkInv(s: Cluster, t: Tid, again: bool)
    requires Inv(s) && t in s.at && s.owner == Some(t) && (s.at[t].ParkEntry? || s.at[t].Retry?) && s.phase == Stopping
    ensures Inv(Park(s, t, again))
  {
    hide Inv, Awake;
    if s.nrunners == s.nparked + 2 {
      BroadcastInv(s);
      ParkingInv(Broadcast(s), t, again);
    } else {
      ParkingInv(s, t, again);
    }
  }

  lemma AwaitInv(s: Cluster, t: Tid)
    requires Inv(s) && t in s.at && s.owner == Some(t) && s.at[t] == Relocked(ForPark)
    ensures Inv(AwaitParked(s, t))
  {
    SameParked(s.at, t, Asleep(ForPark));
    SameParked(s.at, t, Critical);
  }

  lemma BeginInv(s: Cluster, t: Tid)
    requires Inv(s) && t in s.at && s.owner == Some(t) && s.at[t] == Retry && s.phase == Normal
    ensures Inv(AwaitParked(s.(phase := Stopping), t))
  {
    SameParked(s.at, t, Asleep(ForPark));
    SameParked(s.at, t, Critical);
    Room(s, t, t);
  }

  lemma StayInv(s: Cluster, t: Tid, again: bool)
    requires Inv(s) && t in s.at && s.owner == Some(t) && s.at[t] == Relocked(InParked(again))
    requires s.phase == Stopping
    ensures Inv(Sleep(s, t, InParked(again)))
  {
    hide Counts, Phases, StoppedWorld, NoLostWakeup, TestHolds;
    MoveInv(s, t, Asleep(InParked(again)), None);
  }

  /** Leaving parked; the last one to leave makes the phase Normal. */
  lemma UnparkInv(s: Cluster, t: Tid, again: bool)
    requires Inv(s) && t in s.at && s.owner == Some(t) && s.at[t] == Relocked(InParked(again))
    requires s.phase == Resuming && s.nparked > 1
    ensures Inv(Goto(s, t, if again then Retry else Running).(nparked := s.nparked - 1, owner := if again then s.owner else None))
  {
    NoLongerParked(s.at, t, if again then Retry else Running);
  }

  lemma LastLeavesInv(s: Cluster, t: Tid, again: bool)
    requires Inv(s) && t in s.at && s.owner == Some(t) && s.at[t] == Relocked(InParked(again))
    requires s.phase == Resuming && s.nparked == 1 && Awake(s)
    ensures Inv(Goto(s, t, if again then Retry else Running).(nparked := 0, phase := Normal, owner := if again then s.owner else None))
  {
    NoLongerParked(s.at, t, if again then Retry else Running);
  }

  lemma LastUnparkInv(s: Cluster, t: Tid, again: bool)
    requires Inv(s) && t in s.at && s.owner == Some(t) && s.at[t] == Relocked(InParked(again))
    requires s.phase == Resuming && s.nparked == 1
    ensures Inv(Goto(Broadcast(s), t, if again then Retry else Running).(nparked := 0, phase := Normal, owner := if again then s.owner else None))
  {
    hide Inv, Awake;
    BroadcastInv(s);
    LastLeavesInv(Broadcast(s), t, again);
  }

  /** parked is left in Resuming only. */
  lemma LeftInResuming(s: Cluster, t: Tid)
    requires Inv(s) && t in s.at && Parked(s.at[t])
    ensures s.phase != Normal && s.nparked > 0
  {
    assert t in ParkedSet(s.at);
  }

  lemma WaitOnInv(s: Cluster, t: Tid, again: bool)
    requires Inv(s) && t in s.at && s.owner == Some(t) && s.at[t] == Relocked(InParked(again))
    ensures Inv(AfterWait(s, t, again))
  {
    hide Inv;
    LeftInResuming(s, t);
    if s.phase == Stopping { StayInv(s, t, again); }
    else if s.nparked > 1 { UnparkInv(s, t, again); }
    else { LastUnparkInv(s, t, again); }
  }

  lemma ResumingInv(s: Cluster, t: Tid)
    requires Inv(s) && t in s.at && s.owner == Some(t) && s.at[t] == ResumeLocked && Awake(s)
    ensures Inv(Unlock(s.(phase := if s.nparked > 0 then Resuming else Normal), t, Running))
  {
    SameParked(s.at, t, Running);
    Apart(s, t);
  }

  lemma ResumeInv(s: Cluster, t: Tid)
    requires Inv(s) && t in s.at && s.owner == Some(t) && s.at[t] == ResumeLocked
    ensures Inv(Resume(s, t))
  {
    hide Inv, Awake;
    BroadcastInv(s);
    ResumingInv(Broadcast(s), t);
  }

  lemma SectionInv(s: Cluster, t: Tid)
    requires Inv(s) && Enabled(s, Section(t))
    ensures Inv(RunSection(s, t))
  {
    hide Inv, Park, AfterWait, AwaitParked, Resume;
    match s.at[t] {
      case ParkEntry => TestStillHolds(s, t); ParkInv(s, t, false);
      case Retry =>
        if s.phase == Stopping { ParkInv(s, t, true); }
        else if s.phase == Normal { BeginInv(s, t); }
        else { ForResumeInv(s, t, Asleep(ForResume)); }
      case Relocked(w) =>
        match w {
          case InParked(again) => WaitOnInv(s, t, again);
          case ForResume => ForResumeInv(s, t, Retry);
          case ForPark => AwaitInv(s, t);
        }
      case ResumeLocked => ResumeInv(s, t);
    }
  }

  lemma TestStillHolds(s: Cluster, t: Tid)
    requires Inv(s) && t in s.at && s.at[t] == ParkEntry
    ensures s.phase == Stopping
  {
  }

  lemma ForResumeInv(s: Cluster, t: Tid, pt: Point)
    requires Inv(s) && t in s.at && s.owner == Some(t)
    requires (s.at[t] == Retry && pt == Asleep(ForResume) && s.phase == Resuming) || (s.at[t] == Relocked(ForResume) && pt == Retry)
    ensures Inv(if pt == Retry then Goto(s, t, Retry) else Sleep(s, t, ForResume))
  {
    hide Counts, Phases, StoppedWorld, NoLostWakeup, TestHolds;
    MoveInv(s, t, pt, if pt == Retry then s.owner else None);
  }

  /** A runner leaves, when whoever waits for the others to park is awake. */
  lemma GoneInv(s: Cluster, t: Tid, join: Joiner)
    requires Inv(s) && Enabled(s, Leave(t)) && (s.phase == Stopping ==> Awake(s))
    requires join == if s.nrunners == 1 && s.join == JoinAsleep then JoinWoken else s.join
    ensures Inv(s.(nrunners := s.nrunners - 1, at := s.at - {t}, join := join))
  {
    OneLess(s.at, t);
    Apart(s, t);
  }

  lemma LeaveInv(s: Cluster, t: Tid)
    requires Inv(s) && Enabled(s, Leave(t))
    ensures Inv(Remove(s, t))
  {
    hide Inv, Awake, WakeAll;
    var join := if s.nrunners == 1 && s.join == JoinAsleep then JoinWoken else s.join;
    if s.phase == Stopping {
      BroadcastInv(s);
      WokenWithout(s.at, t);
      GoneInv(Broadcast(s), t, join);
    } else {
      GoneInv(s, t, join);
    }
  }

  lemma WokenWithout(at: map<Tid, Point>, t: Tid)
    ensures WakeAll(at - {t}) == WakeAll(at) - {t}
  {
  }

  lemma AddInv(s: Cluster, t: Tid, child: Tid)
    requires Inv(s) && Enabled(s, Add(t, child))
    ensures Inv(Next(s, Add(t, child)))
  {
    OneMore(s.at, child);
    Apart(s, t);
  }

  lemma LockInv(s: Cluster, t: Tid)
    requires Inv(s) && Enabled(s, Lock(t))
    ensures Inv(Next(s, Lock(t)))
  {
    hide Counts, Phases, StoppedWorld, NoLostWakeup;
    MoveInv(s, t, Entry(s.at[t]).value, Some(t));
  }

  lemma TestInv(s: Cluster, t: Tid, pt: Point)
    requires Inv(s) && Enabled(s, Test(t)) && (pt == SuspendEntry || (pt == SeenStopping && s.phase == Stopping))
    ensures Inv(Goto(s, t, pt))
  {
    hide Counts, Phases, StoppedWorld, NoLostWakeup, TestHolds;
    MoveInv(s, t, pt, s.owner);
  }

  lemma SpuriousInv(s: Cluster, t: Tid)
    requires Inv(s) && Enabled(s, Spurious(t))
    ensures Inv(Next(s, Spurious(t)))
  {
    hide Counts, Phases, StoppedWorld, NoLostWakeup, TestHolds;
    MoveInv(s, t, Woken(s.at[t].w), s.owner);
  }

  /** Every action keeps the invariant. */
  lemma StepKeepsInv(s: Cluster, a: Action)
    requires Inv(s) && Enabled(s, a)
    ensures Inv(Next(s, a))
  {
    match a
    case Test(t) => if s.phase == Stopping { TestInv(s, t, SeenStopping); }
    case Suspend(t) => TestInv(s, t, SuspendEntry);
    case Lock(t) => LockInv(s, t);
    case Section(t) => SectionInv(s, t);
    case Spurious(t) => SpuriousInv(s, t);
    case Add(t, child) => AddInv(s, t, child);
    case Leave(t) => LeaveInv(s, t);
    case Join =>
    case JoinRelock =>
    case JoinSpurious =>
  }

  // ---- every run ----

  predicate CanRun(s: Cluster, run: seq<Action>)
    decreases |run|
  {
    run == [] || (Enabled(s, run[0]) && CanRun(Next(s, run[0]), run[1..]))
  }

  function After(s: Cluster, run: seq<Action>): Cluster
    requires CanRun(s, run)
    decreases |run|
  {
    if run == [] then s else After(Next(s, run[0]), run[1..])
  }

  lemma {:induction false} RunKeepsInv(s: Cluster, run: seq<Action>)
    requires Inv(s) && CanRun(s, run)
    ensures Inv(After(s, run))
    decreases |run|
  {
    hide Inv, Enabled, Next;
    if run != [] {
      StepKeepsInv(s, run[0]);
      RunKeepsInv(Next(s, run[0]), run[1..]);
    }
  }

  lemma InitInv(s: Cluster)
    requires Init(s)
    ensures Inv(s)
  {
    assert ParkedSet(s.at) == {};
  }

  /** What every state of every run guarantees. */
  ghost predicate Safe(s: Cluster) {
    // at most one thread is between the return of suspend_threads and resume_threads, and the others are blocked in parked
    && (forall t, u :: t in s.at && u in s.at && t != u && Alone(s.at[t]) ==> Parked(s.at[u]))
    // the counters are exact
    && s.nrunners == |s.at| && s.nparked == |ParkedSet(s.at)|
    // parked is entered in Stopping, and left in Resuming
    && (forall t :: t in s.at && (s.at[t].SeenStopping? || s.at[t].ParkEntry?) ==> s.phase == Stopping)
    && (forall t :: t in s.at && Parked(s.at[t]) ==> s.phase != Normal)
    // a sleeper's condition is false
    && (forall t :: t in s.at && s.at[t] == Asleep(ForPark) ==> s.nrunners != s.nparked + 1)
    && (forall t :: t in s.at && s.at[t] == Asleep(ForResume) ==> s.phase == Resuming)
    && (forall t :: t in s.at && s.at[t].Asleep? && s.at[t].w.InParked? ==> s.phase == Stopping)
    && (s.join == JoinAsleep ==> s.nrunners > 0)
    && (s.join == Joined ==> s.at.Keys == {})
  }

  lemma InvIsSafe(s: Cluster)
    requires Inv(s)
    ensures Safe(s)
  {
    forall t | t in s.at ensures Alone(s.at[t]) ==> forall u :: u in s.at && u != t ==> Parked(s.at[u]) {
      if Alone(s.at[t]) { Apart(s, t); }
    }
    forall t | t in s.at && Parked(s.at[t]) ensures s.phase != Normal { LeftInResuming(s, t); }
    assert |s.at.Keys| == |s.at|;
  }

  lemma StopTheWorld(s: Cluster, run: seq<Action>)
    requires Init(s) && CanRun(s, run)
    ensures Safe(After(s, run))
  {
    InitInv(s);
    RunKeepsInv(s, run);
    InvIsSafe(After(s, run));
  }

  // ---- the assertions of the C code ----

  predicate Asserts(s: Cluster, a: Action)
    requires Enabled(s, a)
  {
    match a
    case Section(t) => SectionAsserts(s, s.at[t])
    case Add(_, _) => s.nrunners + 1 > s.nparked && (s.phase == Stopping ==> s.nrunners + 1 > s.nparked + 1)
    case Leave(_) => s.nrunners > 0 && s.nrunners > s.nparked
    case _ => true
  }

  predicate SectionAsserts(s: Cluster, pt: Point) {
    match pt
    case ParkEntry => ParkAsserts(s)
    case Retry => if s.phase == Stopping then ParkAsserts(s) else s.phase == Normal ==> s.nparked == 0
    case Relocked(w) => w.InParked? && s.phase != Stopping ==> LeaveParkedAsserts(s)
    case ResumeLocked => s.phase == Stopping && s.nrunners == s.nparked + 1
    case _ => true
  }

  /** parked, before its wait. */
  predicate ParkAsserts(s: Cluster) { s.nrunners > s.nparked + 1 && s.phase == Stopping }

  /** parked, after its wait. */
  predicate LeaveParkedAsserts(s: Cluster) {
    && s.nparked > 0 && s.nrunners > s.nparked
    && s.nrunners != s.nparked - 1 + 1 && s.phase == Resuming
  }

  /** Not everybody is parked. */
  predicate SomeoneRuns(s: Cluster) { s.nrunners > s.nparked || s.nrunners == 0 }

  /** The assertions hold exactly unless a thread leaves parked while everybody is in it. */
  lemma AssertsExact(s: Cluster, a: Action)
    requires Inv(s) && Enabled(s, a)
    ensures Asserts(s, a) <==> !(a.Section? && s.at[a.t].Relocked? && s.at[a.t].w.InParked? && s.phase == Resuming && !SomeoneRuns(s))
  {
    match a {
      case Section(t) => if Parked(s.at[t]) { LeftInResuming(s, t); } else { SectionFacts(s, t); }
      case Add(t, _) => Room(s, t, t);
      case Leave(t) => Room(s, t, t);
      case _ =>
    }
  }

  lemma SectionFacts(s: Cluster, t: Tid)
    requires Inv(s) && Enabled(s, Section(t)) && !Parked(s.at[t])
    ensures SectionAsserts(s, s.at[t])
  {
    Room(s, t, t);
    Apart(s, t);
    assert s.at[t].ResumeLocked? ==> t in Suspenders(s.at);
    if s.phase == Stopping && (s.at[t].ParkEntry? || s.at[t].Retry?) {
      var u :| u in Suspenders(s.at);
      Room(s, t, u);
    }
  }

  /**
    What breaks the assertions: cluster_remove_thread is called in Resuming by
    the last runner that is not parked. The caller can tell under the lock.
   */
  predicate LastOut(s: Cluster, a: Action) { a.Leave? && s.phase == Resuming && s.nrunners == s.nparked + 1 }

  lemma StepKeepsRunner(s: Cluster, a: Action)
    requires Inv(s) && SomeoneRuns(s) && Enabled(s, a)
    ensures SomeoneRuns(Next(s, a)) <==> !LastOut(s, a)
  {
    hide Mutex, StoppedWorld, NoLostWakeup;
    match a {
      case Section(t) =>
        if !Parked(s.at[t]) {
          Room(s, t, t);
          if s.phase == Stopping { var u :| u in Suspenders(s.at); Room(s, t, u); }
        } else { LeftInResuming(s, t); }
      case Leave(t) =>
        Room(s, t, t);
        if s.phase == Stopping { var u :| u in Suspenders(s.at); Room(s, t, u); }
      case _ =>
    }
  }

  /** No assertion fails in the run. */
  predicate NoneFails(s: Cluster, run: seq<Action>)
    requires CanRun(s, run)
    decreases |run|
  {
    run == [] || (Asserts(s, run[0]) && NoneFails(Next(s, run[0]), run[1..]))
  }

  predicate NoSection(run: seq<Action>) { forall a :: a in run ==> !a.Section? }

  /** Nobody is the last one out, or nobody runs a section of code after that. */
  predicate Harmless(s: Cluster, run: seq<Action>)
    requires CanRun(s, run)
    decreases |run|
  {
    run == [] || if LastOut(s, run[0]) then NoSection(run[1..]) else Harmless(Next(s, run[0]), run[1..])
  }

  /** The runs in which no assertion fails are exactly those without a last one out whom a section follows. */
  lemma {:induction false} FailsExactly(s: Cluster, run: seq<Action>)
    requires Inv(s) && SomeoneRuns(s) && CanRun(s, run)
    ensures NoneFails(s, run) <==> Harmless(s, run)
    decreases |run|
  {
    hide Inv, Enabled, Next, SomeoneRuns, LastOut, Asserts, NoSection;
    if run != [] {
      var a := run[0];
      AssertsExact(s, a);
      StepKeepsInv(s, a);
      StepKeepsRunner(s, a);
      if LastOut(s, a) {
        StillResuming(s, a);
        Doomed(Next(s, a), run[1..]);
      } else {
        FailsExactly(Next(s, a), run[1..]);
      }
    }
  }

  lemma StillResuming(s: Cluster, a: Action)
    requires Enabled(s, a) && LastOut(s, a)
    ensures Next(s, a).phase == Resuming && Next(s, a).owner == None
  {
  }

  /** Once everybody is parked in Resuming the next section fails, whoever runs it. */
  lemma {:induction false} Doomed(s: Cluster, run: seq<Action>)
    requires Inv(s) && s.phase == Resuming && !SomeoneRuns(s) && CanRun(s, run)
    ensures NoneFails(s, run) <==> NoSection(run)
    decreases |run|
  {
    hide Inv, Enabled, Next, SomeoneRuns, Asserts;
    if run != [] {
      var a := run[0];
      AllParked(s, a);
      assert NoSection(run) <==> !a.Section? && NoSection(run[1..]);
      if !a.Section? {
        StepKeepsInv(s, a);
        Doomed(Next(s, a), run[1..]);
      }
    }
  }

  lemma AllParked(s: Cluster, a: Action)
    requires Inv(s) && s.phase == Resuming && !SomeoneRuns(s) && Enabled(s, a)
    ensures Asserts(s, a) <==> !a.Section?
    ensures !a.Section? ==> Next(s, a).phase == Resuming && !SomeoneRuns(Next(s, a))
  {
    AssertsExact(s, a);
    forall t | t in s.at ensures Parked(s.at[t]) && !s.at[t].Asleep? {
      if !Parked(s.at[t]) { Room(s, t, t); }
    }
  }

  /** After the last one is out any of the others can go on, and fails: its assertion is that somebody runs. */
  lemma LastOutFails(s: Cluster, a: Action, t: Tid)
    requires Inv(s) && SomeoneRuns(s) && Enabled(s, a) && LastOut(s, a) && t in Next(s, a).at
    ensures CanRun(Next(s, a), [Lock(t), Section(t)]) && !NoneFails(Next(s, a), [Lock(t), Section(t)])
  {
    hide Inv, SomeoneRuns;
    StepKeepsInv(s, a);
    StepKeepsRunner(s, a);
    StillResuming(s, a);
    OnlyWoken(Next(s, a), t);
    LockAndRun(Next(s, a), t);
    assert Section(t) in [Lock(t), Section(t)];
    assert [Lock(t), Section(t)][1..] == [Section(t)] && [Section(t)][1..] == [];
    Doomed(Next(s, a), [Lock(t), Section(t)]);
  }

  lemma OnlyWoken(s: Cluster, t: Tid)
    requires Inv(s) && s.phase == Resuming && !SomeoneRuns(s) && s.owner == None && t in s.at
    ensures Enabled(s, Lock(t)) && Enabled(Next(s, Lock(t)), Section(t))
  {
    if !Parked(s.at[t]) { Room(s, t, t); }
  }

  /** As long as nobody is the last one out, no assertion fails, whatever comes next. */
  lemma {:induction false} NoAssertFails(s: Cluster, run: seq<Action>, a: Action)
    requires Inv(s) && SomeoneRuns(s) && CanRun(s, run) && NobodyLastOut(s, run) && Enabled(After(s, run), a)
    ensures NoneFails(s, run) && Asserts(After(s, run), a)
    decreases |run|
  {
    hide Inv, Enabled, Next, SomeoneRuns, LastOut, Asserts;
    if run == [] {
      AssertsExact(s, a);
    } else {
      AssertsExact(s, run[0]);
      StepKeepsInv(s, run[0]);
      StepKeepsRunner(s, run[0]);
      NoAssertFails(Next(s, run[0]), run[1..], a);
    }
  }

  predicate NobodyLastOut(s: Cluster, run: seq<Action>)
    requires CanRun(s, run)
    decreases |run|
  {
    run == [] || (!LastOut(s, run[0]) && NobodyLastOut(Next(s, run[0]), run[1..]))
  }

  lemma {:induction false} Append(s: Cluster, run: seq<Action>, more: seq<Action>)
    requires CanRun(s, run) && CanRun(After(s, run), more)
    ensures CanRun(s, run + more) && After(s, run + more) == After(After(s, run), more)
    decreases |run|
  {
    hide Enabled, Next;
    if run == [] {
      assert run + more == more;
    } else {
      assert (run + more)[1..] == run[1..] + more;
      Append(Next(s, run[0]), run[1..], more);
    }
  }

  lemma OneAction(s: Cluster, a: Action)
    requires Enabled(s, a)
    ensures CanRun(s, [a]) && After(s, [a]) == Next(s, a)
  {
    hide Enabled, Next;
    assert [a][1..] == [];
    assert After(Next(s, a), []) == Next(s, a);
  }

  /** The thread takes the lock and runs its section. */
  lemma LockAndRun(s: Cluster, t: Tid)
    requires Enabled(s, Lock(t)) && Enabled(Next(s, Lock(t)), Section(t))
    ensures CanRun(s, [Lock(t), Section(t)]) && After(s, [Lock(t), Section(t)]) == Next(Next(s, Lock(t)), Section(t))
  {
    hide Next, Enabled;
    OneAction(s, Lock(t));
    OneAction(Next(s, Lock(t)), Section(t));
    Append(s, [Lock(t)], [Section(t)]);
  }

  /** Thread 0 is about to suspend thread 1. */
  function Two(owner: Option<Tid>, phase: Phase, nparked: int, p0: Point, p1: Point): Cluster {
    Cluster(owner, phase, 2, nparked, map[0 := p0, 1 := p1], NotJoining)
  }

  lemma ZeroWaits() returns (run: seq<Action>)
    ensures CanRun(Two(None, Normal, 0, Running, Running), run)
    ensures After(Two(None, Normal, 0, Running, Running), run) == Two(None, Stopping, 0, Asleep(ForPark), Running)
  {
    var s := Two(None, Normal, 0, Running, Running);
    OneAction(s, Suspend(0));
    assert Next(s, Suspend(0)) == Two(None, Normal, 0, SuspendEntry, Running);
    assert Next(Next(s, Suspend(0)), Lock(0)) == Two(Some(0), Normal, 0, Retry, Running);
    LockAndRun(Next(s, Suspend(0)), 0);
    Append(s, [Suspend(0)], [Lock(0), Section(0)]);
    run := [Suspend(0)] + [Lock(0), Section(0)];
  }

  lemma OneParks() returns (run: seq<Action>)
    ensures CanRun(Two(None, Stopping, 0, Asleep(ForPark), Running), run)
    ensures After(Two(None, Stopping, 0, Asleep(ForPark), Running), run) == Two(None, Stopping, 1, Woken(ForPark), Asleep(InParked(false)))
  {
    var s := Two(None, Stopping, 0, Asleep(ForPark), Running);
    OneAction(s, Test(1));
    assert Next(s, Test(1)) == Two(None, Stopping, 0, Asleep(ForPark), SeenStopping);
    assert Next(Next(s, Test(1)), Lock(1)) == Two(Some(1), Stopping, 0, Asleep(ForPark), ParkEntry);
    LockAndRun(Next(s, Test(1)), 1);
    Append(s, [Test(1)], [Lock(1), Section(1)]);
    run := [Test(1)] + [Lock(1), Section(1)];
  }

  lemma ZeroResumes() returns (run: seq<Action>)
    ensures CanRun(Two(None, Stopping, 1, Woken(ForPark), Asleep(InParked(false))), run)
    ensures After(Two(None, Stopping, 1, Woken(ForPark), Asleep(InParked(false))), run)
            == Two(None, Resuming, 1, Running, Woken(InParked(false)))
  {
    var s := Two(None, Stopping, 1, Woken(ForPark), Asleep(InParked(false)));
    assert Next(s, Lock(0)) == Two(Some(0), Stopping, 1, Relocked(ForPark), Asleep(InParked(false)));
    LockAndRun(s, 0);
    var s2 := Two(None, Stopping, 1, Critical, Asleep(InParked(false)));
    assert Next(s2, Lock(0)) == Two(Some(0), Stopping, 1, ResumeLocked, Asleep(InParked(false)));
    LockAndRun(s2, 0);
    Append(s, [Lock(0), Section(0)], [Lock(0), Section(0)]);
    run := [Lock(0), Section(0)] + [Lock(0), Section(0)];
  }

  lemma ZeroLeaves() returns (run: seq<Action>)
    ensures CanRun(Two(None, Resuming, 1, Running, Woken(InParked(false))), run)
    ensures After(Two(None, Resuming, 1, Running, Woken(InParked(false))), run)
            == Cluster(Some(1), Resuming, 1, 1, map[1 := Relocked(InParked(false))], NotJoining)
  {
    var s := Two(None, Resuming, 1, Running, Woken(InParked(false)));
    OneAction(s, Leave(0));
    var s2 := Next(s, Leave(0));
    assert s2.at == map[1 := Woken(InParked(false))];
    OneAction(s2, Lock(1));
    Append(s, [Leave(0)], [Lock(1)]);
    run := [Leave(0)] + [Lock(1)];
  }

  /** Two threads: the suspender resumes and leaves before the other one has left parked. */
  lemma LeavingBreaksAssertion() returns (s: Cluster, run: seq<Action>)
    ensures Init(s) && CanRun(s, run) && Enabled(After(s, run), Section(1)) && !Asserts(After(s, run), Section(1))
  {
    s := Two(None, Normal, 0, Running, Running);
    assert s.at.Keys == {0, 1};
    var r1 := ZeroWaits();
    var r2 := OneParks();
    var r3 := ZeroResumes();
    var r4 := ZeroLeaves();
    Append(s, r1, r2);
    Append(s, r1 + r2, r3);
    Append(s, r1 + r2 + r3, r4);
    run := r1 + r2 + r3 + r4;
  }

  // ---- what the model leaves open ----

  /** Nothing is ruled out: a thread may take any step that the code, the mutex and the condition variable let it take. */
  lemma NothingRuledOut(s: Cluster, t: Tid, child: Tid)
    requires Inv(s) && t in s.at
    ensures s.at[t] == Running ==>
              && Enabled(s, Test(t)) && Enabled(s, Suspend(t))
              && (s.owner == None ==> Enabled(s, Leave(t)) && (child !in s.at ==> Enabled(s, Add(t, child))))
    ensures s.at[t].Asleep? ==> Enabled(s, Spurious(t))
    ensures s.at[t] != Running && !s.at[t].Asleep? ==>
              (s.owner == None ==> Enabled(s, Lock(t))) && (s.owner == Some(t) ==> Enabled(s, Section(t)))
    ensures s.owner == None ==> (s.join == NotJoining ==> Enabled(s, Join)) && (s.join == JoinWoken ==> Enabled(s, JoinRelock))
    ensures s.join == JoinAsleep ==> Enabled(s, JoinSpurious)
  {
  }
}
