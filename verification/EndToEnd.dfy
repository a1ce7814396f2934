/**
  From the call of an exported function to its results: the interpreter, under
  any schedule, computes what the structured semantics says.
 */
module EndToEnd {
  import opened Leb
  import opened Code
  import opened Machine
  import opened Structured
  import opened Relation
  import opened Returns
  import opened Calls
  import opened Steps
  import opened Simulation
  import opened Runs

  // ---- structured runs ----

  /** All cells on the stack of a configuration. */
  function Stack(c: Conf): seq<cell> {
    match c.mode
    case Run => ActCells(c.acts)
    case Calling(_, args, _) => ActCells(c.acts) + args
    case Returned(results) => ActCells(c.acts) + results
  }

  /** A step whose stale cells are those of `stale`. */
  function StepOnce(M: Machine, B: Bodies, stale: Stale, c: Conf): Next {
    if MachineOk(M) then Step(M, B, c, stale(Stack(c))) else Wrong
  }

  /** At most `n` steps. */
  function StepRunN(M: Machine, B: Bodies, stale: Stale, c: Conf, n: nat): Next
    decreases n
  {
    if n == 0 then On(c)
    else match StepOnce(M, B, stale, c)
      case On(c1) => StepRunN(M, B, stale, c1, n - 1)
      case Final(r, w) => Final(r, w)
      case Fails(id) => Fails(id)
      case Wrong => Wrong
  }

  /** Validated: no structured run from here gets stuck. */
  ghost predicate Sound(M: Machine, B: Bodies, stale: Stale, c: Conf) {
    forall n: nat :: !StepRunN(M, B, stale, c, n).Wrong?
  }

  /** The program is well formed, and the state represents the configuration. */
  ghost predicate Related(M: Machine, B: Bodies, c: Conf, s: State) {
    ProgramOk(M, B) && MachineOk(M) && Rel(M, B, c, s)
  }

  lemma StackIs(M: Machine, B: Bodies, c: Conf, s: State)
    requires ProgramOk(M, B) && Rel(M, B, c, s)
    ensures s.stack == Stack(c)
  {
    hide ProgramOk, CachesOk, InstOk, FinstOk, RelActs, ActCells;
    var n := match c.mode case Run => 0 case Calling(_, args, _) => |args| case Returned(r) => |r|;
    assert c.mode.Run? ==> s.stack[..|s.stack| - n] == s.stack;
    StackIsCells(M, B, c.acts, s.frames, s.labels, s.locals, s.stack[..|s.stack| - n], s.p, s.restarts, s.bottom);
    assert s.stack == s.stack[..|s.stack| - n] + s.stack[|s.stack| - n..];
  }

  /** The instruction has been executed, the jump that it schedules not yet taken. */
  predicate Halfway(M: Machine, stale: Stale, s: State) {
    && StateOk(M, s) && Micro(M, s, stale(s.stack)).Go? && Transient(Micro(M, s, stale(s.stack)).s.event)
    && MicroRun(M, stale, s, 1) == Micro(M, s, stale(s.stack))
  }

  /** A macro step is one or two micro steps. */
  lemma MacroIsMicros(M: Machine, stale: Stale, s: State) returns (k: nat)
    requires StateOk(M, s)
    ensures k == 1 || (k == 2 && Halfway(M, stale, s))
    ensures MicroRun(M, stale, s, k) == match Macro(M, s, stale(s.stack)) case Yield(t) => Go(t) case o => o
  {
    hide StateOk, Micro, MicroRun;
    OneMicro(M, stale, s);
    var o := Micro(M, s, stale(s.stack));
    k := 1;
    if o.Go? && StateOk(M, o.s) && Transient(o.s.event) {
      k := 2;
      MoreMicro(M, stale, s, 1, 1);
      OneMicro(M, stale, o.s);
      PadIrrelevant(M, o.s, stale(s.stack), stale(o.s.stack));
    }
  }

  lemma PadIrrelevant(M: Machine, s: State, p: seq<cell>, q: seq<cell>)
    requires StateOk(M, s) && Transient(s.event) && |p| == EXN_CELLS && |q| == EXN_CELLS
    ensures Micro(M, s, p) == Micro(M, s, q)
  {
    hide StateOk, DoBranch, DoException, LeaveForTailCall;
  }

  /** The end of a flat run is the end `n` of a structured one. */
  ghost predicate SameEnd(n: Next, o: Outcome) {
    match n
    case On(_) => false
    case Final(results, w) => o.Finished? && o.s.stack == results && o.s.world == w && o.s.frames == []
    case Fails(id) => o == Trapped(id)
    case Wrong => true
  }

  /** A structured outcome and the flat outcome that represents it. */
  ghost predicate Matches(M: Machine, B: Bodies, n: Next, o: Outcome) {
    match n
    case On(c) => o.Go? && Related(M, B, c, o.s)
    case _ => SameEnd(n, o)
  }

  lemma FollowsMatches(M: Machine, B: Bodies, n: Next, o: Outcome, m: Outcome)
    requires ProgramOk(M, B) && MachineOk(M) && Follows(M, B, n, o)
    requires m == if o.Yield? then Go(o.s) else o
    ensures Matches(M, B, n, m)
  {
    hide ProgramOk, Rel, MachineOk;
  }

  lemma RelOk(M: Machine, B: Bodies, c: Conf, s: State)
    requires ProgramOk(M, B) && Rel(M, B, c, s)
    ensures StateOk(M, s)
  {
  }

  /** One structured step is one or two micro steps. */
  lemma StepIsMicros(M: Machine, B: Bodies, stale: Stale, c: Conf, s: State) returns (j: nat)
    requires Related(M, B, c, s)
    ensures j == 1 || (j == 2 && Halfway(M, stale, s))
    ensures Matches(M, B, StepOnce(M, B, stale, c), MicroRun(M, stale, s, j))
  {
    hide ProgramOk, MachineOk, Rel, Macro, Step, StateOk, Follows, MicroRun, Matches;
    StackIs(M, B, c, s);
    RelOk(M, B, c, s);
    StepSim(M, B, c, s, stale(s.stack));
    j := MacroIsMicros(M, stale, s);
    FollowsMatches(M, B, StepOnce(M, B, stale, c), Macro(M, s, stale(s.stack)), MicroRun(M, stale, s, j));
  }

  lemma MoreSteps(M: Machine, B: Bodies, stale: Stale, c: Conf, n: nat)
    ensures var nx := StepOnce(M, B, stale, c);
            StepRunN(M, B, stale, c, 1 + n) == if nx.On? then StepRunN(M, B, stale, nx.c, n) else nx
  {
    hide StepOnce;
  }

  lemma ZeroSteps(M: Machine, B: Bodies, stale: Stale, c: Conf)
    ensures StepRunN(M, B, stale, c, 0) == On(c)
  {
  }

  /** Past a match: the rest of the flat run. */
  lemma Rest(M: Machine, B: Bodies, stale: Stale, nx: Next, s: State, j: nat, k: nat)
    requires Matches(M, B, nx, MicroRun(M, stale, s, j))
    ensures nx.On? ==> MicroRun(M, stale, s, j + k) == MicroRun(M, stale, MicroRun(M, stale, s, j).s, k)
    ensures !nx.On? ==> SameEnd(nx, MicroRun(M, stale, s, j + k)) && Matches(M, B, nx, MicroRun(M, stale, s, j + k))
  {
    hide Related, MicroRun;
    MoreMicro(M, stale, s, j, k);
  }

  lemma OnMatches(M: Machine, B: Bodies, c: Conf, o: Outcome)
    ensures Matches(M, B, On(c), o) <==> o.Go? && Related(M, B, c, o.s)
  {
    hide Related;
  }

  /** An ended flat run has got past the step, or ended in it. */
  lemma Reaches(M: Machine, B: Bodies, stale: Stale, nx: Next, s: State, j: nat, k: nat)
    requires Matches(M, B, nx, MicroRun(M, stale, s, j)) && Ended(MicroRun(M, stale, s, k))
    requires j == 1 || (j == 2 && Halfway(M, stale, s))
    ensures nx.On? ==> j <= k && MicroRun(M, stale, s, j).Go? && Related(M, B, nx.c, MicroRun(M, stale, s, j).s)
    ensures nx.On? ==> MicroRun(M, stale, s, k) == MicroRun(M, stale, MicroRun(M, stale, s, j).s, k - j)
    ensures !nx.On? ==> SameEnd(nx, MicroRun(M, stale, s, k))
  {
    hide Related, MicroRun, Micro, StateOk;
    ZeroMicro(M, stale, s);
    if j <= k { Rest(M, B, stale, nx, s, j, k - j); }
  }

  /** If the machine ends, so does the structured run, in the same way (or validation was violated). */
  lemma {:induction false} MachineEnds(M: Machine, B: Bodies, stale: Stale, c: Conf, s: State, k: nat) returns (n: nat)
    requires Related(M, B, c, s) && Ended(MicroRun(M, stale, s, k))
    ensures SameEnd(StepRunN(M, B, stale, c, n), MicroRun(M, stale, s, k))
    decreases k
  {
    hide *;
    var nx := StepOnce(M, B, stale, c);
    var j := StepIsMicros(M, B, stale, c, s);
    Reaches(M, B, stale, nx, s, j, k);
    var i := 0;
    if nx.On? {
      i := MachineEnds(M, B, stale, nx.c, MicroRun(M, stale, s, j).s, k - j);
    }
    n := 1 + i;
    MoreSteps(M, B, stale, c, i);
  }

  /** A step that takes `j` micro steps, and what follows it. */
  lemma StepThen(M: Machine, B: Bodies, stale: Stale, c: Conf, s: State, n: nat, j: nat, i: nat)
    requires Matches(M, B, StepOnce(M, B, stale, c), MicroRun(M, stale, s, j))
    requires StepOnce(M, B, stale, c).On? && MicroRun(M, stale, s, j).Go?
    requires Matches(M, B, StepRunN(M, B, stale, StepOnce(M, B, stale, c).c, n), MicroRun(M, stale, MicroRun(M, stale, s, j).s, i))
    ensures Matches(M, B, StepRunN(M, B, stale, c, 1 + n), MicroRun(M, stale, s, j + i))
  {
    hide *;
    MoreSteps(M, B, stale, c, n);
    Rest(M, B, stale, StepOnce(M, B, stale, c), s, j, i);
  }

  /** A step that ends the run. */
  lemma StepLast(M: Machine, B: Bodies, stale: Stale, c: Conf, s: State, n: nat, j: nat)
    requires Matches(M, B, StepOnce(M, B, stale, c), MicroRun(M, stale, s, j)) && !StepOnce(M, B, stale, c).On?
    ensures Matches(M, B, StepRunN(M, B, stale, c, 1 + n), MicroRun(M, stale, s, j))
  {
    hide *;
    MoreSteps(M, B, stale, c, n);
  }

  /** If the structured run goes on for `n` steps, or ends, so does the machine. */
  lemma {:induction false} StructuredRuns(M: Machine, B: Bodies, stale: Stale, c: Conf, s: State, n: nat) returns (k: nat)
    requires Related(M, B, c, s)
    ensures Matches(M, B, StepRunN(M, B, stale, c, n), MicroRun(M, stale, s, k))
    decreases n
  {
    hide *;
    if n == 0 {
      k := 0;
      ZeroMicro(M, stale, s);
      ZeroSteps(M, B, stale, c);
      OnMatches(M, B, c, Go(s));
    } else {
      k := StepIsMicros(M, B, stale, c, s);
      if StepOnce(M, B, stale, c).On? {
        OnMatches(M, B, StepOnce(M, B, stale, c).c, MicroRun(M, stale, s, k));
        var i := StructuredRuns(M, B, stale, StepOnce(M, B, stale, c).c, MicroRun(M, stale, s, k).s, n - 1);
        StepThen(M, B, stale, c, s, n - 1, k, i);
        k := k + i;
      } else {
        StepLast(M, B, stale, c, s, n - 1, k);
      }
    }
  }

  // ---- calling a function ----

  /** invoke (lib/exec_insn_subr.c:713-747): arguments on an empty stack and a pending call. */
  function Invoked(inst: nat, f: nat, args: seq<cell>, w: World): State {
    State(inst, 0, [], args, [], [], CallEvent(f), [], 0, Fresh, NoRef, EmptyCache(), w)
  }

  function Call0(f: nat, args: seq<cell>, w: World): Conf { Conf(Empty, Calling(f, args, Fresh), w) }

  /** A well-formed program, and a call of one of its functions with as many arguments as it takes. */
  ghost predicate CallOk(M: Machine, B: Bodies, inst: nat, f: nat, args: seq<cell>) {
    ProgramOk(M, B) && MachineOk(M) && inst < |M.insts| && f < |M.finsts| && M.finsts[f].typ.params == |args|
  }

  lemma InvokedRel(M: Machine, B: Bodies, inst: nat, f: nat, args: seq<cell>, w: World)
    requires CallOk(M, B, inst, f, args)
    ensures Related(M, B, Call0(f, args, w), Invoked(inst, f, args, w))
  {
    assert InstOk(M, inst) && FinstOk(M, f);
    hide ProgramOk, InstOk, FinstOk;
    forall k | 0 <= k < CACHE_SIZE ensures EmptyCache()[k].key == 0 {}
    assert args[..0] == [];
  }

  /**
    The end to end statement. However the run is interrupted and restarted, if
    the interpreter returns from the call, the structured semantics gives these
    results; if it traps, the same trap. (Or the structured run is stuck, which
    validation rules out.)
   */
  lemma InterpreterCorrect(M: Machine, B: Bodies, stale: Stale, inst: nat, f: nat, args: seq<cell>, w: World, ticks: seq<Tick>)
    returns (n: nat)
    requires CallOk(M, B, inst, f, args)
    requires Ended(Drive(M, stale, Invoked(inst, f, args, w), ticks))
    ensures SameEnd(StepRunN(M, B, stale, Call0(f, args, w), n), Drive(M, stale, Invoked(inst, f, args, w), ticks))
  {
    hide Related, CallOk, MicroRun, Drive, SameEnd, StepRunN;
    InvokedRel(M, B, inst, f, args, w);
    var k := RestartTransparent(M, stale, Invoked(inst, f, args, w), ticks);
    n := MachineEnds(M, B, stale, Call0(f, args, w), Invoked(inst, f, args, w), k);
  }

  /** And if the structured call ends, so does every schedule with enough undisturbed passes. */
  lemma InterpreterComplete(M: Machine, B: Bodies, stale: Stale, inst: nat, f: nat, args: seq<cell>, w: World, n: nat)
    returns (enough: nat)
    requires CallOk(M, B, inst, f, args)
    requires StepRunN(M, B, stale, Call0(f, args, w), n).Final? || StepRunN(M, B, stale, Call0(f, args, w), n).Fails?
    ensures forall ticks :: CalmTicks(ticks) >= enough ==>
              SameEnd(StepRunN(M, B, stale, Call0(f, args, w), n), Drive(M, stale, Invoked(inst, f, args, w), ticks))
  {
    hide Related, CallOk, MicroRun, Drive, StepRunN;
    InvokedRel(M, B, inst, f, args, w);
    enough := StructuredRuns(M, B, stale, Call0(f, args, w), Invoked(inst, f, args, w), n);
    forall ticks | CalmTicks(ticks) >= enough
      ensures SameEnd(StepRunN(M, B, stale, Call0(f, args, w), n), Drive(M, stale, Invoked(inst, f, args, w), ticks))
    {
      ScheduleEnds(M, stale, Invoked(inst, f, args, w), ticks, enough);
    }
  }
}
