/**
  Nested calls from host functions are last-in first-out (lib/host_instance.c:250-294,
  lib/exec.c:295-328 and 1200-1219): in every state of every run, also between an
  instruction and the jump that it has scheduled, and whenever a run is interrupted.
 */
module Nesting {
  import opened Leb
  import opened Code
  import opened Jumps
  import opened Machine
  import opened Structured
  import opened Relation
  import opened Exits
  import opened Branches
  import opened Returns
  import opened Steps
  import opened Blocks
  import opened Simulation
  import opened Runs
  import opened EndToEnd

  /** Saved bottoms and frame indexes are monotone, and bounded by what is there now. */
  ghost predicate Nested(frames: seq<Frame>, nlabels: nat, nlocals: nat, height: nat, restarts: seq<Restart>, bottom: nat) {
    && bottom <= |frames|
    && (forall i, j :: 0 <= i < j < |restarts| ==> restarts[i].savedBottom <= restarts[j].savedBottom)
    && (forall i :: 0 <= i < |restarts| ==> restarts[i].savedBottom <= bottom)
    && (forall i, j :: 0 <= i < j < |frames| ==>
          frames[i].labelidx <= frames[j].labelidx && frames[i].localidx <= frames[j].localidx && frames[i].height <= frames[j].height)
    && (forall i :: 0 <= i < |frames| ==>
          frames[i].labelidx <= nlabels && frames[i].localidx <= nlocals && frames[i].height <= height)
  }

  lemma NothingNested()
    ensures Nested([], 0, 0, 0, [], 0)
  {
  }

  /** One more frame on nested ones. */
  lemma NestedFrame(frames: seq<Frame>, nlabels: nat, nlocals: nat, height: nat, restarts: seq<Restart>, bottom: nat)
    requires frames != [] && bottom <= |frames|
    requires var fr := Top(frames); fr.labelidx <= nlabels && fr.localidx <= nlocals && fr.height <= height
    requires Nested(Pop(frames), Top(frames).labelidx, Top(frames).localidx, Top(frames).height, restarts, bottom)
    ensures Nested(frames, nlabels, nlocals, height, restarts, bottom)
  {
    var below := Pop(frames);
    assert forall i :: 0 <= i < |below| ==> frames[i] == below[i];
  }

  /** One more host function on nested ones. */
  lemma NestedRestart(frames: seq<Frame>, nlabels: nat, nlocals: nat, height: nat, more: nat, restarts: seq<Restart>)
    requires restarts != [] && height <= more && Top(restarts).savedBottom <= |frames|
    requires Nested(frames, nlabels, nlocals, height, Pop(restarts), Top(restarts).savedBottom)
    ensures Nested(frames, nlabels, nlocals, more, restarts, |frames|)
  {
    var below := Pop(restarts);
    assert forall i :: 0 <= i < |below| ==> restarts[i] == below[i];
  }

  lemma {:induction false} ActsNested(M: Machine, B: Bodies, acts: Acts, frames: seq<Frame>, labels: seq<Label>, locals: seq<cell>,
                                      stack: seq<cell>, p: nat, restarts: seq<Restart>, bottom: nat)
    requires ProgramOk(M, B) && RelActs(M, B, acts, frames, labels, locals, stack, p, restarts, bottom)
    ensures Nested(frames, |labels|, |locals|, |stack|, restarts, bottom)
    decreases acts
  {
    hide ProgramOk, InstOk, FinstOk, RelCtxs, CtxCells, Nested;
    match acts {
      case Empty => NothingNested();
      case Wasm(_, _, _, _, _, _, below) =>
        var fr := Top(frames);
        ActsNested(M, B, below, Pop(frames), labels[..fr.labelidx], locals[..fr.localidx], stack[..fr.height], fr.callerpc, restarts, bottom);
        NestedFrame(frames, |labels|, |locals|, |stack|, restarts, bottom);
      case Host(_, params, _, _, below) =>
        ActsNested(M, B, below, frames, labels, locals, stack[..|stack| - |params|], p, Pop(restarts), Top(restarts).savedBottom);
        NestedRestart(frames, |labels|, |locals|, |stack| - |params|, |stack|, restarts);
    }
  }

  lemma RelNested(M: Machine, B: Bodies, c: Conf, s: State)
    requires ProgramOk(M, B) && Rel(M, B, c, s)
    ensures Nested(s.frames, |s.labels|, |s.locals|, |s.stack|, s.restarts, s.bottom)
  {
    hide ProgramOk, RelActs, CachesOk, InstOk, FinstOk;
    var n := match c.mode case Run => 0 case Calling(_, args, _) => |args| case Returned(r) => |r|;
    assert c.mode.Run? ==> s.stack[..|s.stack| - n] == s.stack;
    ActsNested(M, B, c.acts, s.frames, s.labels, s.locals, s.stack[..|s.stack| - n], s.p, s.restarts, s.bottom);
  }

  ghost predicate NestedState(s: State) { Nested(s.frames, |s.labels|, |s.locals|, |s.stack|, s.restarts, s.bottom) }

  // ---- between an instruction and its jump ----

  predicate Pops(op: byte) { op == IF || op == BR_IF || op == BR_TABLE }

  /** Scheduling a jump leaves the frames alone, pops no label and at most a condition. */
  lemma FetchShape(M: Machine, s: State, pad: seq<cell>)
    requires StateOk(M, s) && |pad| == EXN_CELLS && FetchExec(M, s, pad).Go? && Transient(FetchExec(M, s, pad).s.event)
    requires s.event == NoEvent
    ensures var t := FetchExec(M, s, pad).s;
            && t.frames == s.frames && t.locals == s.locals && t.restarts == s.restarts && t.bottom == s.bottom
            && |t.labels| >= |s.labels| && s.p < |ModOf(M, s.inst).bytes|
            && |t.stack| >= |s.stack| - (if Pops(ModOf(M, s.inst).bytes[s.p]) then 1 else 0)
  {
    hide InstOk, ReadU32, ReadS33, HeaderEnd, SkipLebs, PlainEnd;
  }

  /** Where validated code pops a condition, there is one. */
  lemma ConditionThere(M: Machine, B: Bodies, a: Acts, s: State, pad: seq<cell>)
    requires ProgramOk(M, B) && MachineOk(M) && Steps.Runs(M, B, a, s) && |pad| == EXN_CELLS
    requires StepRun(M, a, s.world, pad) != Wrong
    requires StateOk(M, s) && s.p < |ModOf(M, s.inst).bytes| && Pops(ModOf(M, s.inst).bytes[s.p])
    ensures a.seg != []
  {
    hide ProgramOk, MachineOk, Repr, Wf, InstOk, StateOk, ReturnFrom, LeaveBlock, TakeBranch, Enter, LeafWf, EncLeaf, InstrWf, HeaderRead, HeaderWf;
    Setup(M, B, a, s);
    match a.code {
      case Nil => if a.ctxs.In? { StopByte(M, B, a, s); } else { LastByteIs(M, B, a, s); }
      case Cons(i, tl) =>
        match i {
          case Leaf(l) => LeafHead(M, B, a, s, l, tl); LeafPops(ModOf(M, s.inst).bytes, s.p, l);
          case Blk(_, _, _, _, _, _, _) => BlockHead(M, B, a, s, i, tl); BlockPops(ModOf(M, s.inst).bytes, s.p, i);
        }
    }
  }

  lemma LeafPops(code: seq<byte>, p: nat, l: Leaf)
    requires LeafWf(l) && At(code, p, EncLeaf(l))
    ensures |EncLeaf(l)| > 0 && (Pops(EncLeaf(l)[0]) ==> l.BrIf? || l.BrTable?)
  {
    hide PlainEnd, IsU32, U32, At, PlainWf, EncPlain;
    LeafAt(code, p, l);
    if l.Plain? { PlainAt(code, p, l.instr); }
  }

  lemma BlockPops(code: seq<byte>, p: nat, b: Instr)
    requires HeaderRead(code, p, b)
    ensures p < |code| && (Pops(code[p]) ==> b.Blk? && b.kind == KIf)
  {
    hide ReadS33, HeaderEnd, HeaderWf;
  }

  /** Also with a jump pending the marks of the top frame are within the stacks. */
  lemma PendingNested(M: Machine, B: Bodies, a: Acts, s: State, pad: seq<cell>)
    requires ProgramOk(M, B) && MachineOk(M) && Steps.Runs(M, B, a, s) && |pad| == EXN_CELLS && NestedState(s)
    requires StepRun(M, a, s.world, pad) != Wrong
    requires StateOk(M, s) && Micro(M, s, pad).Go? && Transient(Micro(M, s, pad).s.event)
    ensures NestedState(Micro(M, s, pad).s)
  {
    hide ProgramOk, MachineOk, Repr, RelCtxs, CtxCells, StepRun, InstOk, FetchExec, Wf, Enc, At;
    Setup(M, B, a, s);
    FetchShape(M, s, pad);
    if Pops(ModOf(M, s.inst).bytes[s.p]) {
      ConditionThere(M, B, a, s, pad);
      CellsTop(s.stack[..Top(s.frames).height], a.ctxs, a.seg, 1);
      assert Under(s.stack, 1)[..Top(s.frames).height] == s.stack[..Top(s.frames).height];
    }
  }

  // ---- whole runs ----

  lemma HalfwayNested(M: Machine, B: Bodies, stale: Stale, c: Conf, s: State)
    requires Related(M, B, c, s) && StepOnce(M, B, stale, c) != Wrong && Halfway(M, stale, s)
    ensures NestedState(MicroRun(M, stale, s, 1).s)
  {
    hide ProgramOk, MachineOk, StateOk, RelActs, CachesOk, Micro, MicroRun, StepRun, StepCall, NestedState;
    StackIs(M, B, c, s);
    StateNested(M, B, c, s);
    var pad := stale(s.stack);
    if c.mode.Calling? { CallSettles(M, s, pad); }
    if c.mode.Returned? { ReturnSettles(M, B, c, s, pad); }
    if c.mode.Run? { PendingNested(M, B, c.acts, s, pad); }
  }

  lemma StateNested(M: Machine, B: Bodies, c: Conf, s: State)
    requires Related(M, B, c, s)
    ensures NestedState(s)
  {
    hide Rel, ProgramOk, MachineOk, Nested;
    RelNested(M, B, c, s);
  }

  lemma SoundStep(M: Machine, B: Bodies, stale: Stale, c: Conf)
    requires Sound(M, B, stale, c)
    ensures var nx := StepOnce(M, B, stale, c); nx != Wrong && (nx.On? ==> Sound(M, B, stale, nx.c))
  {
    hide StepOnce, StepRunN;
    var nx := StepOnce(M, B, stale, c);
    MoreSteps(M, B, stale, c, 0);
    assert !StepRunN(M, B, stale, c, 1 + 0).Wrong?;
    if nx.On? {
      forall n: nat ensures !StepRunN(M, B, stale, nx.c, n).Wrong? {
        MoreSteps(M, B, stale, c, n);
        assert !StepRunN(M, B, stale, c, 1 + n).Wrong?;
      }
    }
  }

  /** In every state of every run of validated code, nested host calls are last-in first-out. */
  lemma {:induction false} RunsNest(M: Machine, B: Bodies, stale: Stale, c: Conf, s: State, k: nat)
    requires Related(M, B, c, s) && Sound(M, B, stale, c) && MicroRun(M, stale, s, k).Go?
    ensures NestedState(MicroRun(M, stale, s, k).s)
    decreases k
  {
    hide *;
    ZeroMicro(M, stale, s);
    StateNested(M, B, c, s);
    if k > 0 {
      var nx := StepOnce(M, B, stale, c);
      SoundStep(M, B, stale, c);
      var j := StepIsMicros(M, B, stale, c, s);
      if k < j {
        HalfwayNested(M, B, stale, c, s);
      } else {
        GoesOn(M, B, stale, nx, s, j, k);
        RunsNest(M, B, stale, nx.c, MicroRun(M, stale, s, j).s, k - j);
      }
    }
  }

  /** If the flat run has got further than the step, so has the structured one. */
  lemma GoesOn(M: Machine, B: Bodies, stale: Stale, nx: Next, s: State, j: nat, k: nat)
    requires Matches(M, B, nx, MicroRun(M, stale, s, j)) && nx != Wrong && j <= k && MicroRun(M, stale, s, k).Go?
    ensures nx.On? && MicroRun(M, stale, s, j).Go? && Related(M, B, nx.c, MicroRun(M, stale, s, j).s)
    ensures MicroRun(M, stale, s, k) == MicroRun(M, stale, MicroRun(M, stale, s, j).s, k - j)
  {
    hide Related, MicroRun;
    Rest(M, B, stale, nx, s, j, k - j);
  }

  /** And in whatever state an interrupt, a host function or an instruction leaves a run to be continued. */
  lemma InterruptedNests(M: Machine, B: Bodies, stale: Stale, c: Conf, s: State, ticks: seq<Tick>)
    requires Related(M, B, c, s) && Sound(M, B, stale, c)
    requires Drive(M, stale, s, ticks).Go?
    ensures NestedState(Drive(M, stale, s, ticks).s)
  {
    hide Drive, MicroRun, Sound, Related, Nested;
    NoRestart(M, B, c, s);
    var k := RestartTransparent(M, stale, s, ticks);
    RunsNest(M, B, stale, c, s, k);
  }

  lemma NoRestart(M: Machine, B: Bodies, c: Conf, s: State)
    requires Related(M, B, c, s)
    ensures Pending(s) && Norm(s) == s
  {
    hide ProgramOk, MachineOk, RelActs, CachesOk, StateOk;
  }
}
