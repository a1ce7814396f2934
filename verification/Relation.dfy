/**
  How a flat state represents a structured configuration: the operand stack is
  the concatenation of the label segments, a label's height is where its
  segment starts plus its parameters, its pc is the opener of its block, the pc
  of every activation is the encoded position of the code it continues with,
  and the restart stack lists the host functions in progress.
 */
module Relation {
  import opened Leb
  import opened Code
  import opened Jumps
  import opened Machine
  import opened Structured

  // ---- the program ----

  ghost predicate BodyOk(m: Module, f: Func, c: Code) {
    && Wf(c)
    && At(m.bytes, f.start, Enc(c) + [END])
    && f.start > 0
    && (f.jumps == [] || f.jumps == Table(c, f.start))
  }

  /** Function bodies do not overlap. */
  ghost predicate Apart(fs: seq<Func>, cs: seq<Code>)
    requires |fs| == |cs|
  {
    forall i, j :: 0 <= i < j < |fs| ==> fs[i].start + |Enc(cs[i])| < fs[j].start
  }

  ghost predicate ModuleOk(m: Module, cs: seq<Code>) {
    && |m.funcs| == |cs|
    && (forall i :: 0 <= i < |cs| ==> BodyOk(m, m.funcs[i], cs[i]))
    && Apart(m.funcs, cs)
  }

  /** The bytes of every module encode the bodies `B`. */
  ghost predicate ProgramOk(M: Machine, B: Bodies) {
    && MachineOk(M)
    && |M.modules| == |B|
    && forall i :: 0 <= i < |B| ==> ModuleOk(M.modules[i], B[i])
  }

  ghost function Body(M: Machine, B: Bodies, inst: nat, fidx: nat): Code
    requires ProgramOk(M, B) && FuncOk(M, inst, fidx)
  {
    assert ModuleOk(M.modules[M.insts[inst].mod], B[M.insts[inst].mod]);
    B[M.insts[inst].mod][fidx]
  }

  // ---- labels ----

  /** Where the code of a block body stops: at its `else` or `end`. */
  function StopPos(blk: Instr, inElse: bool, q: nat): int
    requires blk.Blk?
  {
    if blk.hasElse && !inElse then ElsePos(blk, q) - 1 else EndPos(blk, q) - 1
  }

  /** The labels of one activation, whose operands start at `base`. */
  ghost predicate RelCtxs(types: seq<Sig>, body: Code, start: nat,
                          ctxs: Ctxs, labels: seq<Label>, base: nat, code: Code, p: nat)
  {
    && Sub(body, start, code, p)
    && match ctxs
       case Base => labels == [] && p + |Enc(code)| == start + |Enc(body)|
       case In(outer, blk, inElse, rest, below) =>
         && labels != [] && blk.Blk? && (inElse ==> blk.hasElse)
         && BlockType(types, blk).Some?
         && p + |Enc(code)| == StopPos(blk, inElse, Top(labels).pc)
         && Top(labels).height == base + |CtxCells(below, outer)| + BlockType(types, blk).value.params
         && Sub(body, start, Cons(blk, rest), Top(labels).pc)
         && RelCtxs(types, body, start, below, Pop(labels), base, rest, EndPos(blk, Top(labels).pc))
  }

  // ---- activations ----

  ghost predicate RelActs(M: Machine, B: Bodies, acts: Acts, frames: seq<Frame>, labels: seq<Label>,
                          locals: seq<cell>, stack: seq<cell>, p: nat, restarts: seq<Restart>, bottom: nat)
    requires ProgramOk(M, B)
  {
    match acts
    case Empty => frames == [] && labels == [] && locals == [] && stack == [] && restarts == [] && bottom == 0
    case Wasm(inst, fidx, lcl, ctxs, seg, code, below) =>
      && frames != [] && FuncOk(M, inst, fidx)
      && FrameRel(M, B, acts, Top(frames), labels, locals, stack, p)
      && bottom < |frames|
      && var fr := Top(frames);
         RelActs(M, B, below, Pop(frames), labels[..fr.labelidx], locals[..fr.localidx], stack[..fr.height],
                 fr.callerpc, restarts, bottom)
    case Host(f, params, user, adj, below) =>
      && restarts != [] && Top(restarts) == Restart(f, Top(restarts).savedBottom, adj, user)
      && bottom == |frames| && Top(restarts).savedBottom <= bottom
      && FinstOk(M, f) && M.finsts[f].HostFunc? && M.finsts[f].typ.params == |params|
      && |params| <= |stack| && stack[|stack| - |params|..] == params
      && RelActs(M, B, below, frames, labels, locals, stack[..|stack| - |params|], p, Pop(restarts), Top(restarts).savedBottom)
  }

  /** The top frame and the parts of the stacks that it owns. */
  ghost predicate FrameRel(M: Machine, B: Bodies, a: Acts, fr: Frame, labels: seq<Label>,
                           locals: seq<cell>, stack: seq<cell>, p: nat)
    requires ProgramOk(M, B) && a.Wasm? && FuncOk(M, a.inst, a.fidx)
  {
    && fr.inst == a.inst && fr.fidx == a.fidx && fr.nresults == FuncAt(M, a.inst, a.fidx).typ.results
    && fr.labelidx <= |labels| && fr.localidx <= |locals| && fr.height <= |stack|
    && locals[fr.localidx..] == a.locals
    && stack[fr.height..] == CtxCells(a.ctxs, a.seg)
    && RelCtxs(ModOf(M, a.inst).types, Body(M, B, a.inst, a.fidx), FuncAt(M, a.inst, a.fidx).start,
               a.ctxs, labels[fr.labelidx..], fr.height, a.code, p)
  }

  // ---- caches ----

  /** What leaving the block `b` at `q` gives. */
  function ExitOf(types: seq<Sig>, b: Instr, q: nat, gotoElse: bool): Exit
    requires b.Blk? && BlockType(types, b).Some?
  {
    var t := BlockType(types, b).value;
    if b.kind == KLoop then Exit(q, false, t.params, t.params)
    else if gotoElse && b.hasElse then Exit(ElsePos(b, q), true, 0, 0)
    else Exit(EndPos(b, q), false, t.params, t.results)
  }

  /** A live cache entry records the exit of some block of the module. */
  ghost predicate EntryOk(m: Module, cs: seq<Code>, e: CacheEntry)
    requires |m.funcs| == |cs|
  {
    e.key == 0 || exists f, b, tl, q, ge :: EntryFor(m, cs, e, f, b, tl, q, ge)
  }

  ghost predicate EntryFor(m: Module, cs: seq<Code>, e: CacheEntry, f: nat, b: Instr, tl: Code, q: nat, ge: bool)
    requires |m.funcs| == |cs|
  {
    && f < |cs| && Opens(cs[f], m.funcs[f].start, b, tl, q) && BlockType(m.types, b).Some?
    && e.key == Key(q, ge) && Exit(e.target, e.stay, e.params, e.arity) == ExitOf(m.types, b, q, ge)
  }

  ghost predicate CachesOk(M: Machine, B: Bodies, s: State)
    requires ProgramOk(M, B) && InstOk(M, s.inst)
  {
    var mod := M.insts[s.inst].mod;
    assert ModuleOk(M.modules[mod], B[mod]);
    && |s.cache| == CACHE_SIZE
    && (forall k :: 0 <= k < CACHE_SIZE ==> EntryOk(M.modules[mod], B[mod], s.cache[k]))
    && (s.jcache.JumpRef? ==> RefValid(M, s))
  }

  // ---- the relation ----

  ghost predicate Rel(M: Machine, B: Bodies, c: Conf, s: State)
    requires ProgramOk(M, B)
  {
    && StateOk(M, s) && CachesOk(M, B, s)
    && s.world == c.world
    && (s.frames != [] ==> s.inst == Top(s.frames).inst)
    && match c.mode
       case Run =>
         && s.event == NoEvent && s.resume == Fresh && c.acts.Wasm?
         && RelActs(M, B, c.acts, s.frames, s.labels, s.locals, s.stack, s.p, s.restarts, s.bottom)
       case Calling(f, args, resume) =>
         && s.event == CallEvent(f) && s.resume == resume && FinstOk(M, f) && M.finsts[f].typ.params == |args|
         && |args| <= |s.stack| && s.stack[|s.stack| - |args|..] == args
         && RelActs(M, B, c.acts, s.frames, s.labels, s.locals, s.stack[..|s.stack| - |args|], s.p, s.restarts, s.bottom)
       case Returned(results) =>
         && s.event == NoEvent && s.resume == Fresh && !c.acts.Wasm?
         && |results| <= |s.stack| && s.stack[|s.stack| - |results|..] == results
         && RelActs(M, B, c.acts, s.frames, s.labels, s.locals, s.stack[..|s.stack| - |results|], s.p, s.restarts, s.bottom)
  }

  // ---- first consequences ----

  /** The operand stack is the concatenation of all segments; frames are wasm activations. */
  lemma {:induction false} StackIsCells(M: Machine, B: Bodies, acts: Acts, frames: seq<Frame>, labels: seq<Label>,
                     locals: seq<cell>, stack: seq<cell>, p: nat, restarts: seq<Restart>, bottom: nat)
    requires ProgramOk(M, B) && RelActs(M, B, acts, frames, labels, locals, stack, p, restarts, bottom)
    ensures stack == ActCells(acts) && |frames| == Depth(acts) && bottom <= |frames|
    decreases acts
  {
    hide RelCtxs, ProgramOk;
    match acts {
      case Empty =>
      case Wasm(_, _, _, _, _, _, below) =>
        var fr := Top(frames);
        StackIsCells(M, B, below, Pop(frames), labels[..fr.labelidx], locals[..fr.localidx], stack[..fr.height],
                     fr.callerpc, restarts, bottom);
        assert stack == stack[..fr.height] + stack[fr.height..];
      case Host(_, params, _, _, below) =>
        StackIsCells(M, B, below, frames, labels, locals, stack[..|stack| - |params|], p, Pop(restarts), Top(restarts).savedBottom);
        assert stack == stack[..|stack| - |params|] + stack[|stack| - |params|..];
    }
  }

  /** The module of an instance encodes its bodies. */
  lemma Bytes(M: Machine, B: Bodies, inst: nat, fidx: nat)
    requires ProgramOk(M, B) && FuncOk(M, inst, fidx)
    ensures BodyOk(ModOf(M, inst), FuncAt(M, inst, fidx), Body(M, B, inst, fidx))
    ensures ModuleOk(ModOf(M, inst), B[M.insts[inst].mod])
  {
    assert ModuleOk(M.modules[M.insts[inst].mod], B[M.insts[inst].mod]);
  }

  /** Code that lies in a function body is well formed and stands at its position. */
  lemma CodeAt(M: Machine, B: Bodies, inst: nat, fidx: nat, code: Code, p: nat)
    requires ProgramOk(M, B) && FuncOk(M, inst, fidx)
    requires Sub(Body(M, B, inst, fidx), FuncAt(M, inst, fidx).start, code, p)
    ensures Wf(code) && At(ModOf(M, inst).bytes, p, Enc(code))
  {
    hide Wf, Enc, Sub;
    var f, c := FuncAt(M, inst, fidx), Body(M, B, inst, fidx);
    Bytes(M, B, inst, fidx);
    AtSplit(ModOf(M, inst).bytes, f.start, Enc(c), [END]);
    SubAt(ModOf(M, inst).bytes, c, f.start, code, p);
    SubWf(c, f.start, code, p);
  }
}
