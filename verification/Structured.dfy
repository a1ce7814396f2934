/**
  The structured semantics: every label owns its own operands, every call its
  own activation, and host functions in progress are activations too. This is
  the reading of WebAssembly Core 2.0, sections 4.4.8 to 4.4.10, that the flat
  machine is compared with. A step is stuck where validated code never gets:
  in particular when a block ends with a number of operands other than the
  number of its results.
 */
module Structured {
  import opened Leb
  import opened Code
  import opened Machine
  import opened Types

  /** The code of every function: `B[module][function]`. */
  type Bodies = seq<seq<Code>>

  /**
    The open blocks of an activation, innermost first. `outer` are the operands
    below the block's parameters, `rest` the code after the block.
   */
  datatype Ctxs = Base | In(outer: seq<cell>, blk: Instr, inElse: bool, rest: Code, below: Ctxs)

  /** The activations, innermost first. A host activation waits for its callee. */
  datatype Acts =
    | Empty
    | Wasm(inst: nat, fidx: nat, locals: seq<cell>, ctxs: Ctxs, seg: seq<cell>, code: Code, below: Acts)
    | Host(func: nat, params: seq<cell>, user: nat, adj: nat, below: Acts)

  datatype Mode =
    | Run
    | Calling(func: nat, args: seq<cell>, resume: Resume)
    | Returned(results: seq<cell>)

  datatype Conf = Conf(acts: Acts, mode: Mode, world: World)

  datatype Next = On(c: Conf) | Final(results: seq<cell>, world: World) | Fails(id: TrapId) | Wrong

  // ---- sizes ----

  function CtxCells(ctxs: Ctxs, seg: seq<cell>): seq<cell> {
    match ctxs
    case Base => seg
    case In(outer, _, _, _, below) => CtxCells(below, outer) + seg
  }

  function ActCells(acts: Acts): seq<cell> {
    match acts
    case Empty => []
    case Wasm(_, _, _, ctxs, seg, _, below) => ActCells(below) + CtxCells(ctxs, seg)
    case Host(_, params, _, _, below) => ActCells(below) + params
  }

  function Depth(acts: Acts): nat {
    match acts
    case Empty => 0
    case Wasm(_, _, _, _, _, _, below) => 1 + Depth(below)
    case Host(_, _, _, _, below) => Depth(below)
  }

  // ---- results and branches ----

  function TopN(s: seq<cell>, n: nat): seq<cell> requires n <= |s| { s[|s| - n..] }
  function Under(s: seq<cell>, n: nat): seq<cell> requires n <= |s| { s[..|s| - n] }

  /** Hand results to the activation that is now on top. */
  function Deliver(acts: Acts, results: seq<cell>, w: World): Next {
    if acts.Wasm? then On(Conf(acts.(seg := acts.seg + results), Run, w))
    else On(Conf(acts, Returned(results), w))
  }

  function ReturnFrom(M: Machine, a: Acts, seg: seq<cell>, w: World): Next
    requires a.Wasm? && FuncOk(M, a.inst, a.fidx)
  {
    var n := FuncAt(M, a.inst, a.fidx).typ.results;
    if |seg| < n then Wrong else Deliver(a.below, TopN(seg, n), w)
  }

  /** The cells that the parameters and the results of a block take. */
  function BlockType(types: seq<Sig>, b: Instr): Option<FuncType>
    requires b.Blk?
  {
    if !IsS33(b.bt) then None
    else match Declared(types, S33(b.bt))
      case None => None
      case Some(s) => Some(FuncType(CellsOf(s.params), CellsOf(s.results)))
  }

  /** What a branch to a label takes: a loop's parameters, another block's results. */
  function LabelArity(types: seq<Sig>, b: Instr): Option<nat>
    requires b.Blk?
  {
    match BlockType(types, b)
    case None => None
    case Some(t) => Some(if b.kind == KLoop then t.params else t.results)
  }

  datatype Target = Nowhere | ToCaller | To(ctxs: Ctxs, seg: seq<cell>, code: Code)

  /** A branch to the `l`-th label, carrying the operands `seg` of the innermost block. */
  function BranchTo(types: seq<Sig>, ctxs: Ctxs, seg: seq<cell>, l: nat): Target {
    match ctxs
    case Base => if l == 0 then ToCaller else Nowhere
    case In(outer, blk, _, rest, below) =>
      if l > 0 then BranchTo(types, below, seg, l - 1)
      else if !blk.Blk? then Nowhere
      else match LabelArity(types, blk)
        case None => Nowhere
        case Some(n) =>
          if |seg| < n then Nowhere
          else To(below, outer + TopN(seg, n), if blk.kind == KLoop then Cons(blk, rest) else rest)
  }

  function TakeBranch(M: Machine, a: Acts, seg: seq<cell>, l: nat, w: World): Next
    requires a.Wasm? && FuncOk(M, a.inst, a.fidx)
  {
    match BranchTo(ModOf(M, a.inst).types, a.ctxs, seg, l)
    case Nowhere => Wrong
    case ToCaller => ReturnFrom(M, a, seg, w)
    case To(ctxs, seg2, code) => On(Conf(a.(ctxs := ctxs, seg := seg2, code := code), Run, w))
  }

  // ---- blocks ----

  /** Enter a block whose parameters are the top operands of `seg`. */
  function Enter(M: Machine, a: Acts, b: Instr, seg: seq<cell>, inElse: bool, tl: Code, w: World): Next
    requires a.Wasm? && FuncOk(M, a.inst, a.fidx) && b.Blk?
  {
    match BlockType(ModOf(M, a.inst).types, b)
    case None => Wrong
    case Some(t) =>
      if |seg| < t.params then Wrong
      else On(Conf(a.(ctxs := In(Under(seg, t.params), b, inElse, tl, a.ctxs), seg := TopN(seg, t.params),
                      code := if inElse then b.els else b.body), Run, w))
  }

  function StepIf(M: Machine, a: Acts, b: Instr, tl: Code, w: World): Next
    requires a.Wasm? && FuncOk(M, a.inst, a.fidx) && b.Blk?
  {
    if a.seg == [] then Wrong
    else if Top(a.seg) != 0 then Enter(M, a, b, Pop(a.seg), false, tl, w)
    else if b.hasElse then Enter(M, a, b, Pop(a.seg), true, tl, w)
    else match BlockType(ModOf(M, a.inst).types, b)
      case None => Wrong
      case Some(t) =>
        if |a.seg| - 1 < t.params || t.params != t.results then Wrong
        else On(Conf(a.(seg := Pop(a.seg), code := tl), Run, w))
  }

  /** The end of a block; the operands left must be exactly its results. */
  function LeaveBlock(M: Machine, a: Acts, w: World): Next
    requires a.Wasm? && FuncOk(M, a.inst, a.fidx) && a.ctxs.In?
  {
    var k := a.ctxs;
    if !k.blk.Blk? then Wrong
    else match BlockType(ModOf(M, a.inst).types, k.blk)
      case None => Wrong
      case Some(t) =>
        if |a.seg| != t.results then Wrong
        else On(Conf(a.(ctxs := k.below, seg := k.outer + a.seg, code := k.rest), Run, w))
  }

  // ---- exceptions ----

  /** The first clause that catches `tag`, if any. */
  datatype Clausal = NoClause | Clausal(clause: Clause, all: bool) | BadClausal

  function Pick(tags: seq<nat>, cs: seq<Clause>, tag: nat): Clausal {
    if cs == [] then NoClause
    else if !ClauseWf(cs[0]) then BadClausal
    else if cs[0].tag == [] then Clausal(cs[0], true)
    else if !IsU32(cs[0].tag) || U32(cs[0].tag) >= |tags| then BadClausal
    else if tags[U32(cs[0].tag)] == tag then Clausal(cs[0], false)
    else Pick(tags, cs[1..], tag)
  }

  /** What a clause hands to its label: the parameters, and the exnref if it is a ref form. */
  function Payload(c: Clause, all: bool, csz: nat, exn: seq<cell>): seq<cell>
    requires csz <= |exn|
  {
    (if all then [] else exn[..csz]) + (if c.op == CATCH_REF || c.op == CATCH_ALL_REF then exn else [])
  }

  datatype Handling = Unhandled | Handled(target: Target, payload: seq<cell>)

  /** Search the open blocks of an activation, innermost first. */
  function HandleIn(types: seq<Sig>, tags: seq<nat>, ctxs: Ctxs, tag: nat, csz: nat, exn: seq<cell>): Handling
    requires csz <= |exn|
  {
    match ctxs
    case Base => Unhandled
    case In(_, blk, _, _, below) =>
      if !blk.Blk? then Handled(Nowhere, [])
      else if blk.kind != KTry then HandleIn(types, tags, below, tag, csz, exn)
      else match Pick(tags, blk.clauses, tag)
        case BadClausal => Handled(Nowhere, [])
        case NoClause => HandleIn(types, tags, below, tag, csz, exn)
        case Clausal(c, all) =>
          if !IsU32(c.target) then Handled(Nowhere, [])
          else
            var pay := Payload(c, all, csz, exn);
            Handled(Exactly(types, below, pay, U32(c.target)), pay)
  }

  /** A branch whose label takes exactly the cells `pay`. */
  function Exactly(types: seq<Sig>, ctxs: Ctxs, pay: seq<cell>, l: nat): Target {
    match BranchTo(types, ctxs, pay, l)
    case Nowhere => Nowhere
    case ToCaller => ToCaller
    case To(c2, seg, code) => if LabelTakes(types, ctxs, |pay|, l) then To(c2, seg, code) else Nowhere
  }

  predicate LabelTakes(types: seq<Sig>, ctxs: Ctxs, n: nat, l: nat) {
    match ctxs
    case Base => true
    case In(_, blk, _, _, below) =>
      if l > 0 then LabelTakes(types, below, n, l - 1) else blk.Blk? && LabelArity(types, blk) == Some(n)
  }

  /** Unwind to the innermost handler, not past a host function. */
  function Raise(M: Machine, acts: Acts, tag: nat, csz: nat, exn: seq<cell>, w: World): Next
    requires csz <= |exn|
  {
    if !acts.Wasm? then Fails(UncaughtException)
    else if !FuncOk(M, acts.inst, acts.fidx) then Wrong
    else match HandleIn(ModOf(M, acts.inst).types, M.insts[acts.inst].tags, acts.ctxs, tag, csz, exn)
      case Unhandled => Raise(M, acts.below, tag, csz, exn, w)
      case Handled(t, pay) =>
        match t
        case Nowhere => Wrong
        case ToCaller =>
          if FuncAt(M, acts.inst, acts.fidx).typ.results != |pay| then Wrong else Deliver(acts.below, pay, w)
        case To(ctxs, seg, code) => On(Conf(acts.(ctxs := ctxs, seg := seg, code := code), Run, w))
  }

  function RaiseExn(M: Machine, acts: Acts, exn: seq<cell>, w: World): Next
    requires |exn| == EXNREF_CELLS
  {
    var tag := TagOf(exn);
    if tag == 0 then Fails(ThrowRefNull)
    else if tag !in M.tagCells || M.tagCells[tag] > EXN_CELLS then Wrong
    else Raise(M, acts, tag, M.tagCells[tag], exn, w)
  }

  // ---- one step ----

  function StepLeaf(M: Machine, a: Acts, l: Leaf, tl: Code, w: World, pad: seq<cell>): Next
    requires MachineOk(M) && a.Wasm? && FuncOk(M, a.inst, a.fidx) && LeafWf(l) && |pad| == EXN_CELLS
  {
    var funcs := M.insts[a.inst].funcs;
    var tags := M.insts[a.inst].tags;
    match l
    case Plain(x) =>
      var bytes := EncPlain(x);
      var n := M.pops(bytes);
      if |a.seg| < n then Wrong
      else (match M.plain(a.inst, bytes, a.locals, TopN(a.seg, n), w)
        case PTrap => Fails(PlainError)
        case POk(locals, results, w2) =>
          if |locals| != |a.locals| then Wrong
          else On(Conf(a.(locals := locals, seg := Under(a.seg, n) + results, code := tl), Run, w2)))
    case Br(i) => TakeBranch(M, a, a.seg, U32(i), w)
    case BrIf(i) =>
      if a.seg == [] then Wrong
      else if Top(a.seg) != 0 then TakeBranch(M, a, Pop(a.seg), U32(i), w)
      else On(Conf(a.(seg := Pop(a.seg), code := tl), Run, w))
    case BrTable(_, table, dflt) =>
      if a.seg == [] then Wrong
      else
        var t := TableEntry(table, dflt, Top(a.seg));
        if !IsU32(t) then Wrong else TakeBranch(M, a, Pop(a.seg), U32(t), w)
    case Return => ReturnFrom(M, a, a.seg, w)
    case Call(i) =>
      if U32(i) >= |funcs| || |a.seg| < M.finsts[funcs[U32(i)]].typ.params then Wrong
      else
        var n := M.finsts[funcs[U32(i)]].typ.params;
        On(Conf(a.(seg := Under(a.seg, n), code := tl), Calling(funcs[U32(i)], TopN(a.seg, n), Fresh), w))
    case ReturnCall(i) =>
      if U32(i) >= |funcs| || |a.seg| < M.finsts[funcs[U32(i)]].typ.params then Wrong
      else On(Conf(a.below, Calling(funcs[U32(i)], TopN(a.seg, M.finsts[funcs[U32(i)]].typ.params), Fresh), w))
    case Throw(i) =>
      if U32(i) >= |tags| || |a.seg| < M.tagCells[tags[U32(i)]] then Wrong
      else
        var n := M.tagCells[tags[U32(i)]];
        RaiseExn(M, a.(seg := Under(a.seg, n)), TopN(a.seg, n) + (pad[n..] + TagCells(tags[U32(i)])), w)
    case ThrowRef =>
      if |a.seg| < EXNREF_CELLS then Wrong
      else RaiseExn(M, a.(seg := Under(a.seg, EXNREF_CELLS)), TopN(a.seg, EXNREF_CELLS), w)
  }

  function StepCall(M: Machine, B: Bodies, c: Conf): Next
    requires MachineOk(M) && c.mode.Calling?
  {
    var Calling(f, args, resume) := c.mode;
    if !FinstOk(M, f) || M.finsts[f].typ.params != |args| then Wrong
    else
      var height := |ActCells(c.acts)|;
      match M.finsts[f]
      case WasmFunc(typ, inst, fidx) =>
        var mod := M.insts[inst].mod;
        if resume != Fresh || mod >= |B| || fidx >= |B[mod]| then Wrong
        else if Depth(c.acts) == M.maxFrames then Fails(TooManyFrames)
        else if NoRoom(M, height, FuncAt(M, inst, fidx).maxcells) then Fails(TooManyStackCells)
        else On(Conf(Wasm(inst, fidx, args + Zeros(FuncAt(M, inst, fidx).nlocals), Base, [], B[mod][fidx], c.acts), Run, c.world))
      case HostFunc(typ, h) =>
        if typ.results > typ.params && NoRoom(M, height + |args|, typ.results - typ.params) then Fails(TooManyStackCells)
        else match M.host(h, args, resume, c.world)
          case HTrap => Fails(HostError)
          case HDone(results, w) => if |results| != typ.results then Wrong else Deliver(c.acts, results, w)
          case HForward(g, w) =>
            if g >= |M.finsts| || M.finsts[g].typ.params != |args| then Wrong
            else On(Conf(c.acts, Calling(g, args, Fresh), w))
          case HCall(g, args2, user, w) =>
            if g >= |M.finsts| || M.finsts[g].typ.params != |args2| then Wrong
            else if NoRoom(M, height + |args|, |args2|) then Fails(TooManyStackCells)
            else On(Conf(Host(f, args, user, M.finsts[g].typ.results, c.acts), Calling(g, args2, Fresh), w))
  }

  function StepRun(M: Machine, a: Acts, w: World, pad: seq<cell>): Next
    requires MachineOk(M) && a.Wasm? && FuncOk(M, a.inst, a.fidx) && |pad| == EXN_CELLS
  {
    match a.code
    case Nil => if a.ctxs.Base? then ReturnFrom(M, a, a.seg, w) else LeaveBlock(M, a, w)
    case Cons(i, tl) =>
      match i
      case Leaf(l) => if LeafWf(l) then StepLeaf(M, a, l, tl, w, pad) else Wrong
      case Blk(kind, _, _, _, _, _, _) =>
        if kind == KIf then StepIf(M, a, i, tl, w) else Enter(M, a, i, a.seg, false, tl, w)
  }

  /** One step; `pad` are the stale cells that a new exnref may contain. */
  function Step(M: Machine, B: Bodies, c: Conf, pad: seq<cell>): Next
    requires MachineOk(M) && |pad| == EXN_CELLS
  {
    match c.mode
    case Run =>
      if c.acts.Wasm? && FuncOk(M, c.acts.inst, c.acts.fidx) then StepRun(M, c.acts, c.world, pad) else Wrong
    case Calling(_, _, _) => StepCall(M, B, c)
    case Returned(results) =>
      match c.acts
      case Empty => Final(results, c.world)
      case Wasm(_, _, _, _, _, _, _) => Wrong
      case Host(f, params, user, adj, below) =>
        if |results| != adj then Wrong
        else On(Conf(below, Calling(f, params, Resumed(user, results)), c.world))
  }
}
