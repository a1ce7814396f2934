/**
  The interpreter as a flat state machine (lib/exec.c, the execution halves of
  lib/insn_impl_control.h, lib/insn_impl_eh.h and lib/insn_impl_tailcall.h, and
  lib/host_instance.c:250-294).

  One operand stack, one stack of labels, one of locals and one of frames, a
  byte pc, a pending event and two jump caches. Each function says what the C
  function of that name leaves behind; where an assertion of the C code would
  fail the result is Stuck (or None).

  Configuration: small cells, separate locals, separate execute callbacks, jump
  tables, both jump caches, exceptions and tail calls, 64-bit host.
 */
module Machine {
  import opened Leb
  import opened Code
  import opened Jumps

  type cell = x: int | 0 <= x < 0x1_0000_0000

  // ---- sizes in cells ----

  /** Cells of an exception's parameters, and of an exnref (parameters and a pointer). */
  const EXN_CELLS: nat := 4
  const EXNREF_CELLS: nat := 6

  /** valtype_cellsize (lib/cell.c:9-48), with the type given by its byte. */
  function ValtypeCells(t: int): Option<nat> {
    if t == 0x7f || t == 0x7d then Some(1)
    else if t == 0x7e || t == 0x7c then Some(2)
    else if t == 0x7b then Some(4)
    else if t == 0x70 || t == 0x6f then Some(2)
    else if t == 0x69 then Some(EXNREF_CELLS)
    else None
  }

  /** A value type, by its byte. */
  type ValType = t: int | ValtypeCells(t).Some? witness 0x7f

  /** A function type of a module. */
  datatype Sig = Sig(params: seq<ValType>, results: seq<ValType>)

  /** resulttype_cellsize (lib/cell.c:103-107) */
  function CellSum(ts: seq<ValType>): nat {
    if ts == [] then 0 else ValtypeCells(ts[0]).value + CellSum(ts[1..])
  }

  /** The parameters and results of a function or block type, in cells. */
  datatype FuncType = FuncType(params: nat, results: nat)

  /** get_arity_for_blocktype (lib/exec.c:738-761). */
  function Arity(types: seq<Sig>, bt: int): Option<FuncType> {
    if bt < 0 then
      if bt % 128 == 0x40 then Some(FuncType(0, 0))
      else match ValtypeCells(bt % 128)
        case None => None
        case Some(n) => Some(FuncType(0, n))
    else if bt < |types| then Some(FuncType(CellSum(types[bt].params), CellSum(types[bt].results))) else None
  }

  // ---- the program ----

  datatype Func = Func(start: nat, typ: FuncType, nlocals: nat, maxcells: nat, jumps: seq<Jump>)
  datatype Module = Module(bytes: seq<byte>, types: seq<Sig>, funcs: seq<Func>)
  datatype Instance = Instance(mod: nat, funcs: seq<nat>, tags: seq<nat>)
  datatype FuncInst =
    | WasmFunc(typ: FuncType, inst: nat, fidx: nat)
    | HostFunc(typ: FuncType, h: nat)

  /** Everything else that instructions and host functions read and change. */
  type World = seq<int>

  datatype PlainOut = PTrap | POk(locals: seq<cell>, results: seq<cell>, world: World)

  /** How a host function is entered: anew, or back from the call it made. */
  datatype Resume = Fresh | Resumed(user: nat, results: seq<cell>)

  /** What a host function does: fail, return, call (and be resumed), or hand over. */
  datatype HostOut =
    | HTrap
    | HDone(results: seq<cell>, world: World)
    | HCall(func: nat, args: seq<cell>, user: nat, world: World)
    | HForward(func: nat, world: World)

  /**
    The program. `pops` and `plain` are the cells taken and the effect of each
    non-control instruction, `host` is the behaviour of the host functions,
    `tagCells` maps the address of a tag instance to its parameter cells.
   */
  datatype Machine = Machine(
    modules: seq<Module>, insts: seq<Instance>, finsts: seq<FuncInst>, tagCells: map<nat, nat>,
    maxFrames: nat, maxStack: nat,
    pops: seq<byte> -> nat,
    plain: (nat, seq<byte>, seq<cell>, seq<cell>, World) -> PlainOut,
    host: (nat, seq<cell>, Resume, World) -> HostOut)

  predicate InstOk(M: Machine, i: nat) {
    && i < |M.insts| && M.insts[i].mod < |M.modules|
    && (forall k :: 0 <= k < |M.insts[i].funcs| ==> M.insts[i].funcs[k] < |M.finsts|)
    && (forall k :: 0 <= k < |M.insts[i].tags| ==> TagOk(M, M.insts[i].tags[k]))
  }

  predicate TagOk(M: Machine, t: nat) {
    0 < t < U64 && t in M.tagCells && M.tagCells[t] <= EXN_CELLS
  }

  predicate FuncOk(M: Machine, i: nat, f: nat) {
    InstOk(M, i) && f < |M.modules[M.insts[i].mod].funcs|
  }

  predicate FinstOk(M: Machine, f: nat) {
    f < |M.finsts| && (M.finsts[f].WasmFunc? ==>
      FuncOk(M, M.finsts[f].inst, M.finsts[f].fidx) && FuncAt(M, M.finsts[f].inst, M.finsts[f].fidx).typ == M.finsts[f].typ)
  }

  /** Module instantiation leaves every index in range. */
  predicate MachineOk(M: Machine) {
    && (forall i :: 0 <= i < |M.insts| ==> InstOk(M, i))
    && (forall f :: 0 <= f < |M.finsts| ==> FinstOk(M, f))
  }

  function ModOf(M: Machine, inst: nat): Module requires InstOk(M, inst) { M.modules[M.insts[inst].mod] }
  function FuncAt(M: Machine, inst: nat, f: nat): Func requires FuncOk(M, inst, f) { ModOf(M, inst).funcs[f] }

  // ---- the state ----

  datatype Label = Label(pc: nat, height: nat)
  datatype Frame = Frame(inst: nat, fidx: nat, labelidx: nat, localidx: nat, callerpc: nat, height: nat, nresults: nat)
  datatype Event =
    | NoEvent
    | CallEvent(func: nat)
    | Branch(index: nat, gotoElse: bool)
    | RestartInsn(pc: nat)
    | TailCall(func: nat)
    | Exception
  datatype Restart = Restart(func: nat, savedBottom: nat, stackAdj: nat, user: nat)
  datatype CacheEntry = CacheEntry(key: nat, params: nat, arity: nat, stay: bool, target: nat)

  /** The single-entry cache points into the jump table of a function. */
  datatype JumpRef = NoRef | JumpRef(fidx: nat, k: nat)

  datatype State = State(
    inst: nat, p: nat, frames: seq<Frame>, stack: seq<cell>, labels: seq<Label>, locals: seq<cell>,
    event: Event, restarts: seq<Restart>, bottom: nat, resume: Resume,
    jcache: JumpRef, cache: seq<CacheEntry>, world: World)

  datatype TrapId = TooManyFrames | TooManyStackCells | HostError | PlainError | UncaughtException | ThrowRefNull

  /** What one pass through a part of the main loop gives. */
  datatype Outcome =
    | Go(s: State)        // carry on
    | Yield(s: State)     // return a restartable error to the embedder
    | Finished(s: State)  // return success
    | Trapped(id: TrapId)
    | Stuck               // an assertion of the C code fails

  const CACHE_SIZE: nat := 4

  function EmptyCache(): seq<CacheEntry> { seq(CACHE_SIZE, _ => CacheEntry(0, 0, 0, false, 0)) }

  predicate StateOk(M: Machine, s: State) {
    InstOk(M, s.inst) && |s.cache| == CACHE_SIZE
    && forall k :: 0 <= k < |s.frames| ==> FuncOk(M, s.frames[k].inst, s.frames[k].fidx)
  }

  function Top<T>(s: seq<T>): T requires s != [] { s[|s| - 1] }
  function Pop<T>(s: seq<T>): seq<T> requires s != [] { s[..|s| - 1] }

  // ---- frames (lib/exec.c:65-328) ----

  /** set_current_frame: the caches are keyed by pc, so a change of module empties them. */
  function SetCurrentFrame(M: Machine, s: State, fr: Frame): State
    requires InstOk(M, s.inst) && InstOk(M, fr.inst)
  {
    if M.insts[s.inst].mod == M.insts[fr.inst].mod then s.(inst := fr.inst)
    else s.(inst := fr.inst, jcache := NoRef, cache := EmptyCache())
  }

  function Zeros(n: nat): seq<cell> { seq(n, _ => 0) }

  /** Does pushing `n` more cells exceed the limit (stack_prealloc)? */
  predicate NoRoom(M: Machine, height: nat, n: nat) { M.maxStack < height + n }

  function FrameEnter(M: Machine, s: State, inst: nat, fidx: nat, params: seq<cell>): Outcome
    requires StateOk(M, s) && FuncOk(M, inst, fidx)
  {
    var f := FuncAt(M, inst, fidx);
    if |s.frames| == M.maxFrames then Trapped(TooManyFrames)
    else if NoRoom(M, |s.stack|, f.maxcells) then Trapped(TooManyStackCells)
    else
      var fr := Frame(inst, fidx, |s.labels|, |s.locals|, if s.frames == [] then 0xdeadbeef else s.p, |s.stack|, f.typ.results);
      Go(SetCurrentFrame(M, s.(frames := s.frames + [fr], locals := s.locals + (params + Zeros(f.nlocals))), fr))
  }

  function FrameExit(M: Machine, s: State): State
    requires StateOk(M, s) && s.frames != []
    requires Top(s.frames).labelidx <= |s.labels| && Top(s.frames).localidx <= |s.locals|
  {
    var fr := Top(s.frames);
    var s1 := s.(frames := Pop(s.frames));
    var s2 := if s1.frames == [] then s1
              else SetCurrentFrame(M, s1, Top(s1.frames)).(p := fr.callerpc);
    s2.(labels := s.labels[..fr.labelidx], locals := s.locals[..fr.localidx])
  }

  // ---- jumps (lib/exec.c:763-1035) ----

  /** rewind_stack: keep `height` cells and the top `arity` ones. */
  function Rewound(stack: seq<cell>, height: nat, arity: nat): seq<cell>
    requires height + arity <= |stack|
  {
    stack[..height] + stack[|stack| - arity..]
  }

  datatype Exit = Exit(target: nat, stay: bool, params: nat, arity: nat)
  datatype ExitRes = NoExit | ExitTo(s: State, e: Exit)

  /** jump_lookup: the single-entry cache, then the table of the current function. */
  function JumpLookup(M: Machine, s: State, bpc: nat): JumpRef
    requires StateOk(M, s) && s.frames != []
  {
    var fr := Top(s.frames);
    if RefValid(M, s) && RefTable(M, s)[s.jcache.k].pc == bpc then s.jcache
    else match Lookup(FuncAt(M, fr.inst, fr.fidx).jumps, bpc)
      case None => NoRef
      case Some(k) => JumpRef(fr.fidx, k)
  }

  predicate RefValid(M: Machine, s: State)
    requires InstOk(M, s.inst)
  {
    s.jcache.JumpRef? && s.jcache.fidx < |ModOf(M, s.inst).funcs|
    && s.jcache.k < |ModOf(M, s.inst).funcs[s.jcache.fidx].jumps|
  }

  function RefTable(M: Machine, s: State): seq<Jump>
    requires InstOk(M, s.inst) && RefValid(M, s)
  {
    ModOf(M, s.inst).funcs[s.jcache.fidx].jumps
  }

  /** The table branch of block_exit; the slot for `else` follows that for `end`. */
  function TableExit(M: Machine, s: State, bpc: nat, gotoElse: bool): ExitRes
    requires StateOk(M, s) && s.frames != []
  {
    var ref := JumpLookup(M, s, bpc);
    var s1 := s.(jcache := ref);
    if ref.NoRef? || !RefValid(M, s1) then NoExit
    else
      var js, k := RefTable(M, s1), ref.k;
      if gotoElse && !(k + 1 < |js| && js[k + 1].pc == bpc + 1) then NoExit
      else if gotoElse && js[k + 1].target != 0 then ExitTo(s1.(p := js[k + 1].target), Exit(js[k + 1].target, true, 0, 0))
      else if js[k].target == 0 then NoExit
      else ExitTo(s1.(p := js[k].target), Exit(js[k].target, false, 0, 0))
  }

  /** The branch of block_exit without a table. */
  function ScanExit(code: seq<byte>, s: State, bpc: nat, gotoElse: bool): ExitRes {
    match Skip(code, bpc, gotoElse, 0)
    case NoEnd => NoExit
    case Skipped(next, stay) => ExitTo(s.(p := next), Exit(next, stay, 0, 0))
  }

  function BlockExit(M: Machine, s: State, bpc: nat, gotoElse: bool): ExitRes
    requires StateOk(M, s) && s.frames != []
  {
    var m := ModOf(M, s.inst);
    if bpc >= |m.bytes| || !IsOpener(m.bytes[bpc]) then NoExit
    else match ReadS33(m.bytes, bpc + 1)
      case None => NoExit
      case Some(bt) =>
        match Arity(m.types, bt.value)
        case None => NoExit
        case Some(t) =>
          if m.bytes[bpc] == LOOP then ExitTo(s.(p := bpc), Exit(bpc, false, t.params, t.params))
          else if gotoElse && m.bytes[bpc] != IF then NoExit
          else
            var fr := Top(s.frames);
            var r := if FuncAt(M, fr.inst, fr.fidx).jumps != [] then TableExit(M, s, bpc, gotoElse)
                     else ScanExit(m.bytes, s, bpc, gotoElse);
            if r.NoExit? || r.e.stay then r
            else ExitTo(r.s, Exit(r.e.target, false, t.params, t.results))
  }

  function Key(bpc: nat, gotoElse: bool): nat { bpc + if gotoElse then 1 else 0 }

  function CachedBlockExit(M: Machine, s: State, bpc: nat, gotoElse: bool): ExitRes
    requires StateOk(M, s) && s.frames != []
  {
    var key := Key(bpc, gotoElse);
    var c := s.cache[key % CACHE_SIZE];
    if c.key == key then ExitTo(s.(p := c.target), Exit(c.target, c.stay, c.params, c.arity))
    else match BlockExit(M, s, bpc, gotoElse)
      case NoExit => NoExit
      case ExitTo(s1, e) =>
        ExitTo(s1.(cache := s.cache[key % CACHE_SIZE := CacheEntry(key, e.params, e.arity, e.stay, e.target)]), e)
  }

  datatype BranchRes = NoBranch | Stayed(s: State) | Left(s: State, height: nat, arity: nat)

  function BranchToLabel(M: Machine, s: State, labelidx: nat, gotoElse: bool): BranchRes
    requires StateOk(M, s) && s.frames != []
  {
    if labelidx >= |s.labels| then NoBranch
    else
      var l := s.labels[|s.labels| - labelidx - 1];
      match CachedBlockExit(M, s, l.pc, gotoElse)
      case NoExit => NoBranch
      case ExitTo(s1, e) =>
        if e.stay then Stayed(s1)
        else if l.height < e.params then NoBranch
        else Left(s1.(labels := s.labels[..|s.labels| - labelidx - 1]), l.height - e.params, e.arity)
  }

  predicate FrameFits(s: State) {
    s.frames != [] && Top(s.frames).labelidx <= |s.labels| && Top(s.frames).localidx <= |s.locals|
  }

  /** do_branch; a label index equal to the number of labels leaves the function. */
  function DoBranch(M: Machine, s: State, labelidx: nat, gotoElse: bool): Outcome
    requires StateOk(M, s)
  {
    if !FrameFits(s) then Stuck
    else
      var fr := Top(s.frames);
      var n := |s.labels| - fr.labelidx;
      if labelidx > n || (gotoElse && labelidx != 0) then Stuck
      else if labelidx == n then Land(FrameExit(M, s), fr.height, fr.nresults)
      else match BranchToLabel(M, s, labelidx, gotoElse)
        case NoBranch => Stuck
        case Stayed(s1) => Go(s1)
        case Left(s1, height, arity) => Land(s1, height, arity)
  }

  function Land(s: State, height: nat, arity: nat): Outcome {
    if height + arity <= |s.stack| then Go(s.(stack := Rewound(s.stack, height, arity))) else Stuck
  }

  // ---- calls (lib/exec.c:384-492) ----

  function DoWasmCall(M: Machine, s: State, f: nat): Outcome
    requires StateOk(M, s) && FinstOk(M, f) && M.finsts[f].WasmFunc?
  {
    var fi := M.finsts[f];
    var n := fi.typ.params;
    if |s.stack| < n then Stuck
    else
      var rest := |s.stack| - n;
      match FrameEnter(M, s.(stack := s.stack[..rest]), fi.inst, fi.fidx, s.stack[rest..])
      case Go(s1) => Go(s1.(p := FuncAt(M, fi.inst, fi.fidx).start))
      case Trapped(id) => Trapped(id)
      case _ => Stuck
  }

  /**
    do_host_call together with what the host function does with the context: a
    nested call goes through schedule_call_from_hostfunc, a hand-over replaces
    the function of the pending call; both return a restartable error.
   */
  function DoHostCall(M: Machine, s: State, f: nat): Outcome
    requires StateOk(M, s) && FinstOk(M, f) && M.finsts[f].HostFunc?
  {
    var t := M.finsts[f].typ;
    if |s.stack| < t.params then Stuck
    else if t.results > t.params && NoRoom(M, |s.stack|, t.results - t.params) then Trapped(TooManyStackCells)
    else
      var rest := |s.stack| - t.params;
      match M.host(M.finsts[f].h, s.stack[rest..], s.resume, s.world)
      case HTrap => Trapped(HostError)
      case HDone(results, w) =>
        if |results| != t.results then Stuck
        else Go(s.(stack := s.stack[..rest] + results, resume := Fresh, world := w))
      case HForward(g, w) =>
        if g >= |M.finsts| || M.finsts[g].typ.params != t.params then Stuck
        else Yield(s.(event := CallEvent(g), resume := Fresh, world := w))
      case HCall(g, args, user, w) =>
        if g >= |M.finsts| || M.finsts[g].typ.params != |args| then Stuck
        else if NoRoom(M, |s.stack|, |args|) then Trapped(TooManyStackCells)
        else Yield(ScheduleCall(M, s.(stack := s.stack + args, resume := Fresh, world := w), f, g, user))
  }

  /** schedule_call_from_hostfunc (lib/host_instance.c:250-294). */
  function ScheduleCall(M: Machine, s: State, f: nat, g: nat, user: nat): State
    requires g < |M.finsts|
  {
    s.(restarts := s.restarts + [Restart(f, s.bottom, M.finsts[g].typ.results, user)],
       bottom := |s.frames|, event := CallEvent(g))
  }

  function DoCall(M: Machine, s: State, f: nat): Outcome
    requires StateOk(M, s)
  {
    if !FinstOk(M, f) then Stuck
    else if M.finsts[f].HostFunc? then DoHostCall(M, s, f) else DoWasmCall(M, s, f)
  }

  /** The part of do_return_call before the call: leave the frame, keep the arguments. */
  function LeaveForTailCall(M: Machine, s: State, f: nat): Outcome
    requires StateOk(M, s)
  {
    if !FrameFits(s) || !FinstOk(M, f) then Stuck
    else Land(FrameExit(M, s).(event := CallEvent(f)), Top(s.frames).height, M.finsts[f].typ.params)
  }

  /** return_to_hostfunc (lib/exec.c:1200-1219). */
  function ReturnToHost(s: State): Outcome
    requires s.restarts != []
  {
    var r := Top(s.restarts);
    if |s.stack| < r.stackAdj || s.bottom < r.savedBottom then Stuck
    else
      var rest := |s.stack| - r.stackAdj;
      Go(s.(restarts := Pop(s.restarts), bottom := r.savedBottom, stack := s.stack[..rest],
            resume := Resumed(r.user, s.stack[rest..]), event := CallEvent(r.func)))
  }

  // ---- exceptions (lib/exec.c:494-732, lib/insn.c:580-640) ----

  /** The two cells of the tag pointer at the end of an exnref. */
  function TagCells(t: nat): seq<cell>
    requires t < U64
  {
    [t % 0x1_0000_0000, t / 0x1_0000_0000]
  }

  function TagOf(exn: seq<cell>): nat
    requires |exn| == EXNREF_CELLS
  {
    exn[4] as int + exn[5] as int * 0x1_0000_0000
  }

  datatype Match = NoMatch | Match(target: nat, all: bool) | BadClause

  /** The first of the `n` clauses at `p` that catches `tag`. */
  function FindClause(code: seq<byte>, tags: seq<nat>, p: nat, n: nat, tag: nat): Match
    decreases n
  {
    if n == 0 then NoMatch
    else match ReadClause(code, p)
      case None => BadClause
      case Some(c) =>
        if c.tag < 0 then Match(c.target, true)
        else if c.tag >= |tags| then BadClause
        else if tags[c.tag] == tag then Match(c.target, false)
        else FindClause(code, tags, c.next, n - 1, tag)
  }

  /** What the label at `pc` catches: nothing unless it is a try_table. */
  function LabelCatch(M: Machine, inst: nat, pc: nat, tag: nat): Match
    requires InstOk(M, inst)
  {
    var code := ModOf(M, inst).bytes;
    if pc >= |code| then BadClause
    else if code[pc] != TRY_TABLE then NoMatch
    else match ReadS33(code, pc + 1)
      case None => BadClause
      case Some(b) =>
        match ReadU32(code, b.next)
        case None => BadClause
        case Some(c) => FindClause(code, M.insts[inst].tags, c.next, c.value, tag)
  }

  datatype Frameidx = HitHost | NoFrame | InFrame(frameidx: nat, labelheight: nat)

  /** find_catch's inner loop: go down to the frame that owns label `labelidx`. */
  function Descend(s: State, labelidx: nat, frameidx: nat, labelheight: nat): Frameidx
    requires frameidx < |s.frames|
    decreases frameidx
  {
    if s.frames[frameidx].labelidx <= labelidx then InFrame(frameidx, labelheight)
    else if frameidx == s.bottom then HitHost
    else if frameidx == 0 then NoFrame
    else Descend(s, labelidx, frameidx - 1, s.frames[frameidx].labelidx)
  }

  datatype Handler = NotFound | Found(frameidx: nat, labelidx: nat, all: bool) | BadCatch

  /** find_catch's outer loop over the `n` outermost labels. */
  function FindCatch(M: Machine, s: State, tag: nat, n: nat, frameidx: nat, labelheight: nat): Handler
    requires StateOk(M, s) && n <= |s.labels| && frameidx < |s.frames|
    decreases n
  {
    if n == 0 then NotFound
    else match Descend(s, n - 1, frameidx, labelheight)
      case HitHost => NotFound
      case NoFrame => BadCatch
      case InFrame(fi, lh) =>
        if !(fi < |s.frames| && n - 1 < lh) then BadCatch
        else match LabelCatch(M, s.frames[fi].inst, s.labels[n - 1].pc, tag)
          case BadClause => BadCatch
          case NoMatch => FindCatch(M, s, tag, n - 1, fi, lh)
          case Match(l, all) =>
            if l + s.frames[fi].labelidx > n - 1 then BadCatch else Found(fi, l + (lh - (n - 1)), all)
  }

  /** Leave frames until `n` are left. */
  function Unwind(M: Machine, s: State, n: nat): (r: Option<State>)
    requires StateOk(M, s)
    ensures r.Some? ==> StateOk(M, r.value)
    decreases |s.frames|
  {
    if |s.frames| <= n then Some(s)
    else if !FrameFits(s) then None
    else
      var s1 := FrameExit(M, s);
      if StateOk(M, s1) then Unwind(M, s1, n) else None
  }

  function DoException(M: Machine, s: State): Outcome
    requires StateOk(M, s)
  {
    if s.frames == [] || |s.stack| < EXNREF_CELLS then Stuck
    else
      var rest := |s.stack| - EXNREF_CELLS;
      var exn := s.stack[rest..];
      var tag := TagOf(exn);
      var s0 := s.(stack := s.stack[..rest]);
      if tag == 0 then Trapped(ThrowRefNull)
      else if tag !in M.tagCells || M.tagCells[tag] > EXN_CELLS then Stuck
      else match FindCatch(M, s0, tag, |s.labels|, |s.frames| - 1, |s.labels|)
        case BadCatch => Stuck
        case NotFound => Trapped(UncaughtException)
        case Found(fi, li, all) =>
          match Unwind(M, s0, fi + 1)
          case None => Stuck
          case Some(s1) => Catch(M, s1, li, if all then 0 else M.tagCells[tag], exn)
  }

  /** The jump to the catching label, and the exception's cells put in its place. */
  function Catch(M: Machine, s: State, labelidx: nat, csz: nat, exn: seq<cell>): Outcome
    requires StateOk(M, s) && csz <= EXN_CELLS && |exn| == EXNREF_CELLS
  {
    if !FrameFits(s) then Stuck
    else
      var fr := Top(s.frames);
      var n := |s.labels| - fr.labelidx;
      if labelidx > n then Stuck
      else if labelidx == n then LandExn(FrameExit(M, s), fr.height, fr.nresults, csz, exn)
      else match BranchToLabel(M, s, labelidx, false)
        case Left(s1, height, arity) => LandExn(s1, height, arity, csz, exn)
        case _ => Stuck
  }

  /** The operand stack after a catch: the arity of the label tells if it takes the exnref. */
  function Caught(stack: seq<cell>, height: nat, arity: nat, csz: nat, exn: seq<cell>): seq<cell>
    requires height <= |stack| && csz <= EXN_CELLS && |exn| == EXNREF_CELLS
  {
    stack[..height] + (exn[..csz] + if arity == csz then [] else exn)
  }

  function LandExn(s: State, height: nat, arity: nat, csz: nat, exn: seq<cell>): Outcome
    requires csz <= EXN_CELLS && |exn| == EXNREF_CELLS
  {
    if height > |s.stack| || (arity != csz && arity != csz + EXNREF_CELLS) then Stuck
    else Go(s.(stack := Caught(s.stack, height, arity, csz, exn)))
  }

  // ---- one instruction (fetch_exec_next_insn) ----

  function Jumping(s: State, next: nat, index: nat): Outcome {
    Go(s.(p := next, event := Branch(index, false)))
  }

  function PushLabel(s: State, next: nat): State {
    s.(labels := s.labels + [Label(s.p, |s.stack|)], p := next)
  }

  /** push_exception: `pad` stands for the stale cells between parameters and tag. */
  function PushException(s: State, csz: nat, tag: nat, pad: seq<cell>): State
    requires csz <= EXN_CELLS && tag < U64 && |pad| == EXN_CELLS
  {
    s.(stack := s.stack + (pad[csz..] + TagCells(tag)))
  }

  function ExecPlain(M: Machine, s: State): Outcome
    requires StateOk(M, s) && FrameFits(s)
  {
    var code := ModOf(M, s.inst).bytes;
    match PlainEnd(code, s.p)
    case None => Stuck
    case Some(e) =>
      if !(s.p <= e <= |code|) then Stuck
      else
        var bytes := code[s.p..e];
        var n := M.pops(bytes);
        var base := Top(s.frames).localidx;
        if |s.stack| < n then Stuck
        else
          var rest := |s.stack| - n;
          match M.plain(s.inst, bytes, s.locals[base..], s.stack[rest..], s.world)
          case PTrap => Trapped(PlainError)
          case POk(locals, results, w) =>
            if |locals| != |s.locals| - base then Stuck
            else Go(s.(p := e, locals := s.locals[..base] + locals, stack := s.stack[..rest] + results, world := w))
  }

  function ExecThrow(M: Machine, s: State, tagidx: nat, next: nat, pad: seq<cell>): Outcome
    requires StateOk(M, s) && |pad| == EXN_CELLS
  {
    var tags := M.insts[s.inst].tags;
    if tagidx >= |tags| || |s.stack| < M.tagCells[tags[tagidx]] then Stuck
    else Go(PushException(s, M.tagCells[tags[tagidx]], tags[tagidx], pad).(p := next, event := Exception))
  }

  function ExecBrTable(M: Machine, s: State): Outcome
    requires StateOk(M, s)
  {
    var code := ModOf(M, s.inst).bytes;
    match ReadU32(code, s.p + 1)
    case None => Stuck
    case Some(c) =>
      if s.stack == [] then Stuck
      else
        var v := Top(s.stack);
        var l := if v >= c.value then c.value else v;
        match SkipLebs(code, c.next, l)
        case None => Stuck
        case Some(q) =>
          match ReadU32(code, q)
          case None => Stuck
          case Some(i) => Jumping(s.(stack := Pop(s.stack)), i.next, i.value)
  }

  /** The instructions with one u32 immediate `i` ending at `next`. */
  function ExecU32(M: Machine, s: State, op: byte, i: nat, next: nat, pad: seq<cell>): Outcome
    requires StateOk(M, s) && |pad| == EXN_CELLS
  {
    var funcs := M.insts[s.inst].funcs;
    if op == BR then Jumping(s, next, i)
    else if op == BR_IF then
      if s.stack == [] then Stuck
      else if Top(s.stack) != 0 then Jumping(s.(stack := Pop(s.stack)), next, i)
      else Go(s.(stack := Pop(s.stack), p := next))
    else if op == CALL then if i < |funcs| then Go(s.(p := next, event := CallEvent(funcs[i]))) else Stuck
    else if op == RETURN_CALL then if i < |funcs| then Go(s.(p := next, event := TailCall(funcs[i]))) else Stuck
    else ExecThrow(M, s, i, next, pad)
  }

  function ExecIf(s: State, next: nat): Outcome {
    if s.stack == [] then Stuck
    else
      var s1 := PushLabel(s.(stack := Pop(s.stack)), next);
      if Top(s.stack) == 0 then Go(s1.(event := Branch(0, true))) else Go(s1)
  }

  function ExecEnd(s: State): Outcome
    requires FrameFits(s)
  {
    var n := |s.labels| - Top(s.frames).labelidx;
    if n > 0 then Go(s.(labels := Pop(s.labels), p := s.p + 1)) else Jumping(s, s.p + 1, 0)
  }

  function FetchExec(M: Machine, s: State, pad: seq<cell>): Outcome
    requires StateOk(M, s) && |pad| == EXN_CELLS
  {
    var code := ModOf(M, s.inst).bytes;
    if !FrameFits(s) || s.p >= |code| then Stuck
    else
      var op := code[s.p];
      if op == BLOCK || op == LOOP then
        match ReadS33(code, s.p + 1)
        case None => Stuck
        case Some(b) => Go(PushLabel(s, b.next))
      else if op == TRY_TABLE then
        match HeaderEnd(code, s.p)
        case None => Stuck
        case Some(e) => Go(PushLabel(s, e))
      else if op == IF then
        match ReadS33(code, s.p + 1)
        case None => Stuck
        case Some(b) => ExecIf(s, b.next)
      else if op == ELSE then Jumping(s, s.p + 1, 0)
      else if op == END then ExecEnd(s)
      else if op == RETURN then Jumping(s, s.p + 1, |s.labels| - Top(s.frames).labelidx)
      else if op == THROW_REF then Go(s.(p := s.p + 1, event := Exception))
      else if op in {BR, BR_IF, CALL, RETURN_CALL, THROW} then
        match ReadU32(code, s.p + 1)
        case None => Stuck
        case Some(i) => ExecU32(M, s, op, i.value, i.next, pad)
      else if op == BR_TABLE then ExecBrTable(M, s)
      else ExecPlain(M, s)
  }

  // ---- the main loop, one piece at a time (lib/exec.c:1240-1361) ----

  function Quiet(o: Outcome): Outcome {
    match o case Go(s) => Go(s.(event := NoEvent)) case _ => o
  }

  /** The piece of the loop that follows event handling, without interrupts. */
  function Proceed(M: Machine, s: State, pad: seq<cell>): Outcome
    requires StateOk(M, s) && |pad| == EXN_CELLS
  {
    if |s.frames| == s.bottom then
      if s.restarts == [] then Finished(s) else ReturnToHost(s)
    else FetchExec(M, s, pad)
  }

  /** One micro step: handle the pending event, or proceed if there is none. */
  function Micro(M: Machine, s: State, pad: seq<cell>): Outcome
    requires StateOk(M, s) && |pad| == EXN_CELLS
  {
    match s.event
    case NoEvent => Proceed(M, s, pad)
    case CallEvent(f) => Quiet(DoCall(M, s, f))
    case Branch(i, e) => Quiet(DoBranch(M, s, i, e))
    case RestartInsn(pc) => FetchExec(M, s.(p := pc, event := NoEvent), pad)
    case TailCall(f) => LeaveForTailCall(M, s, f)
    case Exception => Quiet(DoException(M, s))
  }
}
