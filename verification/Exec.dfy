/**
  The execution context and the functions that update it in place
  (lib/exec.c, lib/insn.c:512-640, lib/insn_impl_control.h, lib/insn_impl_eh.h,
  lib/host_instance.c:250-294, lib/instance.c:743-775). Each method leaves the
  context in the state that the function of the same name in Machine or Runs
  gives, so that what is proved about those functions holds of the context.

  The vectors of the C code are sequences here; the jump cache, whose size is
  fixed, is an array. Where the C code asserts something, the method requires
  that the function is not Stuck.
 */
module Exec {
  import opened Leb
  import opened Code
  import opened Jumps
  import opened Machine
  import Spec = Machine
  import opened Structured
  import opened Relation
  import opened Runs
  import opened EndToEnd
  import opened Interrupts

  /** What a function of the interpreter returns. */
  datatype Status = Success | Restartable | Trap(id: TrapId)

  /** The outcome that a returned status and the state left behind stand for. */
  function Says(r: Status, s: State): Outcome {
    match r
    case Success => Go(s)
    case Restartable => Yield(s)
    case Trap(id) => Trapped(id)
  }

  /** The binary search needs sorted tables. */
  ghost predicate TablesSorted(M: Machine) {
    forall i, f :: 0 <= i < |M.modules| && 0 <= f < |M.modules[i].funcs| ==> Sorted(M.modules[i].funcs[f].jumps)
  }

  lemma StackOk(M: Machine, s: State, t: State)
    requires StateOk(M, s) && t == s.(stack := t.stack)
    ensures StateOk(M, t)
  {
  }

  /** Only the instance, the frames and the cache matter. */
  lemma EventOk(M: Machine, s: State)
    ensures forall pc, e :: StateOk(M, s.(p := pc, event := e)) <==> StateOk(M, s)
  {
  }

  lemma InRangeInst(M: Machine, s: State)
    requires StateOk(M, s)
    ensures InstOk(M, s.inst)
  {
  }

  // ---- the dispatch on the opcode, case by case ----

  lemma FetchHead(M: Machine, s: State, pad: seq<cell>)
    requires StateOk(M, s) && |pad| == EXN_CELLS && !FetchExec(M, s, pad).Stuck?
    ensures FrameFits(s) && InstOk(M, s.inst) && s.p < |ModOf(M, s.inst).bytes|
  {
    hide Spec.ExecPlain, Spec.ExecBrTable, Spec.ExecU32, Spec.ExecEnd, Spec.ExecIf, ReadS33, ReadU32, HeaderEnd;
  }

  /** The opcode at the pc. */
  predicate OpAt(M: Machine, s: State, op: byte) {
    InstOk(M, s.inst) && s.p < |ModOf(M, s.inst).bytes| && ModOf(M, s.inst).bytes[s.p] == op
  }

  lemma FetchOpener(M: Machine, s: State, pad: seq<cell>)
    requires StateOk(M, s) && |pad| == EXN_CELLS && !FetchExec(M, s, pad).Stuck?
    requires OpAt(M, s, BLOCK) || OpAt(M, s, LOOP)
    ensures ReadS33(ModOf(M, s.inst).bytes, s.p + 1).Some?
    ensures FetchExec(M, s, pad) == Go(PushLabel(s, ReadS33(ModOf(M, s.inst).bytes, s.p + 1).value.next))
  {
    hide Spec.ExecPlain, Spec.ExecBrTable, Spec.ExecU32, Spec.ExecEnd, Spec.ExecIf, ReadS33, ReadU32, HeaderEnd;
  }

  lemma FetchTry(M: Machine, s: State, pad: seq<cell>)
    requires StateOk(M, s) && |pad| == EXN_CELLS && !FetchExec(M, s, pad).Stuck?
    requires OpAt(M, s, TRY_TABLE)
    ensures HeaderEnd(ModOf(M, s.inst).bytes, s.p).Some?
    ensures FetchExec(M, s, pad) == Go(PushLabel(s, HeaderEnd(ModOf(M, s.inst).bytes, s.p).value))
  {
    hide Spec.ExecPlain, Spec.ExecBrTable, Spec.ExecU32, Spec.ExecEnd, Spec.ExecIf, ReadS33, ReadU32, HeaderEnd;
  }

  lemma FetchIf(M: Machine, s: State, pad: seq<cell>)
    requires StateOk(M, s) && |pad| == EXN_CELLS && !FetchExec(M, s, pad).Stuck?
    requires OpAt(M, s, IF)
    ensures ReadS33(ModOf(M, s.inst).bytes, s.p + 1).Some? && s.stack != []
    ensures FetchExec(M, s, pad) == Spec.ExecIf(s, ReadS33(ModOf(M, s.inst).bytes, s.p + 1).value.next)
  {
    hide Spec.ExecPlain, Spec.ExecBrTable, Spec.ExecU32, Spec.ExecEnd, ReadS33, ReadU32, HeaderEnd;
  }

  lemma FetchElse(M: Machine, s: State, pad: seq<cell>)
    requires StateOk(M, s) && |pad| == EXN_CELLS && !FetchExec(M, s, pad).Stuck?
    requires OpAt(M, s, ELSE)
    ensures FrameFits(s) && FetchExec(M, s, pad) == Jumping(s, s.p + 1, 0)
  {
    hide Spec.ExecPlain, Spec.ExecBrTable, Spec.ExecU32, Spec.ExecEnd, Spec.ExecIf, ReadS33, ReadU32, HeaderEnd;
  }

  lemma FetchEnd(M: Machine, s: State, pad: seq<cell>)
    requires StateOk(M, s) && |pad| == EXN_CELLS && !FetchExec(M, s, pad).Stuck?
    requires OpAt(M, s, END)
    ensures FrameFits(s) && FetchExec(M, s, pad) == Spec.ExecEnd(s)
  {
    hide Spec.ExecPlain, Spec.ExecBrTable, Spec.ExecU32, Spec.ExecEnd, Spec.ExecIf, ReadS33, ReadU32, HeaderEnd;
  }

  lemma FetchReturn(M: Machine, s: State, pad: seq<cell>)
    requires StateOk(M, s) && |pad| == EXN_CELLS && !FetchExec(M, s, pad).Stuck?
    requires OpAt(M, s, RETURN)
    ensures FrameFits(s) && FetchExec(M, s, pad) == Jumping(s, s.p + 1, |s.labels| - Top(s.frames).labelidx)
  {
    hide Spec.ExecPlain, Spec.ExecBrTable, Spec.ExecU32, Spec.ExecEnd, Spec.ExecIf, ReadS33, ReadU32, HeaderEnd;
  }

  lemma FetchThrowRef(M: Machine, s: State, pad: seq<cell>)
    requires StateOk(M, s) && |pad| == EXN_CELLS && !FetchExec(M, s, pad).Stuck?
    requires OpAt(M, s, THROW_REF)
    ensures FrameFits(s) && FetchExec(M, s, pad) == Go(s.(p := s.p + 1, event := Exception))
  {
    hide Spec.ExecPlain, Spec.ExecBrTable, Spec.ExecU32, Spec.ExecEnd, Spec.ExecIf, ReadS33, ReadU32, HeaderEnd;
  }

  lemma FetchOther(M: Machine, s: State, pad: seq<cell>)
    requires StateOk(M, s) && |pad| == EXN_CELLS && !FetchExec(M, s, pad).Stuck?
    requires InstOk(M, s.inst) && s.p < |ModOf(M, s.inst).bytes| && !IsControl(ModOf(M, s.inst).bytes[s.p])
    ensures FrameFits(s)
    ensures var code := ModOf(M, s.inst).bytes; var op, o := code[s.p], FetchExec(M, s, pad);
            if op in {BR, BR_IF, CALL, RETURN_CALL, THROW} then
              var i := ReadU32(code, s.p + 1);
              i.Some? && o == Spec.ExecU32(M, s, op, i.value.value, i.value.next, pad)
            else if op == BR_TABLE then o == Spec.ExecBrTable(M, s)
            else o == Spec.ExecPlain(M, s)
  {
    hide Spec.ExecPlain, Spec.ExecBrTable, Spec.ExecU32, Spec.ExecEnd, Spec.ExecIf, ReadS33, ReadU32, HeaderEnd;
  }

  lemma OneLebLess(code: seq<byte>, q: nat, n: nat)
    requires n > 0 && SkipLebs(code, q, n).Some?
    ensures LebEnd(code, q).Some? && SkipLebs(code, LebEnd(code, q).value, n - 1) == SkipLebs(code, q, n)
  {
    hide LebEnd;
  }

  lemma NoLeb(code: seq<byte>, q: nat)
    ensures SkipLebs(code, q, 0) == Some(q)
  {
  }

  /** Blocks and the other instructions that only move labels, pc and event. */
  predicate IsControl(op: byte) { IsBlock(op) || op == IF || op == ELSE || op == END || op == RETURN || op == THROW_REF }

  predicate IsBlock(op: byte) { op == BLOCK || op == LOOP || op == TRY_TABLE }

  class ExecContext {
    const M: Machine
    /** What the vector of the operand stack holds past its end. */
    const stale: Stale
    var inst: nat
    var p: nat
    var frames: seq<Frame>
    var stack: seq<cell>
    var labels: seq<Label>
    var locals: seq<cell>
    var event: Event
    var restarts: seq<Restart>
    var bottom: nat
    var resume: Resume
    var jcache: JumpRef
    const cache: array<CacheEntry>
    var world: World

    function Abs(): State
      reads this, cache
    {
      State(inst, p, frames, stack, labels, locals, event, restarts, bottom, resume, jcache, cache[..], world)
    }

    ghost predicate Valid()
      reads this, cache
    {
      StateOk(M, Abs()) && TablesSorted(M)
    }

    /** invoke (lib/exec_insn_subr.c:713-747), on a fresh context. */
    constructor (M: Machine, stale: Stale, inst: nat, f: nat, args: seq<cell>, w: World)
      ensures Abs() == Invoked(inst, f, args, w) && this.M == M && this.stale == stale && fresh(cache)
    {
      this.M := M;
      this.stale := stale;
      this.inst := inst;
      p, frames, stack, labels, locals := 0, [], args, [], [];
      event, restarts, bottom, resume := CallEvent(f), [], 0, Fresh;
      jcache := NoRef;
      cache := new CacheEntry[CACHE_SIZE](_ => CacheEntry(0, 0, 0, false, 0));
      world := w;
      new;
      assert cache[..] == EmptyCache();
    }

    // ---- frames ----

    method SetCurrentFrame(fr: Frame)
      requires InstOk(M, inst) && InstOk(M, fr.inst) && cache.Length == CACHE_SIZE
      modifies this, cache
      ensures Abs() == Spec.SetCurrentFrame(M, old(Abs()), fr)
    {
      if M.insts[inst].mod != M.insts[fr.inst].mod {
        jcache := NoRef;
        forall k | 0 <= k < cache.Length { cache[k] := CacheEntry(0, 0, 0, false, 0); }
        assert cache[..] == EmptyCache();
      }
      inst := fr.inst;
    }

    method FrameEnter(callee: nat, fidx: nat, params: seq<cell>) returns (r: Status)
      requires Valid() && FuncOk(M, callee, fidx)
      modifies this, cache
      ensures Says(r, Abs()) == Spec.FrameEnter(M, old(Abs()), callee, fidx, params)
    {
      var f := FuncAt(M, callee, fidx);
      if |frames| == M.maxFrames { return Trap(TooManyFrames); }
      if NoRoom(M, |stack|, f.maxcells) { return Trap(TooManyStackCells); }
      var callerpc := 0xdeadbeef;
      if |frames| > 0 { callerpc := p; }
      var fr := Frame(callee, fidx, |labels|, |locals|, callerpc, |stack|, f.typ.results);
      frames := frames + [fr];
      locals := locals + (params + Zeros(f.nlocals));
      SetCurrentFrame(fr);
      return Success;
    }

    method FrameExit() returns (fr: Frame)
      requires Valid() && FrameFits(Abs())
      modifies this, cache
      ensures fr == Top(old(frames)) && Abs() == Spec.FrameExit(M, old(Abs()))
    {
      fr := Top(frames);
      frames := Pop(frames);
      if |frames| > 0 {
        SetCurrentFrame(Top(frames));
        p := fr.callerpc;
      }
      labels := labels[..fr.labelidx];
      locals := locals[..fr.localidx];
    }

    // ---- jumps ----

    method RewindStack(height: nat, arity: nat)
      requires height + arity <= |stack|
      modifies this`stack
      ensures stack == Rewound(old(stack), height, arity)
    {
      if height + arity == |stack| {
        assert stack == stack[..height] + stack[|stack| - arity..];
        return;
      }
      stack := stack[..height] + stack[|stack| - arity..];
    }

    /** jump_lookup; the slot must be in the table. */
    method LookupJump(bpc: nat) returns (ref: JumpRef)
      requires Valid() && frames != [] && Spec.JumpLookup(M, Abs(), bpc).JumpRef?
      modifies this`jcache
      ensures ref == Spec.JumpLookup(M, old(Abs()), bpc) && Abs() == old(Abs()).(jcache := ref)
    {
      if RefValid(M, Abs()) && RefTable(M, Abs())[jcache.k].pc == bpc { return jcache; }
      var fr := Top(frames);
      var k := BinaryLookup(FuncAt(M, fr.inst, fr.fidx).jumps, bpc);
      ref := JumpRef(fr.fidx, k);
      jcache := ref;
    }

    /** The branch of block_exit that uses the table. */
    method ExitByTable(bpc: nat, gotoElse: bool) returns (stay: bool)
      requires Valid() && frames != [] && TableExit(M, Abs(), bpc, gotoElse).ExitTo?
      modifies this`jcache, this`p
      ensures TableExit(M, old(Abs()), bpc, gotoElse) == ExitTo(Abs(), Exit(p, stay, 0, 0))
    {
      var ref := LookupJump(bpc);
      var js := RefTable(M, Abs());
      var k := ref.k;
      stay := false;
      if gotoElse && js[k + 1].target != 0 {
        stay := true;
        k := k + 1;
      }
      p := js[k].target;
    }

    method BlockExit(bpc: nat, gotoElse: bool) returns (stay: bool, params: nat, arity: nat)
      requires Valid() && frames != [] && Spec.BlockExit(M, Abs(), bpc, gotoElse).ExitTo?
      modifies this`jcache, this`p
      ensures var r := Spec.BlockExit(M, old(Abs()), bpc, gotoElse);
              r.s == Abs() && r.e.target == p && r.e.stay == stay && (!stay ==> r.e.params == params && r.e.arity == arity)
      ensures stay ==> Spec.BlockExit(M, old(Abs()), bpc, gotoElse).e == Exit(p, true, 0, 0)
    {
      var m := ModOf(M, inst);
      var t := Spec.Arity(m.types, ReadS33(m.bytes, bpc + 1).value.value).value;
      if m.bytes[bpc] == LOOP {
        p := bpc;
        return false, t.params, t.params;
      }
      var fr := Top(frames);
      if FuncAt(M, fr.inst, fr.fidx).jumps != [] {
        stay := ExitByTable(bpc, gotoElse);
      } else {
        p, stay := SkipExpr(m.bytes, bpc, gotoElse);
      }
      if stay { return true, 0, 0; }
      return false, t.params, t.results;
    }

    method CachedBlockExit(bpc: nat, gotoElse: bool) returns (stay: bool, params: nat, arity: nat)
      requires Valid() && frames != [] && Spec.CachedBlockExit(M, Abs(), bpc, gotoElse).ExitTo?
      modifies this`jcache, this`p, cache
      ensures var r := Spec.CachedBlockExit(M, old(Abs()), bpc, gotoElse);
              r.s == Abs() && r.e.target == p && r.e.stay == stay && (!stay ==> r.e.params == params && r.e.arity == arity)
    {
      var key := Key(bpc, gotoElse);
      var c := cache[key % CACHE_SIZE];
      if c.key == key {
        p := c.target;
        return c.stay, c.params, c.arity;
      }
      stay, params, arity := BlockExit(bpc, gotoElse);
      cache[key % CACHE_SIZE] := if stay then CacheEntry(key, 0, 0, true, p) else CacheEntry(key, params, arity, false, p);
      assert cache[..] == old(cache[..])[key % CACHE_SIZE := cache[key % CACHE_SIZE]];
    }

    method BranchToLabel(labelidx: nat, gotoElse: bool) returns (stay: bool, height: nat, arity: nat)
      requires Valid() && frames != [] && !Spec.BranchToLabel(M, Abs(), labelidx, gotoElse).NoBranch?
      modifies this`jcache, this`p, this`labels, cache
      ensures Spec.BranchToLabel(M, old(Abs()), labelidx, gotoElse) == if stay then Stayed(Abs()) else Left(Abs(), height, arity)
    {
      var l := labels[|labels| - labelidx - 1];
      var params;
      stay, params, arity := CachedBlockExit(l.pc, gotoElse);
      height := 0;
      if stay { return; }
      labels := labels[..|labels| - labelidx - 1];
      height := l.height - params;
    }

    method DoBranch(labelidx: nat, gotoElse: bool)
      requires Valid() && !Spec.DoBranch(M, Abs(), labelidx, gotoElse).Stuck?
      modifies this, cache
      ensures Spec.DoBranch(M, old(Abs()), labelidx, gotoElse) == Go(Abs())
    {
      var fr := Top(frames);
      var height, arity;
      if |labels| - labelidx == fr.labelidx {
        var gone := FrameExit();
        height, arity := gone.height, gone.nresults;
      } else {
        var stay;
        stay, height, arity := BranchToLabel(labelidx, gotoElse);
        if stay { return; }
      }
      RewindStack(height, arity);
    }

    // ---- calls ----

    method DoWasmCall(f: nat) returns (r: Status)
      requires Valid() && FinstOk(M, f) && M.finsts[f].WasmFunc? && !Spec.DoWasmCall(M, Abs(), f).Stuck?
      modifies this, cache
      ensures Says(r, Abs()) == Spec.DoWasmCall(M, old(Abs()), f)
    {
      var fi := M.finsts[f];
      var rest := |stack| - fi.typ.params;
      var params := stack[rest..];
      stack := stack[..rest];
      r := FrameEnter(fi.inst, fi.fidx, params);
      if r != Success { return; }
      p := FuncAt(M, fi.inst, fi.fidx).start;
    }

    method ScheduleCallFromHostfunc(f: nat, g: nat, user: nat)
      requires g < |M.finsts|
      modifies this`restarts, this`bottom, this`event
      ensures Abs() == ScheduleCall(M, old(Abs()), f, g, user)
    {
      var saved := bottom;
      bottom := |frames|;
      restarts := restarts + [Restart(f, saved, M.finsts[g].typ.results, user)];
      event := CallEvent(g);
    }

    /** do_host_call, with what the host function does to the context. */
    method DoHostCall(f: nat) returns (r: Status)
      requires Valid() && FinstOk(M, f) && M.finsts[f].HostFunc? && !Spec.DoHostCall(M, Abs(), f).Stuck?
      modifies this
      ensures Says(r, Abs()) == Spec.DoHostCall(M, old(Abs()), f)
    {
      var t := M.finsts[f].typ;
      if t.results > t.params && NoRoom(M, |stack|, t.results - t.params) { return Trap(TooManyStackCells); }
      var rest := |stack| - t.params;
      match M.host(M.finsts[f].h, stack[rest..], resume, world) {
        case HTrap => return Trap(HostError);
        case HDone(results, w) =>
          stack := stack[..rest] + results;
          resume, world := Fresh, w;
          return Success;
        case HForward(g, w) =>
          event, resume, world := CallEvent(g), Fresh, w;
          return Restartable;
        case HCall(g, args, user, w) =>
          if NoRoom(M, |stack|, |args|) { return Trap(TooManyStackCells); }
          stack := stack + args;
          resume, world := Fresh, w;
          ScheduleCallFromHostfunc(f, g, user);
          return Restartable;
      }
    }

    /** do_call; `retry` is a host function that asks to be called again before doing anything. */
    method DoCall(f: nat, t: Tick) returns (r: Status)
      requires Valid() && !CallOrRetry(M, Abs(), f, t).Stuck?
      modifies this, cache
      ensures Says(r, Abs()) == CallOrRetry(M, old(Abs()), f, t)
    {
      if t.hostRetry && f < |M.finsts| && M.finsts[f].HostFunc? { return Restartable; }
      if M.finsts[f].HostFunc? { r := DoHostCall(f); } else { r := DoWasmCall(f); }
    }

    /** do_return_call: leave the frame, keep the arguments, call. */
    method DoReturnCall(f: nat, t: Tick) returns (r: Status)
      requires Valid() && LeaveForTailCall(M, Abs(), f).Go?
      requires var s := LeaveForTailCall(M, Abs(), f).s; StateOk(M, s) && !CallOrRetry(M, s, f, t).Stuck?
      modifies this, cache
      ensures Says(r, Abs()) == CallOrRetry(M, LeaveForTailCall(M, old(Abs()), f).s, f, t)
    {
      var fr := FrameExit();
      RewindStack(fr.height, M.finsts[f].typ.params);
      event := CallEvent(f);
      r := DoCall(f, t);
    }

    method ReturnToHostfunc()
      requires restarts != [] && !ReturnToHost(Abs()).Stuck?
      modifies this
      ensures ReturnToHost(old(Abs())) == Go(Abs())
    {
      var hf := Top(restarts);
      restarts := Pop(restarts);
      bottom := hf.savedBottom;
      var rest := |stack| - hf.stackAdj;
      resume := Resumed(hf.user, stack[rest..]);
      stack := stack[..rest];
      event := CallEvent(hf.func);
    }

    // ---- exceptions ----

    /** The loop over the clauses of a try_table. */
    method ScanClauses(tags: seq<nat>, code: seq<byte>, start: nat, count: nat, tag: nat) returns (m: Match)
      requires !FindClause(code, tags, start, count, tag).BadClause?
      ensures m == FindClause(code, tags, start, count, tag)
    {
      var q, j := start, 0;
      while j < count
        invariant j <= count && FindClause(code, tags, q, count - j, tag) == FindClause(code, tags, start, count, tag)
      {
        var c := ReadClause(code, q).value;
        if c.tag < 0 { return Match(c.target, true); }
        if tags[c.tag] == tag { return Match(c.target, false); }
        q := c.next;
        j := j + 1;
      }
      return NoMatch;
    }

    /** The inner loop of find_catch: go down to the frame that owns label `labelidx`. */
    method OwnerOf(labelidx: nat, top: nat, labels: nat) returns (host: bool, frameidx: nat, labelheight: nat)
      requires top < |frames| && !Descend(Abs(), labelidx, top, labels).NoFrame?
      ensures Descend(Abs(), labelidx, top, labels) == if host then HitHost else InFrame(frameidx, labelheight)
    {
      host, frameidx, labelheight := false, top, labels;
      while frames[frameidx].labelidx > labelidx
        invariant frameidx < |frames| && Descend(Abs(), labelidx, frameidx, labelheight) == Descend(Abs(), labelidx, top, labels)
        decreases frameidx
      {
        if frameidx == bottom { return true, frameidx, labelheight; }
        labelheight := frames[frameidx].labelidx;
        frameidx := frameidx - 1;
      }
    }

    /** What the label at `blockpc` catches: nothing unless it is a try_table. */
    method CatchOf(i: nat, blockpc: nat, tag: nat) returns (m: Match)
      requires InstOk(M, i) && !LabelCatch(M, i, blockpc, tag).BadClause?
      ensures m == LabelCatch(M, i, blockpc, tag)
    {
      var code := ModOf(M, i).bytes;
      if code[blockpc] != TRY_TABLE { return NoMatch; }
      var c := ReadU32(code, ReadS33(code, blockpc + 1).value.next).value;
      m := ScanClauses(M.insts[i].tags, code, c.next, c.value, tag);
    }

    /** find_catch: the labels from the innermost on, going down the frames with them. */
    method FindCatch(tag: nat) returns (h: Handler)
      requires Valid() && frames != []
      requires !Spec.FindCatch(M, Abs(), tag, |labels|, |frames| - 1, |labels|).BadCatch?
      ensures h == Spec.FindCatch(M, Abs(), tag, |labels|, |frames| - 1, |labels|)
    {
      hide Descend, LabelCatch, InstOk;
      var frameidx: nat, labelheight: nat, i := |frames| - 1, |labels|, 0;
      while i < |labels|
        invariant i <= |labels| && frameidx < |frames|
        invariant Spec.FindCatch(M, Abs(), tag, |labels| - i, frameidx, labelheight)
               == Spec.FindCatch(M, Abs(), tag, |labels|, |frames| - 1, |labels|)
      {
        var labelidx := |labels| - i - 1;
        var host;
        host, frameidx, labelheight := OwnerOf(labelidx, frameidx, labelheight);
        if host { return NotFound; }
        var m := CatchOf(frames[frameidx].inst, labels[labelidx].pc, tag);
        if m.Match? { return Found(frameidx, m.target + (labelheight - labelidx), m.all); }
        i := i + 1;
      }
      return NotFound;
    }

    /** Leave frames until frame `frameidx` is on top. */
    method RewindFrames(frameidx: nat)
      requires Valid() && Unwind(M, Abs(), frameidx + 1).Some?
      modifies this, cache
      ensures Unwind(M, old(Abs()), frameidx + 1) == Some(Abs())
    {
      while frameidx + 1 < |frames|
        invariant Valid() && Unwind(M, Abs(), frameidx + 1) == Unwind(M, old(Abs()), frameidx + 1)
        decreases |frames|
      {
        var gone := FrameExit();
      }
    }

    /** The jump to the catching label, and the exception's cells. */
    method CatchAt(labelidx: nat, csz: nat, exn: seq<cell>)
      requires Valid() && csz <= EXN_CELLS && |exn| == EXNREF_CELLS && !Catch(M, Abs(), labelidx, csz, exn).Stuck?
      modifies this, cache
      ensures Catch(M, old(Abs()), labelidx, csz, exn) == Go(Abs())
    {
      var height, arity;
      var fr := Top(frames);
      if |labels| - labelidx == fr.labelidx {
        var gone := FrameExit();
        height, arity := gone.height, gone.nresults;
      } else {
        var stay;
        stay, height, arity := BranchToLabel(labelidx, false);
      }
      stack := Caught(stack, height, arity, csz, exn);
    }

    method DoException() returns (r: Status)
      requires Valid() && !Spec.DoException(M, Abs()).Stuck?
      modifies this, cache
      ensures Says(r, Abs()) == Spec.DoException(M, old(Abs()))
    {
      hide StateOk, Spec.FindCatch, Unwind, Catch, TagOf;
      var rest := |stack| - EXNREF_CELLS;
      var exn := stack[rest..];
      ghost var s := Abs();
      stack := stack[..rest];
      StackOk(M, s, Abs());
      var tag := TagOf(exn);
      if tag == 0 { return Trap(ThrowRefNull); }
      var h := FindCatch(tag);
      if h.NotFound? { return Trap(UncaughtException); }
      RewindFrames(h.frameidx);
      CatchAt(h.labelidx, if h.all then 0 else M.tagCells[tag], exn);
      return Success;
    }

    // ---- instructions ----

    method PushLabel(next: nat)
      modifies this`labels, this`p
      ensures Abs() == Spec.PushLabel(old(Abs()), next)
    {
      labels := labels + [Label(p, |stack|)];
      p := next;
    }

    method ScheduleBr(next: nat, index: nat)
      modifies this`p, this`event
      ensures Jumping(old(Abs()), next, index) == Go(Abs())
    {
      p := next;
      event := Branch(index, false);
    }

    method ExecIf(next: nat)
      requires stack != []
      modifies this
      ensures Spec.ExecIf(old(Abs()), next) == Go(Abs())
    {
      var c := Top(stack);
      stack := Pop(stack);
      PushLabel(next);
      if c == 0 { event := Branch(0, true); }
    }

    method ExecEnd()
      requires FrameFits(Abs())
      modifies this
      ensures Spec.ExecEnd(old(Abs())) == Go(Abs())
    {
      if |labels| > Top(frames).labelidx {
        labels := Pop(labels);
        p := p + 1;
      } else {
        ScheduleBr(p + 1, 0);
      }
    }

    method ExecBrTable()
      requires Valid() && !Spec.ExecBrTable(M, Abs()).Stuck?
      modifies this
      ensures Spec.ExecBrTable(M, old(Abs())) == Go(Abs())
    {
      hide SkipLebs, LebEnd, ReadU32;
      var code := ModOf(M, inst).bytes;
      var c := ReadU32(code, p + 1).value;
      var l: nat := Top(stack);
      stack := Pop(stack);
      if l >= c.value { l := c.value; }
      var q := c.next;
      ghost var from := SkipLebs(code, q, l);
      while l > 0
        invariant SkipLebs(code, q, l) == from
        modifies {}
      {
        OneLebLess(code, q, l);
        q := LebEnd(code, q).value;
        l := l - 1;
      }
      NoLeb(code, q);
      var i := ReadU32(code, q).value;
      ScheduleBr(i.next, i.value);
    }

    method PushException(csz: nat, tag: nat)
      requires csz <= EXN_CELLS && tag < U64
      modifies this`stack
      ensures Abs() == Spec.PushException(old(Abs()), csz, tag, stale(old(stack)))
    {
      stack := stack + (stale(stack)[csz..] + TagCells(tag));
    }

    method ExecThrow(tagidx: nat, next: nat)
      requires Valid() && !Spec.ExecThrow(M, Abs(), tagidx, next, stale(stack)).Stuck?
      modifies this
      ensures Spec.ExecThrow(M, old(Abs()), tagidx, next, stale(old(stack))) == Go(Abs())
    {
      var tag := M.insts[inst].tags[tagidx];
      PushException(M.tagCells[tag], tag);
      p := next;
      event := Exception;
    }

    /** The instructions with one u32 immediate. */
    method ExecU32(op: byte, i: nat, next: nat)
      requires Valid() && !Spec.ExecU32(M, Abs(), op, i, next, stale(stack)).Stuck?
      modifies this
      ensures Spec.ExecU32(M, old(Abs()), op, i, next, stale(old(stack))) == Go(Abs())
    {
      hide StateOk, Spec.ExecThrow;
      InRangeInst(M, Abs());
      if op == BR {
        ScheduleBr(next, i);
      } else if op == BR_IF {
        var c := Top(stack);
        stack := Pop(stack);
        if c != 0 { ScheduleBr(next, i); } else { p := next; }
      } else if op == CALL {
        p := next;
        event := CallEvent(M.insts[inst].funcs[i]);
      } else if op == RETURN_CALL {
        p := next;
        event := TailCall(M.insts[inst].funcs[i]);
      } else {
        ExecThrow(i, next);
      }
    }

    method ExecPlain() returns (r: Status)
      requires Valid() && FrameFits(Abs()) && !Spec.ExecPlain(M, Abs()).Stuck?
      modifies this
      ensures Says(r, Abs()) == Spec.ExecPlain(M, old(Abs()))
    {
      var code := ModOf(M, inst).bytes;
      var e := PlainEnd(code, p).value;
      var bytes := code[p..e];
      var base, rest := Top(frames).localidx, |stack| - M.pops(bytes);
      match M.plain(inst, bytes, locals[base..], stack[rest..], world) {
        case PTrap => return Trap(PlainError);
        case POk(l, results, w) =>
          p := e;
          locals := locals[..base] + l;
          stack := stack[..rest] + results;
          world := w;
          return Success;
      }
    }

    /** block, loop, try_table. */
    method ExecBlock(op: byte)
      requires Valid() && !FetchExec(M, Abs(), stale(stack)).Stuck? && OpAt(M, Abs(), op) && IsBlock(op)
      modifies this
      ensures FetchExec(M, old(Abs()), stale(old(stack))) == Go(Abs())
    {
      hide StateOk, FetchExec, ReadS33, HeaderEnd;
      var code := ModOf(M, inst).bytes;
      if op == TRY_TABLE {
        FetchTry(M, Abs(), stale(stack));
        PushLabel(HeaderEnd(code, p).value);
      } else {
        FetchOpener(M, Abs(), stale(stack));
        PushLabel(ReadS33(code, p + 1).value.next);
      }
    }

    /** else, end, return, throw_ref. */
    method ExecJump(op: byte)
      requires Valid() && !FetchExec(M, Abs(), stale(stack)).Stuck? && OpAt(M, Abs(), op)
      requires op == ELSE || op == END || op == RETURN || op == THROW_REF
      modifies this
      ensures FetchExec(M, old(Abs()), stale(old(stack))) == Go(Abs())
    {
      hide StateOk, FetchExec, Spec.ExecEnd, OpAt;
      if op == ELSE {
        FetchElse(M, Abs(), stale(stack));
        ScheduleBr(p + 1, 0);
      } else if op == END {
        FetchEnd(M, Abs(), stale(stack));
        ExecEnd();
      } else if op == RETURN {
        FetchReturn(M, Abs(), stale(stack));
        ScheduleBr(p + 1, |labels| - Top(frames).labelidx);
      } else {
        FetchThrowRef(M, Abs(), stale(stack));
        p := p + 1;
        event := Exception;
      }
    }

    method ExecControl(op: byte)
      requires Valid() && !FetchExec(M, Abs(), stale(stack)).Stuck? && OpAt(M, Abs(), op) && IsControl(op)
      modifies this
      ensures FetchExec(M, old(Abs()), stale(old(stack))) == Go(Abs())
    {
      hide StateOk, FetchExec, Spec.ExecIf, ReadS33;
      if IsBlock(op) {
        ExecBlock(op);
      } else if op == IF {
        FetchIf(M, Abs(), stale(stack));
        var code := ModOf(M, inst).bytes;
        ExecIf(ReadS33(code, p + 1).value.next);
      } else {
        ExecJump(op);
      }
    }

    method FetchExecNextInsn() returns (r: Status)
      requires Valid() && !FetchExec(M, Abs(), stale(stack)).Stuck?
      modifies this
      ensures Says(r, Abs()) == FetchExec(M, old(Abs()), stale(old(stack)))
    {
      hide StateOk, FetchExec, Spec.ExecPlain, Spec.ExecBrTable, Spec.ExecU32, ReadU32;
      FetchHead(M, Abs(), stale(stack));
      var code := ModOf(M, inst).bytes;
      var op := code[p];
      if IsControl(op) {
        ExecControl(op);
        return Success;
      }
      FetchOther(M, Abs(), stale(stack));
      r := Success;
      if op in {BR, BR_IF, CALL, RETURN_CALL, THROW} {
        var i := ReadU32(code, p + 1).value;
        ExecU32(op, i.value, i.next);
      } else if op == BR_TABLE {
        ExecBrTable();
      } else {
        r := ExecPlain();
      }
    }

    // ---- the main loop ----

    /** The switch on the pending event. */
    method HandlePending(t: Tick) returns (r: Status)
      requires Valid() && !event.RestartInsn? && !HandleEvent(M, stale, Abs(), t).Stuck?
      modifies this, cache
      ensures Says(r, Abs()) == HandleEvent(M, stale, old(Abs()), t)
    {
      hide StateOk, Spec.DoBranch, Spec.DoException, CallOrRetry, LeaveForTailCall;
      r := Success;
      match event {
        case TailCall(f) => LeaveEvents(M, Abs(), f); r := DoReturnCall(f, t);
        case Exception => r := DoException();
        case CallEvent(f) => r := DoCall(f, t);
        case Branch(i, e) => DoBranch(i, e);
        case NoEvent =>
      }
      if r == Success { event := NoEvent; }
    }

    /** One pass through the loop of exec_expr_continue; `done` if it returns. */
    method OnePass(t: Tick) returns (done: bool, r: Status)
      requires cache.Length == CACHE_SIZE && TablesSorted(M) && !Pass(M, stale, Abs(), t).Stuck?
      modifies this, cache
      ensures Pass(M, stale, old(Abs()), t) == if done && r == Success then Finished(Abs()) else Says(r, Abs())
      ensures !done ==> r == Success
    {
      hide StateOk, HandleEvent, FetchExec, ReturnToHost;
      done := true;
      if event.RestartInsn? {
        if t.insnRestart { return true, Restartable; }
        EventOk(M, Abs());
        p, event := event.pc, NoEvent;
      } else {
        r := HandlePending(t);
        if r != Success { return; }
        if |frames| == bottom {
          if restarts == [] { return; }
          ReturnToHostfunc();
          return false, Success;
        }
        if t.interrupt { return true, Restartable; }
        if t.insnRestart {
          event := RestartInsn(p);
          return true, Restartable;
        }
      }
      r := FetchExecNextInsn();
      done := r != Success;
    }

    /**
      exec_expr_continue, for at most as many passes as `ticks` says what happens
      in; `done` if it returned before. A pass that is interrupted is used up.
     */
    method ExecExprContinue(ticks: seq<Tick>) returns (done: bool, r: Status, used: nat)
      requires cache.Length == CACHE_SIZE && TablesSorted(M) && !Drive(M, stale, Abs(), ticks).Stuck?
      modifies this, cache
      ensures EnterLoop(M, stale, old(Abs()), ticks) == (if done && r == Success then Finished(Abs()) else Says(r, Abs()), used)
      ensures used <= |ticks| && (done ==> used > 0) && (!done ==> used == |ticks| && r == Success)
    {
      hide StateOk, Pass;
      done, r, used := false, Success, 0;
      while used < |ticks| && !done
        invariant used <= |ticks| && cache.Length == CACHE_SIZE && (done ==> used > 0) && (!done ==> r == Success)
        invariant !done ==> !Drive(M, stale, Abs(), ticks[used..]).Stuck?
        invariant EnterLoop(M, stale, old(Abs()), ticks) ==
                  if done then (if r == Success then Finished(Abs()) else Says(r, Abs()), used)
                  else (EnterLoop(M, stale, Abs(), ticks[used..]).0, used + EnterLoop(M, stale, Abs(), ticks[used..]).1)
        decreases |ticks| - used
      {
        assert ticks[used..][0] == ticks[used] && ticks[used..][1..] == ticks[used + 1..];
        done, r := OnePass(ticks[used]);
        used := used + 1;
      }
    }

    /** instance_execute_handle_restart: enter again after every restartable error. */
    method HandleRestart(ticks: seq<Tick>) returns (done: bool, r: Status)
      requires cache.Length == CACHE_SIZE && TablesSorted(M) && !Drive(M, stale, Abs(), ticks).Stuck?
      modifies this, cache
      ensures done ==> r != Restartable
      ensures Drive(M, stale, old(Abs()), ticks) == if done && r == Success then Finished(Abs()) else Says(r, Abs())
    {
      hide StateOk, Drive, EnterLoop;
      var at, used;
      DriveEnters(M, stale, Abs(), ticks);
      done, r, at := ExecExprContinue(ticks);
      while done && r == Restartable
        invariant at <= |ticks| && cache.Length == CACHE_SIZE && (!done ==> r == Success)
        invariant if done && r == Restartable then Drive(M, stale, Abs(), ticks[at..]) == Drive(M, stale, old(Abs()), ticks)
                  else Drive(M, stale, old(Abs()), ticks) == if done && r == Success then Finished(Abs()) else Says(r, Abs())
        decreases |ticks| - at, done
      {
        DriveEnters(M, stale, Abs(), ticks[at..]);
        done, r, used := ExecExprContinue(ticks[at..]);
        assert ticks[at..][used..] == ticks[at + used..];
        at := at + used;
      }
    }
  }

  // ---- from a call to its results ----

  /** Validated: no structured run of this call gets stuck. */
  ghost predicate NeverWrong(M: Machine, B: Bodies, stale: Stale, f: nat, args: seq<cell>, w: World) {
    Sound(M, B, stale, Call0(f, args, w))
  }

  /** Then no assertion of the interpreter fails. */
  lemma NeverStuck(M: Machine, B: Bodies, stale: Stale, inst: nat, f: nat, args: seq<cell>, w: World, ticks: seq<Tick>)
    requires CallOk(M, B, inst, f, args) && NeverWrong(M, B, stale, f, args, w)
    ensures !Drive(M, stale, Invoked(inst, f, args, w), ticks).Stuck?
  {
    hide CallOk, Drive, StepRunN;
    if Drive(M, stale, Invoked(inst, f, args, w), ticks).Stuck? {
      var n := InterpreterCorrect(M, B, stale, inst, f, args, w, ticks);
    }
  }

  lemma ProgramTables(M: Machine, B: Bodies)
    requires ProgramOk(M, B)
    ensures TablesSorted(M)
  {
    hide BodyOk, MachineOk, Sorted, Wf, Table;
    forall i, f | 0 <= i < |M.modules| && 0 <= f < |M.modules[i].funcs| ensures Sorted(M.modules[i].funcs[f].jumps) {
      assert ModuleOk(M.modules[i], B[i]);
      BodyTable(M.modules[i], M.modules[i].funcs[f], B[i][f]);
    }
  }

  lemma BodyTable(m: Module, f: Func, c: Code)
    requires BodyOk(m, f, c)
    ensures Sorted(f.jumps)
  {
    hide Wf, Enc, At;
    TableSorted(c, f.start);
  }

  /**
    A validated call, run by the interpreter under any schedule of interrupts,
    host retries and instruction restarts: if it returns, the operand stack
    holds the results that the structured semantics gives, and the world is the
    same; if it traps, the structured semantics gives that trap.
   */
  method Execute(M: Machine, ghost B: Bodies, stale: Stale, inst: nat, f: nat, args: seq<cell>, w: World, ticks: seq<Tick>)
    returns (ctx: ExecContext, done: bool, r: Status, ghost n: nat)
    requires CallOk(M, B, inst, f, args) && NeverWrong(M, B, stale, f, args, w)
    ensures done && r == Success ==> StepRunN(M, B, stale, Call0(f, args, w), n) == Final(ctx.stack, ctx.world)
    ensures done && r.Trap? ==> StepRunN(M, B, stale, Call0(f, args, w), n) == Fails(r.id)
    ensures done ==> r != Restartable
  {
    hide CallOk, Drive, StepRunN, TablesSorted, ProgramOk;
    ctx := new ExecContext(M, stale, inst, f, args, w);
    NeverStuck(M, B, stale, inst, f, args, w, ticks);
    CallTables(M, B, inst, f, args);
    assert |ctx.Abs().cache| == CACHE_SIZE;
    done, r := ctx.HandleRestart(ticks);
    n := 0;
    if done {
      n := InterpreterCorrect(M, B, stale, inst, f, args, w, ticks);
    }
  }

  lemma CallTables(M: Machine, B: Bodies, inst: nat, f: nat, args: seq<cell>)
    requires CallOk(M, B, inst, f, args)
    ensures TablesSorted(M)
  {
    hide ProgramOk, TablesSorted;
    ProgramTables(M, B);
  }
}
