/**
  Calls: entering wasm functions, host functions that return, call back or
  hand over, and the return to a waiting host function.
 */
module Calls {
  import opened Leb
  import opened Code
  import opened Jumps
  import opened Machine
  import opened Structured
  import opened Relation
  import opened Exits
  import opened Branches
  import opened Returns

  /** Outcomes that carry a state on to the next piece of the loop. */
  predicate Moves(o: Outcome) { o.Go? || o.Yield? }

  /** The flat outcome `o` represents the structured outcome `n`. */
  ghost predicate Follows(M: Machine, B: Bodies, n: Next, o: Outcome)
    requires ProgramOk(M, B)
  {
    match n
    case On(c) => Moves(o) && Rel(M, B, c, o.s)
    case Final(results, w) => o.Finished? && o.s.stack == results && o.s.world == w && o.s.frames == [] && o.s.restarts == []
    case Fails(id) => o == Trapped(id)
    case Wrong => true
  }

  lemma CallSplit(M: Machine, B: Bodies, c: Conf, s: State)
    requires ProgramOk(M, B) && Rel(M, B, c, s) && c.mode.Calling?
    ensures var n := |c.mode.args|;
            && n <= |s.stack| && s.stack == Under(s.stack, n) + c.mode.args && TopN(s.stack, n) == c.mode.args
            && Repr(M, B, c.acts, s, Under(s.stack, n), s.p)
            && Under(s.stack, n) == ActCells(c.acts) && |s.frames| == Depth(c.acts) && s.bottom <= |s.frames|
  {
    hide ProgramOk, RelActs, CachesOk, InstOk;
    var n := |c.mode.args|;
    StackIsCells(M, B, c.acts, s.frames, s.labels, s.locals, Under(s.stack, n), s.p, s.restarts, s.bottom);
  }

  /** The flat machine on a pending call of a wasm function. */
  lemma EnterFlat(M: Machine, s: State, f: nat, n: nat, pad: seq<cell>)
    requires StateOk(M, s) && s.event == CallEvent(f) && FinstOk(M, f) && M.finsts[f].WasmFunc? && |pad| == EXN_CELLS
    requires M.finsts[f].typ.params == n <= |s.stack| && FuncOk(M, M.finsts[f].inst, M.finsts[f].fidx)
    ensures var fi, st := M.finsts[f], Under(s.stack, n);
            var g := FuncAt(M, fi.inst, fi.fidx);
            var fr := Frame(fi.inst, fi.fidx, |s.labels|, |s.locals|, if s.frames == [] then 0xdeadbeef else s.p, |st|, g.typ.results);
            var s0 := s.(stack := st, frames := s.frames + [fr], locals := s.locals + (TopN(s.stack, n) + Zeros(g.nlocals)));
            Micro(M, s, pad) == if |s.frames| == M.maxFrames then Trapped(TooManyFrames)
                                else if NoRoom(M, |st|, g.maxcells) then Trapped(TooManyStackCells)
                                else Go(SetCurrentFrame(M, s0, fr).(p := g.start, event := NoEvent))
  {
    hide SetCurrentFrame;
  }

  /** The structured semantics on the same. */
  lemma EnterStructured(M: Machine, B: Bodies, c: Conf)
    requires ProgramOk(M, B) && c.mode.Calling? && FinstOk(M, c.mode.func) && MachineOk(M)
    requires M.finsts[c.mode.func].WasmFunc? && FuncOk(M, M.finsts[c.mode.func].inst, M.finsts[c.mode.func].fidx)
    requires M.finsts[c.mode.func].typ.params == |c.mode.args|
    ensures var fi := M.finsts[c.mode.func];
            var g := FuncAt(M, fi.inst, fi.fidx);
            var n := StepCall(M, B, c);
            n == Wrong ||
            n == if Depth(c.acts) == M.maxFrames then Fails(TooManyFrames)
                 else if NoRoom(M, |ActCells(c.acts)|, g.maxcells) then Fails(TooManyStackCells)
                 else On(Conf(Wasm(fi.inst, fi.fidx, c.mode.args + Zeros(g.nlocals), Base, [], Body(M, B, fi.inst, fi.fidx), c.acts), Run, c.world))
    ensures StepCall(M, B, c) != Wrong ==> c.mode.resume == Fresh
  {
    hide ProgramOk, InstOk, ActCells, Depth;
  }

  /** What a pending call says of the state. */
  lemma CallingFacts(M: Machine, B: Bodies, c: Conf, s: State)
    requires ProgramOk(M, B) && Rel(M, B, c, s) && c.mode.Calling?
    ensures StateOk(M, s) && CachesOk(M, B, s) && s.event == CallEvent(c.mode.func) && s.resume == c.mode.resume && s.world == c.world
    ensures FinstOk(M, c.mode.func) && M.finsts[c.mode.func].typ.params == |c.mode.args|
  {
    hide ProgramOk, RelActs, CachesOk, InstOk, FinstOk;
  }

  lemma EnterSim(M: Machine, B: Bodies, c: Conf, s: State, pad: seq<cell>)
    requires ProgramOk(M, B) && Rel(M, B, c, s) && c.mode.Calling? && FinstOk(M, c.mode.func)
    requires M.finsts[c.mode.func].WasmFunc? && |pad| == EXN_CELLS
    ensures Follows(M, B, StepCall(M, B, c), Micro(M, s, pad))
  {
    assert MachineOk(M);
    hide ProgramOk, MachineOk, RelActs, CachesOk, InstOk, SetCurrentFrame, RelCtxs, StepCall, Micro, StateOk, Rel, Repr, BodyOk;
    CallingFacts(M, B, c, s);
    CallSplit(M, B, c, s);
    var fi := M.finsts[c.mode.func];
    assert FuncOk(M, fi.inst, fi.fidx);
    EnterStructured(M, B, c);
    EnterFlat(M, s, c.mode.func, |c.mode.args|, pad);
    if StepCall(M, B, c).On? { EnteredRel(M, B, c, s, fi.inst, fi.fidx); }
  }

  /** The state after the entry. */
  lemma EnteredRel(M: Machine, B: Bodies, c: Conf, s: State, inst: nat, fidx: nat)
    requires ProgramOk(M, B) && Rel(M, B, c, s) && c.mode.Calling? && c.mode.resume == Fresh && |c.mode.args| <= |s.stack|
    requires FuncOk(M, inst, fidx) && InstOk(M, s.inst)
    ensures var f, st := FuncAt(M, inst, fidx), Under(s.stack, |c.mode.args|);
            var fr := Frame(inst, fidx, |s.labels|, |s.locals|, if s.frames == [] then 0xdeadbeef else s.p, |st|, f.typ.results);
            var locals := c.mode.args + Zeros(f.nlocals);
            var s0 := s.(stack := st, frames := s.frames + [fr], locals := s.locals + locals);
            Rel(M, B, Conf(Wasm(inst, fidx, locals, Base, [], Body(M, B, inst, fidx), c.acts), Run, c.world),
                SetCurrentFrame(M, s0, fr).(p := f.start, event := NoEvent))
  {
    hide ProgramOk, RelActs, CachesOk, InstOk, SetCurrentFrame, RelCtxs, StateOk, Rel, Body, Zeros;
    CallingFacts(M, B, c, s);
    CallSplit(M, B, c, s);
    var st, f := Under(s.stack, |c.mode.args|), FuncAt(M, inst, fidx);
    var fr := Frame(inst, fidx, |s.labels|, |s.locals|, if s.frames == [] then 0xdeadbeef else s.p, |st|, f.typ.results);
    var locals := c.mode.args + Zeros(f.nlocals);
    var s0 := s.(stack := st, frames := s.frames + [fr], locals := s.locals + locals);
    var s1 := SetCurrentFrame(M, s0, fr);
    SameCaches(M, B, s, s0);
    PushedOk(M, s, s0, fr);
    SetFrameCaches(M, B, s0, fr);
    var s2 := s1.(p := f.start, event := NoEvent);
    SetFrameFields(M, s0, fr);
    SameCaches(M, B, s1, s2);
    if s.frames == [] {
      PcIrrelevant(M, B, c.acts, s.labels, s.locals, st, s.p, fr.callerpc, s.restarts, s.bottom);
    }
    NewFrame(M, B, c.acts, s, st, fr, locals, s2);
  }

  lemma PushedOk(M: Machine, s: State, t: State, fr: Frame)
    requires StateOk(M, s) && FuncOk(M, fr.inst, fr.fidx)
    requires t.inst == s.inst && t.cache == s.cache && t.frames == s.frames + [fr]
    ensures StateOk(M, t) && |s.cache| == CACHE_SIZE
  {
  }

  lemma SetFrameFields(M: Machine, s: State, fr: Frame)
    requires InstOk(M, s.inst) && InstOk(M, fr.inst)
    ensures var t := SetCurrentFrame(M, s, fr);
            && t == s.(inst := fr.inst, jcache := t.jcache, cache := t.cache)
            && (|s.cache| == CACHE_SIZE ==> |t.cache| == CACHE_SIZE)
  {
    hide InstOk;
  }

  lemma NewFrame(M: Machine, B: Bodies, acts: Acts, s: State, st: seq<cell>, fr: Frame, locals: seq<cell>, s2: State)
    requires ProgramOk(M, B) && Repr(M, B, acts, s, st, fr.callerpc) && s.bottom <= |s.frames|
    requires FuncOk(M, fr.inst, fr.fidx) && s.resume == Fresh
    requires fr == Frame(fr.inst, fr.fidx, |s.labels|, |s.locals|, fr.callerpc, |st|, FuncAt(M, fr.inst, fr.fidx).typ.results)
    requires s2 == s.(stack := st, frames := s.frames + [fr], locals := s.locals + locals, inst := fr.inst,
                      p := FuncAt(M, fr.inst, fr.fidx).start, event := NoEvent, jcache := s2.jcache, cache := s2.cache)
    requires CachesOk(M, B, s2) && |s2.cache| == CACHE_SIZE
    ensures Rel(M, B, Conf(Wasm(fr.inst, fr.fidx, locals, Base, [], Body(M, B, fr.inst, fr.fidx), acts), Run, s.world), s2)
  {
    hide ProgramOk, CachesOk, InstOk, Enc;
    var a := Wasm(fr.inst, fr.fidx, locals, Base, [], Body(M, B, fr.inst, fr.fidx), acts);
    assert Pop(s2.frames) == s.frames;
    assert s.labels[..|s.labels|] == s.labels && s2.locals[..|s.locals|] == s.locals && st[..|st|] == st;
    assert s2.locals[|s.locals|..] == locals;
    assert FrameRel(M, B, a, fr, s2.labels, s2.locals, s2.stack, s2.p);
    assert RelActs(M, B, a, s2.frames, s2.labels, s2.locals, s2.stack, s2.p, s2.restarts, s2.bottom);
  }

  /** A host function: it returns, hands over, calls back, or fails. */
  lemma HostSim(M: Machine, B: Bodies, c: Conf, s: State, pad: seq<cell>)
    requires ProgramOk(M, B) && Rel(M, B, c, s) && c.mode.Calling? && FinstOk(M, c.mode.func)
    requires M.finsts[c.mode.func].HostFunc? && |pad| == EXN_CELLS
    ensures Follows(M, B, StepCall(M, B, c), Micro(M, s, pad))
  {
    hide RelActs, CachesOk, InstOk;
    CallSplit(M, B, c, s);
    var f, args := c.mode.func, c.mode.args;
    var st := Under(s.stack, |args|);
    match M.host(M.finsts[f].h, args, c.mode.resume, s.world)
    case HTrap =>
    case HDone(results, w) =>
      if StepCall(M, B, c).On? || StepCall(M, B, c).Final? {
        var s2 := s.(stack := st + results, resume := Fresh, world := w, event := NoEvent);
        SameCaches(M, B, s, s2);
        DeliverSim(M, B, c.acts, results, w, s2, st);
      }
    case HForward(g, w) =>
      if StepCall(M, B, c).On? {
        var s2 := s.(event := CallEvent(g), resume := Fresh, world := w);
        SameCaches(M, B, s, s2);
        assert FinstOk(M, g);
      }
    case HCall(g, args2, user, w) =>
      if StepCall(M, B, c).On? { NestedSim(M, B, c, s, g, args2, user, w); }
  }

  /** A nested call saves the caller under a new bottom. */
  lemma NestedSim(M: Machine, B: Bodies, c: Conf, s: State, g: nat, args: seq<cell>, user: nat, w: World)
    requires ProgramOk(M, B) && Rel(M, B, c, s) && c.mode.Calling? && FinstOk(M, c.mode.func)
    requires M.finsts[c.mode.func].HostFunc? && g < |M.finsts| && M.finsts[g].typ.params == |args|
    ensures Rel(M, B, Conf(Host(c.mode.func, c.mode.args, user, M.finsts[g].typ.results, c.acts), Calling(g, args, Fresh), w),
                ScheduleCall(M, s.(stack := s.stack + args, resume := Fresh, world := w), c.mode.func, g, user))
  {
    hide CachesOk, InstOk, RelCtxs, FrameRel;
    CallSplit(M, B, c, s);
    assert FinstOk(M, g);
    hide ProgramOk, FinstOk;
    var s2 := ScheduleCall(M, s.(stack := s.stack + args, resume := Fresh, world := w), c.mode.func, g, user);
    SameCaches(M, B, s, s2);
    assert s2.stack[|s2.stack| - |args|..] == args && s2.stack[..|s2.stack| - |args|] == s.stack;
    assert Pop(s2.restarts) == s.restarts;
    assert s.stack[..|s.stack| - |c.mode.args|] == Under(s.stack, |c.mode.args|);
  }

  /** Results below a waiting host function resume it, with its own arguments and bottom. */
  lemma ResumeSim(M: Machine, B: Bodies, c: Conf, s: State, pad: seq<cell>)
    requires ProgramOk(M, B) && Rel(M, B, c, s) && c.mode.Returned? && |pad| == EXN_CELLS
    ensures Follows(M, B, Step(M, B, c, pad), Micro(M, s, pad))
  {
    hide ProgramOk, CachesOk, InstOk, FinstOk, FrameRel;
    if c.acts.Host? && |c.mode.results| == c.acts.adj {
      var o := ReturnToHost(s);
      SameCaches(M, B, s, o.s);
    }
  }
}
