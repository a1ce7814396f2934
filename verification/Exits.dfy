/**
  Leaving a block: table, scan and structure agree, and both jump caches are
  invisible (lib/exec.c:365-383, lib/exec.c:794-967).
 */
module Exits {
  import opened Leb
  import opened Code
  import opened Jumps
  import opened Machine
  import opened Types
  import opened Structured
  import opened Relation

  /** The block `b` opens at `q` in the function that `s` is running. */
  ghost predicate Running(M: Machine, B: Bodies, s: State, b: Instr, tl: Code, q: nat)
    requires ProgramOk(M, B)
  {
    && StateOk(M, s) && CachesOk(M, B, s) && s.frames != [] && Top(s.frames).inst == s.inst
    && FuncOk(M, s.inst, Top(s.frames).fidx)
    && Opens(Body(M, B, s.inst, Top(s.frames).fidx), FuncAt(M, s.inst, Top(s.frames).fidx).start, b, tl, q)
    && BlockType(ModOf(M, s.inst).types, b).Some?
  }

  lemma {:induction false} LookupUnique(js: seq<Jump>, pc: nat, k: nat)
    requires Sorted(js) && k < |js| && js[k].pc == pc
    ensures Lookup(js, pc) == Some(k)
  {
    var r := Lookup(js, pc);
  }

  /** Functions of one module occupy different places. */
  lemma SameFunction(m: Module, cs: seq<Code>, f: nat, g: nat, q: nat, r: nat)
    requires ModuleOk(m, cs) && f < |cs| && g < |cs|
    requires m.funcs[f].start <= q < m.funcs[f].start + |Enc(cs[f])|
    requires m.funcs[g].start <= r < m.funcs[g].start + |Enc(cs[g])|
    requires q <= r + 1 && r <= q + 1
    ensures f == g
  {
    hide Enc, BodyOk;
  }

  lemma OpensIn(c: Code, p: nat, b: Instr, tl: Code, q: nat)
    requires Opens(c, p, b, tl, q)
    ensures p <= q < p + |Enc(c)|
  {
    SubRange(c, p, Cons(b, tl), q);
    BlockSize(b, tl);
  }

  /** The key blockpc + goto_else tells blocks of one module, and the two uses, apart. */
  lemma KeyInjective(m: Module, cs: seq<Code>, f: nat, b: Instr, tl: Code, q: nat, ge: bool,
                     g: nat, b2: Instr, tl2: Code, q2: nat, ge2: bool)
    requires ModuleOk(m, cs) && f < |cs| && g < |cs|
    requires Opens(cs[f], m.funcs[f].start, b, tl, q) && Opens(cs[g], m.funcs[g].start, b2, tl2, q2)
    requires Key(q, ge) == Key(q2, ge2)
    ensures f == g && q == q2 && ge == ge2 && b == b2 && tl == tl2
  {
    hide Opens, Enc, Wf;
    OpensIn(cs[f], m.funcs[f].start, b, tl, q);
    OpensIn(cs[g], m.funcs[g].start, b2, tl2, q2);
    SameFunction(m, cs, f, g, q, q2);
    OpensOpenAt(cs[f], m.funcs[f].start, b, tl, q);
    OpensOpenAt(cs[f], m.funcs[f].start, b2, tl2, q2);
    assert BodyOk(m, m.funcs[f], cs[f]);
    NoneAfter(cs[f], m.funcs[f].start, q);
    NoneAfter(cs[f], m.funcs[f].start, q2);
  }

  /** The bytes at a block opener of the running function. */
  lemma OpenerBytes(M: Machine, B: Bodies, s: State, b: Instr, tl: Code, q: nat)
    requires ProgramOk(M, B) && Running(M, B, s, b, tl, q)
    ensures var code := ModOf(M, s.inst).bytes;
            && InstrWf(b) && HeaderWf(b) && At(code, q, EncInstr(b)) && At(code, q, Header(b))
            && q < |code| && code[q] == KindOp(b.kind)
            && ReadS33(code, q + 1) == Some(Imm(S33(b.bt), q + 1 + |b.bt|))
            && EndPos(b, q) > 0
  {
    hide CachesOk, StateOk, Wf, Enc, Header, Sub, HeaderWf;
    var fr := Top(s.frames);
    CodeAt(M, B, s.inst, fr.fidx, Cons(b, tl), q);
    WfHead(b, tl);
    AtSplit(ModOf(M, s.inst).bytes, q, EncInstr(b), Enc(tl));
    EncHead(b, tl);
    BlockAt(ModOf(M, s.inst).bytes, q, b);
    HeaderAt(ModOf(M, s.inst).bytes, q, b);
    BlockSize(b, tl);
  }

  lemma WfHead(b: Instr, tl: Code)
    requires Wf(Cons(b, tl))
    ensures InstrWf(b) && Wf(tl) && (b.Blk? ==> HeaderWf(b))
  {
  }

  lemma EncHead(b: Instr, tl: Code)
    ensures Enc(Cons(b, tl)) == EncInstr(b) + Enc(tl)
  {
  }

  /** A slot that the single-entry cache has for the block is the block's. */
  lemma CachedJumpIs(M: Machine, B: Bodies, s: State, b: Instr, tl: Code, q: nat, k: nat)
    requires ProgramOk(M, B) && Running(M, B, s, b, tl, q)
    requires InstOk(M, s.inst) && RefValid(M, s) && RefTable(M, s)[s.jcache.k].pc == q
    requires FuncOk(M, s.inst, Top(s.frames).fidx) && Lookup(FuncAt(M, s.inst, Top(s.frames).fidx).jumps, q) == Some(k)
    ensures s.jcache == JumpRef(Top(s.frames).fidx, k)
  {
    hide Enc, EncInstr, Header, StateOk, CachesOk, Sub, Table, Lookup, Wf;
    var f, g := Top(s.frames).fidx, s.jcache.fidx;
    var m, cs := ModOf(M, s.inst), B[M.insts[s.inst].mod];
    Bytes(M, B, s.inst, f);
    Bytes(M, B, s.inst, g);
    TableSorted(cs[f], m.funcs[f].start);
    TableSorted(cs[g], m.funcs[g].start);
    OpensIn(cs[f], m.funcs[f].start, b, tl, q);
    assert m.funcs[g].jumps == Table(cs[g], m.funcs[g].start);
    SameFunction(m, cs, g, f, q, q);
    LookupUnique(m.funcs[f].jumps, q, s.jcache.k);
  }

  /** jump_lookup finds the slot of the block, through the single-entry cache or not. */
  lemma JumpLookupIs(M: Machine, B: Bodies, s: State, b: Instr, tl: Code, q: nat)
    requires ProgramOk(M, B) && Running(M, B, s, b, tl, q) && b.kind != KLoop
    requires FuncAt(M, s.inst, Top(s.frames).fidx).jumps != []
    ensures var f := Top(s.frames).fidx;
            var js := FuncAt(M, s.inst, f).jumps;
            var r := JumpLookup(M, s, q);
            && r.JumpRef? && r.fidx == f && HasSlots(js, Slots(b, q), r.k)
  {
    hide Enc, EncInstr, Header, StateOk, CachesOk, Sub, HasSlots, Table, Lookup, Wf;
    var f := Top(s.frames).fidx;
    var m, cs := ModOf(M, s.inst), B[M.insts[s.inst].mod];
    var js, c, st := m.funcs[f].jumps, cs[f], m.funcs[f].start;
    Bytes(M, B, s.inst, f);
    TableSorted(c, st);
    var k := TableHas(c, st, b, tl, q);
    HasFirst(js, b, q, k);
    LookupUnique(js, q, k);
    if RefValid(M, s) && RefTable(M, s)[s.jcache.k].pc == q { CachedJumpIs(M, B, s, b, tl, q, k); }
  }

  lemma HasFirst(js: seq<Jump>, b: Instr, q: nat, k: nat)
    requires b.Blk? && b.kind != KLoop && HasSlots(js, Slots(b, q), k)
    ensures k < |js| && js[k] == Jump(q, EndPos(b, q))
    ensures b.kind == KIf ==> k + 1 < |js| && js[k + 1] == Jump(q + 1, if b.hasElse then ElsePos(b, q) else 0)
  {
    hide EncInstr, Enc, Header;
    var sl := Slots(b, q);
    assert js[k] == js[k..k + |sl|][0];
    if b.kind == KIf { assert js[k + 1] == js[k..k + |sl|][1]; }
  }

  /** block_exit says what the structure says, with a jump table or with a scan. */
  lemma BlockExitIs(M: Machine, B: Bodies, s: State, b: Instr, tl: Code, q: nat, ge: bool)
    requires ProgramOk(M, B) && Running(M, B, s, b, tl, q) && (ge ==> b.kind == KIf)
    ensures var r := BlockExit(M, s, q, ge);
            && r.ExitTo? && r.e == ExitOf(ModOf(M, s.inst).types, b, q, ge)
            && r.s == s.(p := r.e.target, jcache := r.s.jcache)
            && (r.s.jcache.JumpRef? ==> RefValid(M, r.s))
  {
    hide Enc, EncInstr, Header, Sub, Skip, JumpLookup, Lookup, ReadS33, HeaderWf, InstrWf, BodyOk, Arity, Declared, CellsOf;
    OpenerBytes(M, B, s, b, tl, q);
    var m, f := ModOf(M, s.inst), Top(s.frames).fidx;
    ArityIs(m.types, S33(b.bt));
    if b.kind != KLoop {
      if FuncAt(M, s.inst, f).jumps != [] {
        JumpLookupIs(M, B, s, b, tl, q);
        HasFirst(FuncAt(M, s.inst, f).jumps, b, q, JumpLookup(M, s, q).k);
      } else {
        SkipBlock(m.bytes, q, b, ge);
      }
    }
  }

  /** cached_block_exit says what block_exit would, and keeps the caches sound. */
  lemma CachedExitIs(M: Machine, B: Bodies, s: State, b: Instr, tl: Code, q: nat, ge: bool)
    requires ProgramOk(M, B) && Running(M, B, s, b, tl, q) && (ge ==> b.kind == KIf)
    ensures var r := CachedBlockExit(M, s, q, ge);
            && r.ExitTo? && r.e == ExitOf(ModOf(M, s.inst).types, b, q, ge)
            && r.s == s.(p := r.e.target, jcache := r.s.jcache, cache := r.s.cache)
            && StateOk(M, r.s) && CachesOk(M, B, r.s)
  {
    hide Enc, EncInstr, Header, Sub, BlockExit, Wf, ExitOf, Table, BodyOk, Apart, RefTable;
    var m, cs, f := ModOf(M, s.inst), B[M.insts[s.inst].mod], Top(s.frames).fidx;
    Bytes(M, B, s.inst, f);
    BlockExitIs(M, B, s, b, tl, q, ge);
    OpensIn(cs[f], m.funcs[f].start, b, tl, q);
    assert m.funcs[f].start > 0 by { StartPositive(m, cs, f); }
    var key := Key(q, ge);
    var e := s.cache[key % CACHE_SIZE];
    if e.key == key {
      assert EntryOk(m, cs, e);
      var g, b2, tl2, q2, ge2 :| EntryFor(m, cs, e, g, b2, tl2, q2, ge2);
      KeyInjective(m, cs, f, b, tl, q, ge, g, b2, tl2, q2, ge2);
    } else {
      var x := BlockExit(M, s, q, ge).e;
      var e2 := CacheEntry(key, x.params, x.arity, x.stay, x.target);
      assert EntryFor(m, cs, e2, f, b, tl, q, ge);
      assert EntryOk(m, cs, e2);
    }
  }

  lemma StartPositive(m: Module, cs: seq<Code>, f: nat)
    requires ModuleOk(m, cs) && f < |cs|
    ensures m.funcs[f].start > 0
  {
    assert BodyOk(m, m.funcs[f], cs[f]);
  }
}
