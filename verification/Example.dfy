/**
  A program that meets the premises of the end-to-end statement: a function of
  no parameters whose body is a block that branches to its own end.
 */
module Example {
  import opened Leb
  import opened Code
  import opened Jumps
  import opened Machine
  import opened Structured
  import opened Relation
  import opened Runs
  import opened EndToEnd
  import opened Exec

  const BREAK: Code := Cons(Leaf(Br([0])), Nil)
  const BODY: Code := Cons(Blk(KBlock, [0x40], [], [], BREAK, false, Nil), Nil)

  /** An empty byte, and from 1 on the function body. */
  const BYTES: seq<byte> := [0, BLOCK, 0x40, BR, 0, END, END]

  function Program(): Machine {
    var f := Func(1, FuncType(0, 0), 0, 0, [Jump(1, 6)]);
    Machine([Module(BYTES, [], [f])], [Instance(0, [0], [])], [WasmFunc(FuncType(0, 0), 0, 0)], map[], 1, 0,
            _ => 0, (_, _, locals, _, w) => POk(locals, [], w), (_, _, _, w) => HDone([], w))
  }

  lemma Immediates()
    ensures IsU32([0]) && U32([0]) == 0 && IsS33([0x40]) && S33([0x40]) == -64
  {
  }

  lemma Encoded()
    ensures Wf(BODY) && Enc(BODY) + [END] == BYTES[1..] && Table(BODY, 1) == [Jump(1, 6)]
  {
    Immediates();
    assert Enc(BREAK) == [BR, 0];
    assert Wf(BREAK);
    assert EncInstr(BODY.hd) == [BLOCK, 0x40, BR, 0, END];
    assert EndPos(BODY.hd, 1) == 6;
    assert Table(BREAK, 3) == [];
  }

  lemma Good()
    ensures CallOk(Program(), [[BODY]], 0, 0, [])
  {
    Encoded();
    var m := Program().modules[0];
    assert BodyOk(m, m.funcs[0], BODY);
    assert ModuleOk(m, [BODY]);
  }

  // ---- its run ----

  function Body0(code: Code, ctxs: Ctxs): Conf { Conf(Wasm(0, 0, [], ctxs, [], code, Empty), Run, []) }

  /** The configurations that the run goes through. */
  function Trace(): seq<Conf> {
    [ Call0(0, [], []),
      Body0(BODY, Base),
      Body0(BREAK, In([], BODY.hd, false, Nil, Base)),
      Body0(Nil, Base),
      Conf(Empty, Returned([]), []) ]
  }

  lemma Enters(stale: Stale)
    ensures StepOnce(Program(), [[BODY]], stale, Call0(0, [], [])) == On(Body0(BODY, Base))
  {
    Good();
    hide ProgramOk;
    assert [] + Zeros(0) == [];
  }

  lemma Opens(stale: Stale)
    ensures StepOnce(Program(), [[BODY]], stale, Body0(BODY, Base)) == On(Body0(BREAK, In([], BODY.hd, false, Nil, Base)))
  {
    hide IsU32, IsS33, S33, ProgramOk;
    Good();
    Immediates();
  }

  lemma Breaks(stale: Stale)
    ensures StepOnce(Program(), [[BODY]], stale, Body0(BREAK, In([], BODY.hd, false, Nil, Base))) == On(Body0(Nil, Base))
  {
    hide IsU32, U32, IsS33, S33, ProgramOk;
    Good();
    Immediates();
  }

  lemma Ends(stale: Stale)
    ensures StepOnce(Program(), [[BODY]], stale, Body0(Nil, Base)) == On(Conf(Empty, Returned([]), []))
    ensures StepOnce(Program(), [[BODY]], stale, Conf(Empty, Returned([]), [])) == Final([], [])
  {
    hide ProgramOk;
    Good();
  }

  lemma Steps(stale: Stale, k: nat)
    requires k < 5
    ensures StepOnce(Program(), [[BODY]], stale, Trace()[k]) == if k < 4 then On(Trace()[k + 1]) else Final([], [])
  {
    hide Program, StepOnce;
    Enters(stale);
    Opens(stale);
    Breaks(stale);
    Ends(stale);
  }

  lemma {:induction false} RunFrom(stale: Stale, k: nat, n: nat)
    requires k < 5
    ensures StepRunN(Program(), [[BODY]], stale, Trace()[k], n) == if k + n < 5 then On(Trace()[k + n]) else Final([], [])
    decreases n
  {
    hide Program, Trace, StepOnce;
    if n > 0 {
      Steps(stale, k);
      if k < 4 { RunFrom(stale, k + 1, n - 1); }
    }
  }

  /**
    The premises of Execute hold of this call, and so the interpreter, under any
    schedule that lets it end, ends it without results.
   */
  method RunExample(stale: Stale, ticks: seq<Tick>) returns (ctx: ExecContext, done: bool, r: Status)
    ensures done ==> r == Success && ctx.stack == [] && ctx.world == []
  {
    ghost var n;
    Good();
    forall n: nat ensures !StepRunN(Program(), [[BODY]], stale, Call0(0, [], []), n).Wrong? {
      RunFrom(stale, 0, n);
    }
    hide CallOk, StepRunN;
    ctx, done, r, n := Execute(Program(), [[BODY]], stale, 0, 0, [], [], ticks);
    RunFrom(stale, 0, n);
  }
}
