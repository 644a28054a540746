/** Two kinds of call after which the rewritten module no longer does what the old one did. */
module CallLimits {
  import opened Registers
  import opened Ir
  import opened Convention
  import opened GlobalRun
  import opened Rewrite
  import opened Simulation

  // ----- a call with nothing in its place -----

  /** A function outside the lifted code calls a recovered one, which writes to memory. */
  function OutsideCaller(): Module {
    [Func(Plain, [Block([Call(1)], Return)], [0]),
     Func(Recovered, [Block([Other((frame: Frame) => frame.(mem := frame.mem[0 := 1]))], Return)], [0])]
  }

  /** The call is erased, and the write with it. */
  lemma ErasedCall(io: InOut, regs: RegFile, path: seq<nat>, junk: Junk)
    requires |io.ins| == |io.outs| == 2
    ensures !CallOk(OutsideCaller(), io, OutsideCaller()[0], 1)
    ensures RunFunction(OutsideCaller(), 0, regs, map[], 4) == Done(Finish(regs, map[0 := 1]))
    ensures var e := EnterNew(Rewritten(OutsideCaller(), io), 0, [], regs, map[], 4, path, junk);
      e.Done? && e.result.mem == map[]
  {
    var m, frame := OutsideCaller(), Frame(map[], map[]);
    var n := Rewritten(m, io);
    assert Run(m, 1, 0, 1, regs, Frame(map[], map[0 := 1]), 2) == Done(Finish(regs, map[0 := 1]));
    assert Run(m, 1, 0, 0, regs, frame, 3) == Done(Finish(regs, map[0 := 1]));
    assert Run(m, 0, 0, 1, regs, Frame(map[], map[0 := 1]), 3) == Done(Finish(regs, map[0 := 1]));
    assert n[0].blocks[0].instrs == [NewGone];
    var locals := InitialLocals(n[0], [], regs, junk(path));
    assert RunNew(n, 0, 0, 1, regs, locals, frame, 3, path, junk).Done?;
  }

  // ----- a call from locals to globals -----

  /** A recovered function stores EAX and calls one outside the lifted code, which copies EAX to memory. */
  function OutsideCallee(): Module {
    [Func(Recovered, [Block([Store(EAX, (frame: Frame) => 1), Call(1)], Return)], [0]),
     Func(Plain, [Block([Load(0, EAX), Other((frame: Frame) => frame.(mem := frame.mem[0 := Got(frame)]))], Return)],
       [0])]
  }

  function Got(frame: Frame): int {
    if 0 in frame.ssa then frame.ssa[0] else 0
  }

  /** The callee sees the global's value from before the store. */
  lemma StaleGlobal(io: InOut, regs: RegFile, path: seq<nat>, junk: Junk)
    requires |io.ins| == |io.outs| == 2 && EAX in io.ins[1]
    ensures !CallOk(OutsideCallee(), io, OutsideCallee()[0], 1)
    ensures RunFunction(OutsideCallee(), 0, regs, map[], 6) == Done(Finish(Set(regs, EAX, 1), map[0 := 1]))
    ensures var n := Rewritten(OutsideCallee(), io);
      var e := EnterNew(n, 0, ValuesOf(regs, Sorted(io.ins[0])), regs, map[], 6, path, junk);
      e.Done? && e.result.mem == map[0 := regs(EAX)]
  {
    OldRun(regs);
    var n := Rewritten(OutsideCallee(), io);
    var start := InitialLocals(n[0], ValuesOf(regs, Sorted(io.ins[0])), regs, junk(path));
    NewRun(io, regs, Set(start, EAX, 1), path, junk);
    assert n[0].blocks[0].instrs[0].NewStore? && n[0].blocks[0].instrs[0].local;
    assert n[0].blocks[0].instrs[0].value(Frame(map[], map[])) == 1;
  }

  lemma OldRun(regs: RegFile)
    ensures RunFunction(OutsideCallee(), 0, regs, map[], 6) == Done(Finish(Set(regs, EAX, 1), map[0 := 1]))
  {
    var m, s, mem := OutsideCallee(), Set(regs, EAX, 1), map[0 := 1];
    assert Run(m, 1, 0, 2, s, Frame(map[0 := 1], mem), 2) == Done(Finish(s, mem));
    assert Run(m, 1, 0, 1, s, Frame(map[0 := 1], map[]), 3) == Done(Finish(s, mem));
    assert Run(m, 1, 0, 0, s, Frame(map[], map[]), 4) == Done(Finish(s, mem));
    assert Run(m, 0, 0, 2, s, Frame(map[], mem), 4) == Done(Finish(s, mem));
    assert Run(m, 0, 0, 1, s, Frame(map[], map[]), 5) == Done(Finish(s, mem));
  }

  lemma NewRun(io: InOut, globals: RegFile, locals: RegFile, path: seq<nat>, junk: Junk)
    requires |io.ins| == |io.outs| == 2
    ensures var e := RunNew(Rewritten(OutsideCallee(), io), 0, 0, 1, globals, locals, Frame(map[], map[]), 5, path,
      junk);
      e.Done? && e.result.mem == map[0 := globals(EAX)]
  {
    var n, v := Rewritten(OutsideCallee(), io), globals(EAX);
    var inner := InitialLocals(n[1], [], globals, junk(path + [5]));
    var mem := map[0 := v];
    var at := path + [5];
    assert n[1].blocks[0].instrs[0] == NewLoad(0, EAX, false) && n[1].blocks[0].instrs[1].NewOther?;
    assert n[1].blocks[0].instrs[1].step(Frame(map[0 := v], map[])) == Frame(map[0 := v], mem);
    var e2 := RunNew(n, 1, 0, 2, globals, inner, Frame(map[0 := v], mem), 2, at, junk);
    assert e2.Done? && e2.result.mem == mem;
    assert RunNew(n, 1, 0, 1, globals, inner, Frame(map[0 := v], map[]), 3, at, junk) == e2;
    assert RunNew(n, 1, 0, 0, globals, inner, Frame(map[], map[]), 4, at, junk) == e2;
    assert n[0].blocks[0].instrs[1] == NewCall(1, [], []);
    assert ValuesOf(locals, []) == [];
    assert EnterNew(n, 1, [], globals, map[], 4, at, junk) == e2;
    assert RunNew(n, 0, 0, 2, e2.result.globals, Assign(locals, [], e2.result.rets), Frame(map[], mem), 4, path,
      junk).Done?;
  }
}
