/** How a module runs before the pass: every function reads and writes the shared register globals. */
module GlobalRun {
  import opened Registers
  import opened Ir

  datatype Outcome<S> = OutOfFuel | Stuck | Done(result: S)

  datatype Finish = Finish(regs: RegFile, mem: map<int, int>)

  /** Run function f from instruction i of block b until it returns. Every step costs one unit of fuel. */
  ghost function Run(m: Module, f: FuncId, b: BlockId, i: nat, regs: RegFile, frame: Frame, fuel: nat): Outcome<Finish>
    decreases fuel
  {
    if fuel == 0 then OutOfFuel
    else if f >= |m| || b >= |m[f].blocks| then Stuck
    else
      var block := m[f].blocks[b];
      if i < |block.instrs| then
        match block.instrs[i]
        case Load(dst, r) => Run(m, f, b, i + 1, regs, frame.(ssa := frame.ssa[dst := regs(r)]), fuel - 1)
        case Store(r, value) => Run(m, f, b, i + 1, Set(regs, r, value(frame)), frame, fuel - 1)
        case Other(step) => Run(m, f, b, i + 1, regs, step(frame), fuel - 1)
        case Call(g) =>
          (match Run(m, g, 0, 0, regs, Frame(map[], frame.mem), fuel - 1)
           case Done(Finish(regs', mem')) => Run(m, f, b, i + 1, regs', frame.(mem := mem'), fuel - 1)
           case other => other)
      else
        match block.term
        case Return => Done(Finish(regs, frame.mem))
        case Unreachable => Stuck
        case Jump(succs, choose) =>
          if choose(frame) < |succs| then Run(m, f, succs[choose(frame)], 0, regs, frame, fuel - 1) else Stuck
  }

  /** A run of f from its entry. */
  ghost function RunFunction(m: Module, f: FuncId, regs: RegFile, mem: map<int, int>, fuel: nat): Outcome<Finish> {
    Run(m, f, 0, 0, regs, Frame(map[], mem), fuel)
  }

  /** Registers outside a set closed under stores and calls keep their values. */
  lemma {:induction false} RunKeeps(m: Module, may: seq<RegSet>, fs: set<FuncId>, f: FuncId, b: BlockId, i: nat,
                                    regs: RegFile, frame: Frame, fuel: nat, r: Reg)
    requires |may| == |m| && f in fs && f < |m| && r !in may[f]
    requires forall g :: g in fs ==> g < |m| && Stores(m[g]) <= may[g]
    requires forall g, h: FuncId :: g in fs && Calls(m[g], h) ==> h in fs && may[h] <= may[g]
    ensures Run(m, f, b, i, regs, frame, fuel).Done? ==> Run(m, f, b, i, regs, frame, fuel).result.regs(r) == regs(r)
    decreases fuel
  {
    if fuel > 0 && b < |m[f].blocks| {
      var block := m[f].blocks[b];
      if i < |block.instrs| {
        match block.instrs[i]
        case Load(dst, q) => RunKeeps(m, may, fs, f, b, i + 1, regs, frame.(ssa := frame.ssa[dst := regs(q)]),
          fuel - 1, r);
        case Store(q, value) =>
          assert q in StoredBy(block);
          assert q in Stores(m[f]);
          RunKeeps(m, may, fs, f, b, i + 1, Set(regs, q, value(frame)), frame, fuel - 1, r);
        case Other(step) => RunKeeps(m, may, fs, f, b, i + 1, regs, step(frame), fuel - 1, r);
        case Call(g) =>
          var o := Run(m, g, 0, 0, regs, Frame(map[], frame.mem), fuel - 1);
          if o.Done? {
            assert CallsIn(block, g);
            RunKeeps(m, may, fs, g, 0, 0, regs, Frame(map[], frame.mem), fuel - 1, r);
            RunKeeps(m, may, fs, f, b, i + 1, o.result.regs, frame.(mem := o.result.mem), fuel - 1, r);
          }
      } else if block.term.Jump? && block.term.choose(frame) < |block.term.succs| {
        RunKeeps(m, may, fs, f, block.term.succs[block.term.choose(frame)], 0, regs, frame, fuel - 1, r);
      }
    }
  }
}
