/**
 What the pass makes of a module: recovered functions work on their own locals, take their
 inputs as arguments and return their outputs; the wrapper copies all registers into its
 locals and back; other functions keep the globals.
 */
module Rewrite {
  import opened Registers
  import opened Ir
  import opened GlobalRun
  import opened Convention

  // Loads and stores name the global, or the activation's local, of a register.
  datatype NewInstr =
    | NewLoad(dst: nat, reg: Reg, local: bool)
    | NewStore(reg: Reg, value: Frame -> int, local: bool)
    // load args from locals, call, store the results to locals; an untouched call has neither
    | NewCall(callee: FuncId, args: seq<Reg>, rets: seq<Reg>)
    | NewOther(step: Frame -> Frame)
    | NewGone                      // a call that was erased

  datatype NewBlock = NewBlock(instrs: seq<NewInstr>, term: Terminator)

  // On entry arguments are stored to the locals of params; copyIn and copyOut are the
  // registers moved from and to the globals on entry and at the end of the entry block.
  datatype NewFunc = NewFunc(
    kind: Kind, params: seq<Reg>, results: seq<Reg>, copied: seq<Reg>, blocks: seq<NewBlock>)

  type NewModule = seq<NewFunc>

  // ----- the rewriting -----

  // What the analysis found: each function's inputs and outputs.
  datatype InOut = InOut(ins: seq<RegSet>, outs: seq<RegSet>)

  /** A call of a recovered function is rewritten where the caller has locals, and erased where it has none. */
  function NewInstruction(m: Module, kind: Kind, instr: Instr, l: InOut): NewInstr {
    match instr
    case Load(dst, r) => NewLoad(dst, r, kind.Recovered?)
    case Store(r, value) => NewStore(r, value, kind.Recovered?)
    case Other(step) => NewOther(step)
    case Call(g) =>
      if !(g < |m| && g < |l.ins| && g < |l.outs| && m[g].kind.Recovered?) then NewCall(g, [], [])
      else if kind.Plain? then NewGone
      else NewCall(g, Sorted(l.ins[g]), Sorted(l.outs[g]))
  }

  function NewBlockOf(m: Module, kind: Kind, block: Block, l: InOut): NewBlock {
    NewBlock(seq(|block.instrs|, i requires 0 <= i < |block.instrs| => NewInstruction(m, kind, block.instrs[i], l)),
             block.term)
  }

  function NewFunction(m: Module, f: FuncId, l: InOut): NewFunc
    requires f < |m| && f < |l.ins| && f < |l.outs|
  {
    var blocks := seq(|m[f].blocks|, b requires 0 <= b < |m[f].blocks| => NewBlockOf(m, m[f].kind, m[f].blocks[b], l));
    match m[f].kind
    case Recovered => NewFunc(Recovered, Sorted(l.ins[f]), Sorted(l.outs[f]), [], blocks)
    case Wrapper => NewFunc(Wrapper, [], [], NAMED, blocks)
    case Plain => NewFunc(Plain, [], [], [], blocks)
  }

  function Rewritten(m: Module, l: InOut): NewModule
    requires |l.ins| == |l.outs| == |m|
  {
    seq(|m|, f requires 0 <= f < |m| => NewFunction(m, f, l))
  }

  // ----- how a rewritten module runs -----

  datatype NewFinish = NewFinish(globals: RegFile, rets: seq<int>, mem: map<int, int>)

  /** The value each local starts with, for every activation: locals are not initialised. */
  type Junk = seq<nat> -> RegFile

  function Assign(locals: RegFile, regs: seq<Reg>, values: seq<int>): RegFile
    decreases |regs|
  {
    if regs == [] || values == [] then locals
    else Assign(Set(locals, regs[0], values[0]), regs[1..], values[1..])
  }

  function ValuesOf(locals: RegFile, regs: seq<Reg>): seq<int> {
    seq(|regs|, k requires 0 <= k < |regs| => locals(regs[k]))
  }

  function InitialLocals(f: NewFunc, args: seq<int>, globals: RegFile, junk: RegFile): RegFile {
    Assign(Assign(junk, f.copied, ValuesOf(globals, f.copied)), f.params, args)
  }

  /** path names the activation: the fuel left at each call on the way to it. */
  ghost function RunNew(n: NewModule, f: FuncId, b: BlockId, i: nat, globals: RegFile, locals: RegFile, frame: Frame,
                        fuel: nat, path: seq<nat>, junk: Junk): Outcome<NewFinish>
    decreases fuel, 0
  {
    if fuel == 0 then OutOfFuel
    else if f >= |n| || b >= |n[f].blocks| then Stuck
    else
      var block := n[f].blocks[b];
      if i < |block.instrs| then
        match block.instrs[i]
        case NewLoad(dst, r, local) =>
          var v := if local then locals(r) else globals(r);
          RunNew(n, f, b, i + 1, globals, locals, frame.(ssa := frame.ssa[dst := v]), fuel - 1, path, junk)
        case NewStore(r, value, local) =>
          RunNew(n, f, b, i + 1, if local then globals else Set(globals, r, value(frame)),
                 if local then Set(locals, r, value(frame)) else locals, frame, fuel - 1, path, junk)
        case NewOther(step) => RunNew(n, f, b, i + 1, globals, locals, step(frame), fuel - 1, path, junk)
        case NewGone => RunNew(n, f, b, i + 1, globals, locals, frame, fuel - 1, path, junk)
        case NewCall(g, args, rets) =>
          (match EnterNew(n, g, ValuesOf(locals, args), globals, frame.mem, fuel - 1, path + [fuel], junk)
           case Done(NewFinish(globals', values, mem')) =>
             RunNew(n, f, b, i + 1, globals', Assign(locals, rets, values), frame.(mem := mem'), fuel - 1, path, junk)
           case other => other)
      else
        match block.term
        case Return =>
          Done(NewFinish(Assign(globals, n[f].copied, ValuesOf(locals, n[f].copied)),
                         ValuesOf(locals, n[f].results), frame.mem))
        case Unreachable => Stuck
        case Jump(succs, choose) =>
          if choose(frame) < |succs|
          then RunNew(n, f, succs[choose(frame)], 0, globals, locals, frame, fuel - 1, path, junk)
          else Stuck
  }

  /** A call of f with the given arguments. */
  ghost function EnterNew(n: NewModule, f: FuncId, args: seq<int>, globals: RegFile, mem: map<int, int>,
                          fuel: nat, path: seq<nat>, junk: Junk): Outcome<NewFinish>
    decreases fuel, 1
  {
    var locals := if f < |n| then InitialLocals(n[f], args, globals, junk(path)) else junk(path);
    RunNew(n, f, 0, 0, globals, locals, Frame(map[], mem), fuel, path, junk)
  }
}
