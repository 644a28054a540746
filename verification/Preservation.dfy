/**
 The whole pass: the analysis decides each function's inputs and outputs, every function and
 call is rewritten accordingly, and the result of every run is preserved.
 */
module Preservation {
  import opened Registers
  import opened Ir
  import opened DefSweep
  import opened Liveness
  import opened Convention
  import opened GlobalRun
  import opened Rewrite
  import opened Simulation

  /** The functions below the root of the call graph, and what the analysis found for them. */
  ghost predicate Analysed(m: Module, d: Defs, l: Live, fs: set<FuncId>) {
    && ModuleOk(m) && Shape(m, d) && LiveShape(m, l) && InRange(m, fs) && CallsWithin(m, fs, fs)
    && (forall f :: f in fs ==> FuncSolved(m, d, f, l) && Settled(m, d, f))
  }

  ghost predicate AllCallsOk(m: Module, io: InOut, fs: set<FuncId>) {
    && |io.ins| == |io.outs| == |m|
    && forall f :: f in fs ==> f < |m| && CallsOk(m, io, m[f])
  }

  ghost function ReachedFrom(m: Module, f: FuncId): set<FuncId> {
    set g | 0 <= g < |m| && Reaches(m, f, g)
  }

  ghost function LiveHere(m: Module, d: Defs, l: Live, f: FuncId, b: BlockId, i: nat): RegSet
    requires LiveShape(m, l)
  {
    if f < |m| && b < |m[f].blocks| && i <= |m[f].blocks[b].instrs|
    then LiveAt(m[f].blocks[b], i, LiveEnd(m[f].blocks[b], l.blocks[f], l.outs[f]), d.must, l.ins)
    else {}
  }

  ghost function PlanOf(m: Module, d: Defs, l: Live): Plan
    requires LiveShape(m, l)
  {
    Plan((f: FuncId, b: BlockId, i: nat) => LiveHere(m, d, l, f, b, i), InOut(l.ins, l.outs), d.may)
  }

  lemma BlockPlanned(m: Module, d: Defs, l: Live, fs: set<FuncId>, f: FuncId, b: BlockId)
    requires Analysed(m, d, l, fs) && f in fs && b < |m[f].blocks|
    ensures BlockFits(m, PlanOf(m, d, l), f, b)
  {
    AllIsAll();
    var block, p := m[f].blocks[b], PlanOf(m, d, l);
    assert FuncOk(m, m[f]) && BlockOk(m, m[f].blocks, block);
    assert FuncSolved(m, d, f, l) && BlockSolved(m, d, f, b, l);
    forall i | 0 <= i < |block.instrs|
      ensures block.instrs[i].Call? ==> block.instrs[i].callee < |m|
      ensures InstrFits(p, block.instrs[i], p.live(f, b, i), p.live(f, b, i + 1))
    {
      if block.instrs[i].Call? {
        var g := block.instrs[i].callee;
        assert CallOut(g, LiveHere(m, d, l, f, b, i + 1), d) <= l.outs[g];
      }
    }
    forall k | 0 <= k < |Succs(block)|
      ensures Succs(block)[k] < |m[f].blocks| && p.live(f, Succs(block)[k], 0) <= p.live(f, b, |block.instrs|)
    {
      var s := Succs(block)[k];
      assert s in Succs(block);
      assert BlockSolved(m, d, f, s, l);
      forall r | r in l.blocks[f][s] ensures LiveInSucc(block, l.blocks[f], r) {}
    }
  }

  /** Live registers, inputs and outputs that solve the equations fit together. */
  lemma SolutionFits(m: Module, d: Defs, l: Live, fs: set<FuncId>)
    requires Analysed(m, d, l, fs) && AllCallsOk(m, InOut(l.ins, l.outs), fs)
    ensures Fits(m, PlanOf(m, d, l), fs)
  {
    var p := PlanOf(m, d, l);
    forall f, b: BlockId | f in fs && b < |m[f].blocks| ensures BlockFits(m, p, f, b) {
      BlockPlanned(m, d, l, fs, f, b);
    }
    forall f | f in fs
      ensures |m[f].blocks| > 0 && Stores(m[f]) <= d.may[f] && p.live(f, 0, 0) <= l.ins[f]
    {
      assert FuncOk(m, m[f]) && FuncSolved(m, d, f, l) && BlockSolved(m, d, f, 0, l) && Settled(m, d, f);
      ReachesSelf(m, f);
      AllIsAll();
      forall r | r in Stores(m[f]) ensures StoredBelow(m, f, r) {}
    }
    forall f, g: FuncId | f in fs && Calls(m[f], g) ensures g in fs && d.may[g] <= d.may[f] {
      assert Settled(m, d, f) && Settled(m, d, g);
      MayStoreOfCallee(m, f, g);
    }
  }

  // ----- what is preserved -----

  /** A run that ends leaves the globals as they were. */
  ghost predicate KeepsGlobals(globals: RegFile, o: Outcome<NewFinish>) {
    o.Done? ==> forall r :: o.result.globals(r) == globals(r)
  }

  ghost predicate OnlyRecovered(m: Module, fs: set<FuncId>) {
    forall f :: f in fs ==> f < |m| && m[f].kind.Recovered?
  }

  /**
   Every call of f, with its inputs passed as arguments, ends like the old run of f: runs out of
   fuel or gets stuck exactly when it does, leaves the same memory, and hands back its outputs.
   Locals start with arbitrary values in every activation. The globals stay as they are when only
   recovered functions are below f.
   */
  ghost predicate PreservesCalls(m: Module, n: NewModule, io: InOut, f: FuncId)
    requires f < |m| && f < |io.ins| && f < |io.outs|
  {
    forall regs: RegFile, globals: RegFile, mem, fuel: nat, path, junk: Junk ::
      CallPreserved(m, io, f, regs, globals, mem, fuel,
        EnterNew(n, f, ValuesOf(regs, Sorted(io.ins[f])), globals, mem, fuel, path, junk))
  }

  ghost predicate CallPreserved(m: Module, io: InOut, f: FuncId, regs: RegFile, globals: RegFile, mem: map<int, int>,
                                fuel: nat, e: Outcome<NewFinish>)
    requires f < |m| && f < |io.outs|
  {
    && Matches(m[f], io.outs[f], {}, RunFunction(m, f, regs, mem, fuel), e)
    && (OnlyRecovered(m, ReachedFrom(m, f)) ==> KeepsGlobals(globals, e))
  }

  /**
   A run of f on the globals ends like the old one: besides outputs, registers that no function
   below f stores are as before.
   */
  ghost predicate PreservesRuns(m: Module, n: NewModule, io: InOut, may: RegSet, f: FuncId)
    requires f < |m| && f < |io.outs|
  {
    forall regs: RegFile, mem, fuel: nat, path, junk: Junk ::
      Matches(m[f], io.outs[f], ALL - may, RunFunction(m, f, regs, mem, fuel),
              EnterNew(n, f, [], regs, mem, fuel, path, junk))
  }

  ghost predicate Preserves(m: Module, n: NewModule, io: InOut, may: RegSet, f: FuncId)
    requires f < |m| && f < |io.ins| && f < |io.outs|
  {
    if m[f].kind.Recovered? then PreservesCalls(m, n, io, f) else PreservesRuns(m, n, io, may, f)
  }

  /** Recovered functions that call only each other work on their locals alone. */
  lemma {:induction false} GlobalsKept(m: Module, io: InOut, fs: set<FuncId>, f: FuncId, b: BlockId, i: nat,
                                       globals: RegFile, locals: RegFile, frame: Frame, fuel: nat, path: seq<nat>,
                                       junk: Junk)
    requires |io.ins| == |io.outs| == |m| && f in fs && OnlyRecovered(m, fs)
    requires forall g, h: FuncId :: g in fs && Calls(m[g], h) && h < |m| ==> h in fs
    ensures KeepsGlobals(globals, RunNew(Rewritten(m, io), f, b, i, globals, locals, frame, fuel, path, junk))
    decreases fuel, 0
  {
    var n := Rewritten(m, io);
    if fuel > 0 && b < |m[f].blocks| {
      var block := m[f].blocks[b];
      if i < |block.instrs| {
        assert n[f].blocks[b].instrs[i] == NewInstruction(m, m[f].kind, block.instrs[i], io);
        match n[f].blocks[b].instrs[i]
        case NewLoad(dst, r, local) =>
          var v := if local then locals(r) else globals(r);
          GlobalsKept(m, io, fs, f, b, i + 1, globals, locals, frame.(ssa := frame.ssa[dst := v]), fuel - 1, path,
            junk);
        case NewStore(r, value, local) =>
          GlobalsKept(m, io, fs, f, b, i + 1, globals, Set(locals, r, value(frame)), frame, fuel - 1, path, junk);
        case NewOther(step) => GlobalsKept(m, io, fs, f, b, i + 1, globals, locals, step(frame), fuel - 1, path, junk);
        case NewGone =>
        case NewCall(g, args, rets) =>
          assert CallsIn(block, g) && Calls(m[f], g);
          GlobalsKeptCall(m, io, fs, f, b, i, g, args, rets, globals, locals, frame, fuel, path, junk);
      } else if block.term.Jump? && block.term.choose(frame) < |block.term.succs| {
        GlobalsKept(m, io, fs, f, block.term.succs[block.term.choose(frame)], 0, globals, locals, frame, fuel - 1,
          path, junk);
      }
    }
  }

  lemma {:induction false} GlobalsKeptCall(m: Module, io: InOut, fs: set<FuncId>, f: FuncId, b: BlockId, i: nat,
                                           g: FuncId, args: seq<Reg>, rets: seq<Reg>, globals: RegFile,
                                           locals: RegFile, frame: Frame, fuel: nat, path: seq<nat>, junk: Junk)
    requires |io.ins| == |io.outs| == |m| && f in fs && OnlyRecovered(m, fs) && (g < |m| ==> g in fs)
    requires forall g, h: FuncId :: g in fs && Calls(m[g], h) && h < |m| ==> h in fs
    requires fuel > 0 && b < |m[f].blocks| && i < |m[f].blocks[b].instrs|
    requires Rewritten(m, io)[f].blocks[b].instrs[i] == NewCall(g, args, rets)
    ensures KeepsGlobals(globals, RunNew(Rewritten(m, io), f, b, i, globals, locals, frame, fuel, path, junk))
    decreases fuel - 1, 1
  {
    var n := Rewritten(m, io);
    var e := EnterNew(n, g, ValuesOf(locals, args), globals, frame.mem, fuel - 1, path + [fuel], junk);
    var at := path + [fuel];
    if g < |m| {
      var inner := InitialLocals(n[g], ValuesOf(locals, args), globals, junk(at));
      GlobalsKept(m, io, fs, g, 0, 0, globals, inner, Frame(map[], frame.mem), fuel - 1, at, junk);
      assert e == RunNew(n, g, 0, 0, globals, inner, Frame(map[], frame.mem), fuel - 1, at, junk);
    } else {
      assert e == RunNew(n, g, 0, 0, globals, junk(at), Frame(map[], frame.mem), fuel - 1, at, junk);
    }
    assert KeepsGlobals(globals, e);
    if e.Done? {
      var locals', frame' := Assign(locals, rets, e.result.rets), frame.(mem := e.result.mem);
      GlobalsKept(m, io, fs, f, b, i + 1, e.result.globals, locals', frame', fuel - 1, path, junk);
      assert RunNew(n, f, b, i, globals, locals, frame, fuel, path, junk) ==
        RunNew(n, f, b, i + 1, e.result.globals, locals', frame', fuel - 1, path, junk);
    }
  }

  lemma ReachedClosed(m: Module, f: FuncId)
    requires f < |m|
    ensures f in ReachedFrom(m, f)
    ensures forall g, h: FuncId :: g in ReachedFrom(m, f) && Calls(m[g], h) && h < |m| ==> h in ReachedFrom(m, f)
  {
    ReachesSelf(m, f);
    forall g, h: FuncId | g in ReachedFrom(m, f) && Calls(m[g], h) && h < |m| ensures h in ReachedFrom(m, f) {
      ReachesSelf(m, h);
      ReachesStep(m, g, h, h);
      ReachesTransitive(m, f, g, h);
    }
  }

  lemma CallIsPreserved(c: Fitted, f: FuncId, regs: RegFile, globals: RegFile, mem: map<int, int>,
                        fuel: nat, path: seq<nat>, junk: Junk)
    requires f in c.fs && c.m[f].kind.Recovered?
    ensures CallPreserved(c.m, c.p.io, f, regs, globals, mem, fuel,
      EnterNew(Rewritten(c.m, c.p.io), f, ValuesOf(regs, Sorted(c.p.io.ins[f])), globals, mem, fuel, path, junk))
  {
    var n := NewFunction(c.m, f, c.p.io);
    var args := ValuesOf(regs, Sorted(c.p.io.ins[f]));
    var start := InitialLocals(n, args, globals, junk(path));
    EntryAgrees(c.m[f], n, c.p.io, f, regs, regs, globals, junk(path), {});
    Simulate(c, f, 0, 0, regs, globals, start, Frame(map[], mem), fuel, path, junk, {},
      RunFunction(c.m, f, regs, mem, fuel), EnterNew(Rewritten(c.m, c.p.io), f, args, globals, mem, fuel, path, junk));
    if OnlyRecovered(c.m, ReachedFrom(c.m, f)) {
      ReachedClosed(c.m, f);
      GlobalsKept(c.m, c.p.io, ReachedFrom(c.m, f), f, 0, 0, globals, start, Frame(map[], mem), fuel, path, junk);
    }
  }

  lemma RunIsPreserved(c: Fitted, f: FuncId, regs: RegFile, mem: map<int, int>, fuel: nat, path: seq<nat>, junk: Junk)
    requires f in c.fs && !c.m[f].kind.Recovered?
    ensures Matches(c.m[f], c.p.io.outs[f], ALL - c.p.may[f], RunFunction(c.m, f, regs, mem, fuel),
      EnterNew(Rewritten(c.m, c.p.io), f, [], regs, mem, fuel, path, junk))
  {
    var n := NewFunction(c.m, f, c.p.io);
    assert ValuesOf(regs, n.params) == [];
    EntryAgrees(c.m[f], n, c.p.io, f, regs, regs, regs, junk(path), ALL - c.p.may[f]);
    Simulate(c, f, 0, 0, regs, regs, InitialLocals(n, [], regs, junk(path)), Frame(map[], mem), fuel, path, junk,
             ALL - c.p.may[f], RunFunction(c.m, f, regs, mem, fuel),
             EnterNew(Rewritten(c.m, c.p.io), f, [], regs, mem, fuel, path, junk));
  }

  lemma FittedPreserves(c: Fitted, f: FuncId)
    requires f in c.fs
    ensures Preserves(c.m, Rewritten(c.m, c.p.io), c.p.io, c.p.may[f], f)
  {
    var n := Rewritten(c.m, c.p.io);
    if c.m[f].kind.Recovered? {
      forall regs: RegFile, globals: RegFile, mem, fuel: nat, path, junk: Junk
        ensures CallPreserved(c.m, c.p.io, f, regs, globals, mem, fuel,
          EnterNew(n, f, ValuesOf(regs, Sorted(c.p.io.ins[f])), globals, mem, fuel, path, junk))
      {
        CallIsPreserved(c, f, regs, globals, mem, fuel, path, junk);
      }
    } else {
      forall regs: RegFile, mem, fuel: nat, path, junk: Junk
        ensures Matches(c.m[f], c.p.io.outs[f], ALL - c.p.may[f], RunFunction(c.m, f, regs, mem, fuel),
          EnterNew(n, f, [], regs, mem, fuel, path, junk))
      {
        RunIsPreserved(c, f, regs, mem, fuel, path, junk);
      }
    }
  }

  /**
   The rewriting by any solution of the equations preserves every run of a function below the root
   unless some call below it was erased or crosses from locals to globals.
   */
  lemma Preserved(m: Module, d: Defs, l: Live, fs: set<FuncId>, f: FuncId)
    requires Analysed(m, d, l, fs) && f in fs && AllCallsOk(m, InOut(l.ins, l.outs), ReachedFrom(m, f))
    ensures Preserves(m, Rewritten(m, InOut(l.ins, l.outs)), InOut(l.ins, l.outs), d.may[f], f)
  {
    ReachedClosed(m, f);
    ReachedWithin(m, fs, f);
    assert Analysed(m, d, l, ReachedFrom(m, f));
    SolutionFits(m, d, l, ReachedFrom(m, f));
    FittedPreserves(Setup(m, PlanOf(m, d, l), ReachedFrom(m, f)), f);
  }

  lemma ReachedWithin(m: Module, fs: set<FuncId>, f: FuncId)
    requires InRange(m, fs) && CallsWithin(m, fs, fs) && f in fs
    ensures ReachedFrom(m, f) <= fs
  {
    forall g | g in ReachedFrom(m, f) ensures g in fs {
      var path :| PathBetween(m, path, f, g);
      PathWithin(m, fs, path);
    }
  }

  lemma {:induction false} PathWithin(m: Module, fs: set<FuncId>, path: seq<FuncId>)
    requires InRange(m, fs) && CallsWithin(m, fs, fs) && CallPath(m, path) && path[0] in fs
    ensures path[|path| - 1] in fs
    decreases |path|
  {
    if |path| > 1 {
      assert Calls(m[path[0]], path[1]);
      forall k | 0 <= k < |path| - 2 ensures Calls(m[path[1..][k]], path[1..][k + 1]) {
        assert Calls(m[path[k + 1]], path[k + 2]);
      }
      PathWithin(m, fs, path[1..]);
    }
  }
}
