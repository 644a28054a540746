/**
 The rewriting preserves every run, given register sets for all program points that fit together:
 at each point the locals and the old globals agree on the point's set.
 */
module Simulation {
  import opened Registers
  import opened Ir
  import opened Convention
  import opened GlobalRun
  import opened Rewrite

  // Registers that must agree at instruction i of block b of f; inputs, outputs, may-definitions.
  datatype Plan = Plan(live: (FuncId, BlockId, nat) -> RegSet, io: InOut, may: seq<RegSet>)

  /**
   No call of f is erased, and where f works on locals its callees do too, or take nothing from
   the globals and leave nothing in them. A wrapper only calls.
   */
  ghost predicate CallsOk(m: Module, io: InOut, f: Func)
    requires |io.ins| == |io.outs| == |m|
  {
    && (forall g: FuncId :: g < |m| && Calls(f, g) ==> CallOk(m, io, f, g))
    && (f.kind.Wrapper? ==> |f.blocks| == 1 && Loads(f) == {} && Stores(f) == {})
  }

  ghost predicate CallOk(m: Module, io: InOut, f: Func, g: FuncId)
    requires |io.ins| == |io.outs| == |m| && g < |m|
  {
    if f.kind.Plain? then !m[g].kind.Recovered? else m[g].kind.Recovered? || (io.ins[g] == {} && io.outs[g] == {})
  }

  /** The sets before and after one instruction fit. */
  ghost predicate InstrFits(p: Plan, instr: Instr, before: RegSet, after: RegSet)
    requires instr.Call? ==> instr.callee < |p.io.ins| && instr.callee < |p.io.outs| && instr.callee < |p.may|
  {
    match instr
    case Load(_, r) => after + {r} <= before
    case Store(r, _) => after <= before + {r}
    case Other(_) => after <= before
    case Call(g) => p.io.ins[g] <= before && after <= p.io.outs[g] + (before - p.may[g])
  }

  ghost predicate BlockFits(m: Module, p: Plan, f: FuncId, b: BlockId)
    requires f < |m| && b < |m[f].blocks| && |p.io.ins| == |p.io.outs| == |p.may| == |m|
  {
    var block := m[f].blocks[b];
    && (forall i :: 0 <= i < |block.instrs| ==>
          && (block.instrs[i].Call? ==> block.instrs[i].callee < |m|)
          && InstrFits(p, block.instrs[i], p.live(f, b, i), p.live(f, b, i + 1)))
    && (block.term.Return? ==> p.io.outs[f] <= p.live(f, b, |block.instrs|))
    && forall k :: 0 <= k < |Succs(block)| ==>
         Succs(block)[k] < |m[f].blocks| && p.live(f, Succs(block)[k], 0) <= p.live(f, b, |block.instrs|)
  }

  /** The plan fits at every function of a set closed under calls. */
  ghost predicate Fits(m: Module, p: Plan, fs: set<FuncId>) {
    && |p.io.ins| == |p.io.outs| == |p.may| == |m|
    && (forall f :: f in fs ==> f < |m| && |m[f].blocks| > 0)
    && (forall f, b: BlockId :: f in fs && b < |m[f].blocks| ==> BlockFits(m, p, f, b))
    && (forall f :: f in fs ==> CallsOk(m, p.io, m[f]) && Stores(m[f]) <= p.may[f] && p.live(f, 0, 0) <= p.io.ins[f])
    && forall f, g: FuncId :: f in fs && Calls(m[f], g) ==> g in fs && p.may[g] <= p.may[f]
  }

  // A module with a plan that fits. Functions outside fs are never run.
  datatype Setup = Setup(m: Module, p: Plan, fs: set<FuncId>)

  type Fitted = s: Setup | Fits(s.m, s.p, s.fs)
    ghost witness Setup([], Plan((f, b, i) => {}, InOut([], []), []), {})

  function View(kind: Kind, globals: RegFile, locals: RegFile): RegFile {
    if kind.Plain? then globals else locals
  }

  /** The new outcome is the old one, seen through the calling convention. */
  ghost predicate Matches(f: Func, outs: RegSet, keep: RegSet, old': Outcome<Finish>, new': Outcome<NewFinish>) {
    match old'
    case OutOfFuel => new'.OutOfFuel?
    case Stuck => new'.Stuck?
    case Done(o) =>
      && new'.Done? && new'.result.mem == o.mem
      && (f.kind.Recovered? ==> new'.result.rets == ValuesOf(o.regs, Sorted(outs)))
      && (!f.kind.Recovered? ==> AgreeOn(new'.result.globals, o.regs, outs + keep))
  }

  lemma {:induction false} AssignValues(locals: RegFile, regs: seq<Reg>, from: RegFile, r: Reg)
    ensures Assign(locals, regs, ValuesOf(from, regs))(r) == if r in regs then from(r) else locals(r)
  {
    if regs != [] {
      assert ValuesOf(from, regs)[1..] == ValuesOf(from, regs[1..]);
      AssignValues(Set(locals, regs[0], from(regs[0])), regs[1..], from, r);
      assert regs == [regs[0]] + regs[1..];
    }
  }

  lemma ValuesAgree(a: RegFile, b: RegFile, s: RegSet)
    requires AgreeOn(a, b, s)
    ensures ValuesOf(a, Sorted(s)) == ValuesOf(b, Sorted(s))
  {
    SortedLists(s);
    forall k | 0 <= k < |Sorted(s)| ensures a(Sorted(s)[k]) == b(Sorted(s)[k]) {
      assert Sorted(s)[k] in Sorted(s);
    }
  }

  lemma CopiesAll(to: RegFile, from: RegFile)
    ensures forall r :: Assign(to, NAMED, ValuesOf(from, NAMED))(r) == from(r)
  {
    NamedIsAll();
    forall r ensures Assign(to, NAMED, ValuesOf(from, NAMED))(r) == from(r) {
      AssignValues(to, NAMED, from, r);
    }
  }

  lemma CopiesSet(to: RegFile, from: RegFile, s: RegSet)
    ensures forall r :: Assign(to, Sorted(s), ValuesOf(from, Sorted(s)))(r) == if r in s then from(r) else to(r)
  {
    SortedLists(s);
    forall r ensures Assign(to, Sorted(s), ValuesOf(from, Sorted(s)))(r) == if r in s then from(r) else to(r) {
      AssignValues(to, Sorted(s), from, r);
    }
  }

  ghost function AtReturn(f: NewFunc, globals: RegFile, locals: RegFile, mem: map<int, int>): NewFinish {
    NewFinish(Assign(globals, f.copied, ValuesOf(locals, f.copied)), ValuesOf(locals, f.results), mem)
  }

  /** At a return, what is handed back is right. */
  lemma ReturnMatches(m: Module, f: FuncId, l: InOut, regs: RegFile, globals: RegFile, locals: RegFile,
                      mem: map<int, int>, keep: RegSet)
    requires f < |m| && |l.ins| == |l.outs| == |m|
    requires AgreeOn(View(m[f].kind, globals, locals), regs, l.outs[f] + keep)
    ensures Matches(m[f], l.outs[f], keep, Done(Finish(regs, mem)),
                    Done(AtReturn(NewFunction(m, f, l), globals, locals, mem)))
  {
    match m[f].kind
    case Recovered => ValuesAgree(locals, regs, l.outs[f]);
    case Plain =>
    case Wrapper => CopiesAll(globals, locals);
  }

  /** Where a call starts, the callee's own view agrees with the old globals on what it needs. */
  lemma EntryAgrees(f: Func, n: NewFunc, io: InOut, g: FuncId, from: RegFile, regs: RegFile,
                    globals: RegFile, junk: RegFile, keep: RegSet)
    requires g < |io.ins| && n.kind == f.kind
    requires n.params == (if f.kind.Recovered? then Sorted(io.ins[g]) else [])
    requires n.copied == if f.kind.Wrapper? then NAMED else []
    requires AgreeOn(from, regs, io.ins[g] + keep)
    requires if f.kind.Recovered? then keep == {} else from == globals
    ensures AgreeOn(View(f.kind, globals, InitialLocals(n, ValuesOf(from, n.params), globals, junk)),
                    regs, io.ins[g] + keep)
  {
    match f.kind
    case Recovered => CopiesSet(junk, from, io.ins[g]);
    case Plain =>
    case Wrapper => CopiesAll(junk, globals);
  }

  lemma OwnAccess(m: Module, f: FuncId, b: BlockId, i: nat)
    requires f < |m| && b < |m[f].blocks| && i < |m[f].blocks[b].instrs|
    requires m[f].kind.Wrapper? ==> Loads(m[f]) == {} && Stores(m[f]) == {}
    requires m[f].blocks[b].instrs[i].Load? || m[f].blocks[b].instrs[i].Store?
    ensures !m[f].kind.Wrapper?
    ensures m[f].blocks[b].instrs[i].Store? ==> m[f].blocks[b].instrs[i].reg in Stores(m[f])
  {
    var r := m[f].blocks[b].instrs[i].reg;
    if m[f].blocks[b].instrs[i].Load? {
      assert r in LoadedBy(m[f].blocks[b]);
      assert r in Loads(m[f]);
    } else {
      assert r in StoredBy(m[f].blocks[b]);
      assert r in Stores(m[f]);
    }
  }

  ghost predicate Agrees(c: Fitted, f: FuncId, b: BlockId, i: nat,
                         regs: RegFile, globals: RegFile, locals: RegFile, keep: RegSet)
  {
    && f in c.fs && b < |c.m[f].blocks| && i <= |c.m[f].blocks[b].instrs| && keep !! c.p.may[f]
    && AgreeOn(View(c.m[f].kind, globals, locals), regs, c.p.live(f, b, i) + keep)
  }

  /** From any program point, with locals and old globals agreeing on the point's registers. */
  lemma {:induction false} Simulate(c: Fitted, f: FuncId, b: BlockId, i: nat,
                   regs: RegFile, globals: RegFile, locals: RegFile, frame: Frame,
                   fuel: nat, path: seq<nat>, junk: Junk, keep: RegSet,
                   o: Outcome<Finish>, e: Outcome<NewFinish>)
    requires Agrees(c, f, b, i, regs, globals, locals, keep)
    requires o == Run(c.m, f, b, i, regs, frame, fuel)
    requires e == RunNew(Rewritten(c.m, c.p.io), f, b, i, globals, locals, frame, fuel, path, junk)
    ensures Matches(c.m[f], c.p.io.outs[f], keep, o, e)
    decreases fuel, 0
  {
    if fuel > 0 {
      assert BlockFits(c.m, c.p, f, b);
      if i == |c.m[f].blocks[b].instrs| {
        SimulateEnd(c, f, b, regs, globals, locals, frame, fuel, path, junk, keep, o, e);
      } else if c.m[f].blocks[b].instrs[i].Call? {
        SimulateCall(c, f, b, i, regs, globals, locals, frame, fuel, path, junk, keep, o, e);
      } else {
        SimulateStep(c, f, b, i, regs, globals, locals, frame, fuel, path, junk, keep, o, e);
      }
    }
  }

  lemma {:induction false} SimulateEnd(c: Fitted, f: FuncId, b: BlockId,
                   regs: RegFile, globals: RegFile, locals: RegFile, frame: Frame,
                   fuel: nat, path: seq<nat>, junk: Junk, keep: RegSet,
                   o: Outcome<Finish>, e: Outcome<NewFinish>)
    requires fuel > 0 && f < |c.m| && b < |c.m[f].blocks|
    requires Agrees(c, f, b, |c.m[f].blocks[b].instrs|, regs, globals, locals, keep)
    requires o == Run(c.m, f, b, |c.m[f].blocks[b].instrs|, regs, frame, fuel)
    requires e == RunNew(Rewritten(c.m, c.p.io), f, b, |c.m[f].blocks[b].instrs|, globals, locals, frame, fuel, path,
      junk)
    ensures Matches(c.m[f], c.p.io.outs[f], keep, o, e)
    decreases fuel - 1, 3
  {
    var block := c.m[f].blocks[b];
    assert BlockFits(c.m, c.p, f, b);
    match block.term
    case Return => ReturnMatches(c.m, f, c.p.io, regs, globals, locals, frame.mem, keep);
    case Unreachable =>
    case Jump(succs, choose) =>
      if choose(frame) < |succs| {
        assert Succs(block)[choose(frame)] == succs[choose(frame)];
        Simulate(c, f, succs[choose(frame)], 0, regs, globals, locals, frame, fuel - 1, path, junk, keep, o, e);
      }
  }

  lemma {:induction false} SimulateStep(c: Fitted, f: FuncId, b: BlockId, i: nat,
                   regs: RegFile, globals: RegFile, locals: RegFile, frame: Frame,
                   fuel: nat, path: seq<nat>, junk: Junk, keep: RegSet,
                   o: Outcome<Finish>, e: Outcome<NewFinish>)
    requires Agrees(c, f, b, i, regs, globals, locals, keep)
    requires fuel > 0 && i < |c.m[f].blocks[b].instrs| && !c.m[f].blocks[b].instrs[i].Call?
    requires o == Run(c.m, f, b, i, regs, frame, fuel)
    requires e == RunNew(Rewritten(c.m, c.p.io), f, b, i, globals, locals, frame, fuel, path, junk)
    ensures Matches(c.m[f], c.p.io.outs[f], keep, o, e)
    decreases fuel - 1, 3
  {
    match c.m[f].blocks[b].instrs[i]
    case Load(_, _) =>
      SimulateLoad(c, f, b, i, regs, globals, locals, frame, fuel, path, junk, keep, o, e);
    case Store(_, _) =>
      SimulateStore(c, f, b, i, regs, globals, locals, frame, fuel, path, junk, keep, o, e);
    case Other(step) =>
      assert BlockFits(c.m, c.p, f, b);
      Simulate(c, f, b, i + 1, regs, globals, locals, step(frame), fuel - 1, path, junk, keep, o, e);
  }

  lemma {:induction false} SimulateLoad(c: Fitted, f: FuncId, b: BlockId, i: nat,
                   regs: RegFile, globals: RegFile, locals: RegFile, frame: Frame,
                   fuel: nat, path: seq<nat>, junk: Junk, keep: RegSet,
                   o: Outcome<Finish>, e: Outcome<NewFinish>)
    requires Agrees(c, f, b, i, regs, globals, locals, keep)
    requires fuel > 0 && i < |c.m[f].blocks[b].instrs| && c.m[f].blocks[b].instrs[i].Load?
    requires o == Run(c.m, f, b, i, regs, frame, fuel)
    requires e == RunNew(Rewritten(c.m, c.p.io), f, b, i, globals, locals, frame, fuel, path, junk)
    ensures Matches(c.m[f], c.p.io.outs[f], keep, o, e)
    decreases fuel - 1, 2
  {
    var dst, r := c.m[f].blocks[b].instrs[i].dst, c.m[f].blocks[b].instrs[i].reg;
    OwnAccess(c.m, f, b, i);
    assert BlockFits(c.m, c.p, f, b);
    Simulate(c, f, b, i + 1, regs, globals, locals, frame.(ssa := frame.ssa[dst := regs(r)]),
             fuel - 1, path, junk, keep, o, e);
  }

  lemma {:induction false} SimulateStore(c: Fitted, f: FuncId, b: BlockId, i: nat,
                   regs: RegFile, globals: RegFile, locals: RegFile, frame: Frame,
                   fuel: nat, path: seq<nat>, junk: Junk, keep: RegSet,
                   o: Outcome<Finish>, e: Outcome<NewFinish>)
    requires Agrees(c, f, b, i, regs, globals, locals, keep)
    requires fuel > 0 && i < |c.m[f].blocks[b].instrs| && c.m[f].blocks[b].instrs[i].Store?
    requires o == Run(c.m, f, b, i, regs, frame, fuel)
    requires e == RunNew(Rewritten(c.m, c.p.io), f, b, i, globals, locals, frame, fuel, path, junk)
    ensures Matches(c.m[f], c.p.io.outs[f], keep, o, e)
    decreases fuel - 1, 2
  {
    var r, v := c.m[f].blocks[b].instrs[i].reg, c.m[f].blocks[b].instrs[i].value(frame);
    OwnAccess(c.m, f, b, i);
    assert BlockFits(c.m, c.p, f, b);
    var globals' := if c.m[f].kind.Plain? then Set(globals, r, v) else globals;
    var locals' := if c.m[f].kind.Plain? then locals else Set(locals, r, v);
    assert View(c.m[f].kind, globals', locals') == Set(View(c.m[f].kind, globals, locals), r, v);
    Simulate(c, f, b, i + 1, Set(regs, r, v), globals', locals', frame, fuel - 1, path, junk, keep, o, e);
  }

  // ----- calls -----

  lemma CalleeFits(c: Fitted, f: FuncId, b: BlockId, i: nat) returns (g: FuncId)
    requires f in c.fs && b < |c.m[f].blocks| && i < |c.m[f].blocks[b].instrs| && c.m[f].blocks[b].instrs[i].Call?
    ensures c.m[f].blocks[b].instrs[i] == Call(g) && g in c.fs && g < |c.m| && CallOk(c.m, c.p.io, c.m[f], g)
  {
    g := c.m[f].blocks[b].instrs[i].callee;
    assert BlockFits(c.m, c.p, f, b) && CallsIn(c.m[f].blocks[b], g) && Calls(c.m[f], g) &&
      CallsOk(c.m, c.p.io, c.m[f]);
  }

  /** Where a call starts, the callee agrees with the old globals on what it needs. */
  lemma CallEntry(c: Fitted, f: FuncId, b: BlockId, i: nat, g: FuncId, regs: RegFile,
                  globals: RegFile, locals: RegFile, args: seq<int>, junk: RegFile, keep: RegSet)
    requires Agrees(c, f, b, i, regs, globals, locals, keep) && i < |c.m[f].blocks[b].instrs|
    requires c.m[f].blocks[b].instrs[i] == Call(g) && g < |c.m|
    requires args == ValuesOf(locals, NewFunction(c.m, g, c.p.io).params)
    ensures Agrees(c, g, 0, 0, regs, globals, InitialLocals(NewFunction(c.m, g, c.p.io), args, globals, junk),
                   if c.m[f].kind.Plain? then c.p.live(f, b, i) + keep - c.p.may[g] else {})
  {
    var kept := if c.m[f].kind.Plain? then c.p.live(f, b, i) + keep - c.p.may[g] else {};
    assert CallsIn(c.m[f].blocks[b], g) && Calls(c.m[f], g) && CallsOk(c.m, c.p.io, c.m[f]) &&
      BlockFits(c.m, c.p, f, b);
    assert InstrFits(c.p, c.m[f].blocks[b].instrs[i], c.p.live(f, b, i), c.p.live(f, b, i + 1));
    assert CallOk(c.m, c.p.io, c.m[f], g);
    var from := if c.m[g].kind.Recovered? then View(c.m[f].kind, globals, locals) else globals;
    assert args == ValuesOf(from, NewFunction(c.m, g, c.p.io).params);
    EntryAgrees(c.m[g], NewFunction(c.m, g, c.p.io), c.p.io, g, from, regs, globals, junk, kept);
  }

  /** What an old call leaves alone. */
  lemma CallKeeps(c: Fitted, g: FuncId, regs: RegFile, frame: Frame, fuel: nat, o: Outcome<Finish>)
    requires g in c.fs && o == Run(c.m, g, 0, 0, regs, frame, fuel)
    ensures o.Done? ==> AgreeOff(o.result.regs, regs, c.p.may[g])
  {
    if o.Done? {
      forall r | r !in c.p.may[g] ensures o.result.regs(r) == regs(r) {
        RunKeeps(c.m, c.p.may, c.fs, g, 0, 0, regs, frame, fuel, r);
      }
    }
  }

  function LocalsAfter(m: Module, g: FuncId, io: InOut, locals: RegFile, rets: seq<int>): RegFile
    requires g < |m| && g < |io.outs|
  {
    Assign(locals, if m[g].kind.Recovered? then Sorted(io.outs[g]) else [], rets)
  }

  /** After a call, registers either came back from it or were not touched by it. */
  lemma AfterCall(c: Fitted, f: FuncId, b: BlockId, i: nat, g: FuncId, regs: RegFile,
                  globals: RegFile, locals: RegFile, keep: RegSet, o: Finish, e: NewFinish)
    requires Agrees(c, f, b, i, regs, globals, locals, keep) && i < |c.m[f].blocks[b].instrs|
    requires c.m[f].blocks[b].instrs[i] == Call(g) && g < |c.m| && AgreeOff(o.regs, regs, c.p.may[g])
    requires Matches(c.m[g], c.p.io.outs[g], if c.m[f].kind.Plain? then c.p.live(f, b, i) + keep - c.p.may[g] else {},
                     Done(o), Done(e))
    ensures Agrees(c, f, b, i + 1, o.regs, e.globals, LocalsAfter(c.m, g, c.p.io, locals, e.rets), keep)
  {
    assert CallsIn(c.m[f].blocks[b], g) && Calls(c.m[f], g) && CallsOk(c.m, c.p.io, c.m[f]) &&
      BlockFits(c.m, c.p, f, b);
    assert CallOk(c.m, c.p.io, c.m[f], g);
    if c.m[g].kind.Recovered? {
      CopiesSet(locals, o.regs, c.p.io.outs[g]);
    }
  }

  /** How a call runs, before and after the rewriting. */
  lemma CallSteps(m: Module, io: InOut, f: FuncId, b: BlockId, i: nat, g: FuncId, regs: RegFile, globals: RegFile,
                  locals: RegFile, frame: Frame, fuel: nat, path: seq<nat>, junk: Junk,
                  o: Outcome<Finish>, e: Outcome<NewFinish>)
    returns (o': Outcome<Finish>, e': Outcome<NewFinish>, args: seq<int>)
    requires f < |m| && g < |m| && |io.ins| == |io.outs| == |m| && b < |m[f].blocks| && i < |m[f].blocks[b].instrs|
    requires m[f].blocks[b].instrs[i] == Call(g) && fuel > 0 && CallOk(m, io, m[f], g)
    requires o == Run(m, f, b, i, regs, frame, fuel)
    requires e == RunNew(Rewritten(m, io), f, b, i, globals, locals, frame, fuel, path, junk)
    ensures args == ValuesOf(locals, NewFunction(m, g, io).params)
    ensures o' == Run(m, g, 0, 0, regs, Frame(map[], frame.mem), fuel - 1)
    ensures e' == RunNew(Rewritten(m, io), g, 0, 0, globals,
      InitialLocals(NewFunction(m, g, io), args, globals, junk(path + [fuel])), Frame(map[], frame.mem),
      fuel - 1, path + [fuel], junk)
    ensures o == if o'.Done?
      then Run(m, f, b, i + 1, o'.result.regs, frame.(mem := o'.result.mem), fuel - 1) else o'
    ensures e == if e'.Done?
      then RunNew(Rewritten(m, io), f, b, i + 1, e'.result.globals,
        LocalsAfter(m, g, io, locals, e'.result.rets),
        frame.(mem := e'.result.mem), fuel - 1, path, junk)
      else e'
  {
    var n := Rewritten(m, io);
    args := ValuesOf(locals, NewFunction(m, g, io).params);
    assert n[f].blocks[b].instrs[i] == NewInstruction(m, m[f].kind, Call(g), io);
    o' := Run(m, g, 0, 0, regs, Frame(map[], frame.mem), fuel - 1);
    e' := EnterNew(n, g, args, globals, frame.mem, fuel - 1, path + [fuel], junk);
    if !m[g].kind.Recovered? { assert args == []; }
  }

  lemma {:induction false} SimulateCall(c: Fitted, f: FuncId, b: BlockId, i: nat,
                       regs: RegFile, globals: RegFile, locals: RegFile, frame: Frame,
                       fuel: nat, path: seq<nat>, junk: Junk, keep: RegSet,
                       o: Outcome<Finish>, e: Outcome<NewFinish>)
    requires Agrees(c, f, b, i, regs, globals, locals, keep)
    requires fuel > 0 && i < |c.m[f].blocks[b].instrs| && c.m[f].blocks[b].instrs[i].Call?
    requires o == Run(c.m, f, b, i, regs, frame, fuel)
    requires e == RunNew(Rewritten(c.m, c.p.io), f, b, i, globals, locals, frame, fuel, path, junk)
    ensures Matches(c.m[f], c.p.io.outs[f], keep, o, e)
    decreases fuel - 1, 3
  {
    var g := CalleeFits(c, f, b, i);
    var o', e', args := CallSteps(c.m, c.p.io, f, b, i, g, regs, globals, locals, frame, fuel, path, junk, o, e);
    SimulateCallee(c, f, b, i, g, regs, globals, locals, args, frame, fuel, path, junk, keep, o', e');
    if o'.Done? {
      SimulateRest(c, f, b, i, g, regs, globals, locals, frame, fuel, path, junk, keep, o'.result, e'.result, o, e);
    }
  }

  /** The callee's own run. */
  lemma {:induction false} SimulateCallee(c: Fitted, f: FuncId, b: BlockId, i: nat, g: FuncId,
                       regs: RegFile, globals: RegFile, locals: RegFile, args: seq<int>, frame: Frame,
                       fuel: nat, path: seq<nat>, junk: Junk, keep: RegSet,
                       o': Outcome<Finish>, e': Outcome<NewFinish>)
    requires Agrees(c, f, b, i, regs, globals, locals, keep)
    requires fuel > 0 && i < |c.m[f].blocks[b].instrs| && c.m[f].blocks[b].instrs[i] == Call(g) && g < |c.m| &&
      g in c.fs
    requires args == ValuesOf(locals, NewFunction(c.m, g, c.p.io).params)
    requires o' == Run(c.m, g, 0, 0, regs, Frame(map[], frame.mem), fuel - 1)
    requires e' == RunNew(Rewritten(c.m, c.p.io), g, 0, 0, globals,
      InitialLocals(NewFunction(c.m, g, c.p.io), args, globals, junk(path + [fuel])), Frame(map[], frame.mem),
      fuel - 1, path + [fuel], junk)
    ensures Matches(c.m[g], c.p.io.outs[g], if c.m[f].kind.Plain? then c.p.live(f, b, i) + keep - c.p.may[g] else {},
      o', e')
    ensures o'.Done? ==> AgreeOff(o'.result.regs, regs, c.p.may[g])
    decreases fuel - 1, 2
  {
    var kept := if c.m[f].kind.Plain? then c.p.live(f, b, i) + keep - c.p.may[g] else {};
    var start := InitialLocals(NewFunction(c.m, g, c.p.io), args, globals, junk(path + [fuel]));
    CallEntry(c, f, b, i, g, regs, globals, locals, args, junk(path + [fuel]), keep);
    Simulate(c, g, 0, 0, regs, globals, start, Frame(map[], frame.mem), fuel - 1, path + [fuel], junk, kept, o', e');
    CallKeeps(c, g, regs, Frame(map[], frame.mem), fuel - 1, o');
  }

  /** The rest of a run after a call came back. */
  lemma {:induction false} SimulateRest(c: Fitted, f: FuncId, b: BlockId, i: nat, g: FuncId,
                       regs: RegFile, globals: RegFile, locals: RegFile, frame: Frame,
                       fuel: nat, path: seq<nat>, junk: Junk, keep: RegSet,
                       o': Finish, e': NewFinish, o: Outcome<Finish>, e: Outcome<NewFinish>)
    requires Agrees(c, f, b, i, regs, globals, locals, keep)
    requires fuel > 0 && i < |c.m[f].blocks[b].instrs| && c.m[f].blocks[b].instrs[i] == Call(g) && g < |c.m|
    requires AgreeOff(o'.regs, regs, c.p.may[g])
    requires Matches(c.m[g], c.p.io.outs[g], if c.m[f].kind.Plain? then c.p.live(f, b, i) + keep - c.p.may[g] else {},
                     Done(o'), Done(e'))
    requires o == Run(c.m, f, b, i + 1, o'.regs, frame.(mem := o'.mem), fuel - 1)
    requires e == RunNew(Rewritten(c.m, c.p.io), f, b, i + 1, e'.globals, LocalsAfter(c.m, g, c.p.io, locals, e'.rets),
                         frame.(mem := e'.mem), fuel - 1, path, junk)
    ensures Matches(c.m[f], c.p.io.outs[f], keep, o, e)
    decreases fuel - 1, 2
  {
    AfterCall(c, f, b, i, g, regs, globals, locals, keep, o', e');
    Simulate(c, f, b, i + 1, o'.regs, e'.globals, LocalsAfter(c.m, g, c.p.io, locals, e'.rets),
             frame.(mem := o'.mem), fuel - 1, path, junk, keep, o, e);
  }
}
