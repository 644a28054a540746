/** The worklist loop over one function's blocks, the rounds over the call graph, and the outer loop. */
module LivenessLoop {
  import opened Registers
  import opened Ir
  import opened DefSweep
  import opened Liveness
  import opened LiveWalks

  /** The registers live when a block ends, the way the scan of its successors collects them. */
  method EndOfBlock(block: Block, rows: seq<RegSet>, out: RegSet) returns (live: RegSet)
    requires forall s :: s in Succs(block) ==> s < |rows|
    ensures live == LiveEnd(block, rows, out)
  {
    AllIsAll();
    live := {};
    var succs := Succs(block);
    forall k | 0 <= k < |succs| ensures succs[k] < |rows| { assert succs[k] in succs; }
    for k := 0 to |succs|
      invariant forall r :: r in live <==> exists j :: 0 <= j < k && r in rows[succs[j]]
    {
      live := live + rows[succs[k]];
    }
    assert forall r :: r in live <==> LiveInSucc(block, rows, r);
    if block.term.Return? {
      live := live + out;
    }
  }

  /** No table of outputs that covers the block's calls is smaller. */
  ghost predicate LeastRaise(m: Module, d: Defs, f: FuncId, b: BlockId, l: Live, outs: seq<RegSet>)
    requires Shape(m, d) && LiveShape(m, l) && f < |m| && b < |m[f].blocks|
  {
    var block := m[f].blocks[b];
    var end := LiveEnd(block, l.blocks[f], l.outs[f]);
    forall t :: Leq(l.outs, t) && OutsCover(m, block, 0, end, d, l.ins, t) ==> Leq(outs, t)
  }

  /** The backward scan of one block: its live registers, and outputs raised to cover its calls. */
  method Transfer(m: Module, d: Defs, f: FuncId, b: BlockId, l: Live)
    returns (live: RegSet, outs: seq<RegSet>, change: bool)
    requires ModuleOk(m) && Shape(m, d) && LiveShape(m, l) && f < |m| && b < |m[f].blocks|
    ensures live == LiveBegin(m[f].blocks[b], l.blocks[f], l.outs[f], d.must, l.ins)
    ensures Leq(l.outs, outs) && (change <==> outs != l.outs)
    ensures OutsCover(m, m[f].blocks[b], 0, LiveEnd(m[f].blocks[b], l.blocks[f], l.outs[f]), d, l.ins, outs)
    ensures LeastRaise(m, d, f, b, l, outs)
    ensures forall g :: 0 <= g < |m| ==> outs[g] <= l.outs[g] + d.must[g] + d.may[g]
  {
    var block := m[f].blocks[b];
    assert FuncOk(m, m[f]) && BlockOk(m, m[f].blocks, block);
    live := EndOfBlock(block, l.blocks[f], l.outs[f]);
    ghost var end := live;
    outs, change := l.outs, false;
    for i := |block.instrs| downto 0
      invariant live == LiveAt(block, i, end, d.must, l.ins)
      invariant Leq(l.outs, outs) && (change <==> outs != l.outs)
      invariant OutsCover(m, block, i, end, d, l.ins, outs)
      invariant forall t :: Leq(l.outs, t) && OutsCover(m, block, 0, end, d, l.ins, t) ==> Leq(outs, t)
      invariant forall g :: 0 <= g < |m| ==> outs[g] <= l.outs[g] + d.must[g] + d.may[g]
    {
      match block.instrs[i]
      case Load(_, r) => live := live + {r};
      case Store(r, _) => live := live - {r};
      case Other(_) =>
      case Call(cf) =>
        var newLive := live - d.must[cf];
        var out := (live - newLive) + (d.may[cf] * live);
        assert out == CallOut(cf, live, d);
        live := newLive + l.ins[cf];
        var newOut := out + outs[cf];
        if newOut != outs[cf] {
          assert l.outs[cf] <= outs[cf];
          change := true;
          outs := outs[cf := newOut];
        }
    }
  }

  lemma OutsCoverAntitone(m: Module, block: Block, e: RegSet, e': RegSet, d: Defs,
                          ins: seq<RegSet>, ins': seq<RegSet>, outs: seq<RegSet>)
    requires Shape(m, d) && |outs| == |ins| == |ins'| == |m| && e <= e' && Leq(ins, ins')
    requires OutsCover(m, block, 0, e', d, ins', outs)
    ensures OutsCover(m, block, 0, e, d, ins, outs)
  {
    forall j | 0 <= j < |block.instrs| && block.instrs[j].Call? && block.instrs[j].callee < |m|
      ensures CallOut(block.instrs[j].callee, LiveAt(block, j + 1, e, d.must, ins), d) <= outs[block.instrs[j].callee]
    {
      LiveAtMonotone(block, j + 1, e, e', d.must, ins, ins');
    }
  }

  lemma LiveEndFrame(block: Block, rows: seq<RegSet>, b: BlockId, row: RegSet, out: RegSet)
    requires b < |rows| && b !in Succs(block)
    ensures LiveEnd(block, rows[b := row], out) == LiveEnd(block, rows, out)
  {
    forall k | 0 <= k < |Succs(block)| ensures Succs(block)[k] != b {
      assert Succs(block)[k] in Succs(block);
    }
    forall r ensures LiveInSucc(block, rows[b := row], r) <==> LiveInSucc(block, rows, r) {
      if LiveInSucc(block, rows, r) {
        var k :| 0 <= k < |Succs(block)| && Succs(block)[k] < |rows| && r in rows[Succs(block)[k]];
        assert r in rows[b := row][Succs(block)[k]];
      }
    }
  }

  /** Raising rows keeps every row below what the equations give for it. */
  lemma GrowingKept(m: Module, d: Defs, l: Live, l': Live)
    requires Shape(m, d) && LiveShape(m, l) && LiveShape(m, l') && Growing(m, d, l) && Below(m, l, l')
    requires forall f: FuncId, b: BlockId :: f < |m| && b < |m[f].blocks| && l'.blocks[f][b] != l.blocks[f][b] ==>
      l'.blocks[f][b] == LiveBegin(m[f].blocks[b], l.blocks[f], l.outs[f], d.must, l.ins)
    requires forall f: FuncId :: f < |m| && |m[f].blocks| > 0 ==> l'.ins[f] <= l'.blocks[f][0]
    ensures Growing(m, d, l')
  {
    forall f: FuncId, b: BlockId | f < |m| && b < |m[f].blocks| ensures RowGrows(m, d, f, b, l') {
      assert RowGrows(m, d, f, b, l);
      assert Leq(l.blocks[f], l'.blocks[f]);
      LiveBeginMonotone(m[f].blocks[b], l.blocks[f], l'.blocks[f], l.outs[f], l'.outs[f], d.must, l.ins, l'.ins);
    }
  }

  /** What one transfer computes stays below every solution. */
  lemma TransferBelow(m: Module, d: Defs, fs: seq<FuncId>, f: FuncId, b: BlockId, l: Live, outs: seq<RegSet>, s: Live)
    requires Shape(m, d) && LiveShape(m, l) && f in fs && f < |m| && b < |m[f].blocks|
    requires Solution(m, d, fs, s) && Below(m, l, s) && |outs| == |m|
    requires LeastRaise(m, d, f, b, l, outs)
    ensures LiveBegin(m[f].blocks[b], l.blocks[f], l.outs[f], d.must, l.ins) <= s.blocks[f][b]
    ensures Leq(outs, s.outs)
  {
    var block := m[f].blocks[b];
    var k :| 0 <= k < |fs| && fs[k] == f;
    assert FuncSolved(m, d, fs[k], s) && BlockSolved(m, d, f, b, s);
    assert Leq(l.blocks[f], s.blocks[f]);
    LiveEndMonotone(block, l.blocks[f], s.blocks[f], l.outs[f], s.outs[f]);
    LiveBeginMonotone(block, l.blocks[f], s.blocks[f], l.outs[f], s.outs[f], d.must, l.ins, s.ins);
    OutsCoverAntitone(m, block, LiveEnd(block, l.blocks[f], l.outs[f]), LiveEnd(block, s.blocks[f], s.outs[f]),
                      d, l.ins, s.ins, s.outs);
  }

  /** Blocks whose equations a step at b leaves or makes true. */
  ghost predicate Unaffected(m: Module, d: Defs, f: FuncId, b: BlockId, c: BlockId, l: Live, l': Live)
    requires Shape(m, d) && LiveShape(m, l) && f < |m| && c < |m[f].blocks|
  {
    && (c == b || BlockSolved(m, d, f, c, l))
    && (l'.blocks == l.blocks || b !in Succs(m[f].blocks[c]))
  }

  /** One worklist step at block b: its row and the outputs its calls demand. */
  method Step(m: Module, d: Defs, f: FuncId, b: BlockId, l: Live, ghost fs: seq<FuncId>)
    returns (l': Live, change: bool)
    requires ModuleOk(m) && Shape(m, d) && LiveShape(m, l) && f in fs && f < |m| && b < |m[f].blocks|
    requires Growing(m, d, l) && BelowSolutions(m, d, fs, l)
    ensures LiveShape(m, l') && Growing(m, d, l') && BelowSolutions(m, d, fs, l') && Below(m, l, l')
    ensures l'.ins == l.ins && (change <==> l'.outs != l.outs)
    ensures l'.blocks == l.blocks[f := l.blocks[f][b := l'.blocks[f][b]]]
    ensures !change ==> forall c: BlockId :: c < |m[f].blocks| && Unaffected(m, d, f, b, c, l, l') ==>
      BlockSolved(m, d, f, c, l')
  {
    var live, outs, changed := Transfer(m, d, f, b, l);
    change := changed;
    l' := Live(l.blocks[f := l.blocks[f][b := live]], l.ins, outs);
    assert RowGrows(m, d, f, b, l);
    assert l.blocks[f][b := l.blocks[f][b]] == l.blocks[f];
    GrowingKept(m, d, l, l');
    forall s | Solution(m, d, fs, s) ensures Below(m, l', s) {
      TransferBelow(m, d, fs, f, b, l, outs, s);
    }
    if !change {
      forall c: BlockId | c < |m[f].blocks| && Unaffected(m, d, f, b, c, l, l')
        ensures BlockSolved(m, d, f, c, l')
      {
        if l'.blocks != l.blocks {
          LiveEndFrame(m[f].blocks[c], l.blocks[f], b, live, l.outs[f]);
        } else {
          assert l'.blocks[f][b] == live;
        }
      }
    }
  }

  /** The worklist loop over one function, in whatever order blocks are taken. */
  method SolveFunction(m: Module, d: Defs, f: FuncId, l: Live, ghost fs: seq<FuncId>)
    returns (l': Live, change: bool)
    requires ModuleOk(m) && Shape(m, d) && LiveShape(m, l) && f in fs && f < |m|
    requires Growing(m, d, l) && BelowSolutions(m, d, fs, l)
    ensures LiveShape(m, l') && Growing(m, d, l') && BelowSolutions(m, d, fs, l') && Below(m, l, l')
    ensures l'.ins == l.ins && (change <==> l'.outs != l.outs)
    ensures forall g :: 0 <= g < |m| && g != f ==> l'.blocks[g] == l.blocks[g]
    ensures !change ==> forall b: BlockId :: b < |m[f].blocks| ==> BlockSolved(m, d, f, b, l')
  {
    var work: set<BlockId> := {};
    for b := 0 to |m[f].blocks|
      invariant forall c: BlockId :: c in work <==> c < b
    {
      work := work + {b};
    }
    l', change := l, false;
    while work != {}
      invariant SolvedSoFar(m, d, f, fs, l, l', change, work)
      decreases Missing(l'.blocks[f]), work
    {
      l', change, work := TakeBlock(m, d, f, fs, l, l', change, work);
    }
  }

  /** What the work list loop keeps: blocks that are not on the list are solved unless an output grew. */
  ghost predicate SolvedSoFar(m: Module, d: Defs, f: FuncId, fs: seq<FuncId>, l: Live, now: Live, change: bool,
                              work: set<BlockId>)
    requires Shape(m, d) && LiveShape(m, l) && f < |m|
  {
    && LiveShape(m, now) && Growing(m, d, now) && BelowSolutions(m, d, fs, now) && Below(m, l, now)
    && now.ins == l.ins && (change <==> now.outs != l.outs)
    && (forall g :: 0 <= g < |m| && g != f ==> now.blocks[g] == l.blocks[g])
    && (forall b :: b in work ==> b < |m[f].blocks|)
    && (!change ==> forall b: BlockId :: b < |m[f].blocks| && b !in work ==> BlockSolved(m, d, f, b, now))
  }

  /** Take a block off the work list; its predecessors go on it if its live registers grew. */
  method TakeBlock(m: Module, d: Defs, f: FuncId, ghost fs: seq<FuncId>, ghost l: Live, now: Live, change: bool,
                   work: set<BlockId>)
    returns (next: Live, change': bool, work': set<BlockId>)
    requires ModuleOk(m) && Shape(m, d) && LiveShape(m, l) && f in fs && f < |m| && work != {}
    requires SolvedSoFar(m, d, f, fs, l, now, change, work)
    ensures SolvedSoFar(m, d, f, fs, l, next, change', work')
    ensures Missing(next.blocks[f]) < Missing(now.blocks[f]) || (next.blocks[f] == now.blocks[f] && work' < work)
  {
    var b :| b in work;
    work' := work - {b};
    var changed;
    next, changed := Step(m, d, f, b, now, fs);
    change' := change || changed;
    MissingLeq(now.blocks[f], next.blocks[f]);
    if next.blocks[f][b] != now.blocks[f][b] {
      work' := work' + Preds(m[f].blocks, b);
    } else {
      assert next.blocks[f] == now.blocks[f] && next.blocks == now.blocks;
    }
    if change' {
      OutsGrew(l.outs, now.outs, next.outs);
    }
  }

  lemma OutsGrew(a: seq<RegSet>, b: seq<RegSet>, c: seq<RegSet>)
    requires Leq(a, b) && Leq(b, c) && (a != b || b != c)
    ensures a != c
  {
    if a == c {
      MissingLeq(a, b);
      MissingLeq(b, c);
    }
  }

  /** One round over the call graph: every function's blocks, then its inputs. */
  method Round(m: Module, d: Defs, fs: seq<FuncId>, l: Live) returns (l': Live, change: bool)
    requires ModuleOk(m) && Shape(m, d) && LiveShape(m, l) && InRange(m, Members(fs))
    requires Growing(m, d, l) && BelowSolutions(m, d, fs, l)
    ensures LiveShape(m, l') && Growing(m, d, l') && BelowSolutions(m, d, fs, l') && Below(m, l, l')
    ensures change <==> (l'.ins != l.ins || l'.outs != l.outs)
    ensures !change ==> Solution(m, d, fs, l')
  {
    l', change := l, false;
    for k := 0 to |fs|
      invariant RoundSoFar(m, d, fs, k, l, l', change)
    {
      assert fs[k] in Members(fs);
      l', change := TakeFunction(m, d, fs, k, l, l', change);
    }
  }

  /** What a round keeps: without a change, the functions visited are solved. */
  ghost predicate RoundSoFar(m: Module, d: Defs, fs: seq<FuncId>, k: nat, l: Live, now: Live, change: bool)
    requires Shape(m, d) && LiveShape(m, l) && k <= |fs|
  {
    && LiveShape(m, now) && Growing(m, d, now) && BelowSolutions(m, d, fs, now) && Below(m, l, now)
    && (change <==> (now.ins != l.ins || now.outs != l.outs))
    && (!change ==> forall j :: 0 <= j < k ==> fs[j] < |m| && FuncSolved(m, d, fs[j], now))
  }

  /** One function's turn: its blocks, then its inputs. */
  method TakeFunction(m: Module, d: Defs, fs: seq<FuncId>, k: nat, ghost l: Live, now: Live, change: bool)
    returns (next: Live, change': bool)
    requires ModuleOk(m) && Shape(m, d) && LiveShape(m, l) && k < |fs| && fs[k] < |m| &&
      RoundSoFar(m, d, fs, k, l, now, change)
    ensures RoundSoFar(m, d, fs, k + 1, l, next, change')
  {
    var f := fs[k];
    var solved, changed := SolveFunction(m, d, f, now, fs);
    change' := change || changed;
    var entryLive := solved.blocks[f][0];
    next := solved.(ins := solved.ins[f := entryLive]);
    if entryLive != solved.ins[f] {
      change' := true;
    } else {
      assert next == solved;
    }
    InsRaised(m, d, fs, f, solved, next);
    if !change' {
      forall j | 0 <= j < k + 1 ensures fs[j] < |m| && FuncSolved(m, d, fs[j], next) {
        if fs[j] != f {
          FuncSolvedFrame(m, d, fs[j], now, next);
        }
      }
    }
    OutsCompare(l, now, next);
  }

  lemma FuncSolvedFrame(m: Module, d: Defs, f: FuncId, l: Live, l': Live)
    requires Shape(m, d) && LiveShape(m, l) && LiveShape(m, l') && f < |m| && FuncSolved(m, d, f, l)
    requires l'.blocks[f] == l.blocks[f] && l'.ins == l.ins && l'.outs == l.outs
    ensures FuncSolved(m, d, f, l')
  {
    forall b: BlockId | b < |m[f].blocks| ensures BlockSolved(m, d, f, b, l') {
      assert BlockSolved(m, d, f, b, l);
    }
  }

  /** Raising a function's inputs to its entry's live registers keeps the facts the loop relies on. */
  lemma InsRaised(m: Module, d: Defs, fs: seq<FuncId>, f: FuncId, l: Live, l': Live)
    requires ModuleOk(m) && Shape(m, d) && LiveShape(m, l) && f in fs && f < |m|
    requires Growing(m, d, l) && BelowSolutions(m, d, fs, l)
    requires l' == l.(ins := l.ins[f := l.blocks[f][0]])
    ensures LiveShape(m, l') && Growing(m, d, l') && BelowSolutions(m, d, fs, l') && Below(m, l, l')
  {
    assert FuncOk(m, m[f]);
    GrowingKept(m, d, l, l');
    forall s | Solution(m, d, fs, s) ensures Below(m, l', s) {
      var k :| 0 <= k < |fs| && fs[k] == f;
      assert FuncSolved(m, d, fs[k], s);
      assert Leq(l.blocks[f], s.blocks[f]);
    }
  }

  lemma OutsCompare(l: Live, prior: Live, l': Live)
    requires Leq(l.outs, prior.outs) && Leq(prior.outs, l'.outs) && Leq(l.ins, prior.ins) && Leq(prior.ins, l'.ins)
    ensures l.outs == l'.outs <==> l.outs == prior.outs && prior.outs == l'.outs
    ensures l.ins == l'.ins <==> l.ins == prior.ins && prior.ins == l'.ins
  {
    if l.outs != prior.outs || prior.outs != l'.outs { OutsGrew(l.outs, prior.outs, l'.outs); }
    if l.ins != prior.ins || prior.ins != l'.ins { OutsGrew(l.ins, prior.ins, l'.ins); }
  }

  /** Rounds until none changes an input or an output. */
  method Rounds(m: Module, d: Defs, fs: seq<FuncId>, l: Live) returns (l': Live, changed: bool)
    requires ModuleOk(m) && Shape(m, d) && LiveShape(m, l) && InRange(m, Members(fs))
    requires Growing(m, d, l) && BelowSolutions(m, d, fs, l)
    ensures LiveShape(m, l') && Growing(m, d, l') && BelowSolutions(m, d, fs, l') && Below(m, l, l')
    ensures Solution(m, d, fs, l')
    ensures changed <==> (l'.ins != l.ins || l'.outs != l.outs)
  {
    l', changed := l, false;
    var change := true;
    while change
      invariant LiveShape(m, l') && Growing(m, d, l') && BelowSolutions(m, d, fs, l') && Below(m, l, l')
      invariant changed <==> (l'.ins != l.ins || l'.outs != l.outs)
      invariant !change ==> Solution(m, d, fs, l')
      decreases Missing(l'.ins) + Missing(l'.outs), change
    {
      ghost var prior := l';
      l', change := Round(m, d, fs, l');
      if change {
        changed := true;
      }
      OutsCompare(l, prior, l');
      MissingLeq(prior.ins, l'.ins);
      MissingLeq(prior.outs, l'.outs);
    }
  }

  // ----- the whole analysis -----

  /** What the scan of all register accesses finds. */
  function InitialDefs(m: Module): Defs {
    Defs(seq(|m|, f requires 0 <= f < |m| =>
           seq(|m[f].blocks|, b requires 0 <= b < |m[f].blocks| => StoredBy(m[f].blocks[b]))),
         seq(|m|, _ => {}), seq(|m|, f requires 0 <= f < |m| => Stores(m[f])))
  }

  function EmptyLive(m: Module): Live {
    Live(seq(|m|, f requires 0 <= f < |m| => seq(|m[f].blocks|, _ => {})), seq(|m|, _ => {}), seq(|m|, _ => {}))
  }

  lemma InitialSound(m: Module)
    ensures Shape(m, InitialDefs(m)) && AllSound(m, InitialDefs(m))
  {
    AllIsAll();
    var d := InitialDefs(m);
    forall f: FuncId | f < |m| ensures Stores(m[f]) <= MayStore(m, f) {
      ReachesSelf(m, f);
    }
    forall f | 0 <= f < |m| ensures Sound(m, d, f) {}
  }

  lemma EmptyBelow(m: Module, d: Defs, fs: seq<FuncId>)
    requires Shape(m, d)
    ensures LiveShape(m, EmptyLive(m)) && Growing(m, d, EmptyLive(m)) && BelowSolutions(m, d, fs, EmptyLive(m))
  {
    forall s | Solution(m, d, fs, s) ensures Below(m, EmptyLive(m), s) {}
  }

  /** Some call of g in a listed function leaves r in a register that is live after the call. */
  ghost predicate Demanded(m: Module, d: Defs, fs: seq<FuncId>, l: Live, g: FuncId, r: Reg)
    requires Shape(m, d) && LiveShape(m, l) && g < |m|
  {
    exists k, b: BlockId, j ::
      0 <= k < |fs| && fs[k] < |m| && b < |m[fs[k]].blocks| && DemandedAt(m, d, fs[k], b, j, l, g, r)
  }

  ghost predicate DemandedAt(m: Module, d: Defs, f: FuncId, b: BlockId, j: int, l: Live, g: FuncId, r: Reg)
    requires Shape(m, d) && LiveShape(m, l) && g < |m| && f < |m| && b < |m[f].blocks|
  {
    var block := m[f].blocks[b];
    && 0 <= j < |block.instrs| && block.instrs[j] == Call(g)
    && r in CallOut(g, LiveAt(block, j + 1, LiveEnd(block, l.blocks[f], l.outs[f]), d.must, l.ins), d)
  }

  /** The least solution solves the equations exactly: an output is one some call demands. */
  lemma LeastIsExact(m: Module, d: Defs, fs: seq<FuncId>, l: Live)
    requires ModuleOk(m) && InRange(m, Members(fs)) && LeastSolution(m, d, fs, l) && Growing(m, d, l)
    ensures forall f: FuncId, b: BlockId :: f in fs && f < |m| && b < |m[f].blocks| ==>
      l.blocks[f][b] == LiveBegin(m[f].blocks[b], l.blocks[f], l.outs[f], d.must, l.ins)
    ensures forall f: FuncId :: f in fs && f < |m| && |m[f].blocks| > 0 ==> l.ins[f] == l.blocks[f][0]
    ensures forall g: FuncId, r :: g < |m| ==> (r in l.outs[g] <==> Demanded(m, d, fs, l, g, r))
  {
    forall f: FuncId, b: BlockId | f in fs && f < |m| && b < |m[f].blocks|
      ensures l.blocks[f][b] == LiveBegin(m[f].blocks[b], l.blocks[f], l.outs[f], d.must, l.ins)
      ensures l.ins[f] == l.blocks[f][0]
    {
      assert f in Members(fs);
      var k :| 0 <= k < |fs| && fs[k] == f;
      assert FuncSolved(m, d, fs[k], l) && BlockSolved(m, d, f, b, l) && RowGrows(m, d, f, b, l);
    }
    AllIsAll();
    var demanded := seq(|m|, g requires 0 <= g < |m| => set r | r in ALL && Demanded(m, d, fs, l, g, r));
    var s := l.(outs := seq(|m|, g requires 0 <= g < |m| => l.outs[g] * demanded[g]));
    forall k | 0 <= k < |fs| && fs[k] < |m| ensures FuncSolved(m, d, fs[k], s) {
      DemandedSolved(m, d, fs, l, s, k);
    }
    assert Solution(m, d, fs, s) && Below(m, l, s);
    forall g: FuncId, r | g < |m| && Demanded(m, d, fs, l, g, r) ensures r in l.outs[g] {
      var k, b: BlockId, j :|
        0 <= k < |fs| && fs[k] < |m| && b < |m[fs[k]].blocks| && DemandedAt(m, d, fs[k], b, j, l, g, r);
      assert FuncSolved(m, d, fs[k], l) && BlockSolved(m, d, fs[k], b, l);
    }
    forall g: FuncId, r | g < |m| && r in l.outs[g] ensures Demanded(m, d, fs, l, g, r) {
      assert l.outs[g] <= s.outs[g];
    }
  }

  /** Dropping the outputs no call demands leaves a solution. */
  lemma DemandedSolved(m: Module, d: Defs, fs: seq<FuncId>, l: Live, s: Live, k: nat)
    requires ModuleOk(m) && Solution(m, d, fs, l) && k < |fs| && fs[k] < |m|
    requires LiveShape(m, s) && s.blocks == l.blocks && s.ins == l.ins && Leq(s.outs, l.outs)
    requires forall g: FuncId, r :: g < |m| && r in l.outs[g] && Demanded(m, d, fs, l, g, r) ==> r in s.outs[g]
    ensures FuncSolved(m, d, fs[k], s)
  {
    var f := fs[k];
    assert FuncSolved(m, d, fs[k], l);
    forall b: BlockId | b < |m[f].blocks| ensures BlockSolved(m, d, f, b, s) {
      var block := m[f].blocks[b];
      assert BlockSolved(m, d, f, b, l);
      var end, end' := LiveEnd(block, l.blocks[f], l.outs[f]), LiveEnd(block, s.blocks[f], s.outs[f]);
      LiveBeginMonotone(block, s.blocks[f], l.blocks[f], s.outs[f], l.outs[f], d.must, s.ins, l.ins);
      LiveEndMonotone(block, s.blocks[f], l.blocks[f], s.outs[f], l.outs[f]);
      forall j | 0 <= j < |block.instrs| && block.instrs[j].Call? && block.instrs[j].callee < |m|
        ensures CallOut(block.instrs[j].callee, LiveAt(block, j + 1, end', d.must, s.ins), d)
                <= s.outs[block.instrs[j].callee]
      {
        LiveAtMonotone(block, j + 1, end', end, d.must, s.ins, l.ins);
        var g := block.instrs[j].callee;
        forall r | r in CallOut(g, LiveAt(block, j + 1, end', d.must, s.ins), d) ensures r in s.outs[g] {
          assert DemandedAt(m, d, f, b, j, l, g, r);
          assert Demanded(m, d, fs, l, g, r);
        }
      }
    }
  }

  /** Registers a function accesses itself, takes, or gives back: the ones it gets locals for. */
  function UsedRegs(f: Func, input: RegSet, output: RegSet): RegSet {
    Loads(f) + Stores(f) + input + output
  }

  /**
   The outer loop. sccs are the components of the part of the call graph below its root,
   callees first; fs lists the same functions in the order the rounds visit them.
   */
  method GetInputOutputRegs(m: Module, sccs: seq<seq<FuncId>>, fs: seq<FuncId>)
    returns (d: Defs, l: Live, used: seq<RegSet>)
    requires ModuleOk(m) && BottomUp(m, sccs) && InRange(m, Members(fs))
    ensures Shape(m, d) && AllSound(m, d)
    ensures forall f :: f in Earlier(sccs, |sccs|) ==> f < |m| && Settled(m, d, f)
    ensures LeastSolution(m, d, fs, l) && Growing(m, d, l)
    ensures ExactlyNeeded(m, Members(fs), d, l)
    ensures forall g :: 0 <= g < |m| ==> l.outs[g] <= MayStore(m, g) + d.must[g]
    ensures |used| == |m| && forall f :: 0 <= f < |m| ==> used[f] == UsedRegs(m[f], l.ins[f], l.outs[f])
  {
    d, l := InitialDefs(m), EmptyLive(m);
    InitialSound(m);
    ghost var swept := false;
    var outerChange := true;
    while outerChange
      invariant Shape(m, d) && AllSound(m, d) && LiveShape(m, l)
      invariant !swept ==> l == EmptyLive(m)
      invariant swept ==> forall f :: f in Earlier(sccs, |sccs|) ==> f < |m| && Settled(m, d, f)
      invariant swept ==> Growing(m, d, l) && BelowSolutions(m, d, fs, l)
      invariant !outerChange ==> swept && Solution(m, d, fs, l)
      decreases Missing(l.ins) + Missing(l.outs), outerChange
    {
      d := Sweep(m, sccs, d);
      if l == EmptyLive(m) {
        EmptyBelow(m, d, fs);
      }
      swept := true;
      ghost var prior := l;
      l, outerChange := Rounds(m, d, fs, l);
      MissingLeq(prior.ins, l.ins);
      MissingLeq(prior.outs, l.outs);
    }
    LiveExactly(m, d, fs, l);
    forall g | 0 <= g < |m| ensures l.outs[g] <= MayStore(m, g) + d.must[g] {
      OutsStored(m, d, Members(fs), l, g);
    }
    used := FindUsed(m, l);
  }

  /** The registers accessed directly, taken or given back. */
  method FindUsed(m: Module, l: Live) returns (used: seq<RegSet>)
    requires LiveShape(m, l)
    ensures |used| == |m| && forall f :: 0 <= f < |m| ==> used[f] == UsedRegs(m[f], l.ins[f], l.outs[f])
  {
    used := [];
    for f := 0 to |m|
      invariant |used| == f && forall g :: 0 <= g < f ==> used[g] == UsedRegs(m[g], l.ins[g], l.outs[g])
    {
      used := used + [UsedRegs(m[f], l.ins[f], l.outs[f])];
    }
  }
}
