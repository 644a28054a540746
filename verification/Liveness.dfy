/**
 The interprocedural liveness fixpoint that decides which registers a function takes as
 parameters (in) and gives back (out).
 */
module Liveness {
  import opened Registers
  import opened Ir
  import opened DefSweep

  // Live registers at the start of every block, and each function's inputs and outputs.
  datatype Live = Live(blocks: seq<seq<RegSet>>, ins: seq<RegSet>, outs: seq<RegSet>)

  ghost predicate LiveShape(m: Module, l: Live) {
    && |l.blocks| == |l.ins| == |l.outs| == |m|
    && forall f :: 0 <= f < |m| ==> |l.blocks[f]| == |m[f].blocks|
  }

  // ----- the equations -----

  /** Registers live before one instruction, given those live after it. */
  function Before(instr: Instr, after: RegSet, must: seq<RegSet>, ins: seq<RegSet>): RegSet {
    match instr
    case Load(_, r) => after + {r}
    case Store(r, _) => after - {r}
    case Call(g) => if g < |must| && g < |ins| then (after - must[g]) + ins[g] else after
    case Other(_) => after
  }

  /** Registers live before instruction i of a block. */
  function LiveAt(block: Block, i: nat, end: RegSet, must: seq<RegSet>, ins: seq<RegSet>): RegSet
    requires i <= |block.instrs|
    decreases |block.instrs| - i
  {
    if i == |block.instrs| then end
    else Before(block.instrs[i], LiveAt(block, i + 1, end, must, ins), must, ins)
  }

  /** Registers live when the last instruction of a block is done. */
  ghost function LiveEnd(block: Block, rows: seq<RegSet>, out: RegSet): RegSet {
    (set r | r in ALL && LiveInSucc(block, rows, r)) + (if block.term.Return? then out else {})
  }

  ghost predicate LiveInSucc(block: Block, rows: seq<RegSet>, r: Reg) {
    exists k :: 0 <= k < |Succs(block)| && Succs(block)[k] < |rows| && r in rows[Succs(block)[k]]
  }

  ghost function LiveBegin(block: Block, rows: seq<RegSet>, out: RegSet, must: seq<RegSet>, ins: seq<RegSet>): RegSet {
    LiveAt(block, 0, LiveEnd(block, rows, out), must, ins)
  }

  /** What a call leaves in registers that are live after it. */
  function CallOut(g: FuncId, after: RegSet, d: Defs): RegSet
    requires g < |d.must| && g < |d.may|
  {
    (after * d.must[g]) + (after * d.may[g])
  }

  /** The outputs demanded by the calls from instruction i on are included in outs. */
  ghost predicate OutsCover(m: Module, block: Block, i: nat, end: RegSet, d: Defs, ins: seq<RegSet>, outs: seq<RegSet>)
    requires Shape(m, d) && |outs| == |ins| == |m|
  {
    forall j :: i <= j < |block.instrs| && block.instrs[j].Call? && block.instrs[j].callee < |m| ==>
      CallOut(block.instrs[j].callee, LiveAt(block, j + 1, end, d.must, ins), d) <= outs[block.instrs[j].callee]
  }

  ghost predicate BlockSolved(m: Module, d: Defs, f: FuncId, b: BlockId, l: Live)
    requires Shape(m, d) && LiveShape(m, l) && f < |m| && b < |m[f].blocks|
  {
    var block := m[f].blocks[b];
    && LiveBegin(block, l.blocks[f], l.outs[f], d.must, l.ins) <= l.blocks[f][b]
    && OutsCover(m, block, 0, LiveEnd(block, l.blocks[f], l.outs[f]), d, l.ins, l.outs)
  }

  ghost predicate FuncSolved(m: Module, d: Defs, f: FuncId, l: Live)
    requires Shape(m, d) && LiveShape(m, l) && f < |m|
  {
    && (forall b: BlockId :: b < |m[f].blocks| ==> BlockSolved(m, d, f, b, l))
    && (|m[f].blocks| > 0 ==> l.blocks[f][0] <= l.ins[f])
  }

  /** A solution of the liveness, input and output inequations of the listed functions. */
  ghost predicate Solution(m: Module, d: Defs, fs: seq<FuncId>, l: Live) {
    && Shape(m, d) && LiveShape(m, l)
    && forall k :: 0 <= k < |fs| && fs[k] < |m| ==> FuncSolved(m, d, fs[k], l)
  }

  ghost predicate Below(m: Module, a: Live, b: Live)
    requires LiveShape(m, a) && LiveShape(m, b)
  {
    && (forall f :: 0 <= f < |m| ==> Leq(a.blocks[f], b.blocks[f]))
    && Leq(a.ins, b.ins) && Leq(a.outs, b.outs)
  }

  ghost predicate BelowSolutions(m: Module, d: Defs, fs: seq<FuncId>, l: Live)
    requires LiveShape(m, l)
  {
    forall s :: Solution(m, d, fs, s) ==> Below(m, l, s)
  }

  /** The least solution of the equations of the listed functions. */
  ghost predicate LeastSolution(m: Module, d: Defs, fs: seq<FuncId>, l: Live) {
    && Solution(m, d, fs, l)
    && BelowSolutions(m, d, fs, l)
  }

  /** Every row is at most what the equations give for it, so rows only ever grow. */
  ghost predicate Growing(m: Module, d: Defs, l: Live)
    requires Shape(m, d) && LiveShape(m, l)
  {
    && (forall f: FuncId, b: BlockId :: f < |m| && b < |m[f].blocks| ==> RowGrows(m, d, f, b, l))
    && forall f: FuncId :: f < |m| && |m[f].blocks| > 0 ==> l.ins[f] <= l.blocks[f][0]
  }

  ghost predicate RowGrows(m: Module, d: Defs, f: FuncId, b: BlockId, l: Live)
    requires Shape(m, d) && LiveShape(m, l) && f < |m| && b < |m[f].blocks|
  {
    l.blocks[f][b] <= LiveBegin(m[f].blocks[b], l.blocks[f], l.outs[f], d.must, l.ins)
  }

  // ----- monotonicity -----

  lemma {:induction false} LiveAtMonotone(block: Block, i: nat, e: RegSet, e': RegSet, must: seq<RegSet>,
                                          ins: seq<RegSet>, ins': seq<RegSet>)
    requires i <= |block.instrs| && e <= e' && Leq(ins, ins')
    ensures LiveAt(block, i, e, must, ins) <= LiveAt(block, i, e', must, ins')
    decreases |block.instrs| - i
  {
    if i < |block.instrs| {
      LiveAtMonotone(block, i + 1, e, e', must, ins, ins');
    }
  }

  lemma LiveEndMonotone(block: Block, rows: seq<RegSet>, rows': seq<RegSet>, out: RegSet, out': RegSet)
    requires Leq(rows, rows') && out <= out'
    ensures LiveEnd(block, rows, out) <= LiveEnd(block, rows', out')
  {
    forall r | LiveInSucc(block, rows, r) ensures LiveInSucc(block, rows', r) {
      var k :| 0 <= k < |Succs(block)| && Succs(block)[k] < |rows| && r in rows[Succs(block)[k]];
      assert r in rows'[Succs(block)[k]];
    }
  }

  lemma LiveBeginMonotone(block: Block, rows: seq<RegSet>, rows': seq<RegSet>, out: RegSet, out': RegSet,
                          must: seq<RegSet>, ins: seq<RegSet>, ins': seq<RegSet>)
    requires Leq(rows, rows') && out <= out' && Leq(ins, ins')
    ensures LiveBegin(block, rows, out, must, ins) <= LiveBegin(block, rows', out', must, ins')
  {
    LiveEndMonotone(block, rows, rows', out, out');
    LiveAtMonotone(block, 0, LiveEnd(block, rows, out), LiveEnd(block, rows', out'), must, ins, ins');
  }
}
