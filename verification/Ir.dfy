/**
 The part of a lifted module the register pass looks at: functions made of blocks, whose
 instructions load and store register globals, call other functions of the module, or do
 something else to the activation's own values and to memory.
 */
module Ir {
  import opened Registers

  type FuncId = nat
  type BlockId = nat

  // SSA values of one activation, and the memory all activations share.
  datatype Frame = Frame(ssa: map<nat, int>, mem: map<int, int>)

  datatype Instr =
    | Load(dst: nat, reg: Reg)
    | Store(reg: Reg, value: Frame -> int)
    | Call(callee: FuncId)
    | Other(step: Frame -> Frame)

  datatype Terminator =
    | Return
    | Unreachable
    | Jump(succs: seq<BlockId>, choose: Frame -> nat)

  datatype Block = Block(instrs: seq<Instr>, term: Terminator)

  // Recovered functions are the ones named Func_*, Wrapper the one named Func_wrapper.
  datatype Kind = Recovered | Wrapper | Plain

  // rpot lists the blocks in the order the must-define loop visits them.
  datatype Func = Func(kind: Kind, blocks: seq<Block>, rpot: seq<BlockId>)

  type Module = seq<Func>

  function Succs(block: Block): seq<BlockId> {
    if block.term.Jump? then block.term.succs else []
  }

  function Preds(blocks: seq<Block>, b: BlockId): set<BlockId> {
    set p | 0 <= p < |blocks| && b in Succs(blocks[p])
  }

  ghost predicate BlockOk(m: Module, blocks: seq<Block>, block: Block) {
    && (forall i :: 0 <= i < |block.instrs| && block.instrs[i].Call? ==> block.instrs[i].callee < |m|)
    && (block.term.Jump? ==> |block.term.succs| > 0)
    && forall s :: s in Succs(block) ==> 0 < s < |blocks|  // nothing branches to an entry block
  }

  ghost predicate FuncOk(m: Module, f: Func) {
    && |f.blocks| > 0
    && (forall b :: 0 <= b < |f.blocks| ==> BlockOk(m, f.blocks, f.blocks[b]))
    && forall k :: 0 <= k < |f.rpot| ==> f.rpot[k] < |f.blocks|
  }

  ghost predicate ModuleOk(m: Module) {
    forall f :: 0 <= f < |m| ==> FuncOk(m, m[f])
  }

  // ----- registers accessed by a function itself -----

  function StoredBy(block: Block): RegSet {
    set i | 0 <= i < |block.instrs| && block.instrs[i].Store? :: block.instrs[i].reg
  }

  function LoadedBy(block: Block): RegSet {
    set i | 0 <= i < |block.instrs| && block.instrs[i].Load? :: block.instrs[i].reg
  }

  function Stores(f: Func): RegSet {
    set b, r | 0 <= b < |f.blocks| && r in StoredBy(f.blocks[b]) :: r
  }

  function Loads(f: Func): RegSet {
    set b, r | 0 <= b < |f.blocks| && r in LoadedBy(f.blocks[b]) :: r
  }

  // ----- the call graph -----

  ghost predicate CallsIn(block: Block, g: FuncId) {
    exists i :: 0 <= i < |block.instrs| && block.instrs[i] == Call(g)
  }

  ghost predicate Calls(f: Func, g: FuncId) {
    exists b :: 0 <= b < |f.blocks| && CallsIn(f.blocks[b], g)
  }

  ghost predicate CallPath(m: Module, path: seq<FuncId>) {
    && path != []
    && (forall k :: 0 <= k < |path| ==> path[k] < |m|)
    && forall k :: 0 <= k < |path| - 1 ==> Calls(m[path[k]], path[k + 1])
  }

  ghost predicate PathBetween(m: Module, path: seq<FuncId>, f: FuncId, g: FuncId) {
    CallPath(m, path) && path[0] == f && path[|path| - 1] == g
  }

  ghost predicate Reaches(m: Module, f: FuncId, g: FuncId) {
    exists path :: PathBetween(m, path, f, g)
  }

  lemma ReachesSelf(m: Module, f: FuncId)
    requires f < |m|
    ensures Reaches(m, f, f)
  {
    assert PathBetween(m, [f], f, f);
  }

  lemma ReachesStep(m: Module, f: FuncId, g: FuncId, h: FuncId)
    requires f < |m| && g < |m| && Calls(m[f], g) && Reaches(m, g, h)
    ensures Reaches(m, f, h)
  {
    var path :| PathBetween(m, path, g, h);
    assert PathBetween(m, [f] + path, f, h);
  }

  lemma ReachesTransitive(m: Module, f: FuncId, g: FuncId, h: FuncId)
    requires Reaches(m, f, g) && Reaches(m, g, h)
    ensures Reaches(m, f, h)
  {
    var p :| PathBetween(m, p, f, g);
    var q :| PathBetween(m, q, g, h);
    assert PathBetween(m, p + q[1..], f, h) by {
      var pq := p + q[1..];
      forall k | 0 <= k < |pq| - 1 ensures Calls(m[pq[k]], pq[k + 1]) {
        if k >= |p| - 1 {
          assert pq[k] == q[k - (|p| - 1)] && pq[k + 1] == q[k + 1 - (|p| - 1)];
        }
      }
    }
  }
}
