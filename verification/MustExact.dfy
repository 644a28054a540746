/**
 Exactly which registers the must-definitions have: in one function, those that every walk into a
 return defines, be it from a block without predecessors or round a loop; in a module without loops
 and recursion, those that every walk through it stores.
 */
module MustExact {
  import opened Registers
  import opened Ir
  import opened MustDefs
  import opened DefSweep
  import opened MustSound

  // Nothing in front of such a block is looked at.
  ghost predicate Source(f: Func, b: BlockId) {
    Preds(f.blocks, b) == {} || b !in f.rpot
  }

  /** A walk along branches through blocks that do not define r. */
  ghost predicate BareWalk(f: Func, defs: seq<RegSet>, path: seq<BlockId>, r: Reg) {
    && path != []
    && (forall k :: 0 <= k < |path| ==> path[k] < |f.blocks| && path[k] < |defs| && r !in defs[path[k]])
    && forall k :: 0 <= k < |path| - 1 ==> path[k + 1] in Succs(f.blocks[path[k]])
  }

  ghost predicate BareInto(f: Func, defs: seq<RegSet>, path: seq<BlockId>, b: BlockId, r: Reg) {
    BareWalk(f, defs, path, r) && path[|path| - 1] == b
  }

  ghost predicate BareFromSource(f: Func, defs: seq<RegSet>, b: BlockId, r: Reg) {
    exists path :: BareInto(f, defs, path, b, r) && Source(f, path[0])
  }

  ghost predicate BareOfLength(f: Func, defs: seq<RegSet>, b: BlockId, n: nat, r: Reg) {
    exists path :: BareInto(f, defs, path, b, r) && |path| > n
  }

  /** A walk from a block without predecessors does not define r, or walks of any length do not. */
  ghost predicate Bare(f: Func, defs: seq<RegSet>, b: BlockId, r: Reg) {
    BareFromSource(f, defs, b, r) || forall n: nat :: BareOfLength(f, defs, b, n, r)
  }

  // ----- rows -----

  /** Some walk of at most n steps into b, or its last n steps, do not define r. */
  ghost predicate Missed(f: Func, defs: seq<RegSet>, b: BlockId, n: nat, r: Reg)
    requires |defs| == |f.blocks|
    decreases n, 0
  {
    b < |f.blocks| && r !in defs[b] && (Source(f, b) || n == 0 || MissedBefore(f, defs, b, n - 1, r))
  }

  ghost predicate MissedBefore(f: Func, defs: seq<RegSet>, b: BlockId, n: nat, r: Reg)
    requires |defs| == |f.blocks|
    decreases n, 1
  {
    exists p :: p in Preds(f.blocks, b) && Missed(f, defs, p, n, r)
  }

  lemma {:induction false} MissedLess(f: Func, defs: seq<RegSet>, b: BlockId, n: nat, k: nat, r: Reg)
    requires |defs| == |f.blocks| && Missed(f, defs, b, n, r) && k <= n
    ensures Missed(f, defs, b, k, r)
    decreases n
  {
    if !Source(f, b) && k > 0 {
      assert MissedBefore(f, defs, b, n - 1, r);
      var p :| p in Preds(f.blocks, b) && Missed(f, defs, p, n - 1, r);
      MissedLess(f, defs, p, n - 1, k - 1, r);
      assert MissedBefore(f, defs, b, k - 1, r);
    }
  }

  /** What no walk misses is in every closed table. */
  lemma {:induction false} NotMissedClosed(f: Func, defs: seq<RegSet>, rows: seq<RegSet>, b: BlockId, n: nat, r: Reg)
    requires Closed(f, defs, rows) && b < |f.blocks| && !Missed(f, defs, b, n, r)
    ensures r in rows[b]
    decreases n
  {
    if r !in defs[b] {
      AllIsAll();
      forall p | p in Preds(f.blocks, b) ensures r in rows[p] {
        NotMissedClosed(f, defs, rows, p, n - 1, r);
      }
      var k :| 0 <= k < |f.rpot| && f.rpot[k] == b;
      assert ClosedAt(f.blocks, rows, f.rpot[k]);
    }
  }

  ghost predicate NotAlwaysMissed(f: Func, defs: seq<RegSet>, b: BlockId, r: Reg)
    requires |defs| == |f.blocks|
  {
    exists n: nat :: !Missed(f, defs, b, n, r)
  }

  /** One bound for finitely many blocks. */
  lemma {:induction false} CommonBound(f: Func, defs: seq<RegSet>, bs: set<BlockId>, r: Reg) returns (n: nat)
    requires |defs| == |f.blocks| && forall b :: b in bs ==> NotAlwaysMissed(f, defs, b, r)
    ensures forall b :: b in bs ==> !Missed(f, defs, b, n, r)
    decreases bs
  {
    n := 0;
    if b :| b in bs {
      var k: nat :| !Missed(f, defs, b, k, r);
      var others := CommonBound(f, defs, bs - {b}, r);
      n := if k > others then k else others;
      forall c | c in bs ensures !Missed(f, defs, c, n, r) {
        if Missed(f, defs, c, n, r) {
          MissedLess(f, defs, c, n, if c == b then k else others, r);
        }
      }
    }
  }

  ghost function ReachedRows(f: Func, defs: seq<RegSet>): seq<RegSet>
    requires |defs| == |f.blocks|
  {
    seq(|f.blocks|, b requires 0 <= b < |f.blocks| => set r | r in ALL && NotAlwaysMissed(f, defs, b, r))
  }

  lemma ReachedClosed(f: Func, defs: seq<RegSet>)
    requires |defs| == |f.blocks|
    ensures Closed(f, defs, ReachedRows(f, defs))
  {
    var rows := ReachedRows(f, defs);
    AllIsAll();
    forall b, r | 0 <= b < |f.blocks| && r in defs[b] ensures r in rows[b] {
      assert !Missed(f, defs, b, 0, r);
    }
    forall k | 0 <= k < |f.rpot| ensures ClosedAt(f.blocks, rows, f.rpot[k]) {
      var b := f.rpot[k];
      forall r | b < |rows| && Preds(f.blocks, b) != {} && r in Meet(rows, Preds(f.blocks, b)) ensures r in rows[b] {
        assert InRows(rows, Preds(f.blocks, b), r);
        var n := CommonBound(f, defs, Preds(f.blocks, b), r);
        assert !Missed(f, defs, b, n + 1, r);
      }
    }
  }

  lemma RowIsNotMissed(f: Func, defs: seq<RegSet>, b: BlockId, r: Reg)
    requires |defs| == |f.blocks| && b < |f.blocks|
    ensures r in LeastRow(f, defs, b) <==> NotAlwaysMissed(f, defs, b, r)
  {
    AllIsAll();
    ReachedClosed(f, defs);
    if n: nat :| !Missed(f, defs, b, n, r) {
      forall rows | Closed(f, defs, rows) ensures r in rows[b] {
        NotMissedClosed(f, defs, rows, b, n, r);
      }
    }
    if r in LeastRow(f, defs, b) {
      assert r in ReachedRows(f, defs)[b];
    }
  }

  // ----- walks -----

  lemma BareLonger(f: Func, defs: seq<RegSet>, front: seq<BlockId>, p: BlockId, b: BlockId, r: Reg)
    requires |defs| == |f.blocks| && BareInto(f, defs, front, p, r) && b < |f.blocks| && r !in defs[b]
    requires p in Preds(f.blocks, b)
    ensures BareInto(f, defs, front + [b], b, r)
  {
  }

  lemma {:induction false} MissedWalk(f: Func, defs: seq<RegSet>, b: BlockId, n: nat, r: Reg)
    returns (path: seq<BlockId>)
    requires |defs| == |f.blocks| && Missed(f, defs, b, n, r)
    ensures BareInto(f, defs, path, b, r) && (Source(f, path[0]) || |path| > n)
    decreases n
  {
    if Source(f, b) || n == 0 {
      path := [b];
    } else {
      assert MissedBefore(f, defs, b, n - 1, r);
      var p :| p in Preds(f.blocks, b) && Missed(f, defs, p, n - 1, r);
      var front := MissedWalk(f, defs, p, n - 1, r);
      path := front + [b];
      BareLonger(f, defs, front, p, b, r);
    }
  }

  lemma {:induction false} WalkMissed(f: Func, defs: seq<RegSet>, path: seq<BlockId>, n: nat, r: Reg)
    requires |defs| == |f.blocks| && BareWalk(f, defs, path, r) && (Source(f, path[0]) || |path| > n)
    ensures Missed(f, defs, path[|path| - 1], n, r)
    decreases |path|
  {
    if |path| > 1 && n > 0 {
      var front := path[..|path| - 1];
      assert path[|path| - 2 + 1] in Succs(f.blocks[path[|path| - 2]]);
      WalkMissed(f, defs, front, n - 1, r);
      assert front[|front| - 1] in Preds(f.blocks, path[|path| - 1]);
      assert MissedBefore(f, defs, path[|path| - 1], n - 1, r);
    }
  }

  /**
   Whenever control is at the end of block b, r counts as defined exactly if every walk from a block
   without predecessors defines it, and so does every walk that is long enough.
   */
  lemma RowExactly(f: Func, defs: seq<RegSet>, b: BlockId, r: Reg)
    requires |defs| == |f.blocks| && b < |f.blocks|
    ensures r in LeastRow(f, defs, b) <==> !Bare(f, defs, b, r)
  {
    RowIsNotMissed(f, defs, b, r);
    if n: nat :| !Missed(f, defs, b, n, r) {
      if path :| BareInto(f, defs, path, b, r) && (Source(f, path[0]) || |path| > n) {
        WalkMissed(f, defs, path, n, r);
      }
      assert !BareOfLength(f, defs, b, n, r);
    } else {
      forall n: nat | !BareFromSource(f, defs, b, r) ensures BareOfLength(f, defs, b, n, r) {
        assert Missed(f, defs, b, n, r);
        var path := MissedWalk(f, defs, b, n, r);
      }
    }
  }

  /** The registers a function must define are those that this is so of at all its returns. */
  lemma MustDefinedExactly(f: Func, defs: seq<RegSet>, r: Reg)
    requires |defs| == |f.blocks|
    ensures r in MustDefined(f, defs) <==> forall b :: b in ReturnBlocks(f.blocks) ==> !Bare(f, defs, b, r)
  {
    AllIsAll();
    forall b | b in ReturnBlocks(f.blocks) ensures r in LeastRow(f, defs, b) <==> !Bare(f, defs, b, r) {
      RowExactly(f, defs, b, r);
    }
  }

  /** A store, then a loop that may be left at once, then a return. */
  function StoreThenLoop(): Func {
    Func(Recovered,
      [Block([Store(EAX, (frame: Frame) => 0)], Jump([1], (frame: Frame) => 0)),
       Block([], Jump([1, 2], (frame: Frame) => 0)),
       Block([], Return)], [0, 1, 2])
  }

  /** What is stored before a loop does not count as defined behind it. */
  lemma LoopForgets()
    ensures EAX !in MustDefined(StoreThenLoop(), [{EAX}, {}, {}])
  {
    var f, defs: seq<RegSet> := StoreThenLoop(), [{EAX}, {}, {}];
    forall n: nat ensures BareOfLength(f, defs, 2, n, EAX) {
      var path := seq(n + 1, _ => 1) + [2];
      assert 1 in Succs(f.blocks[1]) && 2 in Succs(f.blocks[1]);
      assert BareInto(f, defs, path, 2, EAX);
    }
    MustDefinedExactly(f, defs, EAX);
    assert 2 in ReturnBlocks(f.blocks) && Bare(f, defs, 2, EAX);
  }

  // ----- without loops and recursion -----

  // A function without loops, entered at its first block.
  ghost predicate LoopFree(f: Func, rank: BlockId -> nat) {
    && (forall p: BlockId, b: BlockId :: p < |f.blocks| && b in Succs(f.blocks[p]) ==> rank(p) < rank(b))
    && forall b: BlockId :: b < |f.blocks| && Source(f, b) ==> b == 0
  }

  lemma {:induction false} WalkShort(f: Func, defs: seq<RegSet>, path: seq<BlockId>, rank: BlockId -> nat, r: Reg)
    requires LoopFree(f, rank) && BareWalk(f, defs, path, r)
    ensures |path| <= rank(path[|path| - 1]) + 1
    decreases |path|
  {
    if |path| > 1 {
      var front := path[..|path| - 1];
      assert path[|path| - 2 + 1] in Succs(f.blocks[path[|path| - 2]]);
      WalkShort(f, defs, front, rank, r);
    }
  }

  lemma NotLong(f: Func, defs: seq<RegSet>, b: BlockId, rank: BlockId -> nat, r: Reg)
    requires LoopFree(f, rank)
    ensures !BareOfLength(f, defs, b, rank(b) + 1, r)
  {
    forall path | BareInto(f, defs, path, b, r) ensures |path| <= rank(b) + 1 {
      WalkShort(f, defs, path, rank, r);
    }
  }

  /** Without loops, what is not defined at a return is missed on a walk from the entry. */
  lemma EntryMisses(f: Func, defs: seq<RegSet>, rank: BlockId -> nat, r: Reg) returns (path: seq<BlockId>)
    requires |defs| == |f.blocks| && LoopFree(f, rank) && r !in MustDefined(f, defs)
    ensures BareWalk(f, defs, path, r) && path[0] == 0 && f.blocks[path[|path| - 1]].term.Return?
  {
    MustDefinedExactly(f, defs, r);
    var b :| b in ReturnBlocks(f.blocks) && Bare(f, defs, b, r);
    NotLong(f, defs, b, rank, r);
    path :| BareInto(f, defs, path, b, r) && Source(f, path[0]);
  }

  ghost predicate Misses(m: Module, f: FuncId, w: Walk, r: Reg) {
    ReturningWalk(m, f, w) && !StoredOn(m, f, w, r)
  }

  ghost predicate Missable(m: Module, f: FuncId, r: Reg) {
    exists w :: Misses(m, f, w, r)
  }

  ghost function SomeMissing(m: Module, f: FuncId, r: Reg): (w: Walk)
    requires Missable(m, f, r)
    ensures Misses(m, f, w, r)
  {
    var w :| Misses(m, f, w, r); w
  }

  // Functions below which there are neither loops nor recursion.
  ghost predicate Simple(m: Module, d: Defs, fs: set<FuncId>, height: FuncId -> nat, rank: (FuncId, BlockId) -> nat) {
    && ModuleOk(m) && Shape(m, d) && InRange(m, fs) && CallsWithin(m, fs, fs)
    && (forall f, g: FuncId :: f in fs && Calls(m[f], g) ==> height(g) < height(f))
    && (forall f :: f in fs ==> LoopFree(m[f], b => rank(f, b)))
    && forall f :: f in fs ==> MustSettled(m, d, f)
  }

  lemma CallGiven(block: Block, i: nat, table: seq<RegSet>, r: Reg)
    requires i < |block.instrs| && block.instrs[i].Call? && block.instrs[i].callee < |table|
    requires r in table[block.instrs[i].callee]
    ensures r in FromCallees(block, table)
  {
    AllIsAll();
    assert CallGives(block.instrs[i], table, r);
  }

  /** A block that does not define r calls no function that must. */
  lemma CalleeMisses(m: Module, d: Defs, f: FuncId, b: BlockId, i: nat, r: Reg)
    requires ModuleOk(m) && Shape(m, d) && f < |m| && b < |m[f].blocks| && MustSettled(m, d, f)
    requires r !in d.blocks[f][b] && i < |m[f].blocks[b].instrs| && m[f].blocks[b].instrs[i].Call?
    ensures var g := m[f].blocks[b].instrs[i].callee; g < |m| && Calls(m[f], g) && r !in d.must[g]
  {
    var g := m[f].blocks[b].instrs[i].callee;
    assert FuncOk(m, m[f]) && BlockOk(m, m[f].blocks, m[f].blocks[b]) && CallsIn(m[f].blocks[b], g);
    forall q | q in d.must[g] ensures q in d.blocks[f][b] {
      CallGiven(m[f].blocks[b], i, d.must, q);
    }
  }

  ghost predicate CalleesMissable(m: Module, block: Block, r: Reg) {
    forall i :: 0 <= i < |block.instrs| && block.instrs[i].Call? ==> Missable(m, block.instrs[i].callee, r)
  }

  /** A visit on which r is not stored, made of walks through the callees on which it is not. */
  lemma MakeVisit(m: Module, f: FuncId, b: BlockId, r: Reg) returns (v: Visit)
    requires f < |m| && b < |m[f].blocks| && r !in StoredBy(m[f].blocks[b]) && CalleesMissable(m, m[f].blocks[b], r)
    ensures v.block == b && VisitOk(m, f, v) && !StoredDuring(m, f, v, r)
  {
    var instrs := m[f].blocks[b].instrs;
    v := Visit(b, map i: nat | i < |instrs| && instrs[i].Call? :: SomeMissing(m, instrs[i].callee, r));
  }

  lemma {:induction false} VisitMissing(m: Module, d: Defs, fs: set<FuncId>, height: FuncId -> nat,
                                        rank: (FuncId, BlockId) -> nat, f: FuncId, b: BlockId, r: Reg)
    returns (v: Visit)
    requires Simple(m, d, fs, height, rank) && f in fs && b < |m[f].blocks| && r !in d.blocks[f][b]
    ensures v.block == b && VisitOk(m, f, v) && !StoredDuring(m, f, v, r)
    decreases height(f), 0
  {
    var instrs := m[f].blocks[b].instrs;
    assert MustSettled(m, d, f);
    forall i | 0 <= i < |instrs| && instrs[i].Call? ensures Missable(m, instrs[i].callee, r) {
      CalleeMisses(m, d, f, b, i, r);
      var w := WalkMissing(m, d, fs, height, rank, instrs[i].callee, r);
    }
    v := MakeVisit(m, f, b, r);
  }

  lemma {:induction false} VisitsMissing(m: Module, d: Defs, fs: set<FuncId>, height: FuncId -> nat,
                                         rank: (FuncId, BlockId) -> nat, f: FuncId, path: seq<BlockId>, r: Reg)
    returns (visits: seq<Visit>)
    requires Simple(m, d, fs, height, rank) && f in fs && BareWalk(m[f], d.blocks[f], path, r)
    ensures |visits| == |path|
    ensures forall k :: 0 <= k < |path| ==>
      visits[k].block == path[k] && VisitOk(m, f, visits[k]) && !StoredDuring(m, f, visits[k], r)
    decreases height(f), 1
  {
    visits := [];
    for k := 0 to |path|
      invariant |visits| == k
      invariant forall j :: 0 <= j < k ==>
        visits[j].block == path[j] && VisitOk(m, f, visits[j]) && !StoredDuring(m, f, visits[j], r)
    {
      var v := VisitMissing(m, d, fs, height, rank, f, path[k], r);
      visits := visits + [v];
    }
  }

  lemma {:induction false} WalkMissing(m: Module, d: Defs, fs: set<FuncId>, height: FuncId -> nat,
                                       rank: (FuncId, BlockId) -> nat, f: FuncId, r: Reg)
    returns (w: Walk)
    requires Simple(m, d, fs, height, rank) && f in fs && r !in d.must[f]
    ensures Misses(m, f, w, r)
    decreases height(f), 2
  {
    assert MustSettled(m, d, f);
    var path := EntryMisses(m[f], d.blocks[f], b => rank(f, b), r);
    var visits := VisitsMissing(m, d, fs, height, rank, f, path, r);
    w := Walk(visits);
    forall k | 0 <= k < |visits| - 1 ensures visits[k + 1].block in Succs(m[f].blocks[visits[k].block]) {
      assert path[k + 1] in Succs(m[f].blocks[path[k]]);
    }
  }

  /** Without loops and recursion, a register is must-defined exactly if every walk stores it. */
  lemma MustDefIffStored(m: Module, d: Defs, fs: set<FuncId>, height: FuncId -> nat,
                         rank: (FuncId, BlockId) -> nat, f: FuncId, r: Reg)
    requires Simple(m, d, fs, height, rank) && AllSound(m, d) && f in fs
    ensures r in d.must[f] <==> forall w :: !Misses(m, f, w, r)
  {
    if r in d.must[f] {
      forall w | ReturningWalk(m, f, w) ensures !Misses(m, f, w, r) {
        MustDefStored(m, d, f, w, r);
      }
    } else {
      var w := WalkMissing(m, d, fs, height, rank, f, r);
    }
  }
}
