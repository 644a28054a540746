/**
 What the liveness fixpoint computes, without its equations: a register is live at a point exactly
 if some route through the module, along branches, into callees and back to call sites, leads to a
 load of it with no definition of it on the way.
 */
module LiveWalks {
  import opened Registers
  import opened Ir
  import opened DefSweep
  import opened Liveness

  // Before instruction at of a block, or behind its last.
  datatype Point = Point(func: FuncId, block: BlockId, at: nat)

  ghost predicate IsPoint(m: Module, fs: set<FuncId>, p: Point) {
    p.func in fs && p.func < |m| && p.block < |m[p.func].blocks| && p.at <= |BlockOf(m, p).instrs|
  }

  function BlockOf(m: Module, p: Point): Block
    requires p.func < |m| && p.block < |m[p.func].blocks|
  {
    m[p.func].blocks[p.block]
  }

  /** Not stored by an instruction, nor by a callee on every path. */
  predicate Survives(instr: Instr, must: seq<RegSet>, r: Reg) {
    match instr
    case Store(q, _) => q != r
    case Call(g) => g < |must| ==> r !in must[g]
    case _ => true
  }

  /** The point is just behind a call of g. */
  predicate BehindCall(m: Module, g: FuncId, p: Point)
    requires p.func < |m| && p.block < |m[p.func].blocks| && p.at <= |BlockOf(m, p).instrs|
  {
    p.at > 0 && BlockOf(m, p).instrs[p.at - 1] == Call(g)
  }

  /** The function may store the register, or always does: only then does it give it back. */
  predicate Gives(d: Defs, g: FuncId, r: Reg) {
    g < |d.must| && g < |d.may| && (r in d.must[g] || r in d.may[g])
  }

  /** From p the value of r at q may be the one at p, or be what the function of p leaves in r. */
  ghost predicate Leads(m: Module, fs: set<FuncId>, d: Defs, p: Point, q: Point, r: Reg)
    requires IsPoint(m, fs, p) && IsPoint(m, fs, q)
  {
    var block := BlockOf(m, p);
    if p.at < |block.instrs| then
      || (q == p.(at := p.at + 1) && Survives(block.instrs[p.at], d.must, r))
      || (block.instrs[p.at].Call? && q == Point(block.instrs[p.at].callee, 0, 0))
    else
      || (q.func == p.func && q.at == 0 && q.block in Succs(block))
      || (block.term.Return? && BehindCall(m, p.func, q) && Gives(d, p.func, r))
  }

  ghost predicate LoadedAt(m: Module, p: Point, r: Reg)
    requires p.func < |m| && p.block < |m[p.func].blocks|
  {
    var instrs := BlockOf(m, p).instrs;
    p.at < |instrs| && instrs[p.at].Load? && instrs[p.at].reg == r
  }

  /** A route to a load of r. */
  ghost predicate Route(m: Module, fs: set<FuncId>, d: Defs, path: seq<Point>, r: Reg) {
    && path != []
    && (forall k :: 0 <= k < |path| ==> IsPoint(m, fs, path[k]))
    && (forall k :: 0 <= k < |path| - 1 ==> Leads(m, fs, d, path[k], path[k + 1], r))
    && LoadedAt(m, path[|path| - 1], r)
  }

  ghost predicate Needed(m: Module, fs: set<FuncId>, d: Defs, p: Point, r: Reg) {
    exists path :: Route(m, fs, d, path, r) && path[0] == p
  }

  /** What g leaves in r is needed behind some call of g. */
  ghost predicate NeededBehind(m: Module, fs: set<FuncId>, d: Defs, g: FuncId, r: Reg) {
    exists q :: IsPoint(m, fs, q) && BehindCall(m, g, q) && Needed(m, fs, d, q, r)
  }

  /** Block by block, input by input and output by output: exactly what is needed. */
  ghost predicate ExactlyNeeded(m: Module, fs: set<FuncId>, d: Defs, l: Live)
    requires LiveShape(m, l)
  {
    && (forall f, b: BlockId, r :: f in fs && f < |m| && b < |m[f].blocks| ==>
          (r in l.blocks[f][b] <==> Needed(m, fs, d, Point(f, b, 0), r)))
    && (forall f: FuncId, r :: f < |m| ==> (r in l.ins[f] <==> f in fs && Needed(m, fs, d, Point(f, 0, 0), r)))
    && (forall g: FuncId, r :: g < |m| ==>
          (r in l.outs[g] <==> Gives(d, g, r) && NeededBehind(m, fs, d, g, r)))
  }

  // ----- every solution has what is needed -----

  ghost function LiveAtPoint(m: Module, fs: set<FuncId>, d: Defs, l: Live, p: Point): RegSet
    requires LiveShape(m, l) && IsPoint(m, fs, p)
  {
    LiveAt(BlockOf(m, p), p.at, LiveEnd(BlockOf(m, p), l.blocks[p.func], l.outs[p.func]), d.must, l.ins)
  }

  ghost predicate AllSolved(m: Module, fs: set<FuncId>, d: Defs, l: Live) {
    && ModuleOk(m) && Shape(m, d) && LiveShape(m, l)
    && forall f :: f in fs ==> f < |m| && FuncSolved(m, d, f, l)
  }

  lemma StepLive(m: Module, fs: set<FuncId>, d: Defs, l: Live, p: Point, q: Point, r: Reg)
    requires AllSolved(m, fs, d, l) && IsPoint(m, fs, p) && IsPoint(m, fs, q) && Leads(m, fs, d, p, q, r)
    requires r in LiveAtPoint(m, fs, d, l, q)
    ensures r in LiveAtPoint(m, fs, d, l, p)
  {
    var block := BlockOf(m, p);
    assert FuncOk(m, m[p.func]) && BlockOk(m, m[p.func].blocks, block);
    if q.at == 0 {
      assert FuncSolved(m, d, q.func, l) && BlockSolved(m, d, q.func, q.block, l);
      assert r in l.blocks[q.func][q.block];
    }
    if p.at == |block.instrs| {
      if q.func == p.func && q.at == 0 && q.block in Succs(block) {
        assert LiveInSucc(block, l.blocks[p.func], r);
        AllIsAll();
      } else {
        CallDemands(m, fs, d, l, p.func, q, r);
      }
    }
  }

  lemma CallDemands(m: Module, fs: set<FuncId>, d: Defs, l: Live, g: FuncId, q: Point, r: Reg)
    requires AllSolved(m, fs, d, l) && IsPoint(m, fs, q) && g < |m| && BehindCall(m, g, q) && Gives(d, g, r)
    requires r in LiveAtPoint(m, fs, d, l, q)
    ensures r in l.outs[g]
  {
    var block := BlockOf(m, q);
    assert FuncSolved(m, d, q.func, l) && BlockSolved(m, d, q.func, q.block, l);
    var end := LiveEnd(block, l.blocks[q.func], l.outs[q.func]);
    assert CallOut(block.instrs[q.at - 1].callee, LiveAt(block, q.at - 1 + 1, end, d.must, l.ins), d) <= l.outs[g];
  }

  lemma {:induction false} RouteLive(m: Module, fs: set<FuncId>, d: Defs, l: Live, path: seq<Point>, r: Reg)
    requires AllSolved(m, fs, d, l) && Route(m, fs, d, path, r)
    ensures r in LiveAtPoint(m, fs, d, l, path[0])
  {
    if |path| > 1 {
      RouteTail(m, fs, d, path, r);
      RouteLive(m, fs, d, l, path[1..], r);
      assert Leads(m, fs, d, path[0], path[0 + 1], r);
      StepLive(m, fs, d, l, path[0], path[1], r);
    }
  }

  lemma RouteTail(m: Module, fs: set<FuncId>, d: Defs, path: seq<Point>, r: Reg)
    requires Route(m, fs, d, path, r) && |path| > 1
    ensures Route(m, fs, d, path[1..], r)
  {
    forall k | 0 <= k < |path[1..]| - 1 ensures Leads(m, fs, d, path[1..][k], path[1..][k + 1], r) {
      assert Leads(m, fs, d, path[k + 1], path[k + 1 + 1], r);
    }
  }

  // ----- what is needed solves the equations -----

  lemma LoadNeeded(m: Module, fs: set<FuncId>, d: Defs, p: Point, r: Reg)
    requires IsPoint(m, fs, p) && LoadedAt(m, p, r)
    ensures Needed(m, fs, d, p, r)
  {
    assert Route(m, fs, d, [p], r);
  }

  lemma LeadsNeeded(m: Module, fs: set<FuncId>, d: Defs, p: Point, q: Point, r: Reg)
    requires IsPoint(m, fs, p) && IsPoint(m, fs, q) && Leads(m, fs, d, p, q, r) && Needed(m, fs, d, q, r)
    ensures Needed(m, fs, d, p, r)
  {
    var path :| Route(m, fs, d, path, r) && path[0] == q;
    var longer := [p] + path;
    forall k | 0 <= k < |longer| - 1 ensures Leads(m, fs, d, longer[k], longer[k + 1], r) {
      if k > 0 {
        assert Leads(m, fs, d, path[k - 1], path[k - 1 + 1], r);
      }
    }
    assert Route(m, fs, d, longer, r);
  }

  ghost function NeededRow(m: Module, fs: set<FuncId>, d: Defs, f: FuncId, b: BlockId): RegSet {
    set r | r in ALL && f in fs && Needed(m, fs, d, Point(f, b, 0), r)
  }

  ghost function NeededOut(m: Module, fs: set<FuncId>, d: Defs, g: FuncId): RegSet {
    set r | r in ALL && Gives(d, g, r) && NeededBehind(m, fs, d, g, r)
  }

  ghost function NeededLive(m: Module, fs: set<FuncId>, d: Defs): (s: Live)
    ensures LiveShape(m, s)
  {
    Live(seq(|m|, f requires 0 <= f < |m| =>
           seq(|m[f].blocks|, b requires 0 <= b < |m[f].blocks| => NeededRow(m, fs, d, f, b))),
         seq(|m|, f requires 0 <= f < |m| => NeededRow(m, fs, d, f, 0)),
         seq(|m|, f requires 0 <= f < |m| => NeededOut(m, fs, d, f)))
  }

  lemma EndNeeded(m: Module, fs: set<FuncId>, d: Defs, s: Live, p: Point, r: Reg)
    requires ModuleOk(m) && s == NeededLive(m, fs, d) && IsPoint(m, fs, p) && p.at == |BlockOf(m, p).instrs|
    requires r in LiveEnd(BlockOf(m, p), s.blocks[p.func], s.outs[p.func])
    ensures Needed(m, fs, d, p, r)
  {
    var block := BlockOf(m, p);
    assert FuncOk(m, m[p.func]) && BlockOk(m, m[p.func].blocks, block);
    if LiveInSucc(block, s.blocks[p.func], r) {
      var k :| 0 <= k < |Succs(block)| && Succs(block)[k] < |s.blocks[p.func]| &&
        r in s.blocks[p.func][Succs(block)[k]];
      assert Succs(block)[k] in Succs(block);
      LeadsNeeded(m, fs, d, p, Point(p.func, Succs(block)[k], 0), r);
    } else {
      assert r in NeededOut(m, fs, d, p.func);
      var q :| IsPoint(m, fs, q) && BehindCall(m, p.func, q) && Needed(m, fs, d, q, r);
      LeadsNeeded(m, fs, d, p, q, r);
    }
  }

  lemma {:induction false} LiveNeeded(m: Module, fs: set<FuncId>, d: Defs, s: Live, p: Point, r: Reg)
    requires ModuleOk(m) && Shape(m, d) && s == NeededLive(m, fs, d) && IsPoint(m, fs, p)
    requires r in LiveAtPoint(m, fs, d, s, p)
    ensures Needed(m, fs, d, p, r)
    decreases |BlockOf(m, p).instrs| - p.at
  {
    var block := BlockOf(m, p);
    assert FuncOk(m, m[p.func]) && BlockOk(m, m[p.func].blocks, block);
    if p.at == |block.instrs| {
      EndNeeded(m, fs, d, s, p, r);
    } else {
      var next := p.(at := p.at + 1);
      if r in LiveAtPoint(m, fs, d, s, next) && Survives(block.instrs[p.at], d.must, r) {
        LiveNeeded(m, fs, d, s, next, r);
        LeadsNeeded(m, fs, d, p, next, r);
      } else if block.instrs[p.at].Call? {
        var g := block.instrs[p.at].callee;
        assert r in NeededRow(m, fs, d, g, 0);
        assert FuncOk(m, m[g]);
        LeadsNeeded(m, fs, d, p, Point(g, 0, 0), r);
      } else {
        LoadNeeded(m, fs, d, p, r);
      }
    }
  }

  lemma NeededSolved(m: Module, fs: set<FuncId>, d: Defs, f: FuncId)
    requires ModuleOk(m) && Shape(m, d) && f in fs && f < |m|
    ensures FuncSolved(m, d, f, NeededLive(m, fs, d))
  {
    var s := NeededLive(m, fs, d);
    AllIsAll();
    forall b: BlockId | b < |m[f].blocks| ensures BlockSolved(m, d, f, b, s) {
      var block := m[f].blocks[b];
      assert FuncOk(m, m[f]) && BlockOk(m, m[f].blocks, block);
      forall r | r in LiveAtPoint(m, fs, d, s, Point(f, b, 0)) ensures r in s.blocks[f][b] {
        LiveNeeded(m, fs, d, s, Point(f, b, 0), r);
      }
      forall j | 0 <= j < |block.instrs| && block.instrs[j].Call? && block.instrs[j].callee < |m|
        ensures CallOut(block.instrs[j].callee,
                        LiveAt(block, j + 1, LiveEnd(block, s.blocks[f], s.outs[f]), d.must, s.ins), d)
                <= s.outs[block.instrs[j].callee]
      {
        CallCovered(m, fs, d, s, Point(f, b, j + 1));
      }
    }
  }

  lemma CallCovered(m: Module, fs: set<FuncId>, d: Defs, s: Live, q: Point)
    requires ModuleOk(m) && Shape(m, d) && s == NeededLive(m, fs, d) && IsPoint(m, fs, q)
    requires q.at > 0 && BlockOf(m, q).instrs[q.at - 1].Call? && BlockOf(m, q).instrs[q.at - 1].callee < |m|
    ensures CallOut(BlockOf(m, q).instrs[q.at - 1].callee, LiveAtPoint(m, fs, d, s, q), d)
            <= s.outs[BlockOf(m, q).instrs[q.at - 1].callee]
  {
    var g := BlockOf(m, q).instrs[q.at - 1].callee;
    AllIsAll();
    forall r | r in CallOut(g, LiveAtPoint(m, fs, d, s, q), d) ensures r in s.outs[g] {
      LiveNeeded(m, fs, d, s, q, r);
      assert NeededBehind(m, fs, d, g, r);
    }
  }

  // ----- the least solution -----

  /** The least solution has exactly what is needed. */
  lemma LiveExactly(m: Module, d: Defs, fs: seq<FuncId>, l: Live)
    requires ModuleOk(m) && InRange(m, Members(fs)) && LeastSolution(m, d, fs, l)
    ensures ExactlyNeeded(m, Members(fs), d, l)
  {
    var all, s := Members(fs), NeededLive(m, Members(fs), d);
    forall k | 0 <= k < |fs| && fs[k] < |m| ensures FuncSolved(m, d, fs[k], s) {
      assert fs[k] in all;
      NeededSolved(m, all, d, fs[k]);
    }
    assert Solution(m, d, fs, s) && Below(m, l, s);
    forall f | f in all ensures FuncSolved(m, d, f, l) {
      var k :| 0 <= k < |fs| && fs[k] == f;
    }
    AllIsAll();
    forall f, b: BlockId, r | f in all && b < |m[f].blocks|
      ensures r in l.blocks[f][b] <==> Needed(m, all, d, Point(f, b, 0), r)
    {
      RowExactly(m, all, d, l, s, f, b, r);
    }
    forall f: FuncId, r | f < |m| ensures r in l.ins[f] <==> f in all && Needed(m, all, d, Point(f, 0, 0), r) {
      assert FuncOk(m, m[f]) && l.ins[f] <= s.ins[f];
      if f in all {
        assert l.blocks[f][0] <= l.ins[f];
        RowExactly(m, all, d, l, s, f, 0, r);
      }
    }
    forall g: FuncId, r | g < |m|
      ensures r in l.outs[g] <==> Gives(d, g, r) && NeededBehind(m, all, d, g, r)
    {
      assert l.outs[g] <= s.outs[g];
      if Gives(d, g, r) && NeededBehind(m, all, d, g, r) {
        var q :| IsPoint(m, all, q) && BehindCall(m, g, q) && Needed(m, all, d, q, r);
        var path :| Route(m, all, d, path, r) && path[0] == q;
        RouteLive(m, all, d, l, path, r);
        CallDemands(m, all, d, l, g, q, r);
      }
    }
  }

  lemma RowExactly(m: Module, fs: set<FuncId>, d: Defs, l: Live, s: Live, f: FuncId, b: BlockId, r: Reg)
    requires AllSolved(m, fs, d, l) && s == NeededLive(m, fs, d) && Below(m, l, s)
    requires f in fs && f < |m| && b < |m[f].blocks|
    ensures r in l.blocks[f][b] <==> Needed(m, fs, d, Point(f, b, 0), r)
  {
    AllIsAll();
    assert Leq(l.blocks[f], s.blocks[f]);
    assert l.blocks[f][b] <= s.blocks[f][b];
    if Needed(m, fs, d, Point(f, b, 0), r) {
      var path :| Route(m, fs, d, path, r) && path[0] == Point(f, b, 0);
      RouteLive(m, fs, d, l, path, r);
      assert FuncSolved(m, d, f, l) && BlockSolved(m, d, f, b, l);
    }
  }

  /** No function gives back a register that neither it nor a function below it may store. */
  lemma OutsStored(m: Module, d: Defs, fs: set<FuncId>, l: Live, g: FuncId)
    requires Shape(m, d) && AllSound(m, d) && LiveShape(m, l) && ExactlyNeeded(m, fs, d, l) && g < |m|
    ensures l.outs[g] <= MayStore(m, g) + d.must[g]
  {
    assert Sound(m, d, g);
    forall r | r in l.outs[g] ensures r in MayStore(m, g) + d.must[g] {
      assert Gives(d, g, r);
    }
  }

  // ----- one function at a time -----

  /** The next point of a walk that stays in the function and steps over calls. */
  ghost predicate Walks(m: Module, fs: set<FuncId>, d: Defs, p: Point, q: Point, r: Reg)
    requires IsPoint(m, fs, p) && IsPoint(m, fs, q)
  {
    var block := BlockOf(m, p);
    if p.at < |block.instrs| then q == p.(at := p.at + 1) && Survives(block.instrs[p.at], d.must, r)
    else q.func == p.func && q.at == 0 && q.block in Succs(block)
  }

  /** A load of r, a call of a function that takes r, or a return of one that gives it back. */
  ghost predicate UsedAt(m: Module, l: Live, p: Point, r: Reg)
    requires LiveShape(m, l) && p.func < |m| && p.block < |m[p.func].blocks|
  {
    var block := BlockOf(m, p);
    if p.at < |block.instrs| then
      LoadedAt(m, p, r) || (block.instrs[p.at].Call? && block.instrs[p.at].callee < |m| &&
        r in l.ins[block.instrs[p.at].callee])
    else block.term.Return? && r in l.outs[p.func]
  }

  ghost predicate Walk(m: Module, fs: set<FuncId>, d: Defs, l: Live, path: seq<Point>, r: Reg)
    requires LiveShape(m, l)
  {
    && path != []
    && (forall k :: 0 <= k < |path| ==> IsPoint(m, fs, path[k]))
    && (forall k :: 0 <= k < |path| - 1 ==> Walks(m, fs, d, path[k], path[k + 1], r))
    && UsedAt(m, l, path[|path| - 1], r)
  }

  ghost predicate WalkFrom(m: Module, fs: set<FuncId>, d: Defs, l: Live, p: Point, r: Reg)
    requires LiveShape(m, l)
  {
    exists path :: Walk(m, fs, d, l, path, r) && path[0] == p
  }

  lemma UseNeeded(m: Module, fs: set<FuncId>, d: Defs, l: Live, p: Point, r: Reg)
    requires ModuleOk(m) && LiveShape(m, l) && ExactlyNeeded(m, fs, d, l) && IsPoint(m, fs, p) && UsedAt(m, l, p, r)
    ensures Needed(m, fs, d, p, r)
  {
    var block := BlockOf(m, p);
    if p.at == |block.instrs| {
      var q :| IsPoint(m, fs, q) && BehindCall(m, p.func, q) && Needed(m, fs, d, q, r);
      LeadsNeeded(m, fs, d, p, q, r);
    } else if LoadedAt(m, p, r) {
      LoadNeeded(m, fs, d, p, r);
    } else {
      var g := block.instrs[p.at].callee;
      assert FuncOk(m, m[g]);
      LeadsNeeded(m, fs, d, p, Point(g, 0, 0), r);
    }
  }

  lemma {:induction false} WalkNeeded(m: Module, fs: set<FuncId>, d: Defs, l: Live, path: seq<Point>, r: Reg)
    requires ModuleOk(m) && LiveShape(m, l) && ExactlyNeeded(m, fs, d, l) && Walk(m, fs, d, l, path, r)
    ensures Needed(m, fs, d, path[0], r)
  {
    if |path| == 1 {
      UseNeeded(m, fs, d, l, path[0], r);
    } else {
      WalkTail(m, fs, d, l, path, r);
      WalkNeeded(m, fs, d, l, path[1..], r);
      assert Walks(m, fs, d, path[0], path[0 + 1], r);
      LeadsNeeded(m, fs, d, path[0], path[1], r);
    }
  }

  lemma WalkTail(m: Module, fs: set<FuncId>, d: Defs, l: Live, path: seq<Point>, r: Reg)
    requires LiveShape(m, l) && Walk(m, fs, d, l, path, r) && |path| > 1
    ensures Walk(m, fs, d, l, path[1..], r)
  {
    forall k | 0 <= k < |path[1..]| - 1 ensures Walks(m, fs, d, path[1..][k], path[1..][k + 1], r) {
      assert Walks(m, fs, d, path[k + 1], path[k + 1 + 1], r);
    }
  }

  lemma WalkLonger(m: Module, fs: set<FuncId>, d: Defs, l: Live, p: Point, q: Point, r: Reg)
    requires LiveShape(m, l) && IsPoint(m, fs, p) && IsPoint(m, fs, q) && Walks(m, fs, d, p, q, r)
    requires WalkFrom(m, fs, d, l, q, r)
    ensures WalkFrom(m, fs, d, l, p, r)
  {
    var path :| Walk(m, fs, d, l, path, r) && path[0] == q;
    var longer := [p] + path;
    forall k | 0 <= k < |longer| - 1 ensures Walks(m, fs, d, longer[k], longer[k + 1], r) {
      if k > 0 {
        assert Walks(m, fs, d, path[k - 1], path[k - 1 + 1], r);
      }
    }
    assert Walk(m, fs, d, l, longer, r);
  }

  /** A route's part in its first function is a walk to a use. */
  lemma {:induction false} RouteWalks(m: Module, fs: set<FuncId>, d: Defs, l: Live, path: seq<Point>, r: Reg)
    requires LiveShape(m, l) && ExactlyNeeded(m, fs, d, l) && Route(m, fs, d, path, r)
    ensures WalkFrom(m, fs, d, l, path[0], r)
  {
    var p := path[0];
    if |path| > 1 {
      var q := path[0 + 1];
      assert Leads(m, fs, d, p, q, r);
      RouteTail(m, fs, d, path, r);
      assert Needed(m, fs, d, q, r) by { assert path[1..][0] == q; }
      if Walks(m, fs, d, p, q, r) {
        RouteWalks(m, fs, d, l, path[1..], r);
        WalkLonger(m, fs, d, l, p, q, r);
        return;
      }
    }
    assert UsedAt(m, l, p, r);
    assert Walk(m, fs, d, l, [p], r);
  }

  /**
   A register is an input exactly if some walk from the entry meets a load of it, a call that takes
   it, or a return that gives it back, before any store of it or call that must define it.
   */
  lemma InputsByWalks(m: Module, fs: set<FuncId>, d: Defs, l: Live, f: FuncId, r: Reg)
    requires ModuleOk(m) && LiveShape(m, l) && ExactlyNeeded(m, fs, d, l) && f in fs && f < |m|
    ensures r in l.ins[f] <==> WalkFrom(m, fs, d, l, Point(f, 0, 0), r)
  {
    if Needed(m, fs, d, Point(f, 0, 0), r) {
      var path :| Route(m, fs, d, path, r) && path[0] == Point(f, 0, 0);
      RouteWalks(m, fs, d, l, path, r);
    }
    if WalkFrom(m, fs, d, l, Point(f, 0, 0), r) {
      var path :| Walk(m, fs, d, l, path, r) && path[0] == Point(f, 0, 0);
      WalkNeeded(m, fs, d, l, path, r);
    }
  }
}
