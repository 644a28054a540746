/**
 The bottom-up sweep over the strongly connected components of the call graph that
 computes, for every function, the registers it must and may define.
 */
module DefSweep {
  import opened Registers
  import opened Ir
  import opened MustDefs

  // One row per function: definitions of each block, must-definitions, may-definitions.
  datatype Defs = Defs(blocks: seq<seq<RegSet>>, must: seq<RegSet>, may: seq<RegSet>)

  ghost predicate Shape(m: Module, d: Defs) {
    && |d.blocks| == |d.must| == |d.may| == |m|
    && forall f :: 0 <= f < |m| ==> |d.blocks[f]| == |m[f].blocks|
  }

  // ----- what calls contribute -----

  ghost predicate CallGives(instr: Instr, table: seq<RegSet>, r: Reg) {
    instr.Call? && instr.callee < |table| && r in table[instr.callee]
  }

  ghost predicate Given(block: Block, table: seq<RegSet>, r: Reg) {
    exists i :: 0 <= i < |block.instrs| && CallGives(block.instrs[i], table, r)
  }

  ghost function FromCallees(block: Block, table: seq<RegSet>): RegSet {
    set r | r in ALL && Given(block, table, r)
  }

  ghost function FromAllCallees(f: Func, table: seq<RegSet>): RegSet {
    set r | r in ALL && exists b :: 0 <= b < |f.blocks| && Given(f.blocks[b], table, r)
  }

  // ----- what the sweep is to compute -----

  ghost predicate StoredBelow(m: Module, f: FuncId, r: Reg) {
    exists g: FuncId :: Reaches(m, f, g) && g < |m| && r in Stores(m[g])
  }

  /** The registers stored by some function reachable from f. */
  ghost function MayStore(m: Module, f: FuncId): RegSet {
    set r | r in ALL && StoredBelow(m, f, r)
  }

  /** The must-equations hold at f. */
  ghost predicate MustSettled(m: Module, d: Defs, f: FuncId)
    requires Shape(m, d) && f < |m|
  {
    && (forall b :: 0 <= b < |m[f].blocks| ==>
          d.blocks[f][b] == StoredBy(m[f].blocks[b]) + FromCallees(m[f].blocks[b], d.must))
    && d.must[f] == MustDefined(m[f], d.blocks[f])
  }

  ghost predicate Settled(m: Module, d: Defs, f: FuncId)
    requires Shape(m, d) && f < |m|
  {
    MustSettled(m, d, f) && d.may[f] == MayStore(m, f)
  }

  /** What holds of every function at every moment of the sweep. */
  ghost predicate Sound(m: Module, d: Defs, f: FuncId)
    requires Shape(m, d) && f < |m|
  {
    && (forall b :: 0 <= b < |m[f].blocks| ==>
          && StoredBy(m[f].blocks[b]) <= d.blocks[f][b]
          && d.blocks[f][b] <= StoredBy(m[f].blocks[b]) + FromCallees(m[f].blocks[b], d.must))
    && d.must[f] <= MustDefined(m[f], d.blocks[f])
    && Stores(m[f]) <= d.may[f] <= MayStore(m, f)
  }

  ghost predicate AllSound(m: Module, d: Defs)
    requires Shape(m, d)
  {
    forall f :: 0 <= f < |m| ==> Sound(m, d, f)
  }

  // ----- the order the components come in -----

  ghost function Earlier(sccs: seq<seq<FuncId>>, n: nat): set<FuncId>
    requires n <= |sccs|
  {
    set i, f | 0 <= i < n && f in sccs[i] :: f
  }

  /** Components come callees first, and the members of one reach each other. */
  ghost predicate BottomUp(m: Module, sccs: seq<seq<FuncId>>) {
    && (forall i, f :: 0 <= i < |sccs| && f in sccs[i] ==> f < |m|)
    && (forall i, f :: 0 <= i < |sccs| && f in sccs[i] ==> f !in Earlier(sccs, i))
    && (forall i, f, g :: 0 <= i < |sccs| && f in sccs[i] && g in sccs[i] ==> Reaches(m, f, g))
    && forall i, f, g :: 0 <= i < |sccs| && f in sccs[i] && Calls(m[f], g) ==>
         g in Earlier(sccs, i + 1)
  }

  // ----- the sweep -----

  /** What the calls of one block contribute to its row and to its function's. */
  method AbsorbBlock(m: Module, f: FuncId, block: Block, d: Defs, row: RegSet, mayRow: RegSet)
    returns (row': RegSet, mayRow': RegSet)
    requires Shape(m, d) && f < |m| && BlockOk(m, m[f].blocks, block) && d.may[f] <= mayRow
    ensures row' == row + FromCallees(block, d.must)
    ensures forall r :: r in mayRow' <==> r in mayRow || Given(block, d.may, r)
  {
    AllIsAll();
    row', mayRow' := row, mayRow;
    for i := 0 to |block.instrs|
      invariant forall r :: r in row' <==> r in row || exists j :: 0 <= j < i && CallGives(block.instrs[j], d.must, r)
      invariant forall r :: r in mayRow' <==>
        r in mayRow || exists j :: 0 <= j < i && CallGives(block.instrs[j], d.may, r)
    {
      if block.instrs[i].Call? {
        var cf := block.instrs[i].callee;
        assert forall r :: CallGives(block.instrs[i], d.may, r) <==> r in d.may[cf];
        assert forall r :: CallGives(block.instrs[i], d.must, r) <==> r in d.must[cf];
        row' := row' + d.must[cf];
        mayRow' := mayRow' + if cf == f then mayRow' else d.may[cf];
      }
    }
  }

  /** What calls contribute, block by block, as the scan over all instructions collects it. */
  method AbsorbCallees(m: Module, f: FuncId, d: Defs) returns (d': Defs)
    requires ModuleOk(m) && Shape(m, d) && f < |m|
    ensures Shape(m, d') && d'.must == d.must
    ensures forall g :: 0 <= g < |m| && g != f ==> d'.blocks[g] == d.blocks[g] && d'.may[g] == d.may[g]
    ensures forall b :: 0 <= b < |m[f].blocks| ==>
      d'.blocks[f][b] == d.blocks[f][b] + FromCallees(m[f].blocks[b], d.must)
    ensures d'.may[f] == d.may[f] + FromAllCallees(m[f], d.may)
  {
    AllIsAll();
    var blocks, may := d.blocks, d.may;
    for b := 0 to |m[f].blocks|
      invariant |blocks| == |may| == |m|
      invariant forall g :: 0 <= g < |m| ==> |blocks[g]| == |m[g].blocks|
      invariant forall g :: 0 <= g < |m| && g != f ==> blocks[g] == d.blocks[g] && may[g] == d.may[g]
      invariant forall c :: 0 <= c < |m[f].blocks| ==>
        blocks[f][c] == d.blocks[f][c] + (if c < b then FromCallees(m[f].blocks[c], d.must) else {})
      invariant forall r :: r in may[f] <==>
        r in d.may[f] || exists c :: 0 <= c < b && Given(m[f].blocks[c], d.may, r)
    {
      assert BlockOk(m, m[f].blocks, m[f].blocks[b]);
      var row, mayRow := AbsorbBlock(m, f, m[f].blocks[b], d, blocks[f][b], may[f]);
      blocks := blocks[f := blocks[f][b := row]];
      may := may[f := mayRow];
    }
    d' := Defs(blocks, d.must, may);
  }

  // ----- steps that keep the facts above -----

  lemma MayStoreOfCallee(m: Module, f: FuncId, g: FuncId)
    requires f < |m| && g < |m| && Calls(m[f], g)
    ensures MayStore(m, g) <= MayStore(m, f)
  {
    forall r, h: FuncId | Reaches(m, g, h) && h < |m| && r in Stores(m[h])
      ensures StoredBelow(m, f, r)
    {
      ReachesStep(m, f, g, h);
    }
  }

  lemma MayStoreOfReached(m: Module, f: FuncId, g: FuncId)
    requires Reaches(m, f, g)
    ensures MayStore(m, g) <= MayStore(m, f)
  {
    forall r, h: FuncId | Reaches(m, g, h) && h < |m| && r in Stores(m[h])
      ensures StoredBelow(m, f, r)
    {
      ReachesTransitive(m, f, g, h);
    }
  }

  lemma CalleesMayStore(m: Module, f: FuncId, may: seq<RegSet>)
    requires ModuleOk(m) && f < |m| && |may| == |m|
    requires forall g :: 0 <= g < |m| ==> may[g] <= MayStore(m, g)
    ensures FromAllCallees(m[f], may) <= MayStore(m, f)
  {
    forall r | r in FromAllCallees(m[f], may) ensures r in MayStore(m, f) {
      var b :| 0 <= b < |m[f].blocks| && Given(m[f].blocks[b], may, r);
      var i :| 0 <= i < |m[f].blocks[b].instrs| && CallGives(m[f].blocks[b].instrs[i], may, r);
      var g := m[f].blocks[b].instrs[i].callee;
      assert CallsIn(m[f].blocks[b], g);
      MayStoreOfCallee(m, f, g);
    }
  }

  lemma FromCalleesMonotone(block: Block, a: seq<RegSet>, b: seq<RegSet>)
    requires Leq(a, b)
    ensures FromCallees(block, a) <= FromCallees(block, b)
  {
    forall r | Given(block, a, r) ensures Given(block, b, r) {
      var i :| 0 <= i < |block.instrs| && CallGives(block.instrs[i], a, r);
      assert CallGives(block.instrs[i], b, r);
    }
  }

  /** Rows of functions that are not called do not matter. */
  lemma FromCalleesFrame(block: Block, a: seq<RegSet>, b: seq<RegSet>)
    requires |a| == |b|
    requires forall g: FuncId :: g < |a| && CallsIn(block, g) ==> a[g] == b[g]
    ensures FromCallees(block, a) == FromCallees(block, b)
  {
    forall i, r | 0 <= i < |block.instrs|
      ensures CallGives(block.instrs[i], a, r) <==> CallGives(block.instrs[i], b, r)
    {
      if block.instrs[i].Call? {
        assert CallsIn(block, block.instrs[i].callee);
      }
    }
  }

  lemma CalleeRowIncluded(f: Func, g: FuncId, table: seq<RegSet>)
    requires Calls(f, g) && g < |table|
    ensures table[g] <= FromAllCallees(f, table)
  {
    AllIsAll();
    var b :| 0 <= b < |f.blocks| && CallsIn(f.blocks[b], g);
    var i :| 0 <= i < |f.blocks[b].instrs| && f.blocks[b].instrs[i] == Call(g);
    forall r | r in table[g] ensures r in FromAllCallees(f, table) {
      assert CallGives(f.blocks[b].instrs[i], table, r);
      assert Given(f.blocks[b], table, r);
    }
  }

  /** A set closed under a component's own stores and its calls out of the component has it all. */
  lemma {:induction false} PathStoresWithin(m: Module, scc: set<FuncId>, done: set<FuncId>, s: RegSet,
                                            path: seq<FuncId>)
    requires CallPath(m, path) && path[0] in scc
    requires forall f :: f in scc ==> f < |m| && Stores(m[f]) <= s
    requires forall f, g: FuncId :: f in scc && Calls(m[f], g) ==> g in scc + done
    requires forall f, g: FuncId :: f in scc && g in done && Calls(m[f], g) ==> MayStore(m, g) <= s
    ensures Stores(m[path[|path| - 1]]) <= s
  {
    if |path| > 1 {
      var rest := path[1..];
      assert forall k :: 0 <= k < |rest| ==> rest[k] == path[k + 1];
      assert Calls(m[path[0]], path[1]);
      if path[1] in scc {
        PathStoresWithin(m, scc, done, s, rest);
      } else {
        assert PathBetween(m, rest, path[1], path[|path| - 1]);
        assert path[1] in scc + done;
        assert Reaches(m, path[1], path[|path| - 1]);
        assert MayStore(m, path[1]) <= s;
        AllIsAll();
        forall r | r in Stores(m[path[|path| - 1]]) ensures r in s {
          assert StoredBelow(m, path[1], r);
        }
      }
    }
  }

  lemma ComponentStores(m: Module, scc: set<FuncId>, done: set<FuncId>, s: RegSet, f: FuncId)
    requires f in scc
    requires forall f :: f in scc ==> f < |m| && Stores(m[f]) <= s
    requires forall f, g: FuncId :: f in scc && Calls(m[f], g) ==> g in scc + done
    requires forall f, g: FuncId :: f in scc && g in done && Calls(m[f], g) ==> MayStore(m, g) <= s
    ensures MayStore(m, f) <= s
  {
    forall r | r in MayStore(m, f) ensures r in s {
      var g: FuncId :| Reaches(m, f, g) && g < |m| && r in Stores(m[g]);
      var path :| PathBetween(m, path, f, g);
      PathStoresWithin(m, scc, done, s, path);
    }
  }

  /** Settled functions stay settled when only rows they do not call change. */
  lemma MustSettledFrame(m: Module, d: Defs, d': Defs, f: FuncId)
    requires Shape(m, d) && Shape(m, d') && f < |m|
    requires MustSettled(m, d, f)
    requires d'.blocks[f] == d.blocks[f] && d'.must[f] == d.must[f]
    requires forall g: FuncId :: g < |m| && Calls(m[f], g) ==> d'.must[g] == d.must[g]
    ensures MustSettled(m, d', f)
  {
    forall b | 0 <= b < |m[f].blocks|
      ensures FromCallees(m[f].blocks[b], d.must) == FromCallees(m[f].blocks[b], d'.must)
    {
      forall g: FuncId | g < |m| && CallsIn(m[f].blocks[b], g) ensures d.must[g] == d'.must[g] {
        assert Calls(m[f], g);
      }
      FromCalleesFrame(m[f].blocks[b], d.must, d'.must);
    }
  }

  // ----- one visit, one pass, one component, the whole sweep -----

  /** One visit of a function: absorb its callees and recompute its must-definitions. */
  method Visit(m: Module, f: FuncId, d: Defs) returns (d': Defs)
    requires ModuleOk(m) && Shape(m, d) && f < |m| && AllSound(m, d)
    ensures Shape(m, d') && AllSound(m, d') && Leq(d.must, d'.must)
    ensures forall g :: 0 <= g < |m| && g != f ==>
      d'.blocks[g] == d.blocks[g] && d'.must[g] == d.must[g] && d'.may[g] == d.may[g]
    ensures d'.must[f] == d.must[f] ==> MustSettled(m, d', f)
    ensures forall g: FuncId :: g < |m| && Calls(m[f], g) ==> d.may[g] <= d'.may[f]
    ensures Settled(m, d, f) && (forall g: FuncId :: g < |m| && Calls(m[f], g) ==> d.may[g] <= d.may[f])
      ==> d' == d
  {
    var a := AbsorbCallees(m, f, d);
    var must := GetMustDefs(m[f], a.blocks[f]);
    d' := Defs(a.blocks, a.must[f := must], a.may);

    forall g | 0 <= g < |m|
      ensures d.may[g] <= MayStore(m, g) && d.must[g] <= MustDefined(m[g], d.blocks[g])
    {
      assert Sound(m, d, g);
    }
    MustDefinedMonotone(m[f], d.blocks[f], a.blocks[f]);
    assert Leq(d.must, d'.must);
    CalleesMayStore(m, f, d.may);
    forall g | 0 <= g < |m| ensures Sound(m, d', g) {
      assert Sound(m, d, g);
      MustRaised(m[g], d.must, d'.must);
    }
    if must == d.must[f] {
      assert d'.must == d.must;
      assert Sound(m, d, f);
    }
    forall g: FuncId | g < |m| && Calls(m[f], g) ensures d.may[g] <= d'.may[f] {
      CalleeRowIncluded(m[f], g, d.may);
    }
    if Settled(m, d, f) && forall g: FuncId :: g < |m| && Calls(m[f], g) ==> d.may[g] <= d.may[f] {
      assert a.blocks[f] == d.blocks[f];
      assert a.may[f] == d.may[f] by { AllCalleesWithin(m, f, d.may); }
      assert a.blocks == d.blocks && a.may == d.may && d'.must == d.must;
    }
  }

  lemma MustRaised(f: Func, must: seq<RegSet>, must': seq<RegSet>)
    requires Leq(must, must')
    ensures forall b :: 0 <= b < |f.blocks| ==> FromCallees(f.blocks[b], must) <= FromCallees(f.blocks[b], must')
  {
    forall b | 0 <= b < |f.blocks| ensures FromCallees(f.blocks[b], must) <= FromCallees(f.blocks[b], must') {
      FromCalleesMonotone(f.blocks[b], must, must');
    }
  }

  lemma AllCalleesWithin(m: Module, f: FuncId, may: seq<RegSet>)
    requires ModuleOk(m) && f < |m| && |may| == |m|
    requires forall g: FuncId :: g < |m| && Calls(m[f], g) ==> may[g] <= may[f]
    ensures FromAllCallees(m[f], may) <= may[f]
  {
    forall r | r in FromAllCallees(m[f], may) ensures r in may[f] {
      var b :| 0 <= b < |m[f].blocks| && Given(m[f].blocks[b], may, r);
      var i :| 0 <= i < |m[f].blocks[b].instrs| && CallGives(m[f].blocks[b].instrs[i], may, r);
      assert CallsIn(m[f].blocks[b], m[f].blocks[b].instrs[i].callee);
      assert Calls(m[f], m[f].blocks[b].instrs[i].callee);
    }
  }

  ghost function Members(scc: seq<FuncId>): set<FuncId> {
    set f | f in scc
  }

  ghost predicate InRange(m: Module, fs: set<FuncId>) {
    forall f :: f in fs ==> f < |m|
  }

  ghost predicate CallsWithin(m: Module, fs: set<FuncId>, within: set<FuncId>)
    requires InRange(m, fs)
  {
    forall f, g: FuncId :: f in fs && Calls(m[f], g) ==> g in within
  }

  ghost predicate SettledOn(m: Module, d: Defs, fs: set<FuncId>)
    requires Shape(m, d) && InRange(m, fs)
  {
    forall f :: f in fs ==> Settled(m, d, f)
  }

  ghost predicate SameOff(m: Module, d: Defs, d': Defs, fs: set<FuncId>)
    requires Shape(m, d) && Shape(m, d')
  {
    forall g :: 0 <= g < |m| && g !in fs ==>
      d'.blocks[g] == d.blocks[g] && d'.must[g] == d.must[g] && d'.may[g] == d.may[g]
  }

  /** Settled may-rows are closed under calls. */
  lemma SettledMayClosed(m: Module, d: Defs, f: FuncId, fs: set<FuncId>)
    requires Shape(m, d) && InRange(m, fs) && f in fs && CallsWithin(m, {f}, fs) && SettledOn(m, d, fs)
    ensures forall g: FuncId :: g < |m| && Calls(m[f], g) ==> d.may[g] <= d.may[f]
  {
    forall g: FuncId | g < |m| && Calls(m[f], g) ensures d.may[g] <= d.may[f] {
      assert Settled(m, d, f) && Settled(m, d, g);
      MayStoreOfCallee(m, f, g);
    }
  }

  /** What the loop over one component requires and keeps. */
  ghost predicate Ready(m: Module, scc: seq<FuncId>, d: Defs, done: set<FuncId>) {
    && ModuleOk(m) && Shape(m, d) && AllSound(m, d)
    && InRange(m, done) && InRange(m, Members(scc)) && done !! Members(scc)
    && (forall k :: 0 <= k < |scc| ==> scc[k] < |m|)
    && SettledOn(m, d, done) && CallsWithin(m, done, done)
    && CallsWithin(m, Members(scc), done + Members(scc))
    && forall f, g :: f in scc && g in scc ==> Reaches(m, f, g)
  }

  /** The first k members have been visited and their rows are in the shared row. */
  ghost predicate Collected(m: Module, scc: seq<FuncId>, k: nat, d: Defs, done: set<FuncId>, sccMay: RegSet)
    requires k <= |scc| && Shape(m, d)
  {
    && (forall j :: 0 <= j < k ==> scc[j] < |m| && d.may[scc[j]] <= sccMay)
    && forall j, g: FuncId :: 0 <= j < k && scc[j] < |m| && g in done && Calls(m[scc[j]], g) ==>
         MayStore(m, g) <= sccMay
  }

  ghost predicate FirstSettled(m: Module, scc: seq<FuncId>, k: nat, d: Defs)
    requires k <= |scc| && Shape(m, d)
  {
    forall j :: 0 <= j < k ==> scc[j] < |m| && MustSettled(m, d, scc[j])
  }

  lemma ReadyKept(m: Module, scc: seq<FuncId>, d: Defs, d': Defs, done: set<FuncId>)
    requires Ready(m, scc, d, done) && Shape(m, d') && AllSound(m, d')
    requires SameOff(m, d, d', Members(scc))
    ensures Ready(m, scc, d', done)
  {
    forall f | f in done ensures Settled(m, d', f) {
      assert Settled(m, d, f);
      MustSettledFrame(m, d, d', f);
    }
  }

  /** After k visits of a pass that began with d. */
  ghost predicate Visited(m: Module, scc: seq<FuncId>, k: nat, d: Defs, cur: Defs, done: set<FuncId>,
                          sccMay: RegSet, change: bool)
    requires k <= |scc|
  {
    && Shape(m, d) && Ready(m, scc, cur, done) && Leq(d.must, cur.must) && SameOff(m, d, cur, Members(scc))
    && (forall f :: f in scc ==> sccMay <= MayStore(m, f))
    && (change <==> cur.must != d.must)
    && (!change ==> FirstSettled(m, scc, k, cur))
    && Collected(m, scc, k, cur, done, sccMay)
  }

  method VisitNext(m: Module, scc: seq<FuncId>, k: nat, ghost d: Defs, cur: Defs, ghost done: set<FuncId>,
                   may: RegSet, changed: bool)
    returns (d': Defs, sccMay: RegSet, change: bool)
    requires k < |scc| && Visited(m, scc, k, d, cur, done, may, changed)
    ensures Visited(m, scc, k + 1, d, d', done, sccMay, change)
    ensures SettledOn(m, cur, Members(scc)) ==> d' == cur
  {
    var f := scc[k];
    if SettledOn(m, cur, Members(scc)) {
      SettledMayClosed(m, cur, f, done + Members(scc));
    }
    d' := Visit(m, f, cur);
    sccMay := may + d'.may[f];
    change := changed || |d'.must[f]| != |cur.must[f]|;
    VisitedOne(m, scc, k, d, cur, d', done, sccMay);
    ReadyKept(m, scc, cur, d', done);
  }

  /** One pass over a component. */
  method Pass(m: Module, scc: seq<FuncId>, d: Defs, may: RegSet, ghost done: set<FuncId>)
    returns (d': Defs, sccMay: RegSet, change: bool)
    requires Ready(m, scc, d, done)
    requires forall f :: f in scc ==> may <= MayStore(m, f)
    ensures Visited(m, scc, |scc|, d, d', done, sccMay, change)
    ensures SettledOn(m, d, Members(scc)) ==> d' == d
  {
    d', sccMay, change := d, may, false;
    for k := 0 to |scc|
      invariant Visited(m, scc, k, d, d', done, sccMay, change)
      invariant SettledOn(m, d, Members(scc)) ==> d' == d
    {
      d', sccMay, change := VisitNext(m, scc, k, d, d', done, sccMay, change);
    }
  }

  /** The bookkeeping of one visit inside a pass. */
  lemma VisitedOne(m: Module, scc: seq<FuncId>, k: nat, d: Defs, prior: Defs, d': Defs,
                   done: set<FuncId>, sccMay: RegSet)
    requires Ready(m, scc, prior, done) && k < |scc| && Shape(m, d) && Shape(m, d') && AllSound(m, d')
    requires Leq(d.must, prior.must) && Leq(prior.must, d'.must) && SameOff(m, prior, d', {scc[k]})
    requires Collected(m, scc, k, prior, done, sccMay) && d'.may[scc[k]] <= sccMay
    requires forall g: FuncId :: g < |m| && Calls(m[scc[k]], g) ==> prior.may[g] <= d'.may[scc[k]]
    requires d'.must[scc[k]] == prior.must[scc[k]] ==> MustSettled(m, d', scc[k])
    ensures |d'.must[scc[k]]| == |prior.must[scc[k]]| ==> d'.must == prior.must
    ensures |d'.must[scc[k]]| != |prior.must[scc[k]]| ==> d'.must != d.must
    ensures d'.must == prior.must && FirstSettled(m, scc, k, prior) ==> FirstSettled(m, scc, k + 1, d')
    ensures forall g :: g in scc ==> d'.may[scc[k]] <= MayStore(m, g)
    ensures Collected(m, scc, k + 1, d', done, sccMay)
  {
    var f := scc[k];
    SubsetSize(prior.must[f], d'.must[f]);
    if |d'.must[f]| != |prior.must[f]| {
      SubsetSize(d.must[f], prior.must[f]);
      assert |d.must[f]| < |d'.must[f]|;
    } else {
      assert d'.must == prior.must;
      forall j | 0 <= j < k && FirstSettled(m, scc, k, prior) ensures MustSettled(m, d', scc[j]) {
        if scc[j] != f {
          MustSettledFrame(m, prior, d', scc[j]);
        }
      }
    }
    forall g | g in scc ensures d'.may[f] <= MayStore(m, g) {
      assert Sound(m, d', f);
      MayStoreOfReached(m, g, f);
    }
    forall g | g in done && Calls(m[f], g) ensures MayStore(m, g) <= sccMay {
      assert Settled(m, prior, g);
    }
  }

  /** Every member of a component gets the component's may-row. */
  method ShareMay(m: Module, scc: seq<FuncId>, d: Defs, sccMay: RegSet) returns (d': Defs)
    requires Shape(m, d) && forall k :: 0 <= k < |scc| ==> scc[k] < |m|
    ensures Shape(m, d') && d'.blocks == d.blocks && d'.must == d.must
    ensures forall g :: 0 <= g < |m| ==> d'.may[g] == if g in scc then sccMay else d.may[g]
  {
    d' := d;
    for k := 0 to |scc|
      invariant Shape(m, d') && d'.blocks == d.blocks && d'.must == d.must
      invariant forall g :: 0 <= g < |m| ==> d'.may[g] == if g in scc[..k] then sccMay else d.may[g]
    {
      assert scc[..k + 1] == scc[..k] + [scc[k]];
      d' := d'.(may := d'.may[scc[k] := sccMay]);
    }
    assert scc[..|scc|] == scc;
  }

  /** The loop over one component, run until no must-definition changes, then the shared may-row. */
  method SweepScc(m: Module, scc: seq<FuncId>, d: Defs, ghost done: set<FuncId>) returns (d': Defs)
    requires Ready(m, scc, d, done)
    ensures Shape(m, d') && AllSound(m, d')
    ensures SameOff(m, d, d', Members(scc))
    ensures SettledOn(m, d', done + Members(scc))
    ensures SettledOn(m, d, Members(scc)) ==> d' == d
  {
    d' := d;
    var sccMay: RegSet := {};
    var change := true;
    while change
      invariant Ready(m, scc, d', done) && SameOff(m, d, d', Members(scc))
      invariant forall f :: f in scc ==> sccMay <= MayStore(m, f)
      invariant SettledOn(m, d, Members(scc)) ==> d' == d
      invariant !change ==> FirstSettled(m, scc, |scc|, d')
      invariant !change ==> Collected(m, scc, |scc|, d', done, sccMay)
      decreases Missing(d'.must), change
    {
      ghost var before := d';
      d', sccMay, change := Pass(m, scc, d', sccMay, done);
      MissingLeq(before.must, d'.must);
    }
    ghost var swept := d';
    d' := ShareMay(m, scc, d', sccMay);
    ComponentSettled(m, scc, swept, d', done, sccMay);
    if SettledOn(m, d, Members(scc)) {
      forall f | f in scc ensures d.may[f] == sccMay { assert f in Members(scc); }
      assert d'.may == d.may;
    }
  }

  lemma ComponentSettled(m: Module, scc: seq<FuncId>, swept: Defs, d': Defs, done: set<FuncId>, sccMay: RegSet)
    requires Ready(m, scc, swept, done)
    requires forall f :: f in scc ==> sccMay <= MayStore(m, f)
    requires FirstSettled(m, scc, |scc|, swept)
    requires Collected(m, scc, |scc|, swept, done, sccMay)
    requires Shape(m, d') && d'.blocks == swept.blocks && d'.must == swept.must
    requires forall g :: 0 <= g < |m| ==> d'.may[g] == if g in scc then sccMay else swept.may[g]
    ensures AllSound(m, d') && SettledOn(m, d', done + Members(scc))
    ensures forall f :: f in scc ==> sccMay == MayStore(m, f)
  {
    forall f | f in scc ensures MayStore(m, f) == sccMay {
      forall g | g in Members(scc) ensures Stores(m[g]) <= sccMay {
        var j :| 0 <= j < |scc| && scc[j] == g;
        assert Sound(m, swept, g);
      }
      forall f, g: FuncId | f in Members(scc) && g in done && Calls(m[f], g)
        ensures MayStore(m, g) <= sccMay
      {
        var j :| 0 <= j < |scc| && scc[j] == f;
      }
      ComponentStores(m, Members(scc), done, sccMay, f);
    }
    forall f | 0 <= f < |m| ensures Sound(m, d', f) { assert Sound(m, swept, f); }
    forall f | f in done + Members(scc) ensures Settled(m, d', f) {
      if f in done {
        assert Settled(m, swept, f);
      } else {
        var j :| 0 <= j < |scc| && scc[j] == f;
        assert MustSettled(m, swept, scc[j]);
      }
    }
  }

  /** One sweep settles every listed function; a sweep over settled rows changes nothing. */
  method Sweep(m: Module, sccs: seq<seq<FuncId>>, d: Defs) returns (d': Defs)
    requires ModuleOk(m) && BottomUp(m, sccs) && Shape(m, d) && AllSound(m, d)
    ensures Shape(m, d') && AllSound(m, d')
    ensures forall f :: f in Earlier(sccs, |sccs|) ==> f < |m| && Settled(m, d', f)
    ensures (forall f :: f in Earlier(sccs, |sccs|) ==> f < |m| && Settled(m, d, f)) ==> d' == d
  {
    ghost var still := forall f :: f in Earlier(sccs, |sccs|) ==> f < |m| && Settled(m, d, f);
    d' := d;
    for n := 0 to |sccs|
      invariant Shape(m, d') && AllSound(m, d')
      invariant InRange(m, Earlier(sccs, n)) && CallsWithin(m, Earlier(sccs, n), Earlier(sccs, n))
      invariant SettledOn(m, d', Earlier(sccs, n))
      invariant still ==> d' == d
    {
      ghost var members := Members(sccs[n]);
      assert Earlier(sccs, n + 1) == Earlier(sccs, n) + members;
      forall k | 0 <= k < |sccs[n]| ensures sccs[n][k] < |m| {
        assert sccs[n][k] in sccs[n];
      }
      d' := SweepScc(m, sccs[n], d', Earlier(sccs, n));
    }
  }
}
