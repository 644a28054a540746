/**
 What a must-definition means: on every walk from a function's entry to a return, through
 loops and recursive calls, the register is stored by the function or by a callee.
 */
module MustSound {
  import opened Registers
  import opened Ir
  import opened MustDefs
  import opened DefSweep

  // A finite walk through a function's blocks; every call in a visited block is itself a walk.
  datatype Walk = Walk(visits: seq<Visit>)
  datatype Visit = Visit(block: BlockId, calls: map<nat, Walk>)

  /** From the entry to a return, along branches, with a complete walk of the callee at each call. */
  ghost predicate ReturningWalk(m: Module, f: FuncId, w: Walk)
    decreases w
  {
    var vs := w.visits;
    && f < |m| && vs != [] && vs[0].block == 0
    && (forall k :: 0 <= k < |vs| ==> VisitOk(m, f, vs[k]))
    && (forall k :: 0 <= k < |vs| - 1 ==> vs[k + 1].block in Succs(m[f].blocks[vs[k].block]))
    && m[f].blocks[vs[|vs| - 1].block].term.Return?
  }

  ghost predicate VisitOk(m: Module, f: FuncId, v: Visit)
    requires f < |m|
    decreases v
  {
    && v.block < |m[f].blocks|
    && forall i :: 0 <= i < |m[f].blocks[v.block].instrs| && m[f].blocks[v.block].instrs[i].Call? ==>
         i in v.calls && ReturningWalk(m, m[f].blocks[v.block].instrs[i].callee, v.calls[i])
  }

  ghost predicate StoredOn(m: Module, f: FuncId, w: Walk, r: Reg)
    requires ReturningWalk(m, f, w)
    decreases w
  {
    exists k :: 0 <= k < |w.visits| && StoredDuring(m, f, w.visits[k], r)
  }

  ghost predicate StoredDuring(m: Module, f: FuncId, v: Visit, r: Reg)
    requires f < |m| && VisitOk(m, f, v)
    decreases v
  {
    || r in StoredBy(m[f].blocks[v.block])
    || exists i :: 0 <= i < |m[f].blocks[v.block].instrs| && m[f].blocks[v.block].instrs[i].Call? &&
         StoredOn(m, m[f].blocks[v.block].instrs[i].callee, v.calls[i], r)
  }

  /** A register is stored by the end of visit k. */
  ghost predicate StoredUpTo(m: Module, f: FuncId, w: Walk, k: nat, r: Reg)
    requires ReturningWalk(m, f, w) && k < |w.visits|
  {
    exists j :: 0 <= j <= k && StoredDuring(m, f, w.visits[j], r)
  }

  /** Whenever the walk leaves block b, a register has been stored. */
  ghost predicate StoredByAll(m: Module, f: FuncId, w: Walk, b: BlockId, r: Reg)
    requires ReturningWalk(m, f, w)
  {
    forall k: nat :: k < |w.visits| && w.visits[k].block == b ==> StoredUpTo(m, f, w, k, r)
  }

  /** Block by block, what has been stored whenever the walk leaves it. */
  ghost function StoredRows(m: Module, f: FuncId, w: Walk): (rows: seq<RegSet>)
    requires ReturningWalk(m, f, w)
    ensures |rows| == |m[f].blocks|
  {
    seq(|m[f].blocks|, b requires 0 <= b < |m[f].blocks| => set q | q in ALL && StoredByAll(m, f, w, b, q))
  }

  lemma {:induction false} DefsStored(m: Module, d: Defs, f: FuncId, v: Visit, r: Reg)
    requires ModuleOk(m) && Shape(m, d) && AllSound(m, d) && f < |m| && VisitOk(m, f, v)
    requires r in d.blocks[f][v.block]
    ensures StoredDuring(m, f, v, r)
    decreases v, 0
  {
    assert Sound(m, d, f);
    var block := m[f].blocks[v.block];
    if r !in StoredBy(block) {
      assert r in FromCallees(block, d.must);
      var i :| 0 <= i < |block.instrs| && CallGives(block.instrs[i], d.must, r);
      MustDefStored(m, d, block.instrs[i].callee, v.calls[i], r);
    }
  }

  /** What a walk has stored by the time it leaves each block is a closed table. */
  lemma RowsClosed(m: Module, f: FuncId, w: Walk, b: BlockId)
    requires ModuleOk(m) && ReturningWalk(m, f, w) && b < |m[f].blocks|
    ensures ClosedAt(m[f].blocks, StoredRows(m, f, w), b)
  {
    var rows := StoredRows(m, f, w);
    forall q | q in Meet(rows, Preds(m[f].blocks, b)) && Preds(m[f].blocks, b) != {}
      ensures StoredByAll(m, f, w, b, q)
    {
      MeetStored(m, f, w, b, q);
    }
  }

  lemma MeetStored(m: Module, f: FuncId, w: Walk, b: BlockId, r: Reg)
    requires ModuleOk(m) && ReturningWalk(m, f, w) && b < |m[f].blocks|
    requires Preds(m[f].blocks, b) != {} && r in Meet(StoredRows(m, f, w), Preds(m[f].blocks, b))
    ensures StoredByAll(m, f, w, b, r)
  {
    var rows, blocks := StoredRows(m, f, w), m[f].blocks;
    assert InRows(rows, Preds(blocks, b), r);
    forall k: nat | k < |w.visits| && w.visits[k].block == b ensures StoredUpTo(m, f, w, k, r) {
      NotEntry(m, f, w, b);
      var p := w.visits[k - 1].block;
      assert p in Preds(blocks, b);
      assert r in rows[p];
      assert StoredUpTo(m, f, w, k - 1, r);
      StoredLater(m, f, w, k - 1, r);
    }
  }

  /** A walk does not begin at a block with predecessors. */
  lemma NotEntry(m: Module, f: FuncId, w: Walk, b: BlockId)
    requires ModuleOk(m) && ReturningWalk(m, f, w) && b < |m[f].blocks| && Preds(m[f].blocks, b) != {}
    ensures w.visits[0].block != b
  {
    var p :| p in Preds(m[f].blocks, b);
    assert FuncOk(m, m[f]) && BlockOk(m, m[f].blocks, m[f].blocks[p]);
  }

  lemma StoredLater(m: Module, f: FuncId, w: Walk, k: nat, r: Reg)
    requires ReturningWalk(m, f, w) && k + 1 < |w.visits| && StoredUpTo(m, f, w, k, r)
    ensures StoredUpTo(m, f, w, k + 1, r)
  {
    var j :| 0 <= j <= k && StoredDuring(m, f, w.visits[j], r);
    assert j <= k + 1;
  }

  /** Must-definitions are sound. */
  lemma {:induction false} MustDefStored(m: Module, d: Defs, f: FuncId, w: Walk, r: Reg)
    requires ModuleOk(m) && Shape(m, d) && AllSound(m, d) && ReturningWalk(m, f, w)
    requires r in d.must[f]
    ensures StoredOn(m, f, w, r)
    decreases w, 1
  {
    forall b: BlockId, q | b < |m[f].blocks| && q in d.blocks[f][b] ensures q in StoredRows(m, f, w)[b] {
      AllIsAll();
      forall k: nat | k < |w.visits| && w.visits[k].block == b ensures StoredUpTo(m, f, w, k, q) {
        DefsStored(m, d, f, w.visits[k], q);
      }
    }
    StoredAtEnd(m, d, f, w, r);
  }

  /** A must-defined register is in the row of the block the walk returns from. */
  lemma StoredAtEnd(m: Module, d: Defs, f: FuncId, w: Walk, r: Reg)
    requires ModuleOk(m) && Shape(m, d) && AllSound(m, d) && ReturningWalk(m, f, w) && r in d.must[f]
    requires forall b: BlockId, q :: b < |m[f].blocks| && q in d.blocks[f][b] ==> q in StoredRows(m, f, w)[b]
    ensures StoredOn(m, f, w, r)
  {
    var rows, last := StoredRows(m, f, w), w.visits[|w.visits| - 1].block;
    assert Sound(m, d, f);
    forall b: BlockId | b < |m[f].blocks| ensures ClosedAt(m[f].blocks, rows, b) {
      RowsClosed(m, f, w, b);
    }
    assert Closed(m[f], d.blocks[f], rows);
    assert last in ReturnBlocks(m[f].blocks);
    assert r in LeastRow(m[f], d.blocks[f], last);
    assert r in rows[last];
    assert StoredUpTo(m, f, w, |w.visits| - 1, r);
  }
}
