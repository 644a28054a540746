/**
 Registers a function stores on every path to a return: the fixpoint loop over one
 function's blocks.
 */
module MustDefs {
  import opened Registers
  import opened Ir

  /** The registers in the row of every block of a set; all of them for the empty set. */
  ghost function Meet(rows: seq<RegSet>, of: set<BlockId>): RegSet {
    set r | r in ALL && InRows(rows, of, r)
  }

  ghost predicate InRows(rows: seq<RegSet>, of: set<BlockId>, r: Reg) {
    forall p :: p in of && p < |rows| ==> r in rows[p]
  }

  ghost function ReturnBlocks(blocks: seq<Block>): set<BlockId> {
    set b | 0 <= b < |blocks| && blocks[b].term.Return?
  }

  /** A table that contains what each block defines and is closed under meeting predecessors. */
  ghost predicate Closed(f: Func, defs: seq<RegSet>, rows: seq<RegSet>) {
    && |defs| == |f.blocks|
    && Leq(defs, rows)
    && forall k :: 0 <= k < |f.rpot| ==> ClosedAt(f.blocks, rows, f.rpot[k])
  }

  ghost predicate ClosedAt(blocks: seq<Block>, rows: seq<RegSet>, b: BlockId) {
    Preds(blocks, b) != {} && b < |rows| ==> Meet(rows, Preds(blocks, b)) <= rows[b]
  }

  /** The least closed table, row by row. */
  ghost function LeastRow(f: Func, defs: seq<RegSet>, b: BlockId): RegSet {
    set r | r in ALL && InEveryClosed(f, defs, b, r)
  }

  ghost predicate InEveryClosed(f: Func, defs: seq<RegSet>, b: BlockId, r: Reg) {
    forall rows :: Closed(f, defs, rows) && b < |rows| ==> r in rows[b]
  }

  /** What the least closed table holds at every return. */
  ghost function MustDefined(f: Func, defs: seq<RegSet>): RegSet {
    Meet(seq(|f.blocks|, b requires 0 <= b => LeastRow(f, defs, b)), ReturnBlocks(f.blocks))
  }

  lemma LeastRowMonotone(f: Func, defs: seq<RegSet>, defs': seq<RegSet>, b: BlockId)
    requires |defs| == |f.blocks| && Leq(defs, defs')
    ensures LeastRow(f, defs, b) <= LeastRow(f, defs', b)
  {
    forall r, rows | r in LeastRow(f, defs, b) && Closed(f, defs', rows) && b < |rows|
      ensures r in rows[b]
    {
      assert Closed(f, defs, rows);
    }
  }

  lemma MustDefinedMonotone(f: Func, defs: seq<RegSet>, defs': seq<RegSet>)
    requires |defs| == |f.blocks| && Leq(defs, defs')
    ensures MustDefined(f, defs) <= MustDefined(f, defs')
  {
    forall b | b in ReturnBlocks(f.blocks)
      ensures LeastRow(f, defs, b) <= LeastRow(f, defs', b)
    {
      LeastRowMonotone(f, defs, defs', b);
    }
  }

  /** The registers in the row of every predecessor, the way the loop accumulates them. */
  method MeetPredecessors(blocks: seq<Block>, live: seq<RegSet>, b: BlockId) returns (begin: RegSet)
    requires |live| == |blocks|
    ensures begin == Meet(live, Preds(blocks, b))
  {
    begin := ALL;
    AllIsAll();
    for p := 0 to |blocks|
      invariant forall r :: r in begin <==>
        forall q :: 0 <= q < p && b in Succs(blocks[q]) ==> r in live[q]
    {
      if b in Succs(blocks[p]) {
        begin := begin * live[p];
      }
    }
  }

  /** One block's turn: its row grows by what all its predecessors define, and says whether it did. */
  method GrowRow(f: Func, ghost defs: seq<RegSet>, live: seq<RegSet>, k: nat) returns (grown: seq<RegSet>, change: bool)
    requires |live| == |defs| == |f.blocks| && k < |f.rpot| && f.rpot[k] < |f.blocks|
    requires forall rows :: Closed(f, defs, rows) ==> Leq(live, rows)
    ensures |grown| == |live| && Leq(live, grown) && (change <==> grown != live)
    ensures forall rows :: Closed(f, defs, rows) ==> Leq(grown, rows)
    ensures !change ==> ClosedAt(f.blocks, grown, f.rpot[k])
  {
    var b := f.rpot[k];
    if Preds(f.blocks, b) == {} {
      return live, false;
    }
    var begin := MeetPredecessors(f.blocks, live, b);
    var sizeBefore := |live[b]|;
    SubsetSize(live[b], live[b] + begin);
    forall rows | Closed(f, defs, rows) ensures begin <= rows[b] {
      assert ClosedAt(f.blocks, rows, f.rpot[k]);
      assert Meet(live, Preds(f.blocks, b)) <= Meet(rows, Preds(f.blocks, b));
    }
    grown := live[b := live[b] + begin];
    change := |grown[b]| != sizeBefore;
    assert !change ==> grown == live;
  }

  /** One sweep over the blocks. */
  method SweepBlocks(f: Func, ghost defs: seq<RegSet>, before: seq<RegSet>) returns (live: seq<RegSet>, change: bool)
    requires |before| == |defs| == |f.blocks| && forall k :: 0 <= k < |f.rpot| ==> f.rpot[k] < |f.blocks|
    requires forall rows :: Closed(f, defs, rows) ==> Leq(before, rows)
    ensures |live| == |before| && Leq(before, live) && (change <==> live != before)
    ensures forall rows :: Closed(f, defs, rows) ==> Leq(live, rows)
    ensures !change ==> forall k :: 0 <= k < |f.rpot| ==> ClosedAt(f.blocks, live, f.rpot[k])
  {
    live, change := before, false;
    for k := 0 to |f.rpot|
      invariant |live| == |before| && Leq(before, live) && (change <==> live != before)
      invariant forall rows :: Closed(f, defs, rows) ==> Leq(live, rows)
      invariant !change ==> forall j :: 0 <= j < k ==> ClosedAt(f.blocks, live, f.rpot[j])
    {
      var grown, changed := GrowRow(f, defs, live, k);
      LeqBack(before, live, grown);
      live, change := grown, change || changed;
    }
  }

  lemma LeqBack(a: seq<RegSet>, b: seq<RegSet>, c: seq<RegSet>)
    requires Leq(a, b) && Leq(b, c)
    ensures Leq(a, c) && (a == c ==> b == c)
  {
    if a == c {
      forall k | 0 <= k < |a| ensures b[k] == c[k] {
        assert a[k] <= b[k] <= c[k];
      }
    }
  }

  /** The fixpoint loop ends with the registers defined by the least closed table. */
  method GetMustDefs(f: Func, defs: seq<RegSet>) returns (result: RegSet)
    requires |defs| == |f.blocks|
    requires forall k :: 0 <= k < |f.rpot| ==> f.rpot[k] < |f.blocks|
    ensures result == MustDefined(f, defs)
  {
    var live := defs;
    var change := true;
    while change
      invariant |live| == |defs| && Leq(defs, live)
      invariant forall rows :: Closed(f, defs, rows) ==> Leq(live, rows)
      invariant !change ==> Closed(f, defs, live)
      decreases Missing(live), change
    {
      ghost var before := live;
      live, change := SweepBlocks(f, defs, live);
      MissingLeq(before, live);
    }
    result := ALL;
    AllIsAll();
    LeastIs(f, defs, live);
    for b := 0 to |f.blocks|
      invariant forall r :: r in result <==>
        forall c :: 0 <= c < b && c in ReturnBlocks(f.blocks) ==> r in live[c]
    {
      if f.blocks[b].term.Jump? || f.blocks[b].term.Unreachable? {
        continue;
      }
      result := result * live[b];
    }
  }

  lemma LeastIs(f: Func, defs: seq<RegSet>, live: seq<RegSet>)
    requires Closed(f, defs, live)
    requires forall rows :: Closed(f, defs, rows) ==> Leq(live, rows)
    ensures forall b :: 0 <= b < |live| ==> LeastRow(f, defs, b) == live[b]
  {
    AllIsAll();
    forall b | 0 <= b < |live| ensures LeastRow(f, defs, b) == live[b] {
      forall r | r in live[b] ensures r in LeastRow(f, defs, b) {}
    }
  }
}
