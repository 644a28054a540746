/** The overlap fix as a whole: every block still runs the same guest instructions, each emulated once. */
module OverlapFix {
  import opened Overlaps
  import opened OverlapMerge

  /** Blocks that end at the same address are instruction suffixes of one another, longest first. */
  ghost predicate SuffixesOverlap(bs: seq<Block>) {
    && (forall b: BlockId :: b < |bs| ==> bs[b].exit == ToDispatcher)
    && forall chain, p :: ChainOf(bs, chain, p) && |chain| > 1 ==> Overlapping(bs, chain)
  }

  /** Every chain of blocks with a common end is merged, and no other block is changed. */
  ghost predicate Fixed(was: seq<Block>, now: seq<Block>) {
    exists chains, ends :: ChainsOf(was, chains, ends) && FullyMerged(was, now, chains)
  }

  /** Started at any block, both programs emulate the same instructions and return in the same state. */
  ghost predicate SameExecs(was: seq<Block>, now: seq<Block>) {
    forall b: BlockId, s: Cpu, fuel: nat :: b < |was| == |now| && fuel >= |was| + 1 ==>
      Exec(now, b, s, fuel) == Exec(was, b, s, fuel)
  }

  ghost predicate SameEnd(bs: seq<Block>, b: BlockId, c: BlockId) {
    b < |bs| && c < |bs| && bs[b].lastPc == bs[c].lastPc
  }

  /** c begins after b and ends where b does. */
  ghost predicate Inside(bs: seq<Block>, b: BlockId, c: BlockId) {
    SameEnd(bs, b, c) && bs[b].addr < bs[c].addr
  }

  /** c is the longest block that does. */
  ghost predicate Next(bs: seq<Block>, b: BlockId, c: BlockId) {
    Inside(bs, b, c) && forall d: BlockId :: Inside(bs, b, d) ==> bs[c].addr <= bs[d].addr
  }

  // Blocks with a common end begin at different addresses.
  ghost predicate DistinctStarts(bs: seq<Block>) {
    forall b: BlockId, c: BlockId :: SameEnd(bs, b, c) && b != c ==> bs[b].addr != bs[c].addr
  }

  /** Every block ends where the next one begins, and jumps to it; the shortest ends as before. */
  ghost predicate EndsAtNext(was: seq<Block>, now: seq<Block>) {
    && |now| == |was|
    && (forall b: BlockId, c: BlockId :: Next(was, b, c) ==> CutAt(now[b], c, was[c].addr))
    && forall b: BlockId :: b < |was| && (forall c: BlockId :: !Inside(was, b, c)) ==>
         now[b].(succs := was[b].succs) == was[b]
  }

  ghost predicate CutAt(block: Block, next: BlockId, pc: nat) {
    block.lastPc == pc && block.exit == JumpTo(next) && block.succs == [next]
  }

  ghost predicate SameStarts(was: seq<Block>, now: seq<Block>) {
    |now| == |was| && forall b :: 0 <= b < |was| ==> now[b].addr == was[b].addr
  }

  /** Merge all pairs, one after the other. */
  method FixOverlaps(bs: seq<Block>) returns (bs': seq<Block>)
    requires SuffixesOverlap(bs)
    ensures |bs'| == |bs| && Fixed(bs, bs') && SameExecs(bs, bs') && SameStarts(bs, bs')
    ensures DistinctStarts(bs) ==> EndsAtNext(bs, bs')
  {
    var pairs := FindMergePairs(bs);
    ghost var chains, ends :| ChainsOf(bs, chains, ends) && pairs == AllPairs(chains);
    ChainsDisjoint(bs, chains, ends);
    MergeChains(bs, chains);
    bs' := MergePairsInOrder(bs, pairs);
    FixedRuns(bs, bs', chains);
    StartsStay(bs, bs', chains);
    if DistinctStarts(bs) {
      EndsMove(bs, bs', chains, ends);
    }
  }

  method MergePairsInOrder(bs: seq<Block>, pairs: seq<(BlockId, BlockId)>) returns (bs': seq<Block>)
    requires AllMerge(bs, pairs)
    ensures bs' == MergedAll(bs, pairs)
  {
    bs' := bs;
    for k := 0 to |pairs|
      invariant AllMerge(bs', pairs[k..]) && MergedAll(bs', pairs[k..]) == MergedAll(bs, pairs)
    {
      assert pairs[k..][0] == pairs[k] && pairs[k..][1..] == pairs[k + 1..];
      bs' := MergeBlocksSameEndPoint(bs', pairs[k].0, pairs[k].1);
    }
  }

  lemma FixedRuns(was: seq<Block>, now: seq<Block>, chains: seq<seq<BlockId>>)
    requires FullyMerged(was, now, chains) && forall b: BlockId :: b < |was| ==> was[b].exit == ToDispatcher
    ensures SameExecs(was, now)
  {
    forall b: BlockId, s: Cpu, fuel: nat | b < |was| == |now| && fuel >= |was| + 1
      ensures Exec(now, b, s, fuel) == Exec(was, b, s, fuel)
    {
      SameRuns(was, now, chains, b, s, fuel);
    }
  }

  /** No block is in two chains, so the check for a block merged twice never fires. */
  lemma ChainsDisjoint(bs: seq<Block>, chains: seq<seq<BlockId>>, ends: seq<nat>)
    requires ChainsOf(bs, chains, ends)
    ensures Disjoint(chains)
    ensures SuffixesOverlap(bs) ==> AllOverlapping(bs, chains)
  {
    forall i, j, b | 0 <= i < j < |chains| && b in chains[i] ensures b !in chains[j] {
      assert ChainOf(bs, chains[i], ends[i]) && ChainOf(bs, chains[j], ends[j]);
    }
    if SuffixesOverlap(bs) {
      forall i | 0 <= i < |chains| ensures chains[i] != [] && Overlapping(bs, chains[i]) {
        assert ChainOf(bs, chains[i], ends[i]);
      }
    }
  }

  // ----- the same guest instructions run -----

  lemma {:induction false} ChainRuns(was: seq<Block>, now: seq<Block>, chain: seq<BlockId>, i: nat, s: Cpu, fuel: nat)
    requires ChainMerged(was, now, chain) && i < |chain| && fuel >= |chain| - i
    ensures Exec(now, chain[i], s, fuel) == Returned(RunOps(was[chain[i]].ops, s), Owners(was[chain[i]].ops))
    decreases |chain| - i
  {
    if i < |chain| - 1 {
      var a, b := was[chain[i]], was[chain[i + 1]];
      assert SuffixOf(a, b);
      var head := a.ops[..CutPoint(a.ops, b.addr)] + [SetPc(b.addr)];
      assert now[chain[i]].ops == head && now[chain[i]].exit == JumpTo(chain[i + 1]);
      ChainRuns(was, now, chain, i + 1, RunOps(head, s), fuel - 1);
      CutRuns(a, b, s);
      JumpRuns(now, chain[i], chain[i + 1], s, fuel, RunOps(b.ops, RunOps(head, s)), Owners(b.ops));
    }
  }

  /** A block that jumps runs its operations and then the block it jumps to. */
  lemma JumpRuns(bs: seq<Block>, b: BlockId, next: BlockId, s: Cpu, fuel: nat, t: Cpu, more: seq<nat>)
    requires b < |bs| && fuel > 0 && bs[b].exit == JumpTo(next)
    requires Exec(bs, next, RunOps(bs[b].ops, s), fuel - 1) == Returned(t, more)
    ensures Exec(bs, b, s, fuel) == Returned(t, Owners(bs[b].ops) + more)
  {
  }

  lemma {:induction false} ChainNotLonger(n: nat, chain: seq<BlockId>)
    requires forall i :: 0 <= i < |chain| ==> chain[i] < n
    requires forall i, j :: 0 <= i < j < |chain| ==> chain[i] != chain[j]
    ensures |chain| <= n
  {
    assert chain != [] ==> chain[0] < n;
    if n == 0 {
    } else if i :| 0 <= i < |chain| && chain[i] == n - 1 {
      var rest := chain[..i] + chain[i + 1..];
      assert forall j :: 0 <= j < |rest| ==> rest[j] == chain[if j < i then j else j + 1];
      ChainNotLonger(n - 1, rest);
    } else {
      ChainNotLonger(n - 1, chain);
    }
  }

  /** From the start of any block the same guest instructions run, to the same state. */
  lemma SameRuns(was: seq<Block>, now: seq<Block>, chains: seq<seq<BlockId>>, b: BlockId, s: Cpu, fuel: nat)
    requires FullyMerged(was, now, chains) && b < |was| && was[b].exit == ToDispatcher && fuel >= |was| + 1
    ensures Exec(now, b, s, fuel) == Returned(RunOps(was[b].ops, s), Owners(was[b].ops))
    ensures Exec(now, b, s, fuel) == Exec(was, b, s, fuel)
  {
    if i :| 0 <= i < |chains| && b in chains[i] {
      assert ChainMerged(was, now, chains[i]);
      var k :| 0 <= k < |chains[i]| && chains[i][k] == b;
      ChainNotLonger(|was|, chains[i]);
      ChainRuns(was, now, chains[i], k, s, fuel);
    }
  }

  /** In a merged chain every block but the last ends where the next begins. */
  lemma ChainEnds(was: seq<Block>, now: seq<Block>, chain: seq<BlockId>, i: nat)
    requires ChainMerged(was, now, chain) && i < |chain|
    ensures i < |chain| - 1 ==> CutAt(now[chain[i]], chain[i + 1], was[chain[i + 1]].addr)
    ensures i == |chain| - 1 ==> now[chain[i]].(succs := was[chain[i]].succs) == was[chain[i]]
    ensures now[chain[i]].addr == was[chain[i]].addr
  {
    if i < |chain| - 1 {
      assert SuffixOf(was[chain[i]], was[chain[i + 1]]);
      CutLastPc(was, chain[i], chain[i + 1]);
    }
  }

  lemma StartsStay(was: seq<Block>, now: seq<Block>, chains: seq<seq<BlockId>>)
    requires FullyMerged(was, now, chains)
    ensures SameStarts(was, now)
  {
    forall b: BlockId | b < |was| ensures now[b].addr == was[b].addr {
      if i :| 0 <= i < |chains| && b in chains[i] {
        assert ChainMerged(was, now, chains[i]);
        var k :| 0 <= k < |chains[i]| && chains[i][k] == b;
        ChainEnds(was, now, chains[i], k);
      }
    }
  }

  /** The next block is the next in the chain. */
  lemma NextInChain(bs: seq<Block>, chain: seq<BlockId>, end: nat, k: nat, c: BlockId)
    requires DistinctStarts(bs) && ChainOf(bs, chain, end) && k < |chain| && Next(bs, chain[k], c)
    ensures k + 1 < |chain| && chain[k + 1] == c
  {
    assert chain[k] in chain;
    assert c in chain;
    var j :| 0 <= j < |chain| && chain[j] == c;
    assert k < j;
    NotLast(bs, chain, end, k);
    assert SameEnd(bs, chain[k + 1], c);
  }

  lemma NotLast(bs: seq<Block>, chain: seq<BlockId>, end: nat, k: nat)
    requires DistinctStarts(bs) && ChainOf(bs, chain, end) && k + 1 < |chain|
    ensures Inside(bs, chain[k], chain[k + 1])
  {
    assert chain[k] in chain && chain[k + 1] in chain;
    assert SameEnd(bs, chain[k], chain[k + 1]);
  }

  lemma EndsMove(was: seq<Block>, now: seq<Block>, chains: seq<seq<BlockId>>, ends: seq<nat>)
    requires DistinctStarts(was) && ChainsOf(was, chains, ends) && FullyMerged(was, now, chains)
    ensures EndsAtNext(was, now)
  {
    forall b: BlockId, c: BlockId | Next(was, b, c) ensures CutAt(now[b], c, was[c].addr) {
      var i, k := PlaceOf(was, chains, ends, b, c);
      NextInChain(was, chains[i], ends[i], k, c);
      assert ChainMerged(was, now, chains[i]);
      ChainEnds(was, now, chains[i], k);
    }
    forall b: BlockId | b < |was| && (forall c: BlockId :: !Inside(was, b, c))
      ensures now[b].(succs := was[b].succs) == was[b]
    {
      if i :| 0 <= i < |chains| && b in chains[i] {
        var k :| 0 <= k < |chains[i]| && chains[i][k] == b;
        assert ChainMerged(was, now, chains[i]) && ChainOf(was, chains[i], ends[i]);
        if k + 1 < |chains[i]| {
          NotLast(was, chains[i], ends[i], k);
        }
        ChainEnds(was, now, chains[i], k);
      }
    }
  }

  lemma PlaceOf(bs: seq<Block>, chains: seq<seq<BlockId>>, ends: seq<nat>, b: BlockId, c: BlockId)
    returns (i: nat, k: nat)
    requires ChainsOf(bs, chains, ends) && Inside(bs, b, c)
    ensures i < |chains| == |ends| && ChainOf(bs, chains[i], ends[i]) && k < |chains[i]| && chains[i][k] == b
  {
    assert bs[b].lastPc in ends by {
      if b < c { assert bs[b].lastPc == bs[c].lastPc; } else { assert c < b && bs[c].lastPc == bs[b].lastPc; }
    }
    i :| 0 <= i < |ends| && ends[i] == bs[b].lastPc;
    assert ChainOf(bs, chains[i], ends[i]);
    assert b in chains[i];
    k :| 0 <= k < |chains[i]| && chains[i][k] == b;
  }

  // ----- successors -----

  lemma {:induction false} JoinedHas(succs: seq<BlockId>, more: seq<BlockId>, b: BlockId)
    ensures b in Joined(succs, more) <==> b in succs || b in more
    decreases |more|
  {
    if more != [] {
      JoinedHas(if more[0] in succs then succs else succs + [more[0]], more[1..], b);
      assert more == [more[0]] + more[1..];
    }
  }

  ghost predicate Successor(was: seq<Block>, chain: seq<BlockId>, k: nat, b: BlockId) {
    exists i :: 0 <= i <= k && i < |chain| && chain[i] < |was| && b in was[chain[i]].succs
  }

  lemma {:induction false} CollectedHas(was: seq<Block>, chain: seq<BlockId>, k: nat, b: BlockId)
    requires k < |chain| && forall i :: 0 <= i < |chain| ==> chain[i] < |was|
    ensures b in Collected(was, chain, k) <==> Successor(was, chain, k, b)
  {
    if k > 0 {
      CollectedHas(was, chain, k - 1, b);
      JoinedHas(was[chain[k]].succs, Collected(was, chain, k - 1), b);
      if Successor(was, chain, k - 1, b) {
        var i :| 0 <= i <= k - 1 && i < |chain| && chain[i] < |was| && b in was[chain[i]].succs;
        assert 0 <= i <= k;
      }
    }
  }

  /** The chain's last block has the successors of all its blocks; each other block only the next. */
  lemma ChainSuccessors(was: seq<Block>, now: seq<Block>, chain: seq<BlockId>, b: BlockId)
    requires ChainMerged(was, now, chain)
    ensures b in now[chain[|chain| - 1]].succs <==> Successor(was, chain, |chain| - 1, b)
    ensures forall i :: 0 <= i < |chain| - 1 ==> now[chain[i]].succs == [chain[i + 1]]
  {
    CollectedHas(was, chain, |chain| - 1, b);
  }

  // ----- no instruction is emulated twice -----

  ghost predicate StartsAt(ops: seq<Op>, k: int, pc: nat) {
    0 <= k < |ops| && IsStart(ops[k], pc)
  }

  /** A block begins each guest instruction once, and emulates only what it has begun. */
  ghost predicate WellFormed(ops: seq<Op>) {
    && (forall j, k, pc :: StartsAt(ops, j, pc) && StartsAt(ops, k, pc) ==> j == k)
    && forall k :: 0 <= k < |ops| && ops[k].Work? ==> exists j :: j < k && StartsAt(ops, j, ops[k].owner)
  }

  ghost predicate Emulates(ops: seq<Op>, pc: nat) {
    exists k :: 0 <= k < |ops| && ops[k].Work? && ops[k].owner == pc
  }

  ghost predicate Begins(ops: seq<Op>, from: nat, pc: nat) {
    exists k :: from <= k && StartsAt(ops, k, pc)
  }

  /** What the later block begins, the earlier begins at or behind the cut. */
  lemma SuffixBegins(a: Block, b: Block, pc: nat)
    requires SuffixOf(a, b) && Begins(b.ops, 0, pc)
    ensures Begins(a.ops, FindStart(a.ops, b.addr), pc)
  {
    var p := FindStart(a.ops, b.addr);
    var k :| 0 <= k && StartsAt(b.ops, k, pc);
    if k == 0 {
      assert StartsAt(a.ops, p, pc);
    } else {
      assert b.ops[k] == b.ops[1..][k - 1];
      if a.ops[p + 1..] == b.ops[1..] {
        assert a.ops[p + 1..][k - 1] == a.ops[p + k];
        assert StartsAt(a.ops, p + k, pc);
      } else {
        assert a.ops[p + 2..][k - 1] == a.ops[p + 1 + k];
        assert StartsAt(a.ops, p + 1 + k, pc);
      }
    }
  }

  lemma {:induction false} LaterBegins(was: seq<Block>, chain: seq<BlockId>, i: nat, j: nat, pc: nat)
    requires Overlapping(was, chain) && i < j < |chain| && Begins(was[chain[j]].ops, 0, pc)
    ensures Begins(was[chain[i]].ops, FindStart(was[chain[i]].ops, was[chain[i + 1]].addr), pc)
    decreases j
  {
    assert SuffixOf(was[chain[j - 1]], was[chain[j]]);
    SuffixBegins(was[chain[j - 1]], was[chain[j]], pc);
    if i == j - 1 {
      assert chain[i + 1] == chain[j];
    } else {
      BeginsAnywhere(was[chain[j - 1]].ops, FindStart(was[chain[j - 1]].ops, was[chain[j]].addr), pc);
      LaterBegins(was, chain, i, j - 1, pc);
    }
  }

  lemma BeginsAnywhere(ops: seq<Op>, from: nat, pc: nat)
    requires Begins(ops, from, pc)
    ensures Begins(ops, 0, pc)
  {
    var k :| from <= k && StartsAt(ops, k, pc);
    assert 0 <= k && StartsAt(ops, k, pc);
  }

  /** After the merge a block of a chain emulates only instructions it begins before its cut. */
  lemma CutEmulates(a: Block, b: Block, pc: nat)
    requires SuffixOf(a, b) && WellFormed(a.ops)
    requires Emulates(a.ops[..CutPoint(a.ops, b.addr)] + [SetPc(b.addr)], pc)
    ensures !Begins(a.ops, FindStart(a.ops, b.addr), pc)
  {
    var cut, p := CutPoint(a.ops, b.addr), FindStart(a.ops, b.addr);
    var head := a.ops[..cut] + [SetPc(b.addr)];
    var k :| 0 <= k < |head| && head[k].Work? && head[k].owner == pc;
    assert k < p && a.ops[k] == head[k];
    var j := BegunBefore(a.ops, k);
    OneStart(a.ops, j, pc);
  }

  lemma BegunBefore(ops: seq<Op>, k: nat) returns (j: nat)
    requires WellFormed(ops) && k < |ops| && ops[k].Work?
    ensures j < k && StartsAt(ops, j, ops[k].owner)
  {
    j :| j < k && StartsAt(ops, j, ops[k].owner);
  }

  lemma OneStart(ops: seq<Op>, j: nat, pc: nat)
    requires WellFormed(ops) && StartsAt(ops, j, pc)
    ensures forall i :: StartsAt(ops, i, pc) ==> i == j
  {
  }

  /** No guest instruction is emulated by two blocks of a merged chain. */
  lemma EmulatedOnce(was: seq<Block>, now: seq<Block>, chain: seq<BlockId>, i: nat, j: nat, pc: nat)
    requires ChainMerged(was, now, chain) && i < j < |chain|
    requires forall k :: 0 <= k < |chain| ==> WellFormed(was[chain[k]].ops)
    ensures !(Emulates(now[chain[i]].ops, pc) && Emulates(now[chain[j]].ops, pc))
  {
    if Emulates(now[chain[i]].ops, pc) && Emulates(now[chain[j]].ops, pc) {
      assert SuffixOf(was[chain[i]], was[chain[i + 1]]);
      CutEmulates(was[chain[i]], was[chain[i + 1]], pc);
      StillEmulates(was, now, chain, j, pc);
      LaterBegins(was, chain, i, j, pc);
      assert false;
    }
  }

  lemma StillEmulates(was: seq<Block>, now: seq<Block>, chain: seq<BlockId>, j: nat, pc: nat)
    requires ChainMerged(was, now, chain) && j < |chain| && WellFormed(was[chain[j]].ops)
    requires Emulates(now[chain[j]].ops, pc)
    ensures Begins(was[chain[j]].ops, 0, pc)
  {
    var ops, ops' := was[chain[j]].ops, now[chain[j]].ops;
    var k :| 0 <= k < |ops'| && ops'[k].Work? && ops'[k].owner == pc;
    if j < |chain| - 1 {
      assert SuffixOf(was[chain[j]], was[chain[j + 1]]);
    }
    assert ops[k] == ops'[k];
    var i :| i < k && StartsAt(ops, i, pc);
    assert 0 <= i;
  }
}
