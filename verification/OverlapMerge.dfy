/** Merging the pairs one after the other, and what a whole chain of merges preserves. */
module OverlapMerge {
  import opened Overlaps

  // ----- one merge -----

  predicate IsStart(op: Op, pc: nat) {
    op.Start? && op.pc == pc
  }

  /** The first operation that begins the guest instruction at pc; the length if there is none. */
  function FindStart(ops: seq<Op>, pc: nat): (k: nat)
    ensures k <= |ops| && (k < |ops| ==> IsStart(ops[k], pc))
    ensures forall j :: 0 <= j < k ==> !IsStart(ops[j], pc)
  {
    if ops == [] then 0 else if IsStart(ops[0], pc) then 0 else 1 + FindStart(ops[1..], pc)
  }

  /** Where a block is cut: behind the start of the instruction, and a store to cc_op that follows it. */
  function CutPoint(ops: seq<Op>, pc: nat): (k: nat)
    requires FindStart(ops, pc) < |ops|
    ensures FindStart(ops, pc) < k <= |ops|
  {
    var p := FindStart(ops, pc);
    if p + 1 < |ops| && ops[p + 1].CcOp? then p + 2 else p + 1
  }

  /** The address of the last instruction a block begins. */
  function LastStart(ops: seq<Op>): nat {
    if ops == [] then 0 else if ops[|ops| - 1].Start? then ops[|ops| - 1].pc else LastStart(ops[..|ops| - 1])
  }

  function Joined(succs: seq<BlockId>, more: seq<BlockId>): seq<BlockId>
    decreases |more|
  {
    if more == [] then succs
    else Joined(if more[0] in succs then succs else succs + [more[0]], more[1..])
  }

  /** The earlier block, cut where the later begins and continuing there. */
  function Cut(bs: seq<Block>, a: BlockId, b: BlockId): Block
    requires a < |bs| && b < |bs| && FindStart(bs[a].ops, bs[b].addr) < |bs[a].ops|
  {
    var ops := bs[a].ops[..CutPoint(bs[a].ops, bs[b].addr)] + [SetPc(bs[b].addr)];
    bs[a].(ops := ops, exit := JumpTo(b), lastPc := LastStart(ops), succs := [b])
  }

  function Merged(bs: seq<Block>, a: BlockId, b: BlockId): seq<Block>
    requires a < |bs| && b < |bs| && a != b && FindStart(bs[a].ops, bs[b].addr) < |bs[a].ops|
  {
    bs[a := Cut(bs, a, b)][b := bs[b].(succs := Joined(bs[b].succs, bs[a].succs))]
  }

  /** A cut block records the later block's address as that of its last instruction: the store to PC stays. */
  lemma CutLastPc(bs: seq<Block>, a: BlockId, b: BlockId)
    requires a < |bs| && b < |bs| && FindStart(bs[a].ops, bs[b].addr) < |bs[a].ops|
    ensures Cut(bs, a, b).lastPc == bs[b].addr
  {
    var ops, pc := bs[a].ops, bs[b].addr;
    var p, cut := FindStart(ops, pc), CutPoint(ops, pc);
    assert ops[..p + 1] == ops[..p] + [ops[p]];
    LastStartOf(ops[..p], ops[p]);
    LastStartOf(ops[..cut], SetPc(pc));
    if cut == p + 2 {
      assert ops[..cut] == ops[..p + 1] + [ops[p + 1]];
      LastStartOf(ops[..p + 1], ops[p + 1]);
    }
  }

  lemma LastStartOf(ops: seq<Op>, op: Op)
    ensures LastStart(ops + [op]) == if op.Start? then op.pc else LastStart(ops)
  {
    assert (ops + [op])[..|ops|] == ops;
  }

  method FindInstStart(ops: seq<Op>, pc: nat) returns (k: nat)
    ensures k == FindStart(ops, pc)
  {
    k := 0;
    while k < |ops| && !IsStart(ops[k], pc)
      invariant k <= |ops| && FindStart(ops, pc) == k + FindStart(ops[k..], pc)
    {
      k := k + 1;
    }
  }

  /** Join the later block's successors with the earlier's, keeping each once. */
  method JoinSuccs(succs: seq<BlockId>, more: seq<BlockId>) returns (r: seq<BlockId>)
    ensures r == Joined(succs, more)
  {
    r := succs;
    for k := 0 to |more|
      invariant Joined(r, more[k..]) == Joined(succs, more)
    {
      if more[k] !in r {
        r := r + [more[k]];
      }
    }
  }

  method MergeBlocksSameEndPoint(bs: seq<Block>, a: BlockId, b: BlockId) returns (bs': seq<Block>)
    requires a < |bs| && b < |bs| && a != b && FindStart(bs[a].ops, bs[b].addr) < |bs[a].ops|
    ensures bs' == Merged(bs, a, b)
    ensures bs'[a].lastPc == bs[b].addr && bs'[a].addr == bs[a].addr && bs'[b] == bs[b].(succs := bs'[b].succs)
  {
    CutLastPc(bs, a, b);
    var pivot := FindInstStart(bs[a].ops, bs[b].addr);
    var realPivot := pivot + 1;
    if realPivot < |bs[a].ops| && bs[a].ops[realPivot].CcOp? {
      realPivot := realPivot + 1;
    }
    // Drop what follows the cut, set PC again, and continue at b.
    var ops := bs[a].ops[..realPivot] + [SetPc(bs[b].addr)];
    bs' := bs[a := bs[a].(ops := ops, exit := JumpTo(b))];
    bs' := bs'[a := bs'[a].(lastPc := LastStart(ops))];
    var succs := JoinSuccs(bs[b].succs, bs[a].succs);
    bs' := bs'[b := bs'[b].(succs := succs)];
    bs' := bs'[a := bs'[a].(succs := [b])];
  }

  // ----- overlapping blocks -----

  /**
   The later block is an instruction suffix of the earlier: the earlier begins the later's first
   instruction once and goes on like it, except for a store to cc_op it may make first.
   */
  ghost predicate SuffixOf(a: Block, b: Block) {
    var p := FindStart(a.ops, b.addr);
    && p < |a.ops| && b.ops != [] && b.ops[0] == Start(b.addr)
    && (a.ops[p + 1..] == b.ops[1..]
        || (p + 1 < |a.ops| && a.ops[p + 1].CcOp? && a.ops[p + 2..] == b.ops[1..]))
  }

  ghost predicate Overlapping(bs: seq<Block>, chain: seq<BlockId>) {
    && (forall i :: 0 <= i < |chain| ==> chain[i] < |bs| && bs[chain[i]].exit == ToDispatcher)
    && (forall i, j :: 0 <= i < j < |chain| ==> chain[i] != chain[j])
    && forall i :: 0 <= i < |chain| - 1 ==> SuffixOf(bs[chain[i]], bs[chain[i + 1]])
  }

  lemma RunLast(ops: seq<Op>, op: Op, s: Cpu)
    ensures RunOps(ops + [op], s) == Effect(op, RunOps(ops, s))
    ensures Owners(ops + [op]) == Owners(ops) + if op.Work? then [op.owner] else []
  {
    RunAppend(ops, [op], s);
    assert [op][1..] == [];
  }

  lemma RunFirst(op: Op, ops: seq<Op>, s: Cpu)
    ensures RunOps([op] + ops, s) == RunOps(ops, Effect(op, s))
    ensures Owners([op] + ops) == (if op.Work? then [op.owner] else []) + Owners(ops)
  {
    assert ([op] + ops)[1..] == ops;
  }

  /** A store to cc_op that is run twice is run to the same effect. */
  lemma TailRuns(v: int, tail: seq<Op>, rest: seq<Op>, t: Cpu)
    requires rest != [] && rest[0] == CcOp(v) && (rest == tail || rest[1..] == tail)
    ensures RunOps(tail, t.(ccOp := v)) == RunOps(rest, t) && Owners(tail) == Owners(rest)
  {
    assert rest == [CcOp(v)] + rest[1..];
    RunFirst(CcOp(v), rest[1..], t);
    RunFirst(CcOp(v), rest[1..], t.(ccOp := v));
  }

  /** The state when the later block's first instruction begins, and again after the cut. */
  lemma HeadRuns(ops: seq<Op>, pc: nat, s: Cpu) returns (t: Cpu)
    requires FindStart(ops, pc) < |ops|
    ensures t == RunOps(ops[..FindStart(ops, pc) + 1], s) && t.pc == pc
    ensures RunOps(ops, s) == RunOps(ops[FindStart(ops, pc) + 1..], t)
    ensures Owners(ops) == Owners(ops[..FindStart(ops, pc) + 1]) + Owners(ops[FindStart(ops, pc) + 1..])
    ensures CutPoint(ops, pc) == FindStart(ops, pc) + 1 ==> RunOps(ops[..CutPoint(ops, pc)] + [SetPc(pc)], s) == t
    ensures CutPoint(ops, pc) == FindStart(ops, pc) + 2 ==>
      ops[FindStart(ops, pc) + 1].CcOp? &&
      RunOps(ops[..CutPoint(ops, pc)] + [SetPc(pc)], s) == t.(ccOp := ops[FindStart(ops, pc) + 1].value)
    ensures Owners(ops[..CutPoint(ops, pc)] + [SetPc(pc)]) == Owners(ops[..FindStart(ops, pc) + 1])
  {
    var p, cut := FindStart(ops, pc), CutPoint(ops, pc);
    t := RunOps(ops[..p + 1], s);
    assert ops[..p + 1] == ops[..p] + [ops[p]];
    RunLast(ops[..p], ops[p], s);
    assert ops == ops[..p + 1] + ops[p + 1..];
    RunAppend(ops[..p + 1], ops[p + 1..], s);
    RunLast(ops[..cut], SetPc(pc), s);
    if cut == p + 2 {
      assert ops[..cut] == ops[..p + 1] + [ops[p + 1]];
      RunLast(ops[..p + 1], ops[p + 1], s);
    }
  }

  /** Cutting the earlier block and going on in the later does what the earlier did. */
  lemma CutRuns(a: Block, b: Block, s: Cpu)
    requires SuffixOf(a, b)
    ensures RunOps(b.ops, RunOps(a.ops[..CutPoint(a.ops, b.addr)] + [SetPc(b.addr)], s)) == RunOps(a.ops, s)
    ensures Owners(a.ops[..CutPoint(a.ops, b.addr)] + [SetPc(b.addr)]) + Owners(b.ops) == Owners(a.ops)
  {
    var p := FindStart(a.ops, b.addr);
    var t := HeadRuns(a.ops, b.addr, s);
    LaterRuns(a, b, t);
    if CutPoint(a.ops, b.addr) == p + 2 {
      LaterRuns(a, b, t.(ccOp := a.ops[p + 1].value));
      var rest := a.ops[p + 1..];
      assert rest[0] == a.ops[p + 1] && rest[1..] == a.ops[p + 2..];
      TailRuns(rest[0].value, b.ops[1..], rest, t);
    }
  }

  /** The later block begins with an instruction whose address PC already holds. */
  lemma LaterRuns(a: Block, b: Block, t: Cpu)
    requires SuffixOf(a, b) && t.pc == b.addr
    ensures RunOps(b.ops, t) == RunOps(b.ops[1..], t) && Owners(b.ops) == Owners(b.ops[1..])
  {
    assert b.ops == [Start(b.addr)] + b.ops[1..];
    RunFirst(Start(b.addr), b.ops[1..], t);
  }

  // ----- a chain of merges -----

  predicate CanMerge(bs: seq<Block>, a: BlockId, b: BlockId) {
    a < |bs| && b < |bs| && a != b && FindStart(bs[a].ops, bs[b].addr) < |bs[a].ops|
  }

  predicate AllMerge(bs: seq<Block>, pairs: seq<(BlockId, BlockId)>)
    decreases |pairs|
  {
    pairs == [] ||
    (CanMerge(bs, pairs[0].0, pairs[0].1) && AllMerge(Merged(bs, pairs[0].0, pairs[0].1), pairs[1..]))
  }

  function MergedAll(bs: seq<Block>, pairs: seq<(BlockId, BlockId)>): seq<Block>
    requires AllMerge(bs, pairs)
    decreases |pairs|
  {
    if pairs == [] then bs else MergedAll(Merged(bs, pairs[0].0, pairs[0].1), pairs[1..])
  }

  /** Successors collected by the k-th block of a chain. */
  function Collected(bs: seq<Block>, chain: seq<BlockId>, k: nat): seq<BlockId>
    requires k < |chain| && forall i :: 0 <= i < |chain| ==> chain[i] < |bs|
  {
    if k == 0 then bs[chain[0]].succs else Joined(bs[chain[k]].succs, Collected(bs, chain, k - 1))
  }

  /** The state after the first k merges of a chain of blocks of was. */
  ghost predicate Progress(was: seq<Block>, now: seq<Block>, chain: seq<BlockId>, k: nat)
    requires Overlapping(was, chain) && k < |chain|
  {
    && |now| == |was|
    && (forall i :: 0 <= i < k ==> now[chain[i]] == Cut(was, chain[i], chain[i + 1]))
    && now[chain[k]] == was[chain[k]].(succs := Collected(was, chain, k))
    && (forall i :: k < i < |chain| ==> now[chain[i]] == was[chain[i]])
    && forall b: BlockId :: b < |was| && b !in chain ==> now[b] == was[b]
  }

  /** next is now but for the blocks a and b. */
  ghost predicate Changed(now: seq<Block>, next: seq<Block>, a: BlockId, b: BlockId, newA: Block, newB: Block) {
    && |next| == |now| && a < |now| && b < |now|
    && next[a] == newA && next[b] == newB
    && forall c: BlockId :: c < |now| && c != a && c != b ==> next[c] == now[c]
  }

  lemma ProgressNext(was: seq<Block>, now: seq<Block>, next: seq<Block>, chain: seq<BlockId>, k: nat, newA: Block,
                     newB: Block)
    requires Overlapping(was, chain) && k + 1 < |chain| && Progress(was, now, chain, k)
    requires Changed(now, next, chain[k], chain[k + 1], newA, newB)
    requires newA == Cut(was, chain[k], chain[k + 1]) &&
      newB == was[chain[k + 1]].(succs := Collected(was, chain, k + 1))
    ensures Progress(was, next, chain, k + 1)
  {
    forall i | 0 <= i < k + 1 ensures next[chain[i]] == Cut(was, chain[i], chain[i + 1]) {
      if i < k {
        OthersStay(now, next, chain, k, newA, newB, i);
      }
    }
    forall i | k + 1 < i < |chain| ensures next[chain[i]] == was[chain[i]] {
      OthersStay(now, next, chain, k, newA, newB, i);
    }
    forall b: BlockId | b < |was| && b !in chain ensures next[b] == was[b] {
      assert chain[k] in chain && chain[k + 1] in chain;
    }
  }

  lemma OthersStay(now: seq<Block>, next: seq<Block>, chain: seq<BlockId>, k: nat, newA: Block, newB: Block, i: nat)
    requires k + 1 < |chain| && Changed(now, next, chain[k], chain[k + 1], newA, newB)
    requires forall i, j :: 0 <= i < j < |chain| ==> chain[i] != chain[j]
    requires i < |chain| && i != k && i != k + 1 && chain[i] < |now|
    ensures next[chain[i]] == now[chain[i]]
  {
    if i < k {
      assert chain[i] != chain[k] && chain[i] != chain[k + 1];
    } else {
      assert chain[k] != chain[i] && chain[k + 1] != chain[i];
    }
  }

  lemma MergeOne(was: seq<Block>, now: seq<Block>, chain: seq<BlockId>, k: nat)
    requires Overlapping(was, chain) && k + 1 < |chain| && Progress(was, now, chain, k)
    ensures CanMerge(now, chain[k], chain[k + 1])
    ensures Progress(was, Merged(now, chain[k], chain[k + 1]), chain, k + 1)
  {
    var a, b := chain[k], chain[k + 1];
    assert SuffixOf(was[a], was[b]);
    var newB := was[b].(succs := Collected(was, chain, k + 1));
    assert Changed(now, Merged(now, a, b), a, b, Cut(was, a, b), newB);
    ProgressNext(was, now, Merged(now, a, b), chain, k, Cut(was, a, b), newB);
  }

  lemma {:induction false} MergeChain(was: seq<Block>, now: seq<Block>, chain: seq<BlockId>, k: nat,
                                      rest: seq<(BlockId, BlockId)>)
    returns (done: seq<Block>)
    requires Overlapping(was, chain) && k < |chain| && Progress(was, now, chain, k)
    ensures Progress(was, done, chain, |chain| - 1)
    ensures AllMerge(done, rest) ==> AllMerge(now, PairsOf(chain[k..]) + rest)
    ensures AllMerge(done, rest) ==> MergedAll(now, PairsOf(chain[k..]) + rest) == MergedAll(done, rest)
    decreases |chain| - k
  {
    if k == |chain| - 1 {
      done := now;
      assert PairsOf(chain[k..]) + rest == rest;
    } else {
      var next := MergeNext(was, now, chain, k);
      done := MergeChain(was, next, chain, k + 1, rest);
      FirstPair(now, next, chain, k, rest);
    }
  }

  lemma MergeNext(was: seq<Block>, now: seq<Block>, chain: seq<BlockId>, k: nat) returns (next: seq<Block>)
    requires Overlapping(was, chain) && k + 1 < |chain| && Progress(was, now, chain, k)
    ensures CanMerge(now, chain[k], chain[k + 1]) && next == Merged(now, chain[k], chain[k + 1])
    ensures Progress(was, next, chain, k + 1)
  {
    MergeOne(was, now, chain, k);
    next := Merged(now, chain[k], chain[k + 1]);
  }

  lemma FirstPair(now: seq<Block>, next: seq<Block>, chain: seq<BlockId>, k: nat, rest: seq<(BlockId, BlockId)>)
    requires k + 1 < |chain| && CanMerge(now, chain[k], chain[k + 1]) && next == Merged(now, chain[k], chain[k + 1])
    ensures AllMerge(next, PairsOf(chain[k + 1..]) + rest) ==> AllMerge(now, PairsOf(chain[k..]) + rest)
    ensures AllMerge(next, PairsOf(chain[k + 1..]) + rest) ==>
      MergedAll(now, PairsOf(chain[k..]) + rest) == MergedAll(next, PairsOf(chain[k + 1..]) + rest)
  {
    var pairs := PairsOf(chain[k..]) + rest;
    assert chain[k..][1..] == chain[k + 1..];
    assert pairs[0] == (chain[k], chain[k + 1]) && pairs[1..] == PairsOf(chain[k + 1..]) + rest;
  }

  // ----- all chains -----

  ghost predicate Disjoint(chains: seq<seq<BlockId>>) {
    forall i, j, b :: 0 <= i < j < |chains| && b in chains[i] ==> b !in chains[j]
  }

  ghost predicate AllOverlapping(bs: seq<Block>, chains: seq<seq<BlockId>>) {
    forall i :: 0 <= i < |chains| ==> chains[i] != [] && Overlapping(bs, chains[i])
  }

  /** A merged chain: every block but the last is cut, the last has all successors. */
  ghost predicate ChainMerged(was: seq<Block>, now: seq<Block>, chain: seq<BlockId>) {
    && |now| == |was| && chain != [] && Overlapping(was, chain)
    && (forall i :: 0 <= i < |chain| - 1 ==> now[chain[i]] == Cut(was, chain[i], chain[i + 1]))
    && now[chain[|chain| - 1]] == was[chain[|chain| - 1]].(succs := Collected(was, chain, |chain| - 1))
  }

  ghost predicate FullyMerged(was: seq<Block>, now: seq<Block>, chains: seq<seq<BlockId>>) {
    && |now| == |was|
    && (forall i :: 0 <= i < |chains| ==> ChainMerged(was, now, chains[i]))
    && forall b: BlockId :: b < |was| && (forall i :: 0 <= i < |chains| ==> b !in chains[i]) ==> now[b] == was[b]
  }

  lemma {:induction false} CollectedFrame(was: seq<Block>, now: seq<Block>, chain: seq<BlockId>, k: nat)
    requires k < |chain| && |was| == |now| && forall i :: 0 <= i < |chain| ==>
      chain[i] < |was| && now[chain[i]] == was[chain[i]]
    ensures Collected(now, chain, k) == Collected(was, chain, k)
  {
    if k > 0 {
      CollectedFrame(was, now, chain, k - 1);
    }
  }

  lemma {:induction false} MergeChains(was: seq<Block>, chains: seq<seq<BlockId>>)
    requires Disjoint(chains) && AllOverlapping(was, chains)
    ensures AllMerge(was, AllPairs(chains))
    ensures FullyMerged(was, MergedAll(was, AllPairs(chains)), chains)
    decreases |chains|
  {
    if chains != [] {
      var chain, others := chains[0], chains[1..];
      assert Progress(was, was, chain, 0);
      assert chain[0..] == chain;
      assert Disjoint(others) by {
        assert forall i :: 0 <= i < |others| ==> others[i] == chains[i + 1];
      }
      var done := MergeChain(was, was, chain, 0, AllPairs(others));
      Untouched(was, done, chains);
      MergeChains(done, others);
      Combine(was, done, MergedAll(done, AllPairs(others)), chains);
    }
  }

  /** Merging the first chain leaves the others as they were. */
  lemma Untouched(was: seq<Block>, done: seq<Block>, chains: seq<seq<BlockId>>)
    requires chains != [] && Disjoint(chains) && AllOverlapping(was, chains) &&
      Progress(was, done, chains[0], |chains[0]| - 1)
    ensures AllOverlapping(done, chains[1..])
    ensures forall i, k :: 0 < i < |chains| && 0 <= k < |chains[i]| ==> done[chains[i][k]] == was[chains[i][k]]
  {
    forall i, k | 0 < i < |chains| && 0 <= k < |chains[i]| ensures done[chains[i][k]] == was[chains[i][k]] {
      assert chains[i][k] in chains[i];
      assert chains[i][k] !in chains[0];
    }
    forall i | 0 <= i < |chains[1..]| ensures chains[1..][i] != [] && Overlapping(done, chains[1..][i]) {
      assert chains[1..][i] == chains[i + 1];
      assert Overlapping(was, chains[i + 1]);
    }
  }

  lemma Combine(was: seq<Block>, done: seq<Block>, now: seq<Block>, chains: seq<seq<BlockId>>)
    requires chains != [] && Disjoint(chains) && AllOverlapping(was, chains) &&
      Progress(was, done, chains[0], |chains[0]| - 1)
    requires forall i, k :: 0 < i < |chains| && 0 <= k < |chains[i]| ==> done[chains[i][k]] == was[chains[i][k]]
    requires FullyMerged(done, now, chains[1..])
    ensures FullyMerged(was, now, chains)
  {
    var chain := chains[0];
    forall k | 0 <= k < |chain| ensures now[chain[k]] == done[chain[k]] {
      assert chain[k] in chain;
      forall i | 0 <= i < |chains[1..]| ensures chain[k] !in chains[1..][i] {
        assert chains[1..][i] == chains[i + 1];
      }
    }
    assert ChainMerged(was, now, chain);
    forall i | 0 < i < |chains| ensures ChainMerged(was, now, chains[i]) {
      assert chains[1..][i - 1] == chains[i];
      SameChain(was, done, now, chains[i]);
    }
    forall b: BlockId | b < |was| && (forall i :: 0 <= i < |chains| ==> b !in chains[i]) ensures now[b] == was[b] {
      assert b !in chains[0];
      forall i | 0 <= i < |chains[1..]| ensures b !in chains[1..][i] {
        assert chains[1..][i] == chains[i + 1];
      }
    }
  }

  /** A chain merged from blocks that are as they were is merged from the original blocks. */
  lemma SameChain(was: seq<Block>, done: seq<Block>, now: seq<Block>, chain: seq<BlockId>)
    requires ChainMerged(done, now, chain) && |was| == |done| && Overlapping(was, chain)
    requires forall k :: 0 <= k < |chain| ==> done[chain[k]] == was[chain[k]]
    ensures ChainMerged(was, now, chain)
  {
    CollectedFrame(was, done, chain, |chain| - 1);
    forall k | 0 <= k < |chain| - 1 ensures now[chain[k]] == Cut(was, chain[k], chain[k + 1]) {
      assert SuffixOf(was[chain[k]], was[chain[k + 1]]);
    }
  }
}
