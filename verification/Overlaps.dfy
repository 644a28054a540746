/**
 Blocks recorded from overlapping traces that end at the same address: each is cut where the
 next one starts and continues there, so every guest instruction is emulated once.
 */
module Overlaps {

  type BlockId = nat

  datatype Cpu = Cpu(pc: nat, ccOp: int, rest: map<nat, int>)

  // Start is the PC store that begins a guest instruction, SetPc any other store of a constant to
  // PC, CcOp a store to cc_op; Work is the rest of the emulation of the instruction at owner.
  datatype Op =
    | Start(pc: nat)
    | SetPc(pc: nat)
    | CcOp(value: int)
    | Work(owner: nat, effect: Cpu -> Cpu)

  datatype Exit = ToDispatcher | JumpTo(block: BlockId)

  datatype Block = Block(addr: nat, ops: seq<Op>, exit: Exit, succs: seq<BlockId>, lastPc: nat)

  // ----- running a block -----

  function Effect(op: Op, s: Cpu): Cpu {
    match op
    case Start(pc) => s.(pc := pc)
    case SetPc(pc) => s.(pc := pc)
    case CcOp(v) => s.(ccOp := v)
    case Work(_, effect) => effect(s)
  }

  function RunOps(ops: seq<Op>, s: Cpu): Cpu {
    if ops == [] then s else RunOps(ops[1..], Effect(ops[0], s))
  }

  /** The guest instructions emulated, in order. */
  function Owners(ops: seq<Op>): seq<nat> {
    if ops == [] then []
    else (if ops[0].Work? then [ops[0].owner] else []) + Owners(ops[1..])
  }

  datatype Result = OutOfFuel | Returned(cpu: Cpu, emulated: seq<nat>)

  /** From the start of a block until control returns to the dispatcher. */
  ghost function Exec(bs: seq<Block>, b: BlockId, s: Cpu, fuel: nat): Result
    decreases fuel
  {
    if fuel == 0 || b >= |bs| then OutOfFuel
    else
      var s' := RunOps(bs[b].ops, s);
      match bs[b].exit
      case ToDispatcher => Returned(s', Owners(bs[b].ops))
      case JumpTo(c) =>
        match Exec(bs, c, s', fuel - 1)
        case OutOfFuel => OutOfFuel
        case Returned(t, more) => Returned(t, Owners(bs[b].ops) + more)
  }

  lemma {:induction false} RunAppend(a: seq<Op>, b: seq<Op>, s: Cpu)
    ensures RunOps(a + b, s) == RunOps(b, RunOps(a, s))
    ensures Owners(a + b) == Owners(a) + Owners(b)
  {
    OwnersAppend(a, b);
    if a == [] {
      assert a + b == b;
    } else {
      assert (a + b)[0] == a[0] && (a + b)[1..] == a[1..] + b;
      RunAppend(a[1..], b, Effect(a[0], s));
    }
  }

  lemma {:induction false} OwnersAppend(a: seq<Op>, b: seq<Op>)
    ensures Owners(a + b) == Owners(a) + Owners(b)
  {
    if a == [] {
      assert a + b == b;
    } else {
      assert (a + b)[0] == a[0] && (a + b)[1..] == a[1..] + b;
      OwnersAppend(a[1..], b);
    }
  }

  // ----- finding the pairs -----

  ghost predicate SortedBy(bs: seq<Block>, ids: seq<BlockId>) {
    && (forall i :: 0 <= i < |ids| ==> ids[i] < |bs|)
    && forall i, j :: 0 <= i < j < |ids| ==> bs[ids[i]].addr <= bs[ids[j]].addr
  }

  method InsertByAddress(bs: seq<Block>, sorted: seq<BlockId>, b: BlockId) returns (r: seq<BlockId>)
    requires SortedBy(bs, sorted) && b < |bs|
    ensures SortedBy(bs, r) && multiset(r) == multiset(sorted) + multiset{b}
  {
    var p := |sorted|;
    while p > 0 && bs[sorted[p - 1]].addr > bs[b].addr
      invariant 0 <= p <= |sorted|
      invariant forall i :: p <= i < |sorted| ==> bs[b].addr < bs[sorted[i]].addr
    {
      p := p - 1;
    }
    InsertSorted(bs, sorted, p, b);
    InsertKeeps(sorted, p, b);
    r := sorted[..p] + [b] + sorted[p..];
  }

  lemma InsertKeeps(sorted: seq<BlockId>, p: nat, b: BlockId)
    requires p <= |sorted|
    ensures multiset(sorted[..p] + [b] + sorted[p..]) == multiset(sorted) + multiset{b}
  {
    assert sorted == sorted[..p] + sorted[p..];
  }

  lemma InsertSorted(bs: seq<Block>, sorted: seq<BlockId>, p: nat, b: BlockId)
    requires SortedBy(bs, sorted) && b < |bs| && p <= |sorted|
    requires forall i :: p <= i < |sorted| ==> bs[b].addr < bs[sorted[i]].addr
    requires p > 0 ==> bs[sorted[p - 1]].addr <= bs[b].addr
    ensures SortedBy(bs, sorted[..p] + [b] + sorted[p..])
  {
    var r := sorted[..p] + [b] + sorted[p..];
    assert forall i :: 0 <= i < |r| ==> r[i] == if i < p then sorted[i] else if i == p then b else sorted[i - 1];
    forall i, j | 0 <= i < j < |r| ensures bs[r[i]].addr <= bs[r[j]].addr {
      if j == p {
        assert bs[sorted[i]].addr <= bs[sorted[p - 1]].addr;
      }
    }
  }

  method SortByAddress(bs: seq<Block>, ids: seq<BlockId>) returns (sorted: seq<BlockId>)
    requires forall i :: 0 <= i < |ids| ==> ids[i] < |bs|
    ensures SortedBy(bs, sorted) && multiset(sorted) == multiset(ids)
  {
    sorted := [];
    for k := 0 to |ids|
      invariant SortedBy(bs, sorted) && multiset(sorted) == multiset(ids[..k])
    {
      assert ids[..k + 1] == ids[..k] + [ids[k]];
      sorted := InsertByAddress(bs, sorted, ids[k]);
    }
    assert ids[..|ids|] == ids;
  }

  function PairsOf(chain: seq<BlockId>): seq<(BlockId, BlockId)> {
    if |chain| < 2 then [] else [(chain[0], chain[1])] + PairsOf(chain[1..])
  }

  function AllPairs(chains: seq<seq<BlockId>>): seq<(BlockId, BlockId)> {
    if chains == [] then [] else PairsOf(chains[0]) + AllPairs(chains[1..])
  }

  /** The blocks ending at an address, in order of their own addresses. */
  ghost predicate ChainOf(bs: seq<Block>, chain: seq<BlockId>, lastPc: nat) {
    && SortedBy(bs, chain)
    && (forall i, j :: 0 <= i < j < |chain| ==> chain[i] != chain[j])
    && forall b: BlockId :: b in chain <==> b < |bs| && bs[b].lastPc == lastPc
  }

  /** One chain for each address at which several blocks end. */
  ghost predicate ChainsOf(bs: seq<Block>, chains: seq<seq<BlockId>>, ends: seq<nat>) {
    && |ends| == |chains|
    && (forall i, j :: 0 <= i < j < |ends| ==> ends[i] != ends[j])
    && (forall i :: 0 <= i < |chains| ==> ChainOf(bs, chains[i], ends[i]) && |chains[i]| > 1)
    && forall b, c :: 0 <= b < c < |bs| && bs[b].lastPc == bs[c].lastPc ==> bs[b].lastPc in ends
  }

  /** The pairs are the neighbours in the chains, chain by chain. */
  ghost predicate MergePairs(bs: seq<Block>, pairs: seq<(BlockId, BlockId)>) {
    exists chains, ends :: ChainsOf(bs, chains, ends) && pairs == AllPairs(chains)
  }

  /** Put all blocks ending at the same address in one bucket. */
  method FillBuckets(bs: seq<Block>) returns (buckets: map<nat, seq<BlockId>>)
    ensures forall p :: p in buckets ==> Bucket(bs, buckets[p], p, |bs|)
    ensures forall c :: 0 <= c < |bs| ==> bs[c].lastPc in buckets
  {
    buckets := map[];
    for b := 0 to |bs|
      invariant forall p :: p in buckets ==> Bucket(bs, buckets[p], p, b)
      invariant forall c :: 0 <= c < b ==> bs[c].lastPc in buckets
    {
      var last := bs[b].lastPc;
      var old' := if last in buckets then buckets[last] else [];
      assert Bucket(bs, old', last, b);
      ghost var before := buckets;
      buckets := buckets[last := old' + [b]];
      forall p | p in buckets ensures Bucket(bs, buckets[p], p, b + 1) {
        if p != last { assert Bucket(bs, before[p], p, b); } else { BucketNext(bs, old', b); }
      }
    }
  }

  /** Pair each block of a sorted bucket with the next. */
  method PairUp(merge: seq<BlockId>) returns (pairs: seq<(BlockId, BlockId)>)
    ensures pairs == PairsOf(merge)
  {
    pairs := [];
    if merge == [] {
      return;
    }
    for k := 1 to |merge|
      invariant pairs == PairsOf(merge[..k])
    {
      PairsAppend(merge[..k], merge[k]);
      assert merge[..k + 1] == merge[..k] + [merge[k]];
      pairs := pairs + [(merge[k - 1], merge[k])];
    }
    assert merge[..|merge|] == merge;
  }

  /** A bucket of several blocks, sorted and paired up. */
  method MergeBucket(bs: seq<Block>, bucket: seq<BlockId>, last: nat)
    returns (merge: seq<BlockId>, pairs: seq<(BlockId, BlockId)>)
    requires Bucket(bs, bucket, last, |bs|)
    ensures ChainOf(bs, merge, last) && |merge| == |bucket| && pairs == PairsOf(merge)
  {
    assert forall i :: 0 <= i < |bucket| ==> bucket[i] in bucket;
    merge := SortByAddress(bs, bucket);
    SortedBucket(bs, bucket, merge, last);
    pairs := PairUp(merge);
  }

  /** The chains of the buckets that are not in rest. */
  ghost predicate ChainsSoFar(bs: seq<Block>, buckets: map<nat, seq<BlockId>>, rest: set<nat>,
                              chains: seq<seq<BlockId>>, ends: seq<nat>) {
    && |ends| == |chains|
    && (forall i :: 0 <= i < |ends| ==> ends[i] in buckets && ends[i] !in rest)
    && (forall i, j :: 0 <= i < j < |ends| ==> ends[i] != ends[j])
    && (forall i :: 0 <= i < |chains| ==> ChainOf(bs, chains[i], ends[i]) && |chains[i]| > 1)
    && forall p :: p in buckets && p !in rest && |buckets[p]| > 1 ==> p in ends
  }

  lemma ChainsNext(bs: seq<Block>, buckets: map<nat, seq<BlockId>>, rest: set<nat>, chains: seq<seq<BlockId>>,
                   ends: seq<nat>, last: nat, merge: seq<BlockId>)
    requires last in buckets && last in rest && ChainsSoFar(bs, buckets, rest, chains, ends)
    requires ChainOf(bs, merge, last) && |merge| > 1
    ensures ChainsSoFar(bs, buckets, rest - {last}, chains + [merge], ends + [last])
  {
    assert forall p :: p in ends ==> p in ends + [last];
    assert (ends + [last])[|ends|] == last;
  }

  /** Bucket the blocks by where they end, and pair each with the next in its bucket. */
  method FindMergePairs(bs: seq<Block>) returns (pairs: seq<(BlockId, BlockId)>)
    ensures MergePairs(bs, pairs)
  {
    var buckets := FillBuckets(bs);
    pairs := [];
    ghost var chains: seq<seq<BlockId>> := [];
    ghost var ends: seq<nat> := [];
    var rest := buckets.Keys;
    while rest != {}
      invariant rest <= buckets.Keys && pairs == AllPairs(chains)
      invariant ChainsSoFar(bs, buckets, rest, chains, ends)
    {
      var last :| last in rest;
      if |buckets[last]| >= 2 {
        var merge, more := MergeBucket(bs, buckets[last], last);
        AllPairsAppend(chains, merge);
        ChainsNext(bs, buckets, rest, chains, ends, last, merge);
        pairs := pairs + more;
        chains, ends := chains + [merge], ends + [last];
      }
      rest := rest - {last};
    }
    AllChains(bs, buckets, chains, ends);
  }

  lemma AllChains(bs: seq<Block>, buckets: map<nat, seq<BlockId>>, chains: seq<seq<BlockId>>, ends: seq<nat>)
    requires forall p :: p in buckets ==> Bucket(bs, buckets[p], p, |bs|)
    requires forall c :: 0 <= c < |bs| ==> bs[c].lastPc in buckets
    requires ChainsSoFar(bs, buckets, {}, chains, ends)
    ensures ChainsOf(bs, chains, ends)
  {
    forall b, c | 0 <= b < c < |bs| && bs[b].lastPc == bs[c].lastPc ensures bs[b].lastPc in ends {
      BothInBucket(bs, buckets[bs[b].lastPc], b, c);
    }
  }

  lemma BothInBucket(bs: seq<Block>, ids: seq<BlockId>, b: BlockId, c: BlockId)
    requires b < c < |bs| && bs[b].lastPc == bs[c].lastPc && Bucket(bs, ids, bs[b].lastPc, |bs|)
    ensures |ids| > 1
  {
    assert b in ids && c in ids;
  }

  /** Blocks before n that end at an address, in order. */
  ghost predicate Bucket(bs: seq<Block>, ids: seq<BlockId>, lastPc: nat, n: nat) {
    && n <= |bs|
    && (forall i, j :: 0 <= i < j < |ids| ==> ids[i] < ids[j])
    && forall b: BlockId :: b in ids <==> b < n && bs[b].lastPc == lastPc
  }

  lemma BucketNext(bs: seq<Block>, ids: seq<BlockId>, n: nat)
    requires n < |bs| && Bucket(bs, ids, bs[n].lastPc, n)
    ensures Bucket(bs, ids + [n], bs[n].lastPc, n + 1)
  {
    assert forall i :: 0 <= i < |ids| ==> ids[i] in ids;
  }

  lemma SortedBucket(bs: seq<Block>, ids: seq<BlockId>, sorted: seq<BlockId>, lastPc: nat)
    requires Bucket(bs, ids, lastPc, |bs|) && SortedBy(bs, sorted) && multiset(sorted) == multiset(ids)
    ensures ChainOf(bs, sorted, lastPc) && |sorted| == |ids|
  {
    assert |multiset(sorted)| == |sorted| && |multiset(ids)| == |ids|;
    forall b ensures b in sorted <==> b in ids {
      assert b in multiset(sorted) <==> b in sorted;
      assert b in multiset(ids) <==> b in ids;
    }
    OnceEach(ids);
    forall i, j | 0 <= i < j < |sorted| ensures sorted[i] != sorted[j] {
      TwoOccurrences(sorted, i, j);
    }
  }

  lemma TwoOccurrences(ids: seq<BlockId>, i: nat, j: nat)
    requires i < j < |ids|
    ensures ids[i] == ids[j] ==> multiset(ids)[ids[i]] >= 2
  {
    assert ids == ids[..j] + ids[j..];
    assert ids[i] in ids[..j] && ids[j] in ids[j..];
  }

  lemma {:induction false} OnceEach(ids: seq<BlockId>)
    requires forall i, j :: 0 <= i < j < |ids| ==> ids[i] < ids[j]
    ensures forall b :: multiset(ids)[b] <= 1
  {
    if ids != [] {
      OnceEach(ids[1..]);
      assert ids == [ids[0]] + ids[1..];
      assert ids[0] !in ids[1..];
    }
  }

  lemma {:induction false} PairsAppend(chain: seq<BlockId>, b: BlockId)
    requires chain != []
    ensures PairsOf(chain + [b]) == PairsOf(chain) + [(chain[|chain| - 1], b)]
  {
    if |chain| > 1 {
      PairsAppend(chain[1..], b);
      assert (chain + [b])[1..] == chain[1..] + [b];
    }
  }

  lemma {:induction false} AllPairsAppend(chains: seq<seq<BlockId>>, chain: seq<BlockId>)
    ensures AllPairs(chains + [chain]) == AllPairs(chains) + PairsOf(chain)
  {
    var all := chains + [chain];
    if chains == [] {
      assert all[1..] == [];
    } else {
      assert all[0] == chains[0];
      assert all[1..] == chains[1..] + [chain];
      AllPairsAppend(chains[1..], chain);
      var first, rest := PairsOf(chains[0]), AllPairs(chains[1..]);
      assert first + (rest + PairsOf(chain)) == (first + rest) + PairsOf(chain);
    }
  }
}
