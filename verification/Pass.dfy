/** The pass itself: analyse, give every function its new body, rewrite the calls site by site, erase the old ones. */
module Pass {
  import opened Registers
  import opened Ir
  import opened DefSweep
  import opened Liveness
  import opened LivenessLoop
  import LiveWalks
  import opened LocalRegs
  import opened Convention
  import opened Rewrite
  import opened Preservation

  /** An instruction once accesses are redirected and before calls are. */
  function Redirected(kind: Kind, instr: Instr): NewInstr {
    match instr
    case Load(dst, r) => NewLoad(dst, r, kind.Recovered?)
    case Store(r, value) => NewStore(r, value, kind.Recovered?)
    case Other(step) => NewOther(step)
    case Call(g) => NewCall(g, [], [])
  }

  /** The new body of one function, its calls still as they were. */
  method UpdateSignature(m: Module, f: FuncId, io: InOut) returns (n: NewFunc)
    requires f < |m| && f < |io.ins| && f < |io.outs|
    ensures n == NewFunction(m, f, io).(blocks := n.blocks) && |n.blocks| == |m[f].blocks|
    ensures forall b :: 0 <= b < |n.blocks| ==>
      n.blocks[b].term == m[f].blocks[b].term && |n.blocks[b].instrs| == |m[f].blocks[b].instrs|
    ensures forall b, i :: 0 <= b < |n.blocks| && 0 <= i < |n.blocks[b].instrs| ==>
      n.blocks[b].instrs[i] == Redirected(m[f].kind, m[f].blocks[b].instrs[i])
  {
    var blocks: seq<NewBlock> := [];
    for b := 0 to |m[f].blocks|
      invariant |blocks| == b
      invariant forall c :: 0 <= c < b ==>
        blocks[c].term == m[f].blocks[c].term && |blocks[c].instrs| == |m[f].blocks[c].instrs|
      invariant forall c, i :: 0 <= c < b && 0 <= i < |blocks[c].instrs| ==>
        blocks[c].instrs[i] == Redirected(m[f].kind, m[f].blocks[c].instrs[i])
    {
      var instrs: seq<NewInstr> := [];
      for i := 0 to |m[f].blocks[b].instrs|
        invariant |instrs| == i
        invariant forall j :: 0 <= j < i ==> instrs[j] == Redirected(m[f].kind, m[f].blocks[b].instrs[j])
      {
        instrs := instrs + [Redirected(m[f].kind, m[f].blocks[b].instrs[i])];
      }
      blocks := blocks + [NewBlock(instrs, m[f].blocks[b].term)];
    }
    match m[f].kind
    case Recovered => n := NewFunc(Recovered, Sorted(io.ins[f]), Sorted(io.outs[f]), [], blocks);
    case Wrapper => n := NewFunc(Wrapper, [], [], NAMED, blocks);
    case Plain => n := NewFunc(Plain, [], [], [], blocks);
  }

  // ----- rewriting the calls -----

  /** An instruction when the calls in done have been rewritten. */
  function PartlyNew(m: Module, io: InOut, done: set<Site>, f: FuncId, b: BlockId, i: nat): NewInstr
    requires f < |m| && b < |m[f].blocks| && i < |m[f].blocks[b].instrs| && |io.ins| == |io.outs| == |m|
  {
    var s := SiteAt(m, f, b, i);
    if s in done && s.callee < |m| then NewCall(s.callee, Sorted(io.ins[s.callee]), Sorted(io.outs[s.callee]))
    else Redirected(m[f].kind, m[f].blocks[b].instrs[i])
  }

  /** Block b of f, when the calls in done have been rewritten. */
  ghost predicate BlockPartly(m: Module, io: InOut, done: set<Site>, f: FuncId, b: BlockId, block: NewBlock)
    requires f < |m| && b < |m[f].blocks| && |io.ins| == |io.outs| == |m|
  {
    && block.term == m[f].blocks[b].term && |block.instrs| == |m[f].blocks[b].instrs|
    && forall i: nat :: i < |block.instrs| ==> block.instrs[i] == PartlyNew(m, io, done, f, b, i)
  }

  ghost predicate FuncPartly(m: Module, io: InOut, done: set<Site>, f: FuncId, n: NewFunc)
    requires f < |m| && |io.ins| == |io.outs| == |m|
  {
    && n == NewFunction(m, f, io).(blocks := n.blocks) && |n.blocks| == |m[f].blocks|
    && forall b: BlockId :: b < |n.blocks| ==> BlockPartly(m, io, done, f, b, n.blocks[b])
  }

  ghost predicate Partly(m: Module, io: InOut, done: set<Site>, n: NewModule)
    requires |io.ins| == |io.outs| == |m|
  {
    |n| == |m| && forall f: FuncId :: f < |m| ==> FuncPartly(m, io, done, f, n[f])
  }

  lemma StartsPartly(m: Module, f: FuncId, io: InOut, n: NewFunc)
    requires f < |m| && |io.ins| == |io.outs| == |m|
    requires n == NewFunction(m, f, io).(blocks := n.blocks) && |n.blocks| == |m[f].blocks|
    requires forall b :: 0 <= b < |n.blocks| ==>
      n.blocks[b].term == m[f].blocks[b].term && |n.blocks[b].instrs| == |m[f].blocks[b].instrs|
    requires forall b, i :: 0 <= b < |n.blocks| && 0 <= i < |n.blocks[b].instrs| ==>
      n.blocks[b].instrs[i] == Redirected(m[f].kind, m[f].blocks[b].instrs[i])
    ensures FuncPartly(m, io, {}, f, n)
  {
    forall b: BlockId | b < |n.blocks| ensures BlockPartly(m, io, {}, f, b, n.blocks[b]) {}
  }

  /** Replace one call by a call that passes arguments and stores results. */
  method RewriteSite(m: Module, io: InOut, n: NewModule, s: Site, ghost done: set<Site>) returns (n': NewModule)
    requires |io.ins| == |io.outs| == |m| && IsSite(m, s) && Partly(m, io, done, n)
    ensures Partly(m, io, done + {s}, n')
  {
    assert FuncPartly(m, io, done, s.caller, n[s.caller]);
    var block := n[s.caller].blocks[s.block];
    assert BlockPartly(m, io, done, s.caller, s.block, block);
    var call := NewCall(s.callee, Sorted(io.ins[s.callee]), Sorted(io.outs[s.callee]));
    var block' := block.(instrs := block.instrs[s.at := call]);
    n' := n[s.caller := n[s.caller].(blocks := n[s.caller].blocks[s.block := block'])];
    SiteRewritten(m, io, n, n', s, done, block');
  }

  lemma SiteRewritten(m: Module, io: InOut, n: NewModule, n': NewModule, s: Site, done: set<Site>, block: NewBlock)
    requires |io.ins| == |io.outs| == |m| && IsSite(m, s) && Partly(m, io, done, n)
    requires |n| == |m| && |n[s.caller].blocks| == |m[s.caller].blocks|
    requires |n[s.caller].blocks[s.block].instrs| == |m[s.caller].blocks[s.block].instrs|
    requires block == n[s.caller].blocks[s.block].(instrs := n[s.caller].blocks[s.block].instrs[s.at :=
      NewCall(s.callee, Sorted(io.ins[s.callee]), Sorted(io.outs[s.callee]))])
    requires n' == n[s.caller := n[s.caller].(blocks := n[s.caller].blocks[s.block := block])]
    ensures Partly(m, io, done + {s}, n')
  {
    forall f: FuncId | f < |m| ensures FuncPartly(m, io, done + {s}, f, n'[f]) {
      assert FuncPartly(m, io, done, f, n[f]);
      forall b: BlockId | b < |m[f].blocks| ensures BlockPartly(m, io, done + {s}, f, b, n'[f].blocks[b]) {
        assert BlockPartly(m, io, done, f, b, n[f].blocks[b]);
        forall i: nat | i < |m[f].blocks[b].instrs|
          ensures n'[f].blocks[b].instrs[i] == PartlyNew(m, io, done + {s}, f, b, i)
        {
          assert SiteAt(m, f, b, i) == s <==> f == s.caller && b == s.block && i == s.at;
        }
      }
    }
  }

  /** What is left of an old call of a recovered function. */
  function Erased(m: Module, instr: NewInstr): NewInstr {
    if instr.NewCall? && instr.callee < |m| && m[instr.callee].kind.Recovered? then NewGone else instr
  }

  /** Erase a block's calls of recovered functions. */
  method EraseInBlock(m: Module, block: NewBlock) returns (block': NewBlock)
    ensures block'.term == block.term && |block'.instrs| == |block.instrs|
    ensures forall i :: 0 <= i < |block.instrs| ==> block'.instrs[i] == Erased(m, block.instrs[i])
  {
    block' := block;
    for i := 0 to |block.instrs|
      invariant block'.term == block.term && |block'.instrs| == |block.instrs|
      invariant forall j :: 0 <= j < |block.instrs| ==>
        block'.instrs[j] == if j < i then Erased(m, block.instrs[j]) else block.instrs[j]
    {
      block' := block'.(instrs := block'.instrs[i := Erased(m, block.instrs[i])]);
    }
  }

  lemma BlockErased(m: Module, io: InOut, f: FuncId, b: BlockId, block: NewBlock, block': NewBlock)
    requires f < |m| && b < |m[f].blocks| && |io.ins| == |io.outs| == |m|
    requires BlockPartly(m, io, Sites(m), f, b, block)
    requires block'.term == block.term && |block'.instrs| == |block.instrs|
    requires forall i :: 0 <= i < |block.instrs| ==>
      block'.instrs[i] == if m[f].kind.Plain? then Erased(m, block.instrs[i]) else block.instrs[i]
    ensures block' == NewBlockOf(m, m[f].kind, m[f].blocks[b], io)
  {
    forall i: nat | i < |block.instrs|
      ensures block'.instrs[i] == NewInstruction(m, m[f].kind, m[f].blocks[b].instrs[i], io)
    {
      assert block.instrs[i] == PartlyNew(m, io, Sites(m), f, b, i);
      SitesAre(m, SiteAt(m, f, b, i));
    }
    assert block'.instrs == NewBlockOf(m, m[f].kind, m[f].blocks[b], io).instrs;
  }

  /** The calls that are left, in functions without locals, have nothing in their place. */
  method EraseInFunction(m: Module, io: InOut, f: FuncId, n: NewFunc) returns (n': NewFunc)
    requires f < |m| && |io.ins| == |io.outs| == |m| && FuncPartly(m, io, Sites(m), f, n)
    ensures n' == NewFunction(m, f, io)
  {
    var blocks: seq<NewBlock> := [];
    for b := 0 to |n.blocks|
      invariant |blocks| == b
      invariant forall c :: 0 <= c < b ==> blocks[c] == NewBlockOf(m, m[f].kind, m[f].blocks[c], io)
    {
      var block := n.blocks[b];
      if m[f].kind.Plain? {
        block := EraseInBlock(m, block);
      }
      BlockErased(m, io, f, b, n.blocks[b], block);
      blocks := blocks + [block];
    }
    n' := n.(blocks := blocks);
    assert blocks == NewFunction(m, f, io).blocks;
  }

  method EraseCalls(m: Module, io: InOut, n: NewModule) returns (n': NewModule)
    requires |io.ins| == |io.outs| == |m| && Partly(m, io, Sites(m), n)
    ensures n' == Rewritten(m, io)
  {
    n' := [];
    for f := 0 to |m|
      invariant |n'| == f && forall g :: 0 <= g < f ==> n'[g] == NewFunction(m, g, io)
    {
      var nf := EraseInFunction(m, io, f, n[f]);
      n' := n' + [nf];
    }
    assert n' == Rewritten(m, io);
  }

  // ----- the locals -----

  /** Every local the new functions access exists. */
  ghost predicate HaveLocals(n: NewModule, locals: seq<RegSet>) {
    && |locals| == |n|
    && forall f: FuncId :: f < |n| ==> FuncHas(n[f], locals[f])
  }

  ghost predicate FuncHas(n: NewFunc, locals: RegSet) {
    && Elements(n.params) + Elements(n.results) + Elements(n.copied) <= locals
    && forall b, i :: 0 <= b < |n.blocks| && 0 <= i < |n.blocks[b].instrs| ==> InstrHas(n.blocks[b].instrs[i], locals)
  }

  ghost predicate InstrHas(instr: NewInstr, locals: RegSet) {
    match instr
    case NewLoad(_, r, local) => local ==> r in locals
    case NewStore(r, _, local) => local ==> r in locals
    case NewCall(_, args, rets) => Elements(args) + Elements(rets) <= locals
    case _ => true
  }

  ghost function Elements(regs: seq<Reg>): RegSet {
    set r | r in regs
  }

  /** Arguments and results of the sites done have locals, and no local was lost. */
  ghost predicate SitesHave(m: Module, io: InOut, done: set<Site>, locals: seq<RegSet>)
    requires |io.ins| == |io.outs| == |m|
  {
    && |locals| == |m| && Leq(AllLocals(m, io), locals)
    && forall s :: s in done && IsSite(m, s) ==> io.ins[s.callee] + io.outs[s.callee] <= locals[s.caller]
  }

  /** Some call among those done passes r as an argument from f. */
  ghost predicate TakenBy(m: Module, io: InOut, done: set<Site>, f: FuncId, r: Reg)
    requires |io.ins| == |m|
  {
    exists s :: s in done && IsSite(m, s) && s.caller == f && r in io.ins[s.callee]
  }

  /** No local was made but for registers used and arguments passed. */
  ghost predicate SitesNeed(m: Module, io: InOut, done: set<Site>, locals: seq<RegSet>)
    requires |io.ins| == |io.outs| == |m|
  {
    && |locals| == |m|
    && forall f: FuncId, r :: f < |m| && r in locals[f] ==> r in LocalsOf(m, io, f) || TakenBy(m, io, done, f, r)
  }

  /** An instruction of f loads or stores r, or passes it to a recovered function. */
  ghost predicate Accesses(m: Module, io: InOut, f: FuncId, r: Reg)
    requires f < |m| && |io.ins| == |m|
  {
    exists b: BlockId, i: nat :: b < |m[f].blocks| && i < |m[f].blocks[b].instrs| &&
      AccessedBy(m, io, m[f].blocks[b].instrs[i], r)
  }

  ghost predicate AccessedBy(m: Module, io: InOut, instr: Instr, r: Reg)
    requires |io.ins| == |m|
  {
    match instr
    case Load(_, q) => q == r
    case Store(q, _) => q == r
    case Call(g) => g < |m| && m[g].kind.Recovered? && r in io.ins[g]
    case Other(_) => false
  }

  /** Which locals exist in the end. */
  ghost predicate LocalsAre(m: Module, io: InOut, locals: seq<RegSet>)
    requires |io.ins| == |io.outs| == |m|
  {
    |locals| == |m| && forall f: FuncId, r :: f < |m| ==> (r in locals[f] <==> LocalFor(m, io, f, r))
  }

  ghost predicate LocalFor(m: Module, io: InOut, f: FuncId, r: Reg)
    requires |io.ins| == |io.outs| == |m| && f < |m|
  {
    match m[f].kind
    case Plain => false
    case Wrapper => true
    case Recovered => r in io.ins[f] || r in io.outs[f] || Accesses(m, io, f, r)
  }

  lemma LocalsExactly(m: Module, io: InOut, locals: seq<RegSet>)
    requires |io.ins| == |io.outs| == |m|
    requires SitesHave(m, io, Sites(m), locals) && SitesNeed(m, io, Sites(m), locals)
    ensures LocalsAre(m, io, locals)
  {
    AllIsAll();
    forall f: FuncId, r | f < |m| && m[f].kind.Recovered? && Accesses(m, io, f, r) ensures r in locals[f] {
      var b: BlockId, i: nat :| b < |m[f].blocks| && i < |m[f].blocks[b].instrs| &&
        AccessedBy(m, io, m[f].blocks[b].instrs[i], r);
      AccessHas(m, io, locals, f, b, i, r);
    }
    forall f: FuncId, r | f < |m| && r in locals[f]
      ensures !m[f].kind.Plain?
      ensures m[f].kind.Recovered? ==> r in io.ins[f] || r in io.outs[f] || Accesses(m, io, f, r)
    {
      LocalNeeded(m, io, locals, f, r);
    }
    forall f: FuncId | f < |m| ensures LocalsOf(m, io, f) <= locals[f] {
      assert AllLocals(m, io)[f] == LocalsOf(m, io, f);
    }
  }

  lemma AccessHas(m: Module, io: InOut, locals: seq<RegSet>, f: FuncId, b: BlockId, i: nat, r: Reg)
    requires |io.ins| == |io.outs| == |m| && SitesHave(m, io, Sites(m), locals)
    requires f < |m| && m[f].kind.Recovered? && b < |m[f].blocks| && i < |m[f].blocks[b].instrs|
    requires AccessedBy(m, io, m[f].blocks[b].instrs[i], r)
    ensures r in locals[f]
  {
    assert AllLocals(m, io)[f] == LocalsOf(m, io, f);
    match m[f].blocks[b].instrs[i]
    case Load(_, q) => assert q in LoadedBy(m[f].blocks[b]) && q in Loads(m[f]);
    case Store(q, _) => assert q in StoredBy(m[f].blocks[b]) && q in Stores(m[f]);
    case Other(_) =>
    case Call(g) => SitesAre(m, SiteAt(m, f, b, i));
  }

  lemma LocalNeeded(m: Module, io: InOut, locals: seq<RegSet>, f: FuncId, r: Reg)
    requires |io.ins| == |io.outs| == |m| && SitesNeed(m, io, Sites(m), locals) && f < |m| && r in locals[f]
    ensures !m[f].kind.Plain?
    ensures m[f].kind.Recovered? ==> r in io.ins[f] || r in io.outs[f] || Accesses(m, io, f, r)
  {
    if r !in LocalsOf(m, io, f) {
      var s :| s in Sites(m) && IsSite(m, s) && s.caller == f && r in io.ins[s.callee];
      assert AccessedBy(m, io, m[f].blocks[s.block].instrs[s.at], r);
    } else if m[f].kind.Recovered? {
      if r in Loads(m[f]) {
        var b :| 0 <= b < |m[f].blocks| && r in LoadedBy(m[f].blocks[b]);
        var i :| 0 <= i < |m[f].blocks[b].instrs| && m[f].blocks[b].instrs[i].Load? &&
          m[f].blocks[b].instrs[i].reg == r;
        assert AccessedBy(m, io, m[f].blocks[b].instrs[i], r);
      } else if r in Stores(m[f]) {
        var b :| 0 <= b < |m[f].blocks| && r in StoredBy(m[f].blocks[b]);
        var i :| 0 <= i < |m[f].blocks[b].instrs| && m[f].blocks[b].instrs[i].Store? &&
          m[f].blocks[b].instrs[i].reg == r;
        assert AccessedBy(m, io, m[f].blocks[b].instrs[i], r);
      }
    }
  }

  lemma AllHave(m: Module, io: InOut, locals: seq<RegSet>)
    requires |io.ins| == |io.outs| == |m| && SitesHave(m, io, Sites(m), locals)
    ensures HaveLocals(Rewritten(m, io), locals)
  {
    var n := Rewritten(m, io);
    forall f: FuncId | f < |n| ensures FuncHas(n[f], locals[f]) {
      SortedLists(io.ins[f]);
      SortedLists(io.outs[f]);
      AllIsAll();
      assert LocalsOf(m, io, f) <= locals[f] by { assert AllLocals(m, io)[f] == LocalsOf(m, io, f); }
      forall b: BlockId, i: nat | b < |n[f].blocks| && i < |n[f].blocks[b].instrs|
        ensures InstrHas(n[f].blocks[b].instrs[i], locals[f])
      {
        InstrLocals(m, io, locals, f, b, i);
      }
    }
  }

  lemma InstrLocals(m: Module, io: InOut, locals: seq<RegSet>, f: FuncId, b: BlockId, i: nat)
    requires |io.ins| == |io.outs| == |m| && SitesHave(m, io, Sites(m), locals)
    requires f < |m| && b < |m[f].blocks| && i < |m[f].blocks[b].instrs| && LocalsOf(m, io, f) <= locals[f]
    ensures InstrHas(NewInstruction(m, m[f].kind, m[f].blocks[b].instrs[i], io), locals[f])
  {
    match m[f].blocks[b].instrs[i]
    case Load(_, r) => assert r in LoadedBy(m[f].blocks[b]) && r in Loads(m[f]);
    case Store(r, _) => assert r in StoredBy(m[f].blocks[b]) && r in Stores(m[f]);
    case Other(_) =>
    case Call(g) =>
      SitesAre(m, SiteAt(m, f, b, i));
      if g < |m| {
        SortedLists(io.ins[g]);
        SortedLists(io.outs[g]);
      }
  }

  /** Make the locals every function starts with. */
  method MakeLocals(m: Module, io: InOut, used: seq<RegSet>) returns (locals: seq<RegSet>)
    requires |io.ins| == |io.outs| == |used| == |m|
    requires forall f :: 0 <= f < |m| ==> used[f] == UsedRegs(m[f], io.ins[f], io.outs[f])
    ensures locals == AllLocals(m, io)
  {
    locals := [];
    for f := 0 to |m|
      invariant |locals| == f && forall g :: 0 <= g < f ==> locals[g] == LocalsOf(m, io, g)
    {
      match m[f].kind
      case Wrapper => locals := locals + [ALL];
      case Recovered => locals := locals + [used[f]];
      case Plain => locals := locals + [{}];
    }
    assert locals == AllLocals(m, io);
  }

  ghost function First(sites: seq<Site>, k: nat): set<Site>
    requires k <= |sites|
  {
    set s | s in sites[..k]
  }

  /** The state after the first k sites. */
  ghost predicate SitesDone(m: Module, io: InOut, sites: seq<Site>, k: nat, n: NewModule, locals: seq<RegSet>)
    requires |io.ins| == |io.outs| == |m|
  {
    && k <= |sites| && |locals| == |m|
    && Partly(m, io, First(sites, k), n)
    && SitesHave(m, io, First(sites, k), locals) && SitesNeed(m, io, First(sites, k), locals)
  }

  /** One turn of the loop over the sites; not found when a result would be stored to a local that does not exist. */
  method NextSite(m: Module, io: InOut, sites: seq<Site>, k: nat, n: NewModule, locals: seq<RegSet>)
    returns (found: bool, n': NewModule, locals': seq<RegSet>)
    requires |io.ins| == |io.outs| == |m| && k < |sites| && IsSite(m, sites[k]) && SitesDone(m, io, sites, k, n, locals)
    ensures |locals'| == |m| && SitesOk([sites[k]], io, locals) && locals' == WithArgs(io, locals, sites[k])
    ensures found <==> io.outs[sites[k].callee] <= locals[sites[k].caller] + io.ins[sites[k].callee]
    ensures found ==> SitesDone(m, io, sites, k + 1, n', locals')
  {
    var s := sites[k];
    assert [s][0] == s;
    locals' := locals[s.caller := locals[s.caller] + io.ins[s.callee]];
    found, n' := io.outs[s.callee] <= locals'[s.caller], n;
    if found {
      n' := RewriteSite(m, io, n, s, First(sites, k));
      assert sites[..k + 1] == sites[..k] + [s];
      assert First(sites, k + 1) == First(sites, k) + {s};
      TakenToo(m, io, First(sites, k), s, locals, locals');
    }
  }

  lemma TakenToo(m: Module, io: InOut, done: set<Site>, s: Site, locals: seq<RegSet>, locals': seq<RegSet>)
    requires |io.ins| == |io.outs| == |m| && IsSite(m, s) && SitesNeed(m, io, done, locals)
    requires locals' == locals[s.caller := locals[s.caller] + io.ins[s.callee]]
    ensures SitesNeed(m, io, done + {s}, locals')
  {
    forall f: FuncId, r | f < |m| && r in locals'[f]
      ensures r in LocalsOf(m, io, f) || TakenBy(m, io, done + {s}, f, r)
    {
      if r in locals[f] && r !in LocalsOf(m, io, f) {
        var t :| t in done && IsSite(m, t) && t.caller == f && r in io.ins[t.callee];
        assert t in done + {s};
      } else if r !in locals[f] {
        assert s in done + {s};
      }
    }
  }

  /** Rewrite all sites in order, adding locals for arguments. */
  method RewriteSites(m: Module, io: InOut, sites: seq<Site>, n: NewModule, locals: seq<RegSet>)
    returns (found: bool, n': NewModule, locals': seq<RegSet>)
    requires |io.ins| == |io.outs| == |m| && RewriteOrder(m, sites) && locals == AllLocals(m, io) &&
      Partly(m, io, {}, n)
    ensures found <==> FoundInOrder(m, io, sites)
    ensures found ==> Partly(m, io, Sites(m), n')
    ensures found ==> SitesHave(m, io, Sites(m), locals') && SitesNeed(m, io, Sites(m), locals')
  {
    OrderOk(m, io, sites);
    n', locals' := n, locals;
    assert First(sites, 0) == {};
    for k := 0 to |sites|
      invariant SitesDone(m, io, sites, k, n', locals') && SitesOk(sites[k..], io, locals')
      invariant AllFound(io, locals, sites) == AllFound(io, locals', sites[k..])
    {
      assert sites[k..][0] == sites[k] && sites[k..][1..] == sites[k + 1..];
      assert sites[k] in sites;
      SitesAre(m, sites[k]);
      found, n', locals' := NextSite(m, io, sites, k, n', locals');
      if !found {
        return;
      }
    }
    found := true;
    assert First(sites, |sites|) == Sites(m);
  }

  method UpdateSignatures(m: Module, io: InOut) returns (n: NewModule)
    requires |io.ins| == |io.outs| == |m|
    ensures Partly(m, io, {}, n)
  {
    n := [];
    for f := 0 to |m|
      invariant |n| == f && forall g: FuncId :: g < f ==> FuncPartly(m, io, {}, g, n[g])
    {
      var nf := UpdateSignature(m, f, io);
      StartsPartly(m, f, io, nf);
      n := n + [nf];
    }
  }

  /**
   The pass. sccs are the call graph's components below its root, callees first, order the same
   functions in any order, and sites the calls in the order they are rewritten. The pass fails if
   a result has no local to go to.
   */
  method GlobalEnvToAlloca(m: Module, sccs: seq<seq<FuncId>>, order: seq<FuncId>, sites: seq<Site>)
    returns (found: bool, n: NewModule, locals: seq<RegSet>, io: InOut, ghost d: Defs, ghost l: Live)
    requires ModuleOk(m) && BottomUp(m, sccs) && Members(order) == Earlier(sccs, |sccs|) && RewriteOrder(m, sites)
    ensures Shape(m, d) && LeastSolution(m, d, order, l) && io == InOut(l.ins, l.outs) && |io.ins| == |io.outs| == |m|
    ensures forall f :: f in order ==> f < |m| && d.may[f] == MayStore(m, f)
    ensures LiveWalks.ExactlyNeeded(m, Members(order), d, l)
    ensures forall g :: 0 <= g < |m| ==> io.outs[g] <= MayStore(m, g) + d.must[g]
    ensures found <==> FoundInOrder(m, io, sites)
    ensures found ==> n == Rewritten(m, io) && HaveLocals(n, locals) && LocalsAre(m, io, locals)
    ensures found ==> forall f :: f in order && AllCallsOk(m, io, ReachedFrom(m, f)) ==>
      Preserves(m, n, io, MayStore(m, f), f)
  {
    forall f | f in Members(order) ensures f < |m| { assert f in order; }
    var d', l', used := GetInputOutputRegs(m, sccs, order);
    d, l, io := d', l', InOut(l'.ins, l'.outs);
    assert forall f :: f in order ==> f in Members(order);
    n := UpdateSignatures(m, io);
    locals := MakeLocals(m, io, used);
    found, n, locals := RewriteSites(m, io, sites, n, locals);
    if found {
      n := EraseCalls(m, io, n);
      AllHave(m, io, locals);
      LocalsExactly(m, io, locals);
      AllPreserved(m, d, l, sccs, order);
    }
  }

  lemma AllPreserved(m: Module, d: Defs, l: Live, sccs: seq<seq<FuncId>>, order: seq<FuncId>)
    requires ModuleOk(m) && BottomUp(m, sccs) && Members(order) == Earlier(sccs, |sccs|)
    requires Shape(m, d) && LeastSolution(m, d, order, l) && forall f :: f in order ==> f < |m|
    requires forall f :: f in Earlier(sccs, |sccs|) ==> f < |m| && Settled(m, d, f)
    ensures var io := InOut(l.ins, l.outs);
      forall f :: f in order && AllCallsOk(m, io, ReachedFrom(m, f)) ==>
        Preserves(m, Rewritten(m, io), io, MayStore(m, f), f)
  {
    var io, fs := InOut(l.ins, l.outs), Members(order);
    forall f | f in fs ensures FuncSolved(m, d, f, l) && Settled(m, d, f) {
      var k :| 0 <= k < |order| && order[k] == f;
      assert FuncSolved(m, d, order[k], l);
    }
    forall f, g: FuncId | f in fs && Calls(m[f], g) ensures g in fs {
      var i :| 0 <= i < |sccs| && f in sccs[i];
      assert g in Earlier(sccs, i + 1);
    }
    forall f | f in order && AllCallsOk(m, io, ReachedFrom(m, f))
      ensures Preserves(m, Rewritten(m, io), io, MayStore(m, f), f)
    {
      assert f in fs;
      Preserved(m, d, l, fs, f);
    }
  }
}
