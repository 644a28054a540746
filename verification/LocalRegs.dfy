/**
 Which locals a function has when its calls are rewritten. Locals are made for the registers a
 function uses; a missing local of an argument is added, a missing local of a result is not.
 */
module LocalRegs {
  import opened Registers
  import opened Ir
  import opened DefSweep
  import opened Liveness
  import opened LivenessLoop
  import opened MustDefs
  import opened Rewrite

  // A call of a recovered function, in a function that has locals.
  datatype Site = Site(caller: FuncId, block: BlockId, at: nat, callee: FuncId)

  predicate IsSite(m: Module, s: Site) {
    && s.caller < |m| && !m[s.caller].kind.Plain? && s.block < |m[s.caller].blocks|
    && s.at < |m[s.caller].blocks[s.block].instrs| && m[s.caller].blocks[s.block].instrs[s.at] == Call(s.callee)
    && s.callee < |m| && m[s.callee].kind.Recovered?
  }

  /** The call at an instruction, if it is one. */
  function SiteAt(m: Module, f: FuncId, b: BlockId, i: nat): Site
    requires f < |m| && b < |m[f].blocks| && i < |m[f].blocks[b].instrs|
  {
    Site(f, b, i, if m[f].blocks[b].instrs[i].Call? then m[f].blocks[b].instrs[i].callee else |m|)
  }

  function Sites(m: Module): set<Site> {
    set f, b, i | 0 <= f < |m| && 0 <= b < |m[f].blocks| && 0 <= i < |m[f].blocks[b].instrs| &&
      IsSite(m, SiteAt(m, f, b, i)) ::
      SiteAt(m, f, b, i)
  }

  lemma SitesAre(m: Module, s: Site)
    ensures s in Sites(m) <==> IsSite(m, s)
  {
    if IsSite(m, s) {
      assert s == SiteAt(m, s.caller, s.block, s.at);
    }
  }

  // The callees are taken one after the other, and all calls of each in some order.
  ghost predicate Grouped(order: seq<Site>) {
    forall i, j, k :: 0 <= i < j < k < |order| && order[i].callee == order[k].callee ==>
      order[j].callee == order[i].callee
  }

  ghost predicate Lists(order: seq<Site>, sites: set<Site>) {
    && (forall s :: s in order <==> s in sites)
    && forall i, j :: 0 <= i < j < |order| ==> order[i] != order[j]
  }

  ghost predicate RewriteOrder(m: Module, order: seq<Site>) {
    Lists(order, Sites(m)) && Grouped(order)
  }

  /** The locals each function starts with: the wrapper has all, a recovered function those it uses. */
  function LocalsOf(m: Module, io: InOut, f: FuncId): RegSet
    requires f < |m| && f < |io.ins| && f < |io.outs|
  {
    match m[f].kind
    case Wrapper => ALL
    case Recovered => UsedRegs(m[f], io.ins[f], io.outs[f])
    case Plain => {}
  }

  function AllLocals(m: Module, io: InOut): (locals: seq<RegSet>)
    requires |io.ins| == |io.outs| == |m|
    ensures |locals| == |m|
  {
    seq(|m|, f requires 0 <= f < |m| => LocalsOf(m, io, f))
  }

  predicate SitesOk(sites: seq<Site>, io: InOut, locals: seq<RegSet>) {
    && |io.ins| == |io.outs| == |locals|
    && forall k :: 0 <= k < |sites| ==> sites[k].caller < |locals| && sites[k].callee < |locals|
  }

  /** The locals once a site has been rewritten. */
  function WithArgs(io: InOut, locals: seq<RegSet>, s: Site): seq<RegSet>
    requires SitesOk([s], io, locals)
  {
    assert [s][0] == s;
    locals[s.caller := locals[s.caller] + io.ins[s.callee]]
  }

  /** Every result finds a local when the sites are rewritten in this order. */
  predicate AllFound(io: InOut, locals: seq<RegSet>, sites: seq<Site>)
    requires SitesOk(sites, io, locals)
    decreases |sites|
  {
    sites != [] ==>
      var s := sites[0];
      assert SitesOk([s], io, locals);
      io.outs[s.callee] <= locals[s.caller] + io.ins[s.callee] && AllFound(io, WithArgs(io, locals, s), sites[1..])
  }

  /** The local for r exists by the time site k is rewritten. */
  ghost predicate ThereAt(io: InOut, locals: seq<RegSet>, sites: seq<Site>, k: nat, r: Reg)
    requires SitesOk(sites, io, locals) && k < |sites|
  {
    r in locals[sites[k].caller] ||
    exists j :: 0 <= j <= k && sites[j].caller == sites[k].caller && r in io.ins[sites[j].callee]
  }

  ghost predicate AllThere(io: InOut, locals: seq<RegSet>, sites: seq<Site>)
    requires SitesOk(sites, io, locals)
  {
    forall k: nat, r :: k < |sites| && r in io.outs[sites[k].callee] ==> ThereAt(io, locals, sites, k, r)
  }

  lemma ThereStep(io: InOut, locals: seq<RegSet>, sites: seq<Site>, k: nat, r: Reg)
    requires SitesOk(sites, io, locals) && 0 < k < |sites| && SitesOk([sites[0]], io, locals)
    requires SitesOk(sites[1..], io, WithArgs(io, locals, sites[0]))
    ensures ThereAt(io, locals, sites, k, r) <==> ThereAt(io, WithArgs(io, locals, sites[0]), sites[1..], k - 1, r)
  {
    var rest := sites[1..];
    assert [sites[0]][0] == sites[0] && rest[k - 1] == sites[k];
    if j :| 0 <= j <= k && sites[j].caller == sites[k].caller && r in io.ins[sites[j].callee] {
      if j > 0 {
        assert rest[j - 1] == sites[j];
      }
    }
    if j :| 0 <= j <= k - 1 && rest[j].caller == rest[k - 1].caller && r in io.ins[rest[j].callee] {
      assert sites[j + 1] == rest[j];
    }
  }

  /** A result's local is found exactly if its caller uses the register or took it as an argument before. */
  lemma {:induction false} FoundExactly(io: InOut, locals: seq<RegSet>, sites: seq<Site>)
    requires SitesOk(sites, io, locals)
    ensures AllFound(io, locals, sites) <==> AllThere(io, locals, sites)
    decreases |sites|
  {
    if sites != [] {
      var s, rest := sites[0], sites[1..];
      assert SitesOk([s], io, locals) && [s][0] == s;
      var next := WithArgs(io, locals, s);
      FoundExactly(io, next, rest);
      forall k: nat, r | 0 < k < |sites|
        ensures ThereAt(io, locals, sites, k, r) <==> ThereAt(io, next, rest, k - 1, r)
      {
        ThereStep(io, locals, sites, k, r);
      }
      assert forall r :: ThereAt(io, locals, sites, 0, r) <==> r in locals[s.caller] + io.ins[s.callee];
      if AllThere(io, next, rest) && io.outs[s.callee] <= locals[s.caller] + io.ins[s.callee] {
        forall k: nat, r | k < |sites| && r in io.outs[sites[k].callee] ensures ThereAt(io, locals, sites, k, r) {
          if k > 0 { assert rest[k - 1] == sites[k]; }
        }
      }
      if AllThere(io, locals, sites) {
        forall k: nat, r | k < |rest| && r in io.outs[rest[k].callee] ensures ThereAt(io, next, rest, k, r) {
          assert sites[k + 1] == rest[k] && ThereAt(io, locals, sites, k + 1, r);
        }
        forall r | r in io.outs[s.callee] ensures r in locals[s.caller] + io.ins[s.callee] {
          assert ThereAt(io, locals, sites, 0, r);
        }
      }
    }
  }

  // ----- every order -----

  ghost predicate HasLocals(io: InOut, locals: seq<RegSet>, s: Site)
    requires s.caller < |locals| && s.callee < |io.ins| && s.callee < |io.outs|
  {
    io.outs[s.callee] <= locals[s.caller] + io.ins[s.callee]
  }

  lemma {:induction false} SomeListing(sites: set<Site>) returns (order: seq<Site>)
    ensures Lists(order, sites)
  {
    if sites == {} {
      order := [];
    } else {
      var s :| s in sites;
      var rest := SomeListing(sites - {s});
      order := [s] + rest;
    }
  }

  /** The sites can be listed by callee, with any one of them first. */
  lemma {:induction false} GroupedListing(sites: set<Site>, first: Site) returns (order: seq<Site>)
    requires first in sites
    ensures Lists(order, sites) && Grouped(order) && order != [] && order[0] == first
    decreases sites
  {
    var group := set s | s in sites && s.callee == first.callee;
    var others := SomeListing(group - {first});
    var rest: seq<Site> := [];
    if t :| t in sites - group {
      rest := GroupedListing(sites - group, t);
    } else {
      forall s | s in sites ensures s in group {
        assert s !in sites - group;
      }
    }
    var one := [first] + others;
    assert forall i, j :: 0 <= i < j < |one| ==> one[i] != one[j];
    assert Lists(one, group);
    order := one + rest;
    GroupThenRest(sites, group, first.callee, one, rest);
  }

  lemma GroupThenRest(sites: set<Site>, group: set<Site>, callee: FuncId, one: seq<Site>, rest: seq<Site>)
    requires group <= sites && forall s :: s in sites ==> (s in group <==> s.callee == callee)
    requires Lists(one, group) && Lists(rest, sites - group) && Grouped(rest)
    ensures Lists(one + rest, sites) && Grouped(one + rest)
  {
    var order, n := one + rest, |one|;
    forall i | 0 <= i < |order| ensures (i < n <==> order[i] in group) && order[i] in sites {
      assert if i < n then order[i] in one else order[i] in rest;
    }
    forall i, j, k | 0 <= i < j < k < |order| && order[i].callee == order[k].callee
      ensures order[j].callee == order[i].callee
    {
      if n <= i {
        assert order[i] == rest[i - n] && order[j] == rest[j - n] && order[k] == rest[k - n];
      }
    }
  }

  lemma OrderOk(m: Module, io: InOut, order: seq<Site>)
    requires RewriteOrder(m, order) && |io.ins| == |io.outs| == |m|
    ensures SitesOk(order, io, AllLocals(m, io))
  {
    forall k | 0 <= k < |order| ensures order[k].caller < |m| && order[k].callee < |m| {
      assert order[k] in order;
      SitesAre(m, order[k]);
    }
  }

  /** No result of m can miss its local. */
  ghost predicate NeverMissing(m: Module, io: InOut)
    requires |io.ins| == |io.outs| == |m|
  {
    forall s :: s in Sites(m) ==> IsSite(m, s) && HasLocals(io, AllLocals(m, io), s)
  }

  ghost predicate FoundInOrder(m: Module, io: InOut, order: seq<Site>)
    requires |io.ins| == |io.outs| == |m|
  {
    SitesOk(order, io, AllLocals(m, io)) && AllFound(io, AllLocals(m, io), order)
  }

  /** A module's calls can be rewritten in every order exactly when all results are used or taken at their own site. */
  lemma EveryOrderFinds(m: Module, io: InOut)
    requires |io.ins| == |io.outs| == |m|
    ensures (forall order :: RewriteOrder(m, order) ==> FoundInOrder(m, io, order)) <==> NeverMissing(m, io)
  {
    if NeverMissing(m, io) {
      forall order | RewriteOrder(m, order) ensures FoundInOrder(m, io, order) {
        NeverMissingFound(m, io, order);
      }
    } else {
      forall s ensures s in Sites(m) <==> IsSite(m, s) {
        SitesAre(m, s);
      }
      var s :| s in Sites(m) && !HasLocals(io, AllLocals(m, io), s);
      var order := GroupedListing(Sites(m), s);
      OrderOk(m, io, order);
      assert RewriteOrder(m, order) && !AllFound(io, AllLocals(m, io), order);
    }
  }

  lemma NeverMissingFound(m: Module, io: InOut, order: seq<Site>)
    requires |io.ins| == |io.outs| == |m| && NeverMissing(m, io) && RewriteOrder(m, order)
    ensures FoundInOrder(m, io, order)
  {
    var locals := AllLocals(m, io);
    OrderOk(m, io, order);
    FoundExactly(io, locals, order);
    forall k: nat, r | k < |order| && r in io.outs[order[k].callee] ensures ThereAt(io, locals, order, k, r) {
      assert order[k] in order && HasLocals(io, locals, order[k]);
    }
  }

  // ----- a module for which a local is missing -----

  /** main calls a function that stores EAX, then one that loads it, and never touches EAX itself. */
  function PassingThrough(): Module {
    [Func(Recovered, [Block([Call(1), Call(2)], Return)], [0]),
     Func(Recovered, [Block([Store(EAX, (frame: Frame) => 0)], Return)], [0]),
     Func(Recovered, [Block([Load(0, EAX)], Return)], [0])]
  }

  function PassingSolution(): Live {
    Live([[{}], [{}], [{EAX}]], [{}, {}, {EAX}], [{}, {EAX}, {}])
  }

  /** EAX comes back from the first call; main has a local for it only if the second call was rewritten before. */
  lemma ResultWithoutLocal(d: Defs, l: Live)
    requires Shape(PassingThrough(), d) && AllSound(PassingThrough(), d) && Settled(PassingThrough(), d, 1)
    requires LeastSolution(PassingThrough(), d, [0, 1, 2], l)
    ensures var m, io, one, two := PassingThrough(), InOut(l.ins, l.outs), Site(0, 0, 0, 1), Site(0, 0, 1, 2);
      && RewriteOrder(m, [one, two]) && !FoundInOrder(m, io, [one, two])
      && RewriteOrder(m, [two, one]) && FoundInOrder(m, io, [two, one])
  {
    PassingSites();
    PassingFacts(d, l);
    var io, locals := InOut(l.ins, l.outs), AllLocals(PassingThrough(), InOut(l.ins, l.outs));
    var one, two := Site(0, 0, 0, 1), Site(0, 0, 1, 2);
    OneFirst(io, locals, one, two);
    TwoFirst(io, locals, one, two);
  }

  lemma OneFirst(io: InOut, locals: seq<RegSet>, one: Site, two: Site)
    requires one == Site(0, 0, 0, 1) && two == Site(0, 0, 1, 2) && SitesOk([one, two], io, locals) && |locals| == 3
    requires locals[0] == {} && EAX in io.outs[1] && EAX !in io.ins[1]
    ensures !AllFound(io, locals, [one, two])
  {
    FoundExactly(io, locals, [one, two]);
    assert !ThereAt(io, locals, [one, two], 0, EAX);
    assert [one, two][0] == one;
  }

  lemma TwoFirst(io: InOut, locals: seq<RegSet>, one: Site, two: Site)
    requires one == Site(0, 0, 0, 1) && two == Site(0, 0, 1, 2) && SitesOk([two, one], io, locals) && |locals| == 3
    requires io.outs[1] == {EAX} && io.outs[2] == {} && EAX in io.ins[2]
    ensures AllFound(io, locals, [two, one])
  {
    FoundExactly(io, locals, [two, one]);
    assert [two, one][0] == two && [two, one][1] == one;
    assert ThereAt(io, locals, [two, one], 1, EAX);
  }

  lemma PassingFacts(d: Defs, l: Live)
    requires Shape(PassingThrough(), d) && AllSound(PassingThrough(), d) && Settled(PassingThrough(), d, 1)
    requires LeastSolution(PassingThrough(), d, [0, 1, 2], l)
    ensures |l.ins| == |l.outs| == 3 && AllLocals(PassingThrough(), InOut(l.ins, l.outs))[0] == {}
    ensures l.ins[1] == {} && l.outs[1] == {EAX} && l.outs[2] == {} && EAX in l.ins[2]
  {
    var m, s := PassingThrough(), PassingSolution();
    StoresEax(d);
    PassingSolved(d);
    assert Below(m, l, s);
    assert l.ins[0] <= s.ins[0] && l.outs[0] <= s.outs[0] && l.ins[1] <= s.ins[1];
    assert l.outs[1] <= s.outs[1] && l.outs[2] <= s.outs[2];
    EaxComesBack(d, l);
    assert Loads(m[0]) == {} && Stores(m[0]) == {};
  }

  lemma PassingSites()
    ensures RewriteOrder(PassingThrough(), [Site(0, 0, 0, 1), Site(0, 0, 1, 2)])
    ensures RewriteOrder(PassingThrough(), [Site(0, 0, 1, 2), Site(0, 0, 0, 1)])
  {
    var one, two := Site(0, 0, 0, 1), Site(0, 0, 1, 2);
    forall s ensures s in Sites(PassingThrough()) <==> s == one || s == two {
      SitesAre(PassingThrough(), s);
    }
  }

  lemma StoresEax(d: Defs)
    requires Shape(PassingThrough(), d) && AllSound(PassingThrough(), d) && Settled(PassingThrough(), d, 1)
    ensures EAX in d.must[1] && EAX in d.may[1]
  {
    var m := PassingThrough();
    AllIsAll();
    assert m[1].blocks[0].instrs[0].reg == EAX;
    assert EAX in StoredBy(m[1].blocks[0]) && EAX in Stores(m[1]);
    assert Sound(m, d, 1);
    forall rows | Closed(m[1], d.blocks[1], rows) ensures EAX in rows[0] {}
    assert EAX in LeastRow(m[1], d.blocks[1], 0);
  }

  lemma PassingSolved(d: Defs)
    requires Shape(PassingThrough(), d) && EAX in d.must[1]
    ensures Solution(PassingThrough(), d, [0, 1, 2], PassingSolution())
  {
    var m, s := PassingThrough(), PassingSolution();
    forall f: FuncId | f < 3 ensures BlockSolved(m, d, f, 0, s) {
      var block := m[f].blocks[0];
      assert LiveEnd(block, s.blocks[f], s.outs[f]) == s.outs[f];
      var n := |block.instrs|;
      assert LiveAt(block, n, s.outs[f], d.must, s.ins) == s.outs[f];
      assert LiveAt(block, n - 1, s.outs[f], d.must, s.ins) == Before(block.instrs[n - 1], s.outs[f], d.must, s.ins);
      if f == 0 {
        assert LiveAt(block, 1, {}, d.must, s.ins) == {EAX};
        assert LiveAt(block, 0, {}, d.must, s.ins) == {};
      }
    }
  }

  lemma EaxComesBack(d: Defs, l: Live)
    requires Shape(PassingThrough(), d) && EAX in d.may[1] && Solution(PassingThrough(), d, [0, 1, 2], l)
    ensures EAX in l.outs[1] && EAX in l.ins[2]
  {
    var m := PassingThrough();
    var fs := [0, 1, 2];
    assert FuncSolved(m, d, fs[2], l) && BlockSolved(m, d, 2, 0, l);
    var block2 := m[2].blocks[0];
    assert LiveAt(block2, 0, LiveEnd(block2, l.blocks[2], l.outs[2]), d.must, l.ins) ==
      Before(block2.instrs[0], LiveAt(block2, 1, LiveEnd(block2, l.blocks[2], l.outs[2]), d.must, l.ins), d.must,
        l.ins);
    assert FuncSolved(m, d, fs[0], l) && BlockSolved(m, d, 0, 0, l);
    var block := m[0].blocks[0];
    var end := LiveEnd(block, l.blocks[0], l.outs[0]);
    assert EAX in LiveAt(block, 1, end, d.must, l.ins);
    assert CallOut(block.instrs[0].callee, LiveAt(block, 1, end, d.must, l.ins), d) <= l.outs[1];
  }
}
