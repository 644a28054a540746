/** Merging the records of any number of runs into one. */
module TraceMerge {
  import opened TraceInfo

  ghost predicate AllAgree(ts: seq<Trace>) {
    forall i, j :: 0 <= i < j < |ts| ==> Agree(ts[i], ts[j])
  }

  function MergedAll(ts: seq<Trace>): Trace {
    if ts == [] then EMPTY else Merged(MergedAll(ts[..|ts| - 1]), ts[|ts| - 1])
  }

  /** The fold over all input records. */
  method MergeAll(inputs: seq<Trace>) returns (merged: Info)
    requires AllAgree(inputs)
    ensures fresh(merged) && merged.Value() == MergedAll(inputs)
  {
    merged := new Info();
    for k := 0 to |inputs|
      invariant fresh(merged) && merged.Value() == MergedAll(inputs[..k])
    {
      var ti := new Info.Read(inputs[k]);
      assert inputs[..k + 1][..k] == inputs[..k];
      MergedAgrees(inputs[..k], inputs[k]);
      merged.Add(ti);
    }
    assert inputs[..|inputs|] == inputs;
  }

  // ----- what the merge holds -----

  ghost predicate Has<T(!new)>(ts: seq<Trace>, part: Trace -> set<T>, x: T) {
    exists i :: 0 <= i < |ts| && x in part(ts[i])
  }

  /** Every relation is the union of the inputs' relations. */
  lemma {:induction false} MergedRelations(ts: seq<Trace>)
    ensures forall x :: x in MergedAll(ts).successors <==> Has(ts, (t: Trace) => t.successors, x)
    ensures forall x :: x in MergedAll(ts).entryToCaller <==> Has(ts, (t: Trace) => t.entryToCaller, x)
    ensures forall x :: x in MergedAll(ts).entryToReturn <==> Has(ts, (t: Trace) => t.entryToReturn, x)
    ensures forall x :: x in MergedAll(ts).callerToFollowUp <==> Has(ts, (t: Trace) => t.callerToFollowUp, x)
  {
    if ts != [] {
      var n := |ts| - 1;
      MergedRelations(ts[..n]);
      LastHas(ts, (t: Trace) => t.successors);
      LastHas(ts, (t: Trace) => t.entryToCaller);
      LastHas(ts, (t: Trace) => t.entryToReturn);
      LastHas(ts, (t: Trace) => t.callerToFollowUp);
    }
  }

  lemma LastHas<T(!new)>(ts: seq<Trace>, part: Trace -> set<T>)
    requires ts != []
    ensures forall x :: Has(ts, part, x) <==> Has(ts[..|ts| - 1], part, x) || x in part(ts[|ts| - 1])
  {
    forall x | Has(ts[..|ts| - 1], part, x) ensures Has(ts, part, x) {
      var i :| 0 <= i < |ts| - 1 && x in part(ts[..|ts| - 1][i]);
      assert x in part(ts[i]);
    }
    forall x | Has(ts, part, x) && x !in part(ts[|ts| - 1]) ensures Has(ts[..|ts| - 1], part, x) {
      var i :| 0 <= i < |ts| && x in part(ts[i]);
      assert x in part(ts[..|ts| - 1][i]);
    }
  }

  // The pairs of a map of sets, and the keys and entries of the other maps.
  function TbPairs(t: Trace): set<(nat, nat)> {
    set e, b | e in t.entryToTbs && b in t.entryToTbs[e] :: (e, b)
  }

  function TbKeys(t: Trace): set<nat> {
    t.entryToTbs.Keys
  }

  function SizedFunctions(t: Trace): set<string> {
    t.frameSizes.Keys
  }

  function DifferenceItems(t: Trace): set<(string, nat)> {
    t.differences.Items
  }

  lemma {:induction false} MergedMaps(ts: seq<Trace>)
    requires AllAgree(ts)
    ensures forall x :: x in TbPairs(MergedAll(ts)) <==> Has(ts, TbPairs, x)
    ensures forall x :: x in TbKeys(MergedAll(ts)) <==> Has(ts, TbKeys, x)
    ensures forall x :: x in SizedFunctions(MergedAll(ts)) <==> Has(ts, SizedFunctions, x)
    ensures forall x :: x in DifferenceItems(MergedAll(ts)) <==> Has(ts, DifferenceItems, x)
  {
    if ts != [] {
      var n := |ts| - 1;
      MergedMaps(ts[..n]);
      LastHas(ts, TbPairs);
      LastHas(ts, TbKeys);
      LastHas(ts, SizedFunctions);
      LastHas(ts, DifferenceItems);
      var m := MergedAll(ts[..n]);
      assert TbPairs(MergedAll(ts)) == TbPairs(m) + TbPairs(ts[n]) by { JoinPairs(m, ts[n]); }
      forall f | f in m.differences && f in ts[n].differences ensures m.differences[f] == ts[n].differences[f] {
        assert (f, m.differences[f]) in DifferenceItems(m);
        var i :| 0 <= i < n && (f, m.differences[f]) in DifferenceItems(ts[..n][i]);
        assert Agree(ts[i], ts[n]);
      }
      JoinDifferences(m, ts[n]);
    }
  }

  lemma JoinDifferences(a: Trace, b: Trace)
    requires Agree(a, b)
    ensures DifferenceItems(Merged(a, b)) == DifferenceItems(a) + DifferenceItems(b)
  {
  }

  lemma JoinPairs(a: Trace, b: Trace)
    ensures TbPairs(Merged(a, b)) == TbPairs(a) + TbPairs(b)
  {
  }

  lemma MergedAgrees(ts: seq<Trace>, t: Trace)
    requires AllAgree(ts + [t])
    ensures Agree(MergedAll(ts), t)
  {
    var all := ts + [t];
    assert forall i, j :: 0 <= i < j < |ts| ==> all[i] == ts[i] && all[j] == ts[j];
    MergedMaps(ts);
    var m := MergedAll(ts);
    forall f | f in m.differences && f in t.differences ensures m.differences[f] == t.differences[f] {
      assert (f, m.differences[f]) in DifferenceItems(m);
      var i :| 0 <= i < |ts| && (f, m.differences[f]) in DifferenceItems(ts[i]);
      assert Agree(all[i], all[|ts|]);
    }
  }

  /** Frame sizes are the pointwise maximum: no input has a larger one, and some input has it. */
  lemma {:induction false} MergedSizes(ts: seq<Trace>, f: string)
    ensures f in MergedAll(ts).frameSizes ==>
      exists i :: 0 <= i < |ts| && f in ts[i].frameSizes && ts[i].frameSizes[f] == MergedAll(ts).frameSizes[f]
    ensures forall i :: 0 <= i < |ts| && f in ts[i].frameSizes ==>
      f in MergedAll(ts).frameSizes && ts[i].frameSizes[f] <= MergedAll(ts).frameSizes[f]
  {
    if ts != [] {
      var n := |ts| - 1;
      var m := MergedAll(ts[..n]);
      MergedSizes(ts[..n], f);
      assert forall i :: 0 <= i < n ==> ts[..n][i] == ts[i];
      if f in m.frameSizes && !(f in ts[n].frameSizes && m.frameSizes[f] < ts[n].frameSizes[f]) {
        var i :| 0 <= i < n && f in ts[..n][i].frameSizes && ts[..n][i].frameSizes[f] == m.frameSizes[f];
        assert ts[i].frameSizes[f] == MergedAll(ts).frameSizes[f];
      }
    }
  }

  /** The entry list is the first that is not empty. */
  lemma {:induction false} MergedEntries(ts: seq<Trace>)
    ensures MergedAll(ts).entries == [] <==> forall i :: 0 <= i < |ts| ==> ts[i].entries == []
    ensures MergedAll(ts).entries != [] ==>
      exists i :: 0 <= i < |ts| && MergedAll(ts).entries == ts[i].entries &&
        forall j :: 0 <= j < i ==> ts[j].entries == []
  {
    if ts != [] {
      var n := |ts| - 1;
      MergedEntries(ts[..n]);
      assert forall i :: 0 <= i < n ==> ts[..n][i] == ts[i];
      if MergedAll(ts[..n]).entries != [] {
        var i :| 0 <= i < n && MergedAll(ts[..n]).entries == ts[..n][i].entries
          && forall j :: 0 <= j < i ==> ts[..n][j].entries == [];
        assert forall j :: 0 <= j < i ==> ts[j].entries == [];
        assert MergedAll(ts).entries == ts[i].entries;
      }
    }
  }

  function Concat(ts: seq<Trace>): seq<MemoryAccess> {
    if ts == [] then [] else ts[0].accesses + Concat(ts[1..])
  }

  lemma {:induction false} ConcatAppend(ts: seq<Trace>, us: seq<Trace>)
    ensures Concat(ts + us) == Concat(ts) + Concat(us)
  {
    if ts == [] {
      assert ts + us == us;
    } else {
      var all := ts + us;
      assert all[0] == ts[0];
      assert all[1..] == ts[1..] + us;
      ConcatAppend(ts[1..], us);
      assert Concat(all) == ts[0].accesses + (Concat(ts[1..]) + Concat(us));
    }
  }

  /** Memory accesses are concatenated in input order. */
  lemma {:induction false} MergedAccesses(ts: seq<Trace>)
    ensures MergedAll(ts).accesses == Concat(ts)
  {
    if ts != [] {
      var n := |ts| - 1;
      MergedAccesses(ts[..n]);
      ConcatAppend(ts[..n], [ts[n]]);
      assert ts == ts[..n] + [ts[n]];
      assert Concat([ts[n]]) == ts[n].accesses;
    }
  }

  // ----- reordering the inputs -----

  function Without(ts: seq<Trace>, i: nat): (rest: seq<Trace>)
    requires i < |ts|
    ensures |rest| == |ts| - 1
  {
    ts[..i] + ts[i + 1..]
  }

  lemma WithoutOne(ts: seq<Trace>, i: nat)
    requires i < |ts|
    ensures multiset(Without(ts, i)) == multiset(ts) - multiset{ts[i]}
  {
    assert ts == ts[..i] + [ts[i]] + ts[i + 1..];
  }

  lemma ConcatWithout(ts: seq<Trace>, i: nat)
    requires i < |ts|
    ensures multiset(Concat(ts)) == multiset(ts[i].accesses) + multiset(Concat(Without(ts, i)))
  {
    var before, one, after := ts[..i], [ts[i]], ts[i + 1..];
    assert ts == before + (one + after);
    ConcatAppend(before, one + after);
    ConcatAppend(one, after);
    ConcatAppend(before, after);
    ConcatOne(ts[i]);
    Swapped(Concat(before), ts[i].accesses, Concat(after));
  }

  lemma ConcatOne(t: Trace)
    ensures Concat([t]) == t.accesses
  {
    assert [t][1..] == [];
  }

  lemma Swapped(a: seq<MemoryAccess>, b: seq<MemoryAccess>, c: seq<MemoryAccess>)
    ensures multiset(a + (b + c)) == multiset(b) + multiset(a + c)
  {
    assert multiset(a + (b + c)) == multiset(a) + (multiset(b) + multiset(c));
    assert multiset(a + c) == multiset(a) + multiset(c);
  }

  lemma {:induction false} SameAccesses(ts: seq<Trace>, us: seq<Trace>)
    requires multiset(ts) == multiset(us)
    ensures multiset(Concat(ts)) == multiset(Concat(us))
    decreases |ts|
  {
    if ts == [] {
      assert |multiset(us)| == |us|;
    } else {
      var i := IndexIn(us, ts[0], ts);
      WithoutOne(ts, 0);
      WithoutOne(us, i);
      SameAccesses(Without(ts, 0), Without(us, i));
      ConcatWithout(ts, 0);
      ConcatWithout(us, i);
    }
  }

  lemma IndexIn(us: seq<Trace>, x: Trace, ts: seq<Trace>) returns (i: nat)
    requires x in ts && multiset(ts) == multiset(us)
    ensures i < |us| && us[i] == x
  {
    assert x in multiset(ts);
    i :| 0 <= i < |us| && us[i] == x;
  }

  lemma SameElements(ts: seq<Trace>, us: seq<Trace>)
    requires multiset(ts) == multiset(us)
    ensures forall i :: 0 <= i < |ts| ==> ts[i] in us
  {
    forall i | 0 <= i < |ts| ensures ts[i] in us {
      assert ts[i] in multiset(ts);
    }
  }

  lemma HasSame<T(!new)>(ts: seq<Trace>, us: seq<Trace>, part: Trace -> set<T>)
    requires multiset(ts) == multiset(us)
    ensures forall x :: Has(ts, part, x) <==> Has(us, part, x)
  {
    SameElements(ts, us);
    SameElements(us, ts);
    forall x | Has(ts, part, x) ensures Has(us, part, x) {
      var i :| 0 <= i < |ts| && x in part(ts[i]);
      var j :| 0 <= j < |us| && us[j] == ts[i];
    }
    forall x | Has(us, part, x) ensures Has(ts, part, x) {
      var i :| 0 <= i < |us| && x in part(us[i]);
      var j :| 0 <= j < |ts| && ts[j] == us[i];
    }
  }

  lemma AgreeReordered(ts: seq<Trace>, us: seq<Trace>)
    requires AllAgree(ts) && multiset(ts) == multiset(us)
    ensures AllAgree(us)
  {
    SameElements(us, ts);
    forall i, j | 0 <= i < j < |us| ensures Agree(us[i], us[j]) {
      var a :| 0 <= a < |ts| && ts[a] == us[i];
      var b :| 0 <= b < |ts| && ts[b] == us[j];
      if a < b { assert Agree(ts[a], ts[b]); } else if b < a { assert Agree(ts[b], ts[a]); }
    }
  }

  lemma SameSizes(ts: seq<Trace>, us: seq<Trace>)
    requires AllAgree(ts) && AllAgree(us) && multiset(ts) == multiset(us)
    ensures MergedAll(ts).frameSizes == MergedAll(us).frameSizes
  {
    MergedMaps(ts);
    MergedMaps(us);
    HasSame(ts, us, SizedFunctions);
    var a, b := MergedAll(ts).frameSizes, MergedAll(us).frameSizes;
    assert SizedFunctions(MergedAll(ts)) == SizedFunctions(MergedAll(us));
    forall f | f in a ensures a[f] == b[f] {
      assert f in SizedFunctions(MergedAll(ts)) && f in SizedFunctions(MergedAll(us));
      NotLarger(ts, us, f);
      NotLarger(us, ts, f);
    }
  }

  lemma NotLarger(ts: seq<Trace>, us: seq<Trace>, f: string)
    requires multiset(ts) == multiset(us) && f in MergedAll(ts).frameSizes && f in MergedAll(us).frameSizes
    ensures MergedAll(ts).frameSizes[f] <= MergedAll(us).frameSizes[f]
  {
    MergedSizes(ts, f);
    MergedSizes(us, f);
    SameElements(ts, us);
    var i :| 0 <= i < |ts| && f in ts[i].frameSizes && ts[i].frameSizes[f] == MergedAll(ts).frameSizes[f];
    var j :| 0 <= j < |us| && us[j] == ts[i];
  }

  lemma SameMaps(ts: seq<Trace>, us: seq<Trace>)
    requires AllAgree(ts) && AllAgree(us) && multiset(ts) == multiset(us)
    ensures MergedAll(ts).entryToTbs == MergedAll(us).entryToTbs
    ensures MergedAll(ts).differences == MergedAll(us).differences
  {
    MergedMaps(ts);
    MergedMaps(us);
    HasSame(ts, us, TbPairs);
    HasSame(ts, us, TbKeys);
    HasSame(ts, us, DifferenceItems);
    SamePairs(MergedAll(ts), MergedAll(us));
  }

  /** Maps are told apart by their pairs. */
  lemma SamePairs(a: Trace, b: Trace)
    requires forall x :: x in TbPairs(a) <==> x in TbPairs(b)
    requires forall x :: x in TbKeys(a) <==> x in TbKeys(b)
    requires forall x :: x in DifferenceItems(a) <==> x in DifferenceItems(b)
    ensures a.entryToTbs == b.entryToTbs && a.differences == b.differences
  {
    assert TbKeys(a) == TbKeys(b);
    forall e | e in a.entryToTbs ensures a.entryToTbs[e] == b.entryToTbs[e] {
      forall x ensures x in a.entryToTbs[e] <==> x in b.entryToTbs[e] {
        assert x in a.entryToTbs[e] <==> (e, x) in TbPairs(a);
        assert x in b.entryToTbs[e] <==> (e, x) in TbPairs(b);
      }
    }
    forall f | f in a.differences ensures f in b.differences && a.differences[f] == b.differences[f] {
      assert (f, a.differences[f]) in DifferenceItems(b);
    }
    forall f | f in b.differences ensures f in a.differences {
      assert (f, b.differences[f]) in DifferenceItems(a);
    }
  }

  lemma SameRelations(ts: seq<Trace>, us: seq<Trace>)
    requires multiset(ts) == multiset(us)
    ensures MergedAll(us).successors == MergedAll(ts).successors
    ensures MergedAll(us).entryToCaller == MergedAll(ts).entryToCaller
    ensures MergedAll(us).entryToReturn == MergedAll(ts).entryToReturn
    ensures MergedAll(us).callerToFollowUp == MergedAll(ts).callerToFollowUp
  {
    MergedRelations(ts);
    MergedRelations(us);
    HasSame(ts, us, (t: Trace) => t.successors);
    HasSame(ts, us, (t: Trace) => t.entryToCaller);
    HasSame(ts, us, (t: Trace) => t.entryToReturn);
    HasSame(ts, us, (t: Trace) => t.callerToFollowUp);
  }

  lemma SameEntries(ts: seq<Trace>, us: seq<Trace>)
    requires multiset(ts) == multiset(us)
    ensures MergedAll(us).entries == [] <==> MergedAll(ts).entries == []
    ensures MergedAll(us).entries != [] ==> exists i :: 0 <= i < |ts| && ts[i].entries == MergedAll(us).entries
  {
    MergedEntries(ts);
    MergedEntries(us);
    SameElements(us, ts);
    SameElements(ts, us);
  }

  /** Reordering the inputs changes only the order of memory accesses and the choice of entry list. */
  lemma Reordered(ts: seq<Trace>, us: seq<Trace>)
    requires AllAgree(ts) && multiset(ts) == multiset(us)
    ensures AllAgree(us)
    ensures MergedAll(us) == MergedAll(ts).(accesses := MergedAll(us).accesses, entries := MergedAll(us).entries)
    ensures multiset(MergedAll(us).accesses) == multiset(MergedAll(ts).accesses)
    ensures MergedAll(us).entries == [] <==> MergedAll(ts).entries == []
    ensures MergedAll(us).entries != [] ==> exists i :: 0 <= i < |ts| && ts[i].entries == MergedAll(us).entries
  {
    AgreeReordered(ts, us);
    MergedAccesses(ts);
    MergedAccesses(us);
    SameAccesses(ts, us);
    SameSizes(ts, us);
    SameMaps(ts, us);
    SameRelations(ts, us);
    SameEntries(ts, us);
  }
}
