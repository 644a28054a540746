/**
 Untangling an interpreter loop: one clone of the loop body per recorded virtual program
 counter, with a switch at the end of each clone that follows the recorded edges.
 */
module Untangle {

  // ----- reading the traces -----

  datatype Recorded =
    | NoFiles
    | EmptyFile(file: nat)
    | DifferentStart(file: nat)
    | Recorded(entry: nat, exits: set<nat>, edges: set<(nat, nat)>)

  function Edge(trace: seq<nat>, i: nat): (nat, nat)
    requires i + 1 < |trace|
  {
    (trace[i], trace[i + 1])
  }

  function EdgesOf(trace: seq<nat>): set<(nat, nat)> {
    set i | 0 <= i < |trace| - 1 :: Edge(trace, i)
  }

  /** All traces are there, none is empty, and they start alike. */
  predicate Readable(files: seq<seq<nat>>) {
    files != [] && files[0] != [] && forall k :: 0 <= k < |files| ==> files[k] != [] && files[k][0] == files[0][0]
  }

  function AllEdges(files: seq<seq<nat>>): set<(nat, nat)> {
    set k, e | 0 <= k < |files| && e in EdgesOf(files[k]) :: e
  }

  function LastOf(files: seq<seq<nat>>): set<nat> {
    set k | 0 <= k < |files| && files[k] != [] :: files[k][|files[k]| - 1]
  }

  ghost predicate FollowedAt(files: seq<seq<nat>>, k: int, i: int, v: nat, w: nat) {
    0 <= k < |files| && 0 <= i < |files[k]| - 1 && files[k][i] == v && files[k][i + 1] == w
  }

  ghost predicate EndsWith(files: seq<seq<nat>>, k: int, v: nat) {
    0 <= k < |files| && files[k] != [] && files[k][|files[k]| - 1] == v
  }

  lemma EdgesAre(files: seq<seq<nat>>)
    ensures forall v: nat, w: nat :: (v, w) in AllEdges(files) <==> exists k, i :: FollowedAt(files, k, i, v, w)
    ensures forall v: nat :: v in LastOf(files) <==> exists k :: EndsWith(files, k, v)
  {
    forall v: nat, w: nat ensures (v, w) in AllEdges(files) <==> exists k, i :: FollowedAt(files, k, i, v, w) {
      if (v, w) in AllEdges(files) {
        var k :| 0 <= k < |files| && (v, w) in EdgesOf(files[k]);
        var i :| 0 <= i < |files[k]| - 1 && Edge(files[k], i) == (v, w);
        assert FollowedAt(files, k, i, v, w);
      }
      if k, i :| FollowedAt(files, k, i, v, w) {
        assert Edge(files[k], i) == (v, w);
        assert (v, w) in EdgesOf(files[k]);
      }
    }
    forall v: nat ensures v in LastOf(files) <==> exists k :: EndsWith(files, k, v) {
      if v in LastOf(files) {
        var k :| 0 <= k < |files| && files[k] != [] && files[k][|files[k]| - 1] == v;
        assert EndsWith(files, k, v);
      }
      if k :| EndsWith(files, k, v) {
        assert v in LastOf(files);
      }
    }
  }

  method ReadTraceFiles(files: seq<seq<nat>>) returns (r: Recorded)
    ensures r.Recorded? <==> Readable(files)
    ensures r.Recorded? ==> r == Recorded.Recorded(files[0][0], LastOf(files), AllEdges(files))
    ensures r.Recorded? ==> forall v: nat, w: nat :: (v, w) in r.edges <==> exists k, i :: FollowedAt(files, k, i, v, w)
    ensures r.Recorded? ==> forall v: nat :: v in r.exits <==> exists k :: EndsWith(files, k, v)
    ensures r.EmptyFile? ==> r.file < |files| && files[r.file] == []
    ensures r.DifferentStart? ==>
      r.file < |files| && files[r.file] != [] && files[0] != [] && files[r.file][0] != files[0][0]
  {
    if files == [] {
      return NoFiles;
    }
    var entry, entrySet := 0, false;
    var exits, edges := {}, {};
    for k := 0 to |files|
      invariant entrySet == (k > 0)
      invariant k > 0 ==> Readable(files[..k]) && entry == files[0][0]
      invariant exits == LastOf(files[..k]) && edges == AllEdges(files[..k])
    {
      var trace := files[k];
      if trace == [] {
        return EmptyFile(k);
      }
      var prev, cur := 0, trace[0];
      if entrySet {
        if cur != entry {
          assert files[..k][0] == files[0];
          return DifferentStart(k);
        }
        prev := entry;
      } else {
        entry, prev, entrySet := cur, cur, true;
      }
      for i := 1 to |trace|
        invariant prev == cur == trace[i - 1]
        invariant edges == AllEdges(files[..k]) + EdgesOf(trace[..i])
      {
        cur := trace[i];
        EdgesAppend(trace[..i], cur);
        assert trace[..i + 1] == trace[..i] + [cur];
        edges := edges + {(prev, cur)};
        prev := cur;
      }
      exits := exits + {cur};
      assert trace[..|trace|] == trace;
      OneMoreFile(files, k);
    }
    assert files[..|files|] == files;
    EdgesAre(files);
    return Recorded.Recorded(entry, exits, edges);
  }

  lemma EdgesAppend(trace: seq<nat>, v: nat)
    requires trace != []
    ensures EdgesOf(trace + [v]) == EdgesOf(trace) + {(trace[|trace| - 1], v)}
  {
    var t := trace + [v];
    assert forall i :: 0 <= i < |trace| - 1 ==> Edge(t, i) == Edge(trace, i);
    assert Edge(t, |trace| - 1) == (trace[|trace| - 1], v);
  }

  lemma OneMoreFile(files: seq<seq<nat>>, k: nat)
    requires k < |files| && files[k] != []
    ensures AllEdges(files[..k + 1]) == AllEdges(files[..k]) + EdgesOf(files[k])
    ensures LastOf(files[..k + 1]) == LastOf(files[..k]) + {files[k][|files[k]| - 1]}
  {
    assert files[..k + 1] == files[..k] + [files[k]];
    forall e | e in AllEdges(files[..k]) + EdgesOf(files[k]) ensures e in AllEdges(files[..k + 1]) {
      if e in EdgesOf(files[k]) {
        assert files[..k + 1][k] == files[k];
      } else {
        var j :| 0 <= j < k && e in EdgesOf(files[..k][j]);
        assert files[..k + 1][j] == files[..k][j];
      }
    }
    assert forall j :: 0 <= j < k ==> files[..k + 1][j] == files[..k][j];
    assert files[..k + 1][k] == files[k];
  }

  // ----- cloning and connecting -----

  // The switch at the end of a clone: values and the clones they lead to; the default is the
  // original loop's header, or the error block.
  datatype Switch = Switch(cases: seq<(nat, nat)>, resume: bool)

  class Untangler {
    // One clone of the loop body per virtual program counter.
    var vpcMap: map<nat, Switch>
    var entryClone: nat

    constructor ()
      ensures vpcMap == map[]
    {
      vpcMap, entryClone := map[], 0;
    }

    method GetOrCreatePair(vpc: nat)
      modifies this`vpcMap
      ensures vpcMap == if vpc in old(vpcMap) then old(vpcMap) else old(vpcMap)[vpc := Switch([], false)]
    {
      if vpc !in vpcMap {
        vpcMap := vpcMap[vpc := Switch([], false)];
      }
    }

    /** Make the clones at both ends of an edge and add its case. */
    method AddEdge(e: (nat, nat), ghost entry: nat, ghost done: set<(nat, nat)>)
      requires Connects(vpcMap, entry, {}, done) && e !in done
      modifies this`vpcMap
      ensures Connects(vpcMap, entry, {}, done + {e})
    {
      GetOrCreatePair(e.0);
      GetOrCreatePair(e.1);
      AddCase(e, entry, done);
    }

    method AddCase(e: (nat, nat), ghost entry: nat, ghost done: set<(nat, nat)>)
      requires e !in done && e.0 in vpcMap
      requires forall v :: v in vpcMap <==> Occurs(entry, {}, done, v) || v == e.0 || v == e.1
      requires forall v :: v in vpcMap ==> SwitchOk(vpcMap[v], v, {}, done)
      modifies this`vpcMap
      ensures Connects(vpcMap, entry, {}, done + {e})
    {
      ghost var before := vpcMap;
      var sw := vpcMap[e.0];
      vpcMap := vpcMap[e.0 := sw.(cases := sw.cases + [(e.1, e.1)])];
      OneMoreEdge(before, vpcMap, entry, done, e);
    }

    method AddExit(v: nat, ghost entry: nat, ghost done: set<nat>, ghost edges: set<(nat, nat)>)
      requires Connects(vpcMap, entry, done, edges)
      modifies this`vpcMap
      ensures Connects(vpcMap, entry, done + {v}, edges)
    {
      GetOrCreatePair(v);
      vpcMap := vpcMap[v := vpcMap[v].(resume := true)];
    }

    /** Clone for every virtual program counter that occurs, and connect the clones. */
    method RunOnLoop(entry: nat, exits: set<nat>, edges: set<(nat, nat)>)
      requires vpcMap == map[]
      modifies this
      ensures entryClone == entry && Connects(vpcMap, entry, exits, edges)
    {
      GetOrCreatePair(entry);
      entryClone := entry;
      AddEdges(entry, edges);
      AddExits(entry, exits, edges);
    }

    method AddEdges(entry: nat, edges: set<(nat, nat)>)
      requires entryClone == entry && Connects(vpcMap, entry, {}, {})
      modifies this
      ensures entryClone == entry && Connects(vpcMap, entry, {}, edges)
    {
      var rest := edges;
      assert edges - rest == {};
      while rest != {}
        invariant rest <= edges && entryClone == entry
        invariant Connects(vpcMap, entry, {}, edges - rest)
      {
        var e :| e in rest;
        AddEdge(e, entry, edges - rest);
        rest := rest - {e};
        assert edges - rest == (edges - (rest + {e})) + {e};
      }
      assert edges - rest == edges;
    }

    method AddExits(entry: nat, exits: set<nat>, edges: set<(nat, nat)>)
      requires entryClone == entry && Connects(vpcMap, entry, {}, edges)
      modifies this
      ensures entryClone == entry && Connects(vpcMap, entry, exits, edges)
    {
      var left := exits;
      assert exits - left == {};
      while left != {}
        invariant left <= exits && entryClone == entry
        invariant Connects(vpcMap, entry, exits - left, edges)
      {
        var v :| v in left;
        AddExit(v, entry, exits - left, edges);
        left := left - {v};
        assert exits - left == (exits - (left + {v})) + {v};
      }
      assert exits - left == exits;
    }
  }

  lemma OneMoreEdge(before: map<nat, Switch>, after: map<nat, Switch>, entry: nat, done: set<(nat, nat)>, e: (nat, nat))
    requires forall v :: v in before <==> Occurs(entry, {}, done, v) || v == e.0 || v == e.1
    requires e !in done
    requires forall v :: v in before ==> SwitchOk(before[v], v, {}, done)
    requires after == before[e.0 := before[e.0].(cases := before[e.0].cases + [(e.1, e.1)])]
    ensures Connects(after, entry, {}, done + {e})
  {
    forall v: nat ensures OnEdge(done + {e}, v) <==> OnEdge(done, v) || v == e.0 || v == e.1 {
      if OnEdge(done, v) {
        var d :| d in done && (d.0 == v || d.1 == v);
        assert d in done + {e};
      }
      assert e in done + {e};
    }
    var cases := before[e.0].cases;
    forall i | 0 <= i < |cases| ensures cases[i].0 != e.1 {
      assert cases[i] in cases;
    }
    forall v | v in after ensures SwitchOk(after[v], v, {}, done + {e}) {
      assert SwitchOk(before[v], v, {}, done);
    }
  }

  ghost predicate OnEdge(edges: set<(nat, nat)>, v: nat) {
    exists e :: e in edges && (e.0 == v || e.1 == v)
  }

  /** The virtual program counters that occur in the traces. */
  ghost predicate Occurs(entry: nat, exits: set<nat>, edges: set<(nat, nat)>, v: nat) {
    v == entry || v in exits || OnEdge(edges, v)
  }

  predicate Distinct(cases: seq<(nat, nat)>) {
    forall i, j :: 0 <= i < j < |cases| ==> cases[i].0 != cases[j].0
  }

  /** The switch of clone v: one case per recorded edge, and exits resume the loop. */
  ghost predicate SwitchOk(sw: Switch, v: nat, exits: set<nat>, edges: set<(nat, nat)>) {
    && Distinct(sw.cases) && (sw.resume <==> v in exits)
    && (forall c :: c in sw.cases ==> c.0 == c.1)
    && forall d: nat :: (d, d) in sw.cases <==> (v, d) in edges
  }

  /** One clone per virtual program counter, with its switch. */
  ghost predicate Connects(m: map<nat, Switch>, entry: nat, exits: set<nat>, edges: set<(nat, nat)>) {
    && (forall v :: v in m <==> Occurs(entry, exits, edges, v))
    && forall v :: v in m ==> SwitchOk(m[v], v, exits, edges)
  }
}
