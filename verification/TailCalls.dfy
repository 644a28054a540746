/**
 Blocks reached through tail calls: a walk over the recorded control flow from each function
 entry decides which function every block belongs to.
 */
module TailCalls {

  // The blocks of each function, and the function each block belongs to; all by address.
  type TbMap = map<nat, set<nat>>
  type Parents = map<nat, nat>

  // What the trace recorded; addresses of blocks.
  datatype Info = Info(
    cfg: map<nat, set<nat>>,            // successors
    entries: set<nat>,                  // function entries
    retBlocks: map<nat, set<nat>>,      // return blocks of each entry
    lastPc: map<nat, nat>,              // where the block at an address ends
    followUps: map<nat, nat>)           // where a call at an address comes back to

  // ----- the step rule -----

  /** The walk for parent goes on from address. */
  predicate GoesOn(info: Info, known: set<nat>, parent: nat, address: nat) {
    && address in known && address in info.cfg
    && !(parent in info.retBlocks && address in info.retBlocks[parent])
  }

  /** Where an edge leads: past a call into another entry to its follow-up. */
  predicate Leads(info: Info, address: nat, succ: nat, next: nat) {
    && succ != address
    && if succ in info.entries
       then address in info.lastPc && info.lastPc[address] in info.followUps &&
         next == info.followUps[info.lastPc[address]]
       else next == succ
  }

  predicate StepsTo(info: Info, known: set<nat>, parent: nat, address: nat, next: nat) {
    GoesOn(info, known, parent, address) && exists succ :: succ in info.cfg[address] && Leads(info, address, succ, next)
  }

  ghost predicate Path(info: Info, known: set<nat>, parent: nat, path: seq<nat>) {
    path != [] && forall k :: 0 <= k < |path| - 1 ==> StepsTo(info, known, parent, path[k], path[k + 1])
  }

  ghost predicate PathBetween(info: Info, known: set<nat>, parent: nat, path: seq<nat>, a: nat, b: nat) {
    Path(info, known, parent, path) && path[0] == a && path[|path| - 1] == b
  }

  ghost predicate Reaches(info: Info, known: set<nat>, parent: nat, a: nat, b: nat) {
    exists path :: PathBetween(info, known, parent, path, a, b)
  }

  lemma ReachesSelf(info: Info, known: set<nat>, parent: nat, a: nat)
    ensures Reaches(info, known, parent, a, a)
  {
    assert PathBetween(info, known, parent, [a], a, a);
  }

  /** The walk for parent does not stop at a known block that is no return block of parent. */
  predicate WalkedThrough(info: Info, known: set<nat>, parent: nat, a: nat) {
    a in known && a in info.cfg && (parent in info.retBlocks ==> a !in info.retBlocks[parent])
  }

  /** From there it goes on at every other block that follows, and behind calls of other functions. */
  lemma GoesOnAt(info: Info, known: set<nat>, parent: nat, a: nat, succ: nat)
    requires Reaches(info, known, parent, parent, a) && WalkedThrough(info, known, parent, a)
    requires succ in info.cfg[a] && succ != a
    ensures succ !in info.entries ==> Reaches(info, known, parent, parent, succ)
    ensures succ in info.entries && a in info.lastPc && info.lastPc[a] in info.followUps ==>
      Reaches(info, known, parent, parent, info.followUps[info.lastPc[a]])
  {
    if succ !in info.entries {
      assert Leads(info, a, succ, succ);
      ReachesNext(info, known, parent, parent, a, succ);
    } else if a in info.lastPc && info.lastPc[a] in info.followUps {
      assert Leads(info, a, succ, info.followUps[info.lastPc[a]]);
      ReachesNext(info, known, parent, parent, a, info.followUps[info.lastPc[a]]);
    }
  }

  lemma ReachesNext(info: Info, known: set<nat>, parent: nat, a: nat, b: nat, c: nat)
    requires Reaches(info, known, parent, a, b) && StepsTo(info, known, parent, b, c)
    ensures Reaches(info, known, parent, a, c)
  {
    var path :| PathBetween(info, known, parent, path, a, b);
    assert PathBetween(info, known, parent, path + [c], a, c);
  }

  /** The block before b on the walk, and the edge by which the walk went on. */
  ghost predicate CameBy(info: Info, known: set<nat>, parent: nat, a: nat, succ: nat, b: nat) {
    && Reaches(info, known, parent, parent, a) && WalkedThrough(info, known, parent, a)
    && succ in info.cfg[a] && succ != a
    && if succ in info.entries
       then a in info.lastPc && info.lastPc[a] in info.followUps && b == info.followUps[info.lastPc[a]]
       else b == succ
  }

  /** It gets nowhere else. */
  lemma CameFrom(info: Info, known: set<nat>, parent: nat, b: nat) returns (a: nat, succ: nat)
    requires Reaches(info, known, parent, parent, b) && b != parent
    ensures CameBy(info, known, parent, a, succ, b)
  {
    var path :| PathBetween(info, known, parent, path, parent, b);
    var n := |path| - 1;
    assert StepsTo(info, known, parent, path[n - 1], path[n - 1 + 1]);
    a := path[n - 1];
    assert PathBetween(info, known, parent, path[..n], parent, a);
    succ :| succ in info.cfg[a] && Leads(info, a, succ, b);
  }

  lemma {:induction false} ClosedHasReached(info: Info, known: set<nat>, parent: nat, visited: set<nat>, path: seq<nat>)
    requires Path(info, known, parent, path) && path[0] in visited
    requires forall a, b: nat :: a in visited && StepsTo(info, known, parent, a, b) ==> b in visited
    ensures path[|path| - 1] in visited
  {
    if |path| > 1 {
      assert StepsTo(info, known, parent, path[0], path[1]);
      assert forall k :: 0 <= k < |path| - 2 ==> StepsTo(info, known, parent, path[1..][k], path[1..][k + 1]) by {
        assert forall k :: 0 <= k < |path| - 1 ==> path[1..][k] == path[k + 1];
      }
      ClosedHasReached(info, known, parent, visited, path[1..]);
    }
  }

  // ----- the walk -----

  /** The parents of the visited addresses that are known are set. */
  ghost predicate ParentsSet(before: Parents, after: Parents, parent: nat, visited: set<nat>) {
    && after.Keys == before.Keys
    && forall a :: a in before ==> after[a] == if a in visited then parent else before[a]
  }

  class Walk {
    const info: Info
    const parent: nat
    var visited: set<nat>
    var parents: Parents

    constructor (info: Info, parent: nat, parents: Parents)
      ensures this.info == info && this.parent == parent && this.parents == parents && visited == {}
    {
      this.info, this.parent, this.parents, visited := info, parent, parents, {};
    }

    /** Walk on from an address, unless it was visited. */
    method TailCallHelper(address: nat)
      modifies this
      ensures parents.Keys == old(parents).Keys
      ensures old(visited) <= visited && address in visited
      ensures forall a :: a in visited && a !in old(visited) ==> Reaches(info, parents.Keys, parent, address, a)
      ensures forall a, b: nat ::
        a in visited && a !in old(visited) && StepsTo(info, parents.Keys, parent, a, b) ==> b in visited
      ensures ParentsSet(old(parents), parents, parent, visited - old(visited))
      decreases parents.Keys - visited, 0
    {
      if address in visited {
        return;
      }
      visited := visited + {address};
      ReachesSelf(info, parents.Keys, parent, address);
      if address !in parents {
        return;
      }
      if parents[address] != parent {
        parents := parents[address := parent];
      }
      if address !in info.cfg {
        return;
      }
      if parent in info.retBlocks && address in info.retBlocks[parent] {
        return;
      }
      ghost var known := parents.Keys;
      var rest := info.cfg[address];
      while rest != {}
        invariant rest <= info.cfg[address]
        invariant parents.Keys == known == old(parents).Keys
        invariant old(visited) + {address} <= visited
        invariant forall a :: a in visited && a !in old(visited) ==> Reaches(info, known, parent, address, a)
        invariant forall a, b: nat ::
          a in visited && a !in old(visited) && a != address && StepsTo(info, known, parent, a, b) ==> b in visited
        invariant forall succ, b: nat ::
          succ in info.cfg[address] && succ !in rest && Leads(info, address, succ, b) ==> b in visited
        invariant ParentsSet(old(parents), parents, parent, visited - old(visited))
        decreases rest
      {
        var succ :| succ in rest;
        rest := rest - {succ};
        if succ == address {
          continue;
        }
        if succ in info.entries {
          if address in info.lastPc {
            var last := info.lastPc[address];
            if last in info.followUps {
              Follow(address, info.followUps[last], known, old(visited), old(parents));
            }
          }
        } else {
          Follow(address, succ, known, old(visited), old(parents));
        }
      }
    }

    /** One recursive call of the walk, seen from the address it leaves. */
    method Follow(address: nat, next: nat, ghost known: set<nat>, ghost visited0: set<nat>, ghost parents0: Parents)
      requires known == parents.Keys && address in known && visited0 + {address} <= visited && address !in visited0
      requires StepsTo(info, known, parent, address, next)
      requires forall a :: a in visited && a !in visited0 ==> Reaches(info, known, parent, address, a)
      requires forall a, b: nat ::
        a in visited && a !in visited0 && a != address && StepsTo(info, known, parent, a, b) ==> b in visited
      requires ParentsSet(parents0, parents, parent, visited - visited0)
      modifies this
      ensures parents.Keys == known && old(visited) <= visited && next in visited
      ensures forall a :: a in visited && a !in visited0 ==> Reaches(info, known, parent, address, a)
      ensures forall a, b: nat ::
        a in visited && a !in visited0 && a != address && StepsTo(info, known, parent, a, b) ==> b in visited
      ensures ParentsSet(parents0, parents, parent, visited - visited0)
      decreases parents.Keys - visited, 1
    {
      TailCallHelper(next);
      forall a | a in visited && a !in old(visited) ensures Reaches(info, known, parent, address, a) {
        ReachesBefore(info, known, parent, address, next, a);
      }
    }
  }

  lemma ReachesBefore(info: Info, known: set<nat>, parent: nat, a: nat, b: nat, c: nat)
    requires StepsTo(info, known, parent, a, b) && Reaches(info, known, parent, b, c)
    ensures Reaches(info, known, parent, a, c)
  {
    var path :| PathBetween(info, known, parent, path, b, c);
    assert PathBetween(info, known, parent, [a] + path, a, c);
  }

  /** The walk from an entry sets the parent of exactly the known addresses it reaches. */
  method WalkFrom(info: Info, parents: Parents, entry: nat) returns (parents': Parents)
    ensures parents'.Keys == parents.Keys
    ensures forall a :: a in parents ==>
      parents'[a] == if Reaches(info, parents.Keys, entry, entry, a) then entry else parents[a]
  {
    var w := new Walk(info, entry, parents);
    w.TailCallHelper(entry);
    parents' := w.parents;
    forall a | a in parents && Reaches(info, parents.Keys, entry, entry, a) ensures a in w.visited {
      var path :| PathBetween(info, parents.Keys, entry, path, entry, a);
      ClosedHasReached(info, parents.Keys, entry, w.visited, path);
    }
  }

  // ----- setting up and fixing the functions -----

  /** Function e was recorded with block m; every function has its own entry. */
  predicate Recorded(tbMap: TbMap, e: nat, m: nat) {
    e in tbMap && (m == e || m in tbMap[e])
  }

  predicate Holds(tbMap: TbMap, e: nat, m: nat) {
    e in tbMap && m in tbMap[e]
  }

  /** Every recorded block gets one of the functions that recorded it for a parent. */
  method SetUp(tbMap: TbMap) returns (parents: Parents)
    ensures forall a :: a in parents <==> exists e: nat :: Recorded(tbMap, e, a)
    ensures forall a :: a in parents ==> Recorded(tbMap, parents[a], a)
  {
    parents := map[];
    var entries := tbMap.Keys;
    while entries != {}
      invariant entries <= tbMap.Keys
      invariant forall a :: a in parents ==> Recorded(tbMap, parents[a], a)
      invariant forall e: nat, a: nat :: Recorded(tbMap, e, a) && e !in entries ==> a in parents
      decreases entries
    {
      var entry :| entry in entries;
      entries := entries - {entry};
      parents := parents[entry := entry];
      var members := tbMap[entry];
      while members != {}
        invariant members <= tbMap[entry]
        invariant forall a :: a in parents ==> Recorded(tbMap, parents[a], a)
        invariant forall e: nat, a: nat ::
          Recorded(tbMap, e, a) && e !in entries && (e == entry ==> a !in members) ==> a in parents
        decreases members
      {
        var member :| member in members;
        members := members - {member};
        parents := parents[member := entry];
      }
    }
  }

  /** Of the walks made, the last one that reaches an address is its parent. */
  ghost predicate LastReaches(info: Info, before: Parents, after: Parents, walks: seq<nat>, a: nat)
    requires a in before && a in after
  {
    if forall k :: 0 <= k < |walks| ==> !Reaches(info, before.Keys, walks[k], walks[k], a)
    then after[a] == before[a]
    else exists k :: 0 <= k < |walks| && LastAt(info, before.Keys, walks, a, k) && after[a] == walks[k]
  }

  ghost predicate LastAt(info: Info, known: set<nat>, walks: seq<nat>, a: nat, k: nat)
    requires k < |walks|
  {
    Reaches(info, known, walks[k], walks[k], a) &&
    forall j :: k < j < |walks| ==> !Reaches(info, known, walks[j], walks[j], a)
  }

  lemma LastReachesStep(info: Info, before: Parents, mid: Parents, after: Parents, walks: seq<nat>, e: nat, a: nat)
    requires a in before && a in mid && a in after && LastReaches(info, before, mid, walks, a)
    requires after[a] == if Reaches(info, before.Keys, e, e, a) then e else mid[a]
    ensures LastReaches(info, before, after, walks + [e], a)
  {
    var all := walks + [e];
    if Reaches(info, before.Keys, e, e, a) {
      assert Reaches(info, before.Keys, all[|walks|], all[|walks|], a);
      assert LastAt(info, before.Keys, all, a, |walks|);
    } else if k :| 0 <= k < |walks| && LastAt(info, before.Keys, walks, a, k) && mid[a] == walks[k] {
      assert Reaches(info, before.Keys, all[k], all[k], a);
      assert LastAt(info, before.Keys, all, a, k);
    }
  }

  /** Walk from every function that is not an external symbol, in some order. */
  method RecordParents(info: Info, tbMap: TbMap, externs: set<nat>, before: Parents)
    returns (parents: Parents, ghost walks: seq<nat>)
    ensures parents.Keys == before.Keys
    ensures forall e :: e in walks <==> e in tbMap && e !in externs
    ensures forall a :: a in before ==> LastReaches(info, before, parents, walks, a)
  {
    parents, walks := before, [];
    var entries := tbMap.Keys;
    while entries != {}
      invariant entries <= tbMap.Keys && parents.Keys == before.Keys
      invariant forall e :: e in walks <==> e in tbMap && e !in externs && e !in entries
      invariant forall a :: a in before ==> LastReaches(info, before, parents, walks, a)
      decreases entries
    {
      var entry :| entry in entries;
      entries := entries - {entry};
      if entry !in externs {
        ghost var mid := parents;
        parents := WalkFrom(info, parents, entry);
        forall a | a in before ensures LastReaches(info, before, parents, walks + [entry], a) {
          LastReachesStep(info, before, mid, parents, walks, entry, a);
        }
        walks := walks + [entry];
      }
    }
  }

  /** A block that jumps to an imported symbol is on its own; another is its parent's. */
  function Home(externs: set<nat>, parents: Parents, m: nat): nat {
    if m in externs || m !in parents then m else parents[m]
  }

  /** Which blocks sit in another function than their own. */
  method FindFixes(tbMap: TbMap, externs: set<nat>, parents: Parents) returns (fixes: seq<(nat, nat)>)
    requires forall e: nat, m: nat :: Holds(tbMap, e, m) ==> m in parents && parents[m] in parents
    ensures forall p: nat, m: nat :: (p, m) in fixes <==> Holds(tbMap, p, m) && Home(externs, parents, m) != p
  {
    fixes := [];
    var entries := tbMap.Keys;
    while entries != {}
      invariant entries <= tbMap.Keys
      invariant forall p: nat, m: nat :: (p, m) in fixes <==>
        Holds(tbMap, p, m) && Home(externs, parents, m) != p && p !in entries
      decreases entries
    {
      var parent :| parent in entries;
      entries := entries - {parent};
      var members := tbMap[parent];
      while members != {}
        invariant members <= tbMap[parent]
        invariant forall p: nat, m: nat :: (p, m) in fixes <==>
          Holds(tbMap, p, m) && Home(externs, parents, m) != p && p !in entries && (p == parent ==> m !in members)
        decreases members
      {
        var member :| member in members;
        members := members - {member};
        if member in externs {
          if parent != member {
            fixes := fixes + [(parent, member)];
          }
        } else {
          assert Holds(tbMap, parent, member);
          if parent != parents[member] {
            if parents[member] in parents {
              fixes := fixes + [(parent, member)];
            }
          }
        }
      }
    }
  }

  /** Move a block from one function to another. */
  method MoveBlock(tbMap: TbMap, parent: nat, member: nat, home: nat) returns (moved: TbMap)
    requires parent in tbMap && parent != home
    ensures tbMap.Keys <= moved.Keys
    ensures forall e: nat, m: nat :: Holds(moved, e, m) <==>
      if m == member then e == home || (e != parent && Holds(tbMap, e, m)) else Holds(tbMap, e, m)
  {
    moved := tbMap[parent := tbMap[parent] - {member}];
    if home !in moved {
      moved := moved[home := {}];
    }
    if member !in moved[home] {
      moved := moved[home := moved[home] + {member}];
    }
  }

  ghost predicate AnyFix(fixes: seq<(nat, nat)>, m: nat) {
    exists p: nat :: (p, m) in fixes
  }

  /** The fixes applied to tbMap give fixed. */
  ghost predicate Applied(tbMap: TbMap, externs: set<nat>, parents: Parents, fixes: seq<(nat, nat)>, fixed: TbMap) {
    forall e: nat, m: nat :: Holds(fixed, e, m) <==>
      (Holds(tbMap, e, m) && (e, m) !in fixes) || (e == Home(externs, parents, m) && AnyFix(fixes, m))
  }

  lemma AppliedNext(tbMap: TbMap, externs: set<nat>, parents: Parents, fixes: seq<(nat, nat)>, fixed: TbMap,
                    parent: nat, member: nat, after: TbMap)
    requires Applied(tbMap, externs, parents, fixes, fixed)
    requires forall e: nat, m: nat :: Holds(after, e, m) <==>
      if m == member then e == Home(externs, parents, member) || (e != parent && Holds(fixed, e, m))
      else Holds(fixed, e, m)
    ensures Applied(tbMap, externs, parents, fixes + [(parent, member)], after)
  {
    var all := fixes + [(parent, member)];
    assert (parent, member) in all;
    forall e: nat, m: nat
      ensures Holds(after, e, m) <==>
        (Holds(tbMap, e, m) && (e, m) !in all) || (e == Home(externs, parents, m) && AnyFix(all, m))
    {
      assert (e, m) in all <==> (e, m) in fixes || (e == parent && m == member);
      if AnyFix(fixes, m) {
        var p: nat :| (p, m) in fixes;
        assert (p, m) in all;
      }
      if m != member && AnyFix(all, m) {
        var p: nat :| (p, m) in all;
        assert (p, m) in fixes;
      }
    }
  }

  /** Move every block found to its own function. */
  method ApplyFixes(tbMap: TbMap, externs: set<nat>, parents: Parents, fixes: seq<(nat, nat)>)
    returns (fixed: TbMap)
    requires forall p: nat, m: nat :: (p, m) in fixes ==> Holds(tbMap, p, m) && Home(externs, parents, m) != p
    ensures Applied(tbMap, externs, parents, fixes, fixed)
  {
    fixed := tbMap;
    var i := 0;
    while i < |fixes|
      invariant i <= |fixes| && tbMap.Keys <= fixed.Keys
      invariant Applied(tbMap, externs, parents, fixes[..i], fixed)
    {
      var (parent, member) := fixes[i];
      assert (parent, member) in fixes && Holds(tbMap, parent, member);
      var after := MoveBlock(fixed, parent, member, Home(externs, parents, member));
      AppliedNext(tbMap, externs, parents, fixes[..i], fixed, parent, member, after);
      assert fixes[..i + 1] == fixes[..i] + [(parent, member)];
      fixed := after;
      i := i + 1;
    }
    assert fixes[..|fixes|] == fixes;
  }

  /** Every recorded block ends in exactly one function, its home, and no block is lost or made up. */
  ghost predicate Sorted(tbMap: TbMap, externs: set<nat>, parents: Parents, fixed: TbMap) {
    && (forall e: nat, m: nat :: Holds(fixed, e, m) ==> exists p: nat :: Holds(tbMap, p, m))
    && forall p: nat, m: nat :: Holds(tbMap, p, m) ==> m in parents && HomeIs(fixed, m,
         if m in externs then m else parents[m])
  }

  /** A function holds the block exactly if it is home. */
  ghost predicate HomeIs(fixed: TbMap, m: nat, home: nat) {
    forall e: nat :: Holds(fixed, e, m) <==> e == home
  }

  lemma FixesSort(tbMap: TbMap, externs: set<nat>, parents: Parents, fixes: seq<(nat, nat)>, fixed: TbMap)
    requires forall p: nat, m: nat :: (p, m) in fixes <==> Holds(tbMap, p, m) && Home(externs, parents, m) != p
    requires Applied(tbMap, externs, parents, fixes, fixed)
    requires forall p: nat, m: nat :: Holds(tbMap, p, m) ==> m in parents
    ensures Sorted(tbMap, externs, parents, fixed)
  {
    forall e: nat, m: nat
      ensures Holds(fixed, e, m) <==> e == Home(externs, parents, m) && exists p: nat :: Holds(tbMap, p, m)
    {
      if p: nat :| Holds(tbMap, p, m) {
        assert p == Home(externs, parents, m) || (p, m) in fixes;
      }
    }
  }

  /** A block's parent is the last function in the walks to reach it, or else one that recorded it. */
  ghost predicate ParentsFound(info: Info, tbMap: TbMap, externs: set<nat>, before: Parents, parents: Parents,
                               walks: seq<nat>) {
    && (forall a :: a in before <==> exists e: nat :: Recorded(tbMap, e, a))
    && (forall a :: a in before ==> Recorded(tbMap, before[a], a))
    && (forall e :: e in walks <==> e in tbMap && e !in externs)
    && parents.Keys == before.Keys && forall a :: a in before ==> LastReaches(info, before, parents, walks, a)
  }

  /** Every recorded block is with the parent found for it, for some order of the walks. */
  ghost predicate Handled(info: Info, tbMap: TbMap, externs: set<nat>, fixed: TbMap) {
    exists before, parents, walks ::
      ParentsFound(info, tbMap, externs, before, parents, walks) && Sorted(tbMap, externs, parents, fixed)
  }

  /** The whole of it: parents by the walks, then every block moved to its own function. */
  method HandleInfoForTailCalls(info: Info, tbMap: TbMap, externs: set<nat>) returns (fixed: TbMap)
    ensures Handled(info, tbMap, externs, fixed)
  {
    var before := SetUp(tbMap);
    var found;
    ghost var walks;
    found, walks := RecordParents(info, tbMap, externs, before);
    forall e: nat, m: nat | Holds(tbMap, e, m) ensures m in found && found[m] in found {
      assert Recorded(tbMap, e, m);
      assert LastReaches(info, before, found, walks, m);
      assert found[m] in tbMap;
      assert Recorded(tbMap, found[m], found[m]);
    }
    var fixes := FindFixes(tbMap, externs, found);
    fixed := ApplyFixes(tbMap, externs, found, fixes);
    FixesSort(tbMap, externs, found, fixes, fixed);
    assert ParentsFound(info, tbMap, externs, before, found, walks);
  }
}
