/** The untangled loop refines the original one, as long as it does not reach the error block. */
module UntangleRun {
  import opened Untangle

  // Everything the loop carries from one iteration to the next is in memory.
  datatype State = State(vpc: nat, mem: map<nat, int>)

  datatype Dest = Inside(block: nat) | Leave(block: nat)
  datatype Body = Body(effect: State -> State, next: State -> Dest)
  datatype Loop = Loop(header: nat, latch: nat, bodies: map<nat, Body>)

  /** The latch only jumps back to the header, and no other block of the loop does. */
  ghost predicate LoopOk(l: Loop) {
    && l.header in l.bodies && l.latch in l.bodies
    && (forall b, s :: b in l.bodies && l.bodies[b].next(s).Inside? ==> l.bodies[b].next(s).block in l.bodies)
    && (forall s :: l.bodies[l.latch].next(s) == Inside(l.header))
    && forall b, s :: b in l.bodies && b != l.latch ==> l.bodies[b].next(s) != Inside(l.header)
  }

  // ----- the original loop -----

  datatype Config = InLoop(block: nat, state: State) | Left(block: nat, state: State)

  ghost function Step(l: Loop, c: Config): Config {
    if c.Left? || c.block !in l.bodies then c
    else
      var s := l.bodies[c.block].effect(c.state);
      match l.bodies[c.block].next(s)
      case Inside(b) => InLoop(b, s)
      case Leave(b) => Left(b, s)
  }

  ghost function Run(l: Loop, s: State, n: nat): Config {
    if n == 0 then InLoop(l.header, s) else Step(l, Run(l, s, n - 1))
  }

  // ----- the clones -----

  datatype Place = Clone(vpc: nat, block: nat) | Original(block: nat) | Outside(block: nat) | Error
  datatype NewConfig = NewConfig(place: Place, state: State)

  ghost predicate HasCase(sw: Switch, v: nat) {
    exists i :: 0 <= i < |sw.cases| && sw.cases[i].0 == v
  }

  ghost function CaseTarget(sw: Switch, v: nat): nat
    requires HasCase(sw, v)
  {
    var i :| 0 <= i < |sw.cases| && sw.cases[i].0 == v;
    sw.cases[i].1
  }

  /** A clone's header sets the virtual program counter first; its latch ends in the switch. */
  ghost function StepNew(l: Loop, m: map<nat, Switch>, c: NewConfig): NewConfig {
    match c.place
    case Error => c
    case Outside(_) => c
    case Original(b) =>
      if b !in l.bodies then c
      else
        var s := l.bodies[b].effect(c.state);
        (match l.bodies[b].next(s)
         case Inside(b') => NewConfig(Original(b'), s)
         case Leave(b') => NewConfig(Outside(b'), s))
    case Clone(v, b) =>
      if b !in l.bodies || v !in m then c
      else
        var s := l.bodies[b].effect(if b == l.header then c.state.(vpc := v) else c.state);
        if b == l.latch then
          if HasCase(m[v], s.vpc) then NewConfig(Clone(CaseTarget(m[v], s.vpc), l.header), s)
          else NewConfig(if m[v].resume then Original(l.header) else Error, s)
        else
          match l.bodies[b].next(s)
          case Inside(b') => NewConfig(Clone(v, b'), s)
          case Leave(b') => NewConfig(Outside(b'), s)
  }

  /** The preheader leads to the entry's clone. */
  ghost function RunNew(l: Loop, m: map<nat, Switch>, entry: nat, s: State, n: nat): NewConfig {
    if n == 0 then NewConfig(Clone(entry, l.header), s) else StepNew(l, m, RunNew(l, m, entry, s, n - 1))
  }

  // ----- refinement -----

  ghost predicate Corresponds(l: Loop, m: map<nat, Switch>, c: Config, d: NewConfig) {
    match d.place
    case Clone(v, b) => c == InLoop(b, d.state) && b in l.bodies && v in m && (b == l.header ==> d.state.vpc == v)
    case Original(b) => c == InLoop(b, d.state) && b in l.bodies
    case Outside(b) => c == Left(b, d.state)
    case Error => c == InLoop(l.header, d.state)
  }

  lemma CasesLead(m: map<nat, Switch>, entry: nat, exits: set<nat>, edges: set<(nat, nat)>, v: nat, w: nat)
    requires Connects(m, entry, exits, edges) && v in m
    ensures HasCase(m[v], w) <==> (v, w) in edges
    ensures HasCase(m[v], w) ==> CaseTarget(m[v], w) == w && w in m
  {
    assert SwitchOk(m[v], v, exits, edges);
    if HasCase(m[v], w) {
      var i :| 0 <= i < |m[v].cases| && m[v].cases[i].0 == w && CaseTarget(m[v], w) == m[v].cases[i].1;
      assert m[v].cases[i] in m[v].cases;
      assert (w, w) in m[v].cases;
      assert OnEdge(edges, w);
    }
    if (v, w) in edges {
      var i :| 0 <= i < |m[v].cases| && m[v].cases[i] == (w, w);
    }
  }

  lemma StepCorresponds(l: Loop, m: map<nat, Switch>, entry: nat, exits: set<nat>, edges: set<(nat, nat)>,
                        c: Config, d: NewConfig)
    requires LoopOk(l) && Connects(m, entry, exits, edges) && Corresponds(l, m, c, d) && !d.place.Error?
    ensures Corresponds(l, m, Step(l, c), StepNew(l, m, d))
    ensures StepNew(l, m, d).place.Error? <==>
      d.place.Clone? && d.place.block == l.latch && d.place.vpc !in exits &&
      (d.place.vpc, StepNew(l, m, d).state.vpc) !in edges
  {
    if d.place.Clone? {
      var v, b := d.place.vpc, d.place.block;
      assert b == l.header ==> d.state.(vpc := v) == d.state;
      assert SwitchOk(m[v], v, exits, edges);
      if b == l.latch {
        CasesLead(m, entry, exits, edges, v, StepNew(l, m, d).state.vpc);
      }
    }
  }

  /** The clones have been left for the error block by step n. */
  ghost predicate Errs(l: Loop, m: map<nat, Switch>, entry: nat, s: State, n: nat) {
    RunNew(l, m, entry, s, n).place.Error?
  }

  /**
   Until it reaches the error block the untangled program is at the same block in the same state
   as the original loop, and in the clone for v at its header only when the counter is v.
   */
  lemma {:induction false} Refines(l: Loop, m: map<nat, Switch>, entry: nat, exits: set<nat>, edges: set<(nat, nat)>,
                                   s: State, n: nat)
    requires LoopOk(l) && Connects(m, entry, exits, edges) && s.vpc == entry
    requires n == 0 || !Errs(l, m, entry, s, n - 1)
    ensures Corresponds(l, m, Run(l, s, n), RunNew(l, m, entry, s, n))
  {
    if n > 0 {
      Refines(l, m, entry, exits, edges, s, n - 1);
      StepCorresponds(l, m, entry, exits, edges, Run(l, s, n - 1), RunNew(l, m, entry, s, n - 1));
    }
  }

  // ----- when the error block is reached -----

  // The virtual program counters the original loop has at its header, in order.
  ghost function Visited(l: Loop, s: State, n: nat): seq<nat> {
    if n == 0 then [s.vpc] else Visited(l, s, n - 1) + Seen(l, Run(l, s, n - 1), Run(l, s, n))
  }

  /** The counter seen by a step of the original loop, if it goes on at the header. */
  ghost function Seen(l: Loop, c: Config, c': Config): seq<nat> {
    if c.InLoop? && c'.InLoop? && c'.block == l.header then [c'.state.vpc] else []
  }

  /** The first k steps between counters were recorded, the next was not. */
  ghost predicate FirstOff(edges: set<(nat, nat)>, seen: seq<nat>, k: nat) {
    k + 1 < |seen| && Edge(seen, k) !in edges && forall j: nat :: j < k ==> Edge(seen, j) in edges
  }

  ghost predicate AllRecorded(edges: set<(nat, nat)>, seen: seq<nat>) {
    forall j: nat :: j + 1 < |seen| ==> Edge(seen, j) in edges
  }

  /** The first step that was not recorded starts at a counter some trace ended with. */
  ghost predicate Resumes(exits: set<nat>, edges: set<(nat, nat)>, seen: seq<nat>) {
    exists k: nat :: FirstOff(edges, seen, k) && seen[k] in exits
  }

  /** The first step that was not recorded starts at a counter no trace ended with. */
  ghost predicate Strays(exits: set<nat>, edges: set<(nat, nat)>, seen: seq<nat>) {
    exists k: nat :: FirstOff(edges, seen, k) && seen[k] !in exits
  }

  /** What the place the untangled program is at says about the counters seen so far. */
  ghost predicate PlaceMeans(exits: set<nat>, edges: set<(nat, nat)>, place: Place, seen: seq<nat>) {
    match place
    case Clone(v, _) => seen != [] && seen[|seen| - 1] == v && AllRecorded(edges, seen)
    case Original(_) => Resumes(exits, edges, seen)
    case Outside(_) => AllRecorded(edges, seen) || Resumes(exits, edges, seen)
    case Error => Strays(exits, edges, seen)
  }

  lemma OffStays(edges: set<(nat, nat)>, seen: seq<nat>, more: seq<nat>)
    ensures forall k: nat :: FirstOff(edges, seen, k) ==> FirstOff(edges, seen + more, k) && (seen + more)[k] == seen[k]
  {
    forall k: nat | FirstOff(edges, seen, k) ensures FirstOff(edges, seen + more, k) {
      forall j: nat | j <= k ensures Edge(seen + more, j) == Edge(seen, j) {}
    }
  }

  lemma OneMoreSeen(edges: set<(nat, nat)>, seen: seq<nat>, w: nat)
    requires seen != [] && AllRecorded(edges, seen)
    ensures (seen[|seen| - 1], w) in edges ==> AllRecorded(edges, seen + [w])
    ensures (seen[|seen| - 1], w) !in edges ==> FirstOff(edges, seen + [w], |seen| - 1)
  {
    assert Edge(seen + [w], |seen| - 1) == (seen[|seen| - 1], w);
    forall j: nat | j + 1 < |seen| ensures Edge(seen + [w], j) == Edge(seen, j) {}
  }

  /** Once a step was off the record, what follows does not matter. */
  lemma MeansLater(exits: set<nat>, edges: set<(nat, nat)>, place: Place, place': Place, seen: seq<nat>, more: seq<nat>)
    requires PlaceMeans(exits, edges, place, seen) && !place.Clone?
    requires if place.Original? then place'.Original? || place'.Outside? else place' == place
    requires place.Outside? && AllRecorded(edges, seen) ==> more == []
    ensures PlaceMeans(exits, edges, place', seen + more)
  {
    OffStays(edges, seen, more);
    if more == [] {
      assert seen + more == seen;
    }
  }

  /** Where the switch at the end of the clone for v leads when the counter is w. */
  lemma MeansNext(m: map<nat, Switch>, entry: nat, exits: set<nat>, edges: set<(nat, nat)>, v: nat, w: nat,
                  header: nat, place': Place,
                  seen: seq<nat>)
    requires Connects(m, entry, exits, edges) && v in m
    requires seen != [] && seen[|seen| - 1] == v && AllRecorded(edges, seen)
    requires place' ==
      if HasCase(m[v], w) then Clone(CaseTarget(m[v], w), header) else if m[v].resume then Original(header) else Error
    ensures PlaceMeans(exits, edges, place', seen + [w])
  {
    CasesLead(m, entry, exits, edges, v, w);
    OneMoreSeen(edges, seen, w);
    assert SwitchOk(m[v], v, exits, edges);
  }

  lemma PlaceStep(l: Loop, m: map<nat, Switch>, entry: nat, exits: set<nat>, edges: set<(nat, nat)>,
                  c: Config, d: NewConfig, d': NewConfig, seen: seq<nat>)
    requires LoopOk(l) && Connects(m, entry, exits, edges) && (!d.place.Error? ==> Corresponds(l, m, c, d))
    requires PlaceMeans(exits, edges, d.place, seen) && d' == StepNew(l, m, d)
    ensures PlaceMeans(exits, edges, d'.place, seen + Seen(l, c, Step(l, c)))
  {
    var more := Seen(l, c, Step(l, c));
    if !d.place.Clone? {
      MeansLater(exits, edges, d.place, d'.place, seen, more);
    } else if d.place.block == l.latch {
      MeansNext(m, entry, exits, edges, d.place.vpc, d'.state.vpc, l.header, d'.place, seen);
    } else {
      assert seen + more == seen;
    }
  }

  lemma BothAt(l: Loop, m: map<nat, Switch>, entry: nat, exits: set<nat>, edges: set<(nat, nat)>, s: State, n: nat)
    returns (c: Config, d: NewConfig)
    requires LoopOk(l) && Connects(m, entry, exits, edges) && s.vpc == entry
    ensures c == Run(l, s, n) && d == RunNew(l, m, entry, s, n)
    ensures !d.place.Error? ==> Corresponds(l, m, c, d)
  {
    c, d := Run(l, s, n), RunNew(l, m, entry, s, n);
    if !d.place.Error? {
      NotYetErred(l, m, entry, s, n);
      Refines(l, m, entry, exits, edges, s, n);
    }
  }

  /** At step n the place the untangled program is at means what it should. */
  ghost predicate MeansAt(l: Loop, m: map<nat, Switch>, entry: nat, exits: set<nat>, edges: set<(nat, nat)>, s: State,
                          n: nat,
                          place: Place, seen: seq<nat>) {
    place == RunNew(l, m, entry, s, n).place && seen == Visited(l, s, n) && PlaceMeans(exits, edges, place, seen)
  }

  lemma {:induction false} PlaceAt(l: Loop, m: map<nat, Switch>, entry: nat, exits: set<nat>, edges: set<(nat, nat)>,
                                   s: State, n: nat)
    returns (place: Place, seen: seq<nat>)
    requires LoopOk(l) && Connects(m, entry, exits, edges) && s.vpc == entry
    ensures MeansAt(l, m, entry, exits, edges, s, n, place, seen)
  {
    if n == 0 {
      place, seen := Clone(entry, l.header), [s.vpc];
    } else {
      place, seen := PlaceAt(l, m, entry, exits, edges, s, n - 1);
      var c, d := BothAt(l, m, entry, exits, edges, s, n - 1);
      var d' := StepNew(l, m, d);
      PlaceStep(l, m, entry, exits, edges, c, d, d', seen);
      place, seen := d'.place, seen + Seen(l, c, Step(l, c));
    }
  }

  lemma NotYetErred(l: Loop, m: map<nat, Switch>, entry: nat, s: State, n: nat)
    requires !Errs(l, m, entry, s, n)
    ensures n > 0 ==> !Errs(l, m, entry, s, n - 1)
  {}

  /**
   The error block is reached exactly when the first step between virtual program counters that no
   trace recorded starts at a counter no trace ended with.
   */
  lemma ErrorExactly(l: Loop, m: map<nat, Switch>, entry: nat, exits: set<nat>, edges: set<(nat, nat)>, s: State,
                     n: nat)
    requires LoopOk(l) && Connects(m, entry, exits, edges) && s.vpc == entry
    ensures Errs(l, m, entry, s, n) <==> Strays(exits, edges, Visited(l, s, n))
  {
    var place, seen := PlaceAt(l, m, entry, exits, edges, s, n);
    if Strays(exits, edges, seen) {
      var k: nat :| FirstOff(edges, seen, k) && seen[k] !in exits;
      assert Edge(seen, k) !in edges;
      assert !AllRecorded(edges, seen) && !Resumes(exits, edges, seen);
    }
  }

  // ----- recorded traces -----

  lemma TraceEdge(files: seq<seq<nat>>, f: nat, i: nat)
    requires f < |files| && i + 1 < |files[f]|
    ensures Edge(files[f], i) in AllEdges(files)
  {
    assert Edge(files[f], i) in EdgesOf(files[f]);
  }

  /** Every recorded trace is a path through the clones from the entry's clone to one that resumes the loop. */
  lemma TraceIsPath(files: seq<seq<nat>>, m: map<nat, Switch>, f: nat)
    requires Readable(files) && f < |files| && Connects(m, files[0][0], LastOf(files), AllEdges(files))
    ensures files[f][0] == files[0][0] && m[files[0][0]] == m[files[f][0]]
    ensures forall i :: 0 <= i < |files[f]| ==> files[f][i] in m && Distinct(m[files[f][i]].cases)
    ensures forall i :: 0 <= i < |files[f]| - 1 ==>
      HasCase(m[files[f][i]], files[f][i + 1]) && CaseTarget(m[files[f][i]], files[f][i + 1]) == files[f][i + 1]
    ensures m[files[f][|files[f]| - 1]].resume
  {
    var entry, exits, edges := files[0][0], LastOf(files), AllEdges(files);
    var trace := files[f];
    assert trace[|trace| - 1] in exits;
    forall i | 0 <= i < |trace| ensures trace[i] in m {
      if i > 0 {
        TraceEdge(files, f, i - 1);
        assert OnEdge(edges, trace[i]) by { assert Edge(trace, i - 1) in edges; }
      }
    }
    forall i | 0 <= i < |trace| ensures Distinct(m[trace[i]].cases) {
      assert SwitchOk(m[trace[i]], trace[i], exits, edges);
    }
    forall i | 0 <= i < |trace| - 1
      ensures HasCase(m[trace[i]], trace[i + 1]) && CaseTarget(m[trace[i]], trace[i + 1]) == trace[i + 1]
    {
      TraceEdge(files, f, i);
      CasesLead(m, entry, exits, edges, trace[i], trace[i + 1]);
    }
    assert SwitchOk(m[trace[|trace| - 1]], trace[|trace| - 1], exits, edges);
  }

  /** A run whose counters follow a recorded trace never reaches the error block. */
  lemma TraceNeverErrs(l: Loop, files: seq<seq<nat>>, m: map<nat, Switch>, f: nat, s: State, n: nat)
    requires LoopOk(l) && Readable(files) && f < |files| && Connects(m, files[0][0], LastOf(files), AllEdges(files))
    requires s.vpc == files[0][0] && Visited(l, s, n) <= files[f]
    ensures !Errs(l, m, files[0][0], s, n)
  {
    ErrorExactly(l, m, files[0][0], LastOf(files), AllEdges(files), s, n);
    var seen := Visited(l, s, n);
    forall k: nat | k + 1 < |seen| ensures Edge(seen, k) in AllEdges(files) {
      TraceEdge(files, f, k);
      assert Edge(seen, k) == Edge(files[f], k);
    }
  }
}
