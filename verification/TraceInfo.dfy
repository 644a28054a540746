/**
 The record of one traced run, copied at forks, restored at switches, and merged across runs.
 */
module TraceInfo {

  datatype MemoryAccess = MemoryAccess(
    pc: nat, offset: int, isWrite: bool, isLocalAccess: bool, size: nat, isDirect: bool, fnBase: nat)

  datatype Successor = Successor(pc: nat, successor: nat)

  // The value of a trace record.
  datatype Trace = Trace(
    frameSizes: map<string, nat>,
    differences: map<string, nat>,
    accesses: seq<MemoryAccess>,
    successors: set<Successor>,
    entries: seq<nat>,
    entryToCaller: set<(nat, nat)>,
    entryToReturn: set<(nat, nat)>,
    callerToFollowUp: set<(nat, nat)>,
    entryToTbs: map<nat, set<nat>>)

  const EMPTY := Trace(map[], map[], [], {}, [], {}, {}, {}, map[])

  function Max(a: nat, b: nat): nat {
    if a < b then b else a
  }

  function MaxSizes(a: map<string, nat>, b: map<string, nat>): map<string, nat> {
    map f | f in a.Keys + b.Keys ::
      if f in a && f in b then Max(a[f], b[f]) else if f in a then a[f] else b[f]
  }

  /** The blocks of an entry. */
  function TbsOf(t: Trace, e: nat): set<nat> {
    if e in t.entryToTbs then t.entryToTbs[e] else {}
  }

  function JoinTbs(a: map<nat, set<nat>>, b: map<nat, set<nat>>): map<nat, set<nat>> {
    map e | e in a.Keys + b.Keys ::
      if e in a && e in b then a[e] + b[e] else if e in a then a[e] else b[e]
  }

  /** Two records agree on the stack difference of every function both know. */
  predicate Agree(a: Trace, b: Trace) {
    forall f :: f in a.differences && f in b.differences ==> a.differences[f] == b.differences[f]
  }

  /** What adding b to a makes of a. */
  function Merged(a: Trace, b: Trace): Trace {
    Trace(
      MaxSizes(a.frameSizes, b.frameSizes),
      b.differences + a.differences,
      a.accesses + b.accesses,
      a.successors + b.successors,
      if a.entries == [] then b.entries else a.entries,
      a.entryToCaller + b.entryToCaller,
      a.entryToReturn + b.entryToReturn,
      a.callerToFollowUp + b.callerToFollowUp,
      JoinTbs(a.entryToTbs, b.entryToTbs))
  }

  class Info {
    var stackFrameSizes: map<string, nat>
    var stackDifference: map<string, nat>
    var memoryAccesses: seq<MemoryAccess>
    var successors: set<Successor>
    var entries: seq<nat>
    var entryToCaller: set<(nat, nat)>
    var entryToReturn: set<(nat, nat)>
    var callerToFollowUp: set<(nat, nat)>
    var entryToTbs: map<nat, set<nat>>

    function Value(): Trace
      reads this
    {
      Trace(stackFrameSizes, stackDifference, memoryAccesses, successors, entries,
            entryToCaller, entryToReturn, callerToFollowUp, entryToTbs)
    }

    /** A record read from a file. */
    constructor Read(t: Trace)
      ensures Value() == t
    {
      stackFrameSizes, stackDifference := t.frameSizes, t.differences;
      memoryAccesses, successors, entries := t.accesses, t.successors, t.entries;
      entryToCaller, entryToReturn, callerToFollowUp := t.entryToCaller, t.entryToReturn, t.callerToFollowUp;
      entryToTbs := t.entryToTbs;
    }

    constructor ()
      ensures Value() == EMPTY
    {
      stackFrameSizes, stackDifference := map[], map[];
      memoryAccesses, successors, entries := [], {}, [];
      entryToCaller, entryToReturn, callerToFollowUp := {}, {}, {};
      entryToTbs := map[];
    }

    /** Note that a block belongs to an entry. */
    method InsertTb(entry: nat, pc: nat)
      modifies this`entryToTbs
      ensures Value() == old(Value()).(entryToTbs := old(entryToTbs)[entry := TbsOf(old(Value()), entry) + {pc}])
    {
      if entry !in entryToTbs {
        entryToTbs := entryToTbs[entry := {}];
      }
      entryToTbs := entryToTbs[entry := entryToTbs[entry] + {pc}];
      assert entryToTbs == old(entryToTbs)[entry := TbsOf(old(Value()), entry) + {pc}];
    }

    /** Add another record's facts to this one; the two must agree on stack differences. */
    method Add(ti: Info)
      requires ti != this && Agree(Value(), ti.Value())
      modifies this
      ensures Value() == Merged(old(Value()), ti.Value())
    {
      AddFrameSizes(ti);
      AddDifferences(ti);
      AddRelations(ti);
      AddTbs(ti);
    }

    method AddRelations(ti: Info)
      requires ti != this
      modifies this`memoryAccesses, this`successors, this`entries, this`entryToCaller, this`entryToReturn,
        this`callerToFollowUp
      ensures memoryAccesses == old(memoryAccesses) + ti.memoryAccesses && successors == old(successors) + ti.successors
      ensures entries == if old(entries) == [] then ti.entries else old(entries)
      ensures entryToCaller == old(entryToCaller) + ti.entryToCaller &&
        entryToReturn == old(entryToReturn) + ti.entryToReturn
      ensures callerToFollowUp == old(callerToFollowUp) + ti.callerToFollowUp
    {
      memoryAccesses := memoryAccesses + ti.memoryAccesses;
      successors := successors + ti.successors;
      if entries == [] {
        entries := entries + ti.entries;
      }
      entryToCaller := entryToCaller + ti.entryToCaller;
      entryToReturn := entryToReturn + ti.entryToReturn;
      callerToFollowUp := callerToFollowUp + ti.callerToFollowUp;
    }

    method AddFrameSizes(ti: Info)
      requires ti != this
      modifies this`stackFrameSizes
      ensures stackFrameSizes == MaxSizes(old(stackFrameSizes), ti.stackFrameSizes)
    {
      ghost var before := stackFrameSizes;
      var rest := ti.stackFrameSizes.Keys;
      while rest != {}
        invariant rest <= ti.stackFrameSizes.Keys
        invariant stackFrameSizes.Keys == before.Keys + (ti.stackFrameSizes.Keys - rest)
        invariant forall f :: f in stackFrameSizes ==>
          stackFrameSizes[f] == if f in rest then before[f] else MaxSizes(before, ti.stackFrameSizes)[f]
      {
        var f :| f in rest;
        rest := rest - {f};
        var size := ti.stackFrameSizes[f];
        if f !in stackFrameSizes {
          stackFrameSizes := stackFrameSizes[f := size];
        } else {
          stackFrameSizes := stackFrameSizes[f := Max(stackFrameSizes[f], size)];
        }
      }
      assert stackFrameSizes == MaxSizes(before, ti.stackFrameSizes);
    }

    method AddDifferences(ti: Info)
      requires ti != this && Agree(Value(), ti.Value())
      modifies this`stackDifference
      ensures stackDifference == ti.stackDifference + old(stackDifference)
    {
      ghost var before := stackDifference;
      var rest := ti.stackDifference.Keys;
      while rest != {}
        invariant rest <= ti.stackDifference.Keys
        invariant stackDifference.Keys == before.Keys + (ti.stackDifference.Keys - rest)
        invariant forall f :: f in stackDifference ==>
          stackDifference[f] == if f in before then before[f] else ti.stackDifference[f]
      {
        var f :| f in rest;
        rest := rest - {f};
        if f !in stackDifference {
          stackDifference := stackDifference[f := ti.stackDifference[f]];
        } else {
          assert stackDifference[f] == ti.stackDifference[f];
        }
      }
      assert stackDifference == ti.stackDifference + before;
    }

    method AddTbs(ti: Info)
      requires ti != this
      modifies this`entryToTbs
      ensures entryToTbs == JoinTbs(old(entryToTbs), ti.entryToTbs)
    {
      ghost var before := entryToTbs;
      var rest := ti.entryToTbs.Keys;
      while rest != {}
        invariant rest <= ti.entryToTbs.Keys
        invariant entryToTbs.Keys == before.Keys + (ti.entryToTbs.Keys - rest)
        invariant forall e :: e in entryToTbs ==>
          entryToTbs[e] == if e in rest then before[e] else JoinTbs(before, ti.entryToTbs)[e]
      {
        var e :| e in rest;
        rest := rest - {e};
        if e !in entryToTbs {
          entryToTbs := entryToTbs[e := {}];
        }
        entryToTbs := entryToTbs[e := entryToTbs[e] + ti.entryToTbs[e]];
      }
      assert entryToTbs == JoinTbs(before, ti.entryToTbs);
    }

    /** A deep copy. */
    method GetCopy() returns (copy: Info)
      ensures fresh(copy) && copy.Value() == Value()
    {
      copy := new Info();
      copy.stackFrameSizes := stackFrameSizes;
      copy.stackDifference := stackDifference;
      copy.memoryAccesses := memoryAccesses;
      copy.successors := successors;
      copy.entries := entries;
      copy.entryToCaller := entryToCaller;
      copy.entryToReturn := entryToReturn;
      copy.callerToFollowUp := callerToFollowUp;
      copy.entryToTbs := entryToTbs;
    }

    /** Forget everything, then add the copy: afterwards the record equals the copy. */
    method RestoreFromCopy(copy: Info)
      requires copy != this
      modifies this
      ensures Value() == copy.Value()
    {
      Clear();
      Add(copy);
      MergeIntoEmpty(copy.Value());
    }

    method Clear()
      modifies this
      ensures Value() == EMPTY
    {
      stackFrameSizes, stackDifference := map[], map[];
      memoryAccesses, successors, entries := [], {}, [];
      entryToCaller, entryToReturn, callerToFollowUp := {}, {}, {};
      entryToTbs := map[];
    }
  }

  lemma MergeIntoEmpty(t: Trace)
    ensures Merged(EMPTY, t) == t
  {
    assert MaxSizes(map[], t.frameSizes) == t.frameSizes;
    assert t.differences + map[] == t.differences;
    assert JoinTbs(map[], t.entryToTbs) == t.entryToTbs;
  }
}
