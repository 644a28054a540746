/** The tracing plugin: event handlers over a shared trace record, and snapshots of its fields per state. */
module FunctionLog {
  import opened TraceInfo
  import opened LogSpec

  class Plugin {
    const ti: Info
    var executedBBPc: nat
    var callerPc: nat
    var modulePcs: set<nat>
    var callStack: seq<nat>

    var tracesByState: map<int, Info>
    var execPcByState: map<int, nat>
    var callerPcByState: map<int, nat>
    var stacksByState: map<int, seq<nat>>

    // The trace files written, by state; -1 is the one without a state in its name.
    var files: map<int, Trace>

    // Every event handled so far, and the log before the first.
    ghost var history: seq<Event>
    ghost const start: Log
    ghost var savedTraces: map<int, Trace>

    // The shared record is none of the snapshots, whose values savedTraces names.
    ghost predicate Apart()
      reads this, tracesByState.Values
    {
      && tracesByState.Keys == savedTraces.Keys
      && forall s :: s in tracesByState ==> tracesByState[s] != ti && tracesByState[s].Value() == savedTraces[s]
    }

    ghost predicate Valid()
      reads this, ti, tracesByState.Values
    {
      && Apart()
      && Run(start, history) && After(start, history) == Value()
    }

    ghost function Value(): Log
      reads this, ti
    {
      Log(ti.Value(), callStack, executedBBPc, callerPc, modulePcs,
          Snapshots(savedTraces, stacksByState, execPcByState, callerPcByState), files)
    }

    // executedBBPc is not initialised.
    constructor (shared: Info, garbage: nat)
      requires shared.Value() == EMPTY
      modifies shared
      ensures Valid() && ti == shared && history == [] && Value() == start == Initial(garbage)
      ensures ti.entries == [0] && callStack == [] && callerPc == 0
    {
      ti := shared;
      executedBBPc, callerPc, modulePcs, callStack := garbage, 0, {}, [];
      tracesByState, execPcByState, callerPcByState, stacksByState := map[], map[], map[], map[];
      history, start, savedTraces, files := [], Initial(garbage), map[], map[];
      new;
      ti.entries := ti.entries + [0];
    }

    // Append an event that has just been handled.
    ghost method Record(e: Event, before: Log)
      requires Run(start, history) && After(start, history) == before
      requires Enabled(before, e) && Value() == Step(before, e)
      requires Apart()
      modifies this`history
      ensures Valid() && history == old(history) + [e]
    {
      RunAppend(start, history, [e]);
      history := history + [e];
    }

    method OpenEntry(pc: U64)
      requires Apart() && ti.entries != []
      modifies this`callStack, ti
      ensures Apart() && Value() == LogSpec.OpenEntry(old(Value()), pc)
    {
      if ti.entries[|ti.entries| - 1] == 0 {
        ti.entries := ti.entries[|ti.entries| - 1 := pc];
        callStack := callStack + [Low(pc)];
      }
    }

    method NoteBlock(pc: U64)
      requires Apart()
      modifies this`modulePcs, this`executedBBPc, this`callerPc, ti
      ensures Apart() && Value() == LogSpec.NoteBlock(old(Value()), pc)
    {
      modulePcs := modulePcs + {Low(pc)};
      executedBBPc := Low(pc);
      if callStack != [] {
        ti.InsertTb(callStack[|callStack| - 1], pc);
        if callerPc != 0 {
          ti.callerToFollowUp := ti.callerToFollowUp + {(callerPc, pc)};
          callerPc := 0;
        }
      }
    }

    method OnModuleExecute(pc: U64)
      requires Valid() && Enabled(Value(), Execute(pc))
      modifies this, ti
      ensures Valid() && history == old(history) + [Execute(pc)]
      ensures Value() == AfterExecute(old(Value()), pc)
      ensures callStack == old(callStack) + if old(ti.entries[|ti.entries| - 1]) == 0 then [pc % 0x1_0000_0000] else []
      ensures callerPc == if callStack == [] then old(callerPc) else 0
    {
      ghost var before := Value();
      OpenEntry(pc);
      NoteBlock(pc);
      Record(Execute(pc), before);
    }

    method OnFunctionCall(tracked: bool, caller: U64, callee: U64)
      requires Valid() && Enabled(Value(), Call(tracked, caller, callee))
      modifies this
      ensures Valid() && history == old(history) + [Call(tracked, caller, callee)]
      ensures Value() == Step(old(Value()), Call(tracked, caller, callee))
      ensures callStack == old(callStack) + if tracked then [callee % 0x1_0000_0000] else []
    {
      ghost var before := Value();
      if tracked {
        callStack := callStack + [Low(callee)];
      }
      Record(Call(tracked, caller, callee), before);
    }

    /** Pop the function returned from, and one more on top of it; false when neither is it. */
    method PopReturned(begin: U64) returns (accepted: bool)
      requires callStack != []
      modifies this`callStack
      ensures accepted == Accepts(old(callStack), begin)
      ensures callStack == StackAfterReturn(old(callStack), begin)
      ensures var s := old(callStack); var n := |s|;
        if s[n - 1] == begin then accepted && callStack == s[..n - 1]
        else if n == 1 then accepted && callStack == s
        else if s[n - 2] == begin then accepted && callStack == s[..n - 2]
        else !accepted && callStack == s
    {
      var top := callStack[|callStack| - 1];
      callStack := callStack[..|callStack| - 1];
      if top != begin {
        if callStack == [] {
          callStack := callStack + [top];
        } else if begin != callStack[|callStack| - 1] {
          callStack := callStack + [top];
          return false;
        } else {
          callStack := callStack[..|callStack| - 1];
        }
      }
      return true;
    }

    method NoteReturn(caller: U64, begin: U64)
      requires Apart() && ti.entries != []
      modifies this`callerPc, ti
      ensures Apart() && Value() == LogSpec.NoteReturn(old(Value()), caller, begin)
    {
      if begin == ti.entries[|ti.entries| - 1] {
        ti.entries := ti.entries + [0];
      }
      callerPc := Low(caller);
      ti.entryToCaller := ti.entryToCaller + {(Low(begin), Low(caller))};
      ti.entryToReturn := ti.entryToReturn + {(Low(begin), executedBBPc)};
    }

    method OnFunctionReturn(caller: U64, begin: U64)
      requires Valid() && Enabled(Value(), Return(caller, begin))
      modifies this, ti
      ensures Valid() && history == old(history) + [Return(caller, begin)]
      ensures Value() == AfterReturn(old(Value()), caller, begin)
      ensures var s := old(callStack); var n := |s|;
        if n == 1 || s[n - 1] == begin || s[n - 2] == begin then
          && callerPc == caller % 0x1_0000_0000
          && ti.entryToCaller == old(ti.entryToCaller) + {(begin % 0x1_0000_0000, caller % 0x1_0000_0000)}
          && ti.entryToReturn == old(ti.entryToReturn) + {(begin % 0x1_0000_0000, old(executedBBPc))}
        else ti.Value() == old(ti.Value()) && callerPc == old(callerPc)
    {
      ghost var before := Value();
      var accepted := PopReturned(begin);
      if accepted {
        NoteReturn(caller, begin);
      }
      Record(Return(caller, begin), before);
    }

    /** Store a copy of the shared record for one new state, unless it has one. */
    method SaveTrace(newState: int)
      requires Apart()
      modifies this`tracesByState, this`savedTraces
      ensures Apart() && savedTraces == Emplace(old(savedTraces), newState, ti.Value())
      ensures forall s :: s in tracesByState && !fresh(tracesByState[s]) ==>
        s in old(tracesByState) && tracesByState[s] == old(tracesByState)[s]
    {
      if newState !in tracesByState {
        var copy := ti.GetCopy();
        tracesByState := tracesByState[newState := copy];
        savedTraces := savedTraces[newState := ti.Value()];
      }
    }

    /** Store copies of everything for one new state. */
    method Save(newState: int)
      requires Apart()
      modifies this`tracesByState, this`stacksByState, this`execPcByState, this`callerPcByState, this`savedTraces
      ensures Apart() && Value() == AfterFork(old(Value()), [newState])
    {
      SaveTrace(newState);
      stacksByState := Emplace(stacksByState, newState, callStack);
      execPcByState := Emplace(execPcByState, newState, executedBBPc);
      callerPcByState := Emplace(callerPcByState, newState, callerPc);
    }

    method OnStateFork(states: seq<int>)
      requires Valid() && Enabled(Value(), Fork(states))
      modifies this
      ensures Valid() && history == old(history) + [Fork(states)]
      ensures Value() == AfterFork(old(Value()), states)
    {
      ghost var before := Value();
      ForkNone(before);
      for k := 0 to |states|
        invariant history == old(history) && Apart()
        invariant Value() == AfterFork(before, states[..k])
      {
        Save(states[k]);
        ForkOneMore(before, states, k);
      }
      assert states[..|states|] == states;
      Record(Fork(states), before);
    }

    /** Write the shared record to the file of a state, over what it held. */
    method SaveTraceInfo(state: int)
      requires Apart()
      modifies this`files
      ensures Apart() && Value() == Written(old(Value()), state)
      ensures files == old(files)[if state >= 0 then state else -1 := ti.Value()]
    {
      files := files[FileOf(state) := ti.Value()];
    }

    /** Restore the copies of a state. */
    method Restore(newState: int)
      requires Apart() && CanSwitch(Value(), newState)
      modifies this`callStack, this`executedBBPc, this`callerPc, ti
      ensures Apart() && Value() == Restored(old(Value()), newState)
    {
      ti.RestoreFromCopy(tracesByState[newState]);
      callStack := stacksByState[newState];
      executedBBPc := execPcByState[newState];
      callerPc := callerPcByState[newState];
    }

    /** Delete the copies of a state. */
    method Erase(state: int)
      requires Apart()
      modifies this`tracesByState, this`stacksByState, this`execPcByState, this`callerPcByState, this`savedTraces
      ensures Apart() && Value() == Erased(old(Value()), state)
    {
      tracesByState, savedTraces := tracesByState - {state}, savedTraces - {state};
      stacksByState := stacksByState - {state};
      execPcByState := execPcByState - {state};
      callerPcByState := callerPcByState - {state};
    }

    method OnStateSwitch(curState: int, newState: int)
      requires Valid() && Enabled(Value(), Switch(curState, newState))
      modifies this, ti
      ensures Valid() && history == old(history) + [Switch(curState, newState)]
      ensures Value() == AfterSwitch(old(Value()), curState, newState)
    {
      ghost var before := Value();
      SaveTraceInfo(curState);
      Restore(newState);
      Erase(newState);
      Erase(curState);
      Record(Switch(curState, newState), before);
    }
  }

  lemma ForkNone(s: Log)
    ensures AfterFork(s, []) == s
  {
    assert WithDefault(s.saved.traces, [], s.trace) == s.saved.traces;
    assert WithDefault(s.saved.stacks, [], s.stack) == s.saved.stacks;
    assert WithDefault(s.saved.blocks, [], s.lastBlock) == s.saved.blocks;
    assert WithDefault(s.saved.callers, [], s.callerPc) == s.saved.callers;
  }

  lemma ForkOneMore(s: Log, states: seq<int>, k: nat)
    requires k < |states|
    ensures AfterFork(s, states[..k + 1]) == AfterFork(AfterFork(s, states[..k]), [states[k]])
  {
    assert states[..k + 1] == states[..k] + [states[k]];
    OneMore(s.saved.traces, states, k, s.trace);
    OneMore(s.saved.stacks, states, k, s.stack);
    OneMore(s.saved.blocks, states, k, s.lastBlock);
    OneMore(s.saved.callers, states, k, s.callerPc);
  }

  lemma OneMore<T>(m: map<int, T>, states: seq<int>, k: nat, v: T)
    requires k < |states|
    ensures WithDefault(m, states[..k + 1], v) == WithDefault(WithDefault(m, states[..k], v), [states[k]], v)
  {
    assert states[..k + 1] == states[..k] + [states[k]];
  }
}
