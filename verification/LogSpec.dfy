/**
 What the tracing plugin records, event by event: a call stack, relations between blocks and
 functions, and one snapshot of everything for each forked state not yet switched to.
 */
module LogSpec {
  import opened TraceInfo

  // Addresses arrive as 64-bit values; the stack and pending values hold 32 bits.
  type U64 = n: nat | n < 0x1_0000_0000_0000_0000

  function Low(n: nat): nat {
    n % 0x1_0000_0000
  }

  datatype Event =
    | Execute(pc: U64)
    | Call(tracked: bool, caller: U64, callee: U64)  // tracked: from or into the traced module
    | Return(caller: U64, begin: U64)
    | Fork(states: seq<int>)
    | Switch(from: int, to: int)

  // top of the stack last
  datatype Snapshots = Snapshots(
    traces: map<int, Trace>, stacks: map<int, seq<nat>>, blocks: map<int, nat>, callers: map<int, nat>)

  // files: the traces written out, by state; one file serves all negative states.
  datatype Log = Log(
    trace: Trace, stack: seq<nat>, lastBlock: nat, callerPc: nat, modulePcs: set<nat>, saved: Snapshots,
      files: map<int, Trace>)

  function Initial(garbage: nat): Log {
    Log(EMPTY.(entries := [0]), [], garbage, 0, {}, Snapshots(map[], map[], map[], map[]), map[])
  }

  function LastEntry(t: Trace): nat
    requires t.entries != []
  {
    t.entries[|t.entries| - 1]
  }

  function Top(stack: seq<nat>): nat
    requires stack != []
  {
    stack[|stack| - 1]
  }

  function Pop(stack: seq<nat>): seq<nat>
    requires stack != []
  {
    stack[..|stack| - 1]
  }

  /** The first block after an entry returned is the next entry, and opens it. */
  function OpenEntry(s: Log, pc: U64): Log
    requires s.trace.entries != []
  {
    if LastEntry(s.trace) != 0 then s
    else s.(trace := s.trace.(entries := s.trace.entries[|s.trace.entries| - 1 := pc]), stack := s.stack + [Low(pc)])
  }

  /** A block belongs to the innermost open function, and follows up a pending caller. */
  function NoteBlock(s: Log, pc: U64): Log {
    var s1 := s.(modulePcs := s.modulePcs + {Low(pc)}, lastBlock := Low(pc));
    if s.stack == [] then s1
    else
      var t := s.trace.(entryToTbs := s.trace.entryToTbs[Top(s.stack) := TbsOf(s.trace, Top(s.stack)) + {pc}]);
      if s.callerPc == 0 then s1.(trace := t)
      else s1.(trace := t.(callerToFollowUp := t.callerToFollowUp + {(s.callerPc, pc)}), callerPc := 0)
  }

  function AfterExecute(s: Log, pc: U64): Log
    requires s.trace.entries != []
  {
    NoteBlock(OpenEntry(s, pc), pc)
  }

  /** A return is ignored when neither of the two innermost open functions is the one returned from. */
  predicate Accepts(stack: seq<nat>, begin: U64)
    requires stack != []
  {
    Top(stack) == begin || |stack| == 1 || Top(Pop(stack)) == begin
  }

  function StackAfterReturn(stack: seq<nat>, begin: U64): seq<nat>
    requires stack != []
  {
    if Top(stack) == begin then Pop(stack)
    else if |stack| == 1 then stack
    else if Top(Pop(stack)) == begin then Pop(Pop(stack))
    else stack
  }

  function AfterReturn(s: Log, caller: U64, begin: U64): Log
    requires s.trace.entries != [] && s.stack != []
  {
    if !Accepts(s.stack, begin) then s
    else NoteReturn(s.(stack := StackAfterReturn(s.stack, begin)), caller, begin)
  }

  // What an accepted return leaves in the trace, and the caller left pending.
  function NoteReturn(s: Log, caller: U64, begin: U64): Log
    requires s.trace.entries != []
  {
    var entries := if begin == LastEntry(s.trace) then s.trace.entries + [0] else s.trace.entries;
    s.(callerPc := Low(caller), trace := s.trace.(
       entries := entries,
       entryToCaller := s.trace.entryToCaller + {(Low(begin), Low(caller))},
       entryToReturn := s.trace.entryToReturn + {(Low(begin), s.lastBlock)}))
  }

  function Listed(keys: seq<int>): set<int> {
    set k | k in keys
  }

  // Like emplace: a key that is present keeps its value.
  function WithDefault<T>(m: map<int, T>, keys: seq<int>, v: T): map<int, T> {
    map k | k in m.Keys + Listed(keys) :: if k in m then m[k] else v
  }

  function Emplace<T>(m: map<int, T>, key: int, v: T): (r: map<int, T>)
    ensures r == WithDefault(m, [key], v)
  {
    if key in m then m else m[key := v]
  }

  function AfterFork(s: Log, states: seq<int>): Log {
    s.(saved := Snapshots(
      WithDefault(s.saved.traces, states, s.trace), WithDefault(s.saved.stacks, states, s.stack),
      WithDefault(s.saved.blocks, states, s.lastBlock), WithDefault(s.saved.callers, states, s.callerPc)))
  }

  predicate CanSwitch(s: Log, to: int) {
    to in s.saved.traces && to in s.saved.stacks && to in s.saved.blocks && to in s.saved.callers
  }

  /** The file a state's trace is written to. */
  function FileOf(state: int): int {
    if state >= 0 then state else -1
  }

  function Written(s: Log, state: int): Log {
    s.(files := s.files[FileOf(state) := s.trace])
  }

  /** Everything as in the snapshot of a state. */
  function Restored(s: Log, to: int): Log
    requires CanSwitch(s, to)
  {
    s.(trace := s.saved.traces[to], stack := s.saved.stacks[to], lastBlock := s.saved.blocks[to],
      callerPc := s.saved.callers[to])
  }

  function Erased(s: Log, state: int): Log {
    s.(saved := Snapshots(s.saved.traces - {state}, s.saved.stacks - {state}, s.saved.blocks - {state},
      s.saved.callers - {state}))
  }

  function AfterSwitch(s: Log, from: int, to: int): Log
    requires CanSwitch(s, to)
  {
    Erased(Erased(Restored(Written(s, from), to), to), from)
  }

  /** Returns need an open function, switches a snapshot. */
  predicate Enabled(s: Log, e: Event) {
    && s.trace.entries != []
    && (e.Return? ==> s.stack != [])
    && (e.Switch? ==> CanSwitch(s, e.to))
  }

  function Step(s: Log, e: Event): Log
    requires Enabled(s, e)
  {
    match e
    case Execute(pc) => AfterExecute(s, pc)
    case Call(tracked, _, callee) => if tracked then s.(stack := s.stack + [Low(callee)]) else s
    case Return(caller, begin) => AfterReturn(s, caller, begin)
    case Fork(states) => AfterFork(s, states)
    case Switch(from, to) => AfterSwitch(s, from, to)
  }

  ghost predicate Run(s: Log, es: seq<Event>)
    decreases |es|
  {
    es != [] ==> Enabled(s, es[0]) && Run(Step(s, es[0]), es[1..])
  }

  /** The log after a run of events. */
  ghost function After(s: Log, es: seq<Event>): Log
    requires Run(s, es)
    decreases |es|
  {
    if es == [] then s else After(Step(s, es[0]), es[1..])
  }

  lemma {:induction false} RunAppend(s: Log, es: seq<Event>, fs: seq<Event>)
    ensures Run(s, es + fs) <==> Run(s, es) && Run(After(s, es), fs)
    ensures Run(s, es + fs) ==> After(s, es + fs) == After(After(s, es), fs)
    decreases |es|
  {
    if es == [] {
      assert es + fs == fs;
    } else {
      assert (es + fs)[0] == es[0] && (es + fs)[1..] == es[1..] + fs;
      if Enabled(s, es[0]) {
        RunAppend(Step(s, es[0]), es[1..], fs);
      }
    }
  }

  /** The log just before event k of a run, and the step event k makes. */
  lemma RunAt(s: Log, es: seq<Event>, k: nat)
    requires Run(s, es) && k <= |es|
    ensures Run(s, es[..k])
    ensures k < |es| ==> Run(s, es[..k + 1]) && Enabled(After(s, es[..k]), es[k])
    ensures k < |es| ==> After(s, es[..k + 1]) == Step(After(s, es[..k]), es[k])
  {
    assert es == es[..k] + es[k..];
    RunAppend(s, es[..k], es[k..]);
    if k < |es| {
      assert es == es[..k + 1] + es[k + 1..];
      RunAppend(s, es[..k + 1], es[k + 1..]);
      assert es[..k + 1] == es[..k] + [es[k]];
      RunAppend(s, es[..k], [es[k]]);
    }
  }
}
