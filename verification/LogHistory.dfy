/**
 What the tracing plugin has recorded after any run without switches, told by the events alone: who
 called and where returned every function that was seen to return, which blocks ran in which
 function, and when entries come and go.
 */
module LogHistory {
  import opened LogSpec
  import opened TraceInfo

  const WORD := 0x1_0000_0000

  ghost predicate Unswitched(s: Log, es: seq<Event>) {
    Run(s, es) && forall k :: 0 <= k < |es| ==> !es[k].Switch?
  }

  /** The return at k is believed: it is from one of the two innermost functions, or only one is open. */
  ghost predicate Believed(s: Log, es: seq<Event>, k: nat)
    requires Run(s, es)
  {
    k < |es| && Run(s, es[..k]) && es[k].Return? && FromInnermost(After(s, es[..k]).stack, es[k].begin)
  }

  predicate FromInnermost(stack: seq<nat>, begin: nat) {
    && stack != []
    && (|stack| == 1 || stack[|stack| - 1] == begin || stack[|stack| - 2] == begin)
  }

  /** j is the last block executed before event k. */
  ghost predicate LastExecuted(es: seq<Event>, k: nat, j: nat) {
    j < k <= |es| && es[j].Execute? && forall i :: j < i < k ==> !es[i].Execute?
  }

  /** The block noted as the last executed before event k, at the start of the run one from before. */
  ghost predicate LastBlock(s: Log, es: seq<Event>, k: nat, b: nat) {
    && (forall j: nat :: LastExecuted(es, k, j) ==> b == es[j].pc % WORD)
    && ((forall j: nat :: !LastExecuted(es, k, j)) ==> b == s.lastBlock)
  }

  ghost predicate CalledBy(s: Log, es: seq<Event>, k: nat, e: nat, c: nat)
    requires Run(s, es)
  {
    Believed(s, es, k) && es[k].begin % WORD == e && es[k].caller % WORD == c
  }

  ghost predicate ReturnedAt(s: Log, es: seq<Event>, k: nat, e: nat, b: nat)
    requires Run(s, es)
  {
    Believed(s, es, k) && es[k].begin % WORD == e && LastBlock(s, es, k, b)
  }

  /** Block b was executed at k while e was the innermost open function, or is itself a new entry. */
  ghost predicate RanIn(s: Log, es: seq<Event>, k: nat, e: nat, b: nat)
    requires Run(s, es)
  {
    k < |es| && es[k].Execute? && es[k].pc == b && Run(s, es[..k]) && RunsNow(After(s, es[..k]), e, b)
  }

  ghost predicate RunsNow(before: Log, e: nat, b: nat) {
    var entries, stack := before.trace.entries, before.stack;
    && entries != []
    && if entries[|entries| - 1] == 0 then e == b % WORD else stack != [] && e == stack[|stack| - 1]
  }

  ghost predicate ExecutedAt(es: seq<Event>, k: nat, p: nat) {
    k < |es| && es[k].Execute? && es[k].pc % WORD == p
  }

  ghost predicate SomeCalledBy(s: Log, es: seq<Event>, n: nat, e: nat, c: nat)
    requires Run(s, es)
  {
    exists k: nat :: k < n && CalledBy(s, es, k, e, c)
  }

  ghost predicate SomeReturnedAt(s: Log, es: seq<Event>, n: nat, e: nat, b: nat)
    requires Run(s, es)
  {
    exists k: nat :: k < n && ReturnedAt(s, es, k, e, b)
  }

  ghost predicate SomeRanIn(s: Log, es: seq<Event>, n: nat, e: nat, b: nat)
    requires Run(s, es)
  {
    exists k: nat :: k < n && RanIn(s, es, k, e, b)
  }

  ghost predicate SomeExecuted(es: seq<Event>, n: nat, p: nat) {
    exists k: nat :: k < n && ExecutedAt(es, k, p)
  }

  /** The relations hold what they held at the start and what happened in the first n events. */
  ghost predicate HistoryRight(s: Log, es: seq<Event>, n: nat, now: Log)
    requires Run(s, es)
  {
    && CallersRight(s, es, n, now) && ReturnsRight(s, es, n, now) && BlocksRight(s, es, n, now)
    && (forall p: nat :: p in now.modulePcs <==> p in s.modulePcs || SomeExecuted(es, n, p))
    && LastBlock(s, es, n, now.lastBlock)
  }

  ghost predicate CallersRight(s: Log, es: seq<Event>, n: nat, now: Log)
    requires Run(s, es)
  {
    forall e: nat, c: nat ::
      (e, c) in now.trace.entryToCaller <==> (e, c) in s.trace.entryToCaller || SomeCalledBy(s, es, n, e, c)
  }

  ghost predicate ReturnsRight(s: Log, es: seq<Event>, n: nat, now: Log)
    requires Run(s, es)
  {
    forall e: nat, b: nat ::
      (e, b) in now.trace.entryToReturn <==> (e, b) in s.trace.entryToReturn || SomeReturnedAt(s, es, n, e, b)
  }

  ghost predicate BlocksRight(s: Log, es: seq<Event>, n: nat, now: Log)
    requires Run(s, es)
  {
    forall e: nat, b: nat :: b in TbsOf(now.trace, e) <==> b in TbsOf(s.trace, e) || SomeRanIn(s, es, n, e, b)
  }

  // ----- one more event -----

  /** What an event adds to the relations. */
  ghost predicate Adds(before: Log, e: Event, after: Log) {
    && after.trace.entryToCaller == before.trace.entryToCaller +
         (if Taken(before, e) then {(e.begin % WORD, e.caller % WORD)} else {})
    && after.trace.entryToReturn == before.trace.entryToReturn +
         (if Taken(before, e) then {(e.begin % WORD, before.lastBlock)} else {})
    && (forall f: nat, b: nat :: b in TbsOf(after.trace, f) <==>
          b in TbsOf(before.trace, f) || (e.Execute? && e.pc == b && RunsNow(before, f, b)))
    && after.modulePcs == before.modulePcs + (if e.Execute? then {e.pc % WORD} else {})
    && after.lastBlock == if e.Execute? then e.pc % WORD else before.lastBlock
  }

  predicate Taken(before: Log, e: Event) {
    e.Return? && FromInnermost(before.stack, e.begin)
  }

  lemma EventAdds(before: Log, e: Event)
    requires Enabled(before, e) && !e.Switch?
    ensures Adds(before, e, Step(before, e))
  {
    match e
    case Execute(pc) => ExecuteAdds(before, pc);
    case Call(_, _, _) =>
    case Return(caller, begin) => ReturnAdds(before, caller, begin);
    case Fork(_) =>
  }

  lemma ExecuteAdds(before: Log, pc: U64)
    requires before.trace.entries != []
    ensures Adds(before, Execute(pc), AfterExecute(before, pc))
  {
    var open := OpenEntry(before, pc);
    NoteAdds(open, pc);
    forall f: nat ensures RunsNow(before, f, pc) <==> open.stack != [] && f == open.stack[|open.stack| - 1] {}
  }

  lemma NoteAdds(s: Log, pc: U64)
    ensures var after := NoteBlock(s, pc);
      && after.trace.entryToCaller == s.trace.entryToCaller && after.trace.entryToReturn == s.trace.entryToReturn
      && after.modulePcs == s.modulePcs + {pc % WORD} && after.lastBlock == pc % WORD
      && forall f: nat, b: nat :: b in TbsOf(after.trace, f) <==>
           b in TbsOf(s.trace, f) || (b == pc && s.stack != [] && f == s.stack[|s.stack| - 1])
  {
  }

  lemma ReturnAdds(before: Log, caller: U64, begin: U64)
    requires before.trace.entries != [] && before.stack != []
    ensures Adds(before, Return(caller, begin), AfterReturn(before, caller, begin))
  {
  }

  lemma LastBlockNext(s: Log, es: seq<Event>, n: nat, b: nat, b': nat)
    requires n < |es| && LastBlock(s, es, n, b)
    requires b' == if es[n].Execute? then es[n].pc % WORD else b
    ensures LastBlock(s, es, n + 1, b')
  {
    var next := n + 1;
    forall j: nat | LastExecuted(es, next, j) ensures LastNow(es, n, j) {
      LastExecutedNext(es, n, j);
    }
    if es[n].Execute? {
      assert LastExecuted(es, next, n);
    } else if j: nat :| LastExecuted(es, n, j) {
      assert LastExecuted(es, next, j);
    }
  }

  ghost predicate LastNow(es: seq<Event>, n: nat, j: nat) {
    n < |es| && if es[n].Execute? then j == n else LastExecuted(es, n, j)
  }

  lemma LastExecutedNext(es: seq<Event>, n: nat, j: nat)
    requires n < |es|
    ensures LastExecuted(es, n + 1, j) <==> LastNow(es, n, j)
  {
  }

  lemma OneLastBlock(s: Log, es: seq<Event>, n: nat, b: nat, b': nat)
    requires LastBlock(s, es, n, b) && LastBlock(s, es, n, b')
    ensures b == b'
  {
    if j: nat :| LastExecuted(es, n, j) {}
  }

  lemma SomeNext(s: Log, es: seq<Event>, n: nat)
    requires Run(s, es)
    ensures forall e, c ::
      SomeCalledBy(s, es, n + 1, e, c) <==> SomeCalledBy(s, es, n, e, c) || CalledBy(s, es, n, e, c)
    ensures forall e, b ::
      SomeReturnedAt(s, es, n + 1, e, b) <==> SomeReturnedAt(s, es, n, e, b) || ReturnedAt(s, es, n, e, b)
    ensures forall e, b :: SomeRanIn(s, es, n + 1, e, b) <==> SomeRanIn(s, es, n, e, b) || RanIn(s, es, n, e, b)
    ensures forall p :: SomeExecuted(es, n + 1, p) <==> SomeExecuted(es, n, p) || ExecutedAt(es, n, p)
  {
  }

  lemma {:induction false} HistoryUpTo(s: Log, es: seq<Event>, n: nat)
    requires Unswitched(s, es) && n <= |es|
    ensures Run(s, es[..n]) && HistoryRight(s, es, n, After(s, es[..n]))
  {
    if n == 0 {
      assert es[..0] == [];
    } else {
      HistoryUpTo(s, es, n - 1);
      var before, after := AddsAt(s, es, n - 1);
      HistoryNext(s, es, n - 1, before, after);
    }
  }

  lemma AddsAt(s: Log, es: seq<Event>, n: nat) returns (before: Log, after: Log)
    requires Unswitched(s, es) && n < |es|
    ensures Run(s, es[..n]) && Run(s, es[..n + 1]) && before == After(s, es[..n]) && after == After(s, es[..n + 1])
    ensures Adds(before, es[n], after)
  {
    RunAt(s, es, n);
    before, after := After(s, es[..n]), After(s, es[..n + 1]);
    EventAdds(before, es[n]);
  }

  lemma HistoryNext(s: Log, es: seq<Event>, n: nat, before: Log, after: Log)
    requires Run(s, es) && n < |es| && Run(s, es[..n]) && before == After(s, es[..n])
    requires HistoryRight(s, es, n, before) && Adds(before, es[n], after)
    ensures HistoryRight(s, es, n + 1, after)
  {
    CallersNext(s, es, n, before, after);
    ReturnsNext(s, es, n, before, after);
    BlocksNext(s, es, n, before, after);
    SomeNext(s, es, n);
    LastBlockNext(s, es, n, before.lastBlock, after.lastBlock);
  }

  lemma CallersNext(s: Log, es: seq<Event>, n: nat, before: Log, after: Log)
    requires Run(s, es) && n < |es| && Run(s, es[..n]) && before == After(s, es[..n])
    requires CallersRight(s, es, n, before) && Adds(before, es[n], after)
    ensures CallersRight(s, es, n + 1, after)
  {
    SomeNext(s, es, n);
  }

  lemma BlocksNext(s: Log, es: seq<Event>, n: nat, before: Log, after: Log)
    requires Run(s, es) && n < |es| && Run(s, es[..n]) && before == After(s, es[..n])
    requires BlocksRight(s, es, n, before) && Adds(before, es[n], after)
    ensures BlocksRight(s, es, n + 1, after)
  {
    SomeNext(s, es, n);
  }

  lemma ReturnsNext(s: Log, es: seq<Event>, n: nat, before: Log, after: Log)
    requires Run(s, es) && n < |es| && Run(s, es[..n]) && before == After(s, es[..n])
    requires ReturnsRight(s, es, n, before) && LastBlock(s, es, n, before.lastBlock) && Adds(before, es[n], after)
    ensures ReturnsRight(s, es, n + 1, after)
  {
    SomeNext(s, es, n);
    forall b: nat | LastBlock(s, es, n, b) ensures b == before.lastBlock {
      OneLastBlock(s, es, n, b, before.lastBlock);
    }
  }

  /** On every run without switches the relations record exactly what happened. */
  lemma History(s: Log, es: seq<Event>)
    requires Unswitched(s, es)
    ensures HistoryRight(s, es, |es|, After(s, es))
  {
    HistoryUpTo(s, es, |es|);
    assert es[..|es|] == es;
  }

  // ----- entries -----

  ghost function Entries(s: Log, es: seq<Event>, k: nat): seq<nat>
    requires Run(s, es) && k <= |es| && Run(s, es[..k])
  {
    After(s, es[..k]).trace.entries
  }

  /** The return at k is believed and from the current entry. */
  ghost predicate EntryReturns(s: Log, es: seq<Event>, k: nat)
    requires Run(s, es)
  {
    Believed(s, es, k) && Entries(s, es, k) != [] && es[k].begin == Entries(s, es, k)[|Entries(s, es, k)| - 1]
  }

  /** The block at k is executed when no entry is open. */
  ghost predicate EntryOpens(s: Log, es: seq<Event>, k: nat)
    requires Run(s, es)
  {
    k < |es| && es[k].Execute? && Run(s, es[..k]) && Entries(s, es, k) != [] &&
    Entries(s, es, k)[|Entries(s, es, k)| - 1] == 0
  }

  /** Entries change exactly at a return from the current one, and at the first block after that, which is the next. */
  lemma EntriesChange(s: Log, es: seq<Event>, k: nat)
    requires Unswitched(s, es) && k < |es|
    ensures Run(s, es[..k]) && Run(s, es[..k + 1]) && Entries(s, es, k) != []
    ensures var was, now := Entries(s, es, k), Entries(s, es, k + 1);
      && (EntryReturns(s, es, k) ==> now == was + [0])
      && (EntryOpens(s, es, k) ==> now == was[..|was| - 1] + [es[k].pc])
      && (!EntryReturns(s, es, k) && !EntryOpens(s, es, k) ==> now == was)
  {
    RunAt(s, es, k);
    EntriesStep(After(s, es[..k]), es[k]);
  }

  lemma EntriesStep(before: Log, e: Event)
    requires Enabled(before, e) && !e.Switch?
    ensures var was, now := before.trace.entries, Step(before, e).trace.entries; var last := |was| - 1;
      && (Taken(before, e) && e.begin == was[last] ==> now == was + [0])
      && (e.Execute? && was[last] == 0 ==> now == was[..last] + [e.pc])
      && (!(Taken(before, e) && e.begin == was[last]) && !(e.Execute? && was[last] == 0) ==> now == was)
  {
    var was := before.trace.entries;
    if e.Execute? {
      assert was[|was| - 1 := e.pc] == was[..|was| - 1] + [e.pc];
    }
  }

  /** No entry is open exactly from a return from the current one, or the start, to the next block that is not at 0. */
  ghost predicate Closed(s: Log, es: seq<Event>, n: nat)
    requires Run(s, es) && s.trace.entries != []
  {
    || (s.trace.entries[|s.trace.entries| - 1] == 0 && NoBlock(es, 0, n))
    || exists i: nat :: i < n && EntryReturns(s, es, i) && NoBlock(es, i + 1, n)
  }

  ghost predicate NoBlock(es: seq<Event>, from: nat, n: nat) {
    forall k :: from <= k < n && k < |es| ==> !(es[k].Execute? && es[k].pc != 0)
  }

  lemma {:induction false} ClosedUpTo(s: Log, es: seq<Event>, n: nat)
    requires Unswitched(s, es) && s.trace.entries != [] && n <= |es|
    ensures Run(s, es[..n]) && Entries(s, es, n) != []
    ensures Entries(s, es, n)[|Entries(s, es, n)| - 1] == 0 <==> Closed(s, es, n)
  {
    if n == 0 {
      assert es[..0] == [];
    } else {
      ClosedUpTo(s, es, n - 1);
      ZeroNext(s, es, n - 1);
      ClosedNext(s, es, n - 1);
    }
  }

  lemma ZeroNext(s: Log, es: seq<Event>, n: nat)
    requires Unswitched(s, es) && n < |es|
    ensures Run(s, es[..n]) && Entries(s, es, n) != [] && Run(s, es[..n + 1]) && Entries(s, es, n + 1) != []
    ensures Entries(s, es, n + 1)[|Entries(s, es, n + 1)| - 1] == 0 <==>
      EntryReturns(s, es, n) || (Entries(s, es, n)[|Entries(s, es, n)| - 1] == 0 && !(es[n].Execute? && es[n].pc != 0))
  {
    EntriesChange(s, es, n);
  }

  lemma ClosedNext(s: Log, es: seq<Event>, n: nat)
    requires Run(s, es) && s.trace.entries != [] && n < |es|
    ensures Closed(s, es, n + 1) <==>
      EntryReturns(s, es, n) || (Closed(s, es, n) && !(es[n].Execute? && es[n].pc != 0))
  {
    forall from: nat | from <= n
      ensures NoBlock(es, from, n + 1) <==> NoBlock(es, from, n) && !(es[n].Execute? && es[n].pc != 0)
    {}
    assert NoBlock(es, n + 1, n + 1);
  }
}
