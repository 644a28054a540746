/** What the tracing plugin's log means, over every run of events. */
module LogProps {
  import opened LogSpec
  import opened TraceInfo

  // ----- nesting -----

  // A well-nested stretch of a run: blocks executed, calls ignored, and calls with their bodies; also
  // calls whose body jumps into another function that is taken for a call but never returns itself.
  datatype Nest =
    | Nothing
    | Block(pc: U64, rest: Nest)
    | Ignored(caller: U64, callee: U64, rest: Nest)
    | Invoke(caller: U64, callee: U64, body: Nest, rest: Nest)
    | Jump(caller: U64, callee: U64, body: Nest, site: U64, target: U64, tail: Nest, rest: Nest)

  function Flatten(n: Nest): seq<Event> {
    match n
    case Nothing => []
    case Block(pc, rest) => [Execute(pc)] + Flatten(rest)
    case Ignored(caller, callee, rest) => [Call(false, caller, callee)] + Flatten(rest)
    case Invoke(caller, callee, body, rest) =>
      [Call(true, caller, callee)] + (Flatten(body) + ([Return(caller, callee)] + Flatten(rest)))
    case Jump(caller, callee, body, site, target, tail, rest) =>
      [Call(true, caller, callee)] + (Flatten(body) + ([Call(true, site, target)] +
        (Flatten(tail) + ([Return(caller, callee)] + Flatten(rest)))))
  }

  /** Which block ran while which function was the innermost open one. */
  function Pairs(n: Nest, open: nat): set<(nat, nat)> {
    match n
    case Nothing => {}
    case Block(pc, rest) => {(open, pc)} + Pairs(rest, open)
    case Ignored(_, _, rest) => Pairs(rest, open)
    case Invoke(_, callee, body, rest) => Pairs(body, callee) + Pairs(rest, open)
    case Jump(_, callee, body, _, target, tail, rest) => Pairs(body, callee) + Pairs(tail, target) + Pairs(rest, open)
  }

  /** Addresses have 32 bits, and nothing returns from the current entry. */
  predicate Plain(n: Nest, entry: nat) {
    match n
    case Nothing => true
    case Block(pc, rest) => pc == Low(pc) && Plain(rest, entry)
    case Ignored(_, _, rest) => Plain(rest, entry)
    case Invoke(_, callee, body, rest) =>
      callee == Low(callee) && callee != entry && Plain(body, entry) && Plain(rest, entry)
    case Jump(_, callee, body, _, target, tail, rest) =>
      && callee == Low(callee) && target == Low(target) && callee != entry && callee != target
      && Plain(body, entry) && Plain(tail, entry) && Plain(rest, entry)
  }

  ghost predicate SameNesting(s: Log, s': Log, pairs: set<(nat, nat)>) {
    && s'.stack == s.stack && s'.trace.entries == s.trace.entries
    && forall e: nat, b: nat :: b in TbsOf(s'.trace, e) <==> b in TbsOf(s.trace, e) || (e, b) in pairs
  }

  /** The stack ends as it began, and blocks are recorded for exactly their innermost open function. */
  lemma {:induction false} NestedRun(s: Log, n: Nest)
    requires s.trace.entries != [] && LastEntry(s.trace) != 0 && s.stack != [] && Plain(n, LastEntry(s.trace))
    ensures Run(s, Flatten(n)) && SameNesting(s, After(s, Flatten(n)), Pairs(n, Top(s.stack)))
    decreases n
  {
    match n
    case Nothing =>
    case Block(pc, rest) =>
      BlockNested(s, pc);
      NestedRun(Step(s, Execute(pc)), rest);
      RunFirst(s, Execute(pc), Flatten(rest));
    case Ignored(caller, callee, rest) =>
      NestedRun(s, rest);
      RunFirst(s, Call(false, caller, callee), Flatten(rest));
    case Invoke(caller, callee, body, rest) =>
      var s1 := Step(s, Call(true, caller, callee));
      NestedRun(s1, body);
      var s2 := After(s1, Flatten(body));
      ReturnNested(s, s2, caller, callee, Pairs(body, callee));
      NestedRun(Step(s2, Return(caller, callee)), rest);
      RunInvoke(s, caller, callee, Flatten(body), Flatten(rest));
    case Jump(caller, callee, body, site, target, tail, rest) =>
      var s1 := Step(s, Call(true, caller, callee));
      NestedRun(s1, body);
      var s2 := After(s1, Flatten(body));
      var s3 := Step(s2, Call(true, site, target));
      NestedRun(s3, tail);
      var s4 := After(s3, Flatten(tail));
      JumpNested(s, s2, s4, caller, callee, target, Pairs(body, callee), Pairs(tail, target));
      NestedRun(Step(s4, Return(caller, callee)), rest);
      RunFirst(s4, Return(caller, callee), Flatten(rest));
      RunFrom(s3, Flatten(tail), [Return(caller, callee)] + Flatten(rest));
      RunFirst(s2, Call(true, site, target), Flatten(tail) + ([Return(caller, callee)] + Flatten(rest)));
      RunFrom(s1, Flatten(body),
        [Call(true, site, target)] + (Flatten(tail) + ([Return(caller, callee)] + Flatten(rest))));
      RunFirst(s, Call(true, caller, callee), Flatten(body) +
        ([Call(true, site, target)] + (Flatten(tail) + ([Return(caller, callee)] + Flatten(rest)))));
  }

  lemma RunFrom(s: Log, es: seq<Event>, fs: seq<Event>)
    requires Run(s, es) && Run(After(s, es), fs)
    ensures Run(s, es + fs) && After(s, es + fs) == After(After(s, es), fs)
  {
    RunAppend(s, es, fs);
  }

  /** The return closes the call and the jump in it: the function is one below the top. */
  lemma JumpNested(s: Log, s2: Log, s4: Log, caller: U64, callee: U64, target: U64, pairs: set<(nat, nat)>,
                   more: set<(nat, nat)>)
    requires s.trace.entries != [] && s.stack != [] && callee == Low(callee) && callee != LastEntry(s.trace)
    requires target == Low(target) && callee != target
    requires SameNesting(s.(stack := s.stack + [callee]), s2, pairs)
    requires SameNesting(s2.(stack := s2.stack + [target]), s4, more)
    ensures Enabled(s4, Return(caller, callee)) && SameNesting(s, Step(s4, Return(caller, callee)), pairs + more)
  {
    assert Pop(s4.stack) == s.stack + [callee];
    assert Pop(Pop(s4.stack)) == s.stack;
    assert Step(s4, Return(caller, callee)).trace.entryToTbs == s4.trace.entryToTbs;
  }

  lemma RunFirst(s: Log, e: Event, rest: seq<Event>)
    requires Enabled(s, e) && Run(Step(s, e), rest)
    ensures Run(s, [e] + rest) && After(s, [e] + rest) == After(Step(s, e), rest)
  {
    assert ([e] + rest)[0] == e && ([e] + rest)[1..] == rest;
  }

  lemma BlockNested(s: Log, pc: U64)
    requires s.trace.entries != [] && LastEntry(s.trace) != 0 && s.stack != []
    ensures SameNesting(s, Step(s, Execute(pc)), {(Top(s.stack), pc)})
  {}

  /** The return closes the call: the function is on top, and is not the current entry. */
  lemma ReturnNested(s: Log, s2: Log, caller: U64, callee: U64, pairs: set<(nat, nat)>)
    requires s.trace.entries != [] && s.stack != [] && callee == Low(callee) && callee != LastEntry(s.trace)
    requires SameNesting(s.(stack := s.stack + [callee]), s2, pairs)
    ensures Enabled(s2, Return(caller, callee)) && SameNesting(s, Step(s2, Return(caller, callee)), pairs)
  {
    assert Pop(s2.stack) == s.stack;
    assert Step(s2, Return(caller, callee)).stack == s.stack;
    assert Step(s2, Return(caller, callee)).trace.entryToTbs == s2.trace.entryToTbs;
  }

  /** How a call, its body, its return and what follows compose. */
  lemma RunInvoke(s: Log, caller: U64, callee: U64, body: seq<Event>, rest: seq<Event>)
    requires Enabled(s, Call(true, caller, callee))
    requires Run(Step(s, Call(true, caller, callee)), body)
    requires Enabled(After(Step(s, Call(true, caller, callee)), body), Return(caller, callee))
    requires Run(Step(After(Step(s, Call(true, caller, callee)), body), Return(caller, callee)), rest)
    ensures Run(s, [Call(true, caller, callee)] + (body + ([Return(caller, callee)] + rest)))
    ensures After(s, [Call(true, caller, callee)] + (body + ([Return(caller, callee)] + rest)))
         == After(Step(After(Step(s, Call(true, caller, callee)), body), Return(caller, callee)), rest)
  {
    var call, ret := [Call(true, caller, callee)], [Return(caller, callee)] + rest;
    assert (call + (body + ret))[0] == Call(true, caller, callee) && (call + (body + ret))[1..] == body + ret;
    assert ret[0] == Return(caller, callee) && ret[1..] == rest;
    RunAppend(Step(s, Call(true, caller, callee)), body, ret);
  }

  // ----- follow-ups -----

  ghost predicate ReturnAccepted(s: Log, es: seq<Event>, k: nat)
    requires Run(s, es)
  {
    k < |es| && Run(s, es[..k]) && es[k].Return? && After(s, es[..k]).stack != [] &&
    Accepts(After(s, es[..k]).stack, es[k].begin)
  }

  /** A block executed with an open function, perhaps the one it opens as an entry. */
  ghost predicate BlockNoted(s: Log, es: seq<Event>, k: nat)
    requires Run(s, es)
  {
    k < |es| && Run(s, es[..k]) && es[k].Execute? && After(s, es[..k]).trace.entries != [] &&
    OpenEntry(After(s, es[..k]), es[k].pc).stack != []
  }

  /** The return at i was accepted, and nothing between i and n was accepted or noted. */
  ghost predicate Pending(s: Log, es: seq<Event>, i: nat, n: nat)
    requires Run(s, es)
  {
    && i < n && ReturnAccepted(s, es, i)
    && forall k: nat :: i < k < n ==> !ReturnAccepted(s, es, k) && !BlockNoted(s, es, k)
  }

  ghost predicate SomePending(s: Log, es: seq<Event>, n: nat)
    requires Run(s, es)
  {
    exists i: nat :: Pending(s, es, i, n)
  }

  /** The block at j is the first noted after the accepted return at i. */
  ghost predicate Follows(s: Log, es: seq<Event>, i: nat, j: nat, n: nat, c: nat, p: nat)
    requires Run(s, es)
  {
    j < n && Pending(s, es, i, j) && BlockNoted(s, es, j) && es[i].caller % 0x1_0000_0000 == c != 0 && es[j].pc == p
  }

  ghost predicate FollowUpExists(s: Log, es: seq<Event>, n: nat, c: nat, p: nat)
    requires Run(s, es)
  {
    exists i: nat, j: nat :: Follows(s, es, i, j, n, c, p)
  }

  /** What one event does to the pending caller and the follow-ups. */
  ghost predicate FollowUpEffect(before: Log, after: Log, e: Event, accepted: bool, noted: bool) {
    && (accepted ==> e.Return? && after.callerPc == Low(e.caller))
    && (noted ==> e.Execute? && after.callerPc == 0)
    && (!accepted && !noted ==> after.callerPc == before.callerPc)
    && after.trace.callerToFollowUp == before.trace.callerToFollowUp +
         (if noted && before.callerPc != 0 then {(before.callerPc, e.pc)} else {})
  }

  lemma FollowUpEffectAt(s: Log, es: seq<Event>, k: nat)
    requires Run(s, es) && k < |es| && !es[k].Switch?
    ensures Run(s, es[..k]) && Run(s, es[..k + 1])
    ensures FollowUpEffect(After(s, es[..k]), After(s, es[..k + 1]), es[k], ReturnAccepted(s, es, k),
      BlockNoted(s, es, k))
  {
    RunAt(s, es, k);
  }

  /** Up to n, the pending caller is that of the pending return, and follow-ups are as they should be. */
  ghost predicate FollowUpsRight(s: Log, es: seq<Event>, n: nat, now: Log)
    requires Run(s, es)
  {
    && (now.callerPc != 0 ==> SomePending(s, es, n))
    && (forall i: nat :: Pending(s, es, i, n) ==> now.callerPc == Low(es[i].caller))
    && forall c: nat, p: nat :: (c, p) in now.trace.callerToFollowUp <==>
         (c, p) in s.trace.callerToFollowUp || FollowUpExists(s, es, n, c, p)
  }

  lemma PendingStep(s: Log, es: seq<Event>, n: nat, before: Log, after: Log)
    requires Run(s, es) && n < |es| && FollowUpsRight(s, es, n, before)
    requires FollowUpEffect(before, after, es[n], ReturnAccepted(s, es, n), BlockNoted(s, es, n))
    ensures after.callerPc != 0 ==> SomePending(s, es, n + 1)
    ensures forall i: nat :: Pending(s, es, i, n + 1) ==> after.callerPc == Low(es[i].caller)
  {
    forall i: nat | Pending(s, es, i, n + 1) ensures after.callerPc == Low(es[i].caller) {
      PendingNext(s, es, i, n);
    }
    if after.callerPc != 0 {
      StaysPending(s, es, n, before, after);
    }
  }

  lemma StaysPending(s: Log, es: seq<Event>, n: nat, before: Log, after: Log)
    requires Run(s, es) && n < |es| && FollowUpsRight(s, es, n, before) && after.callerPc != 0
    requires FollowUpEffect(before, after, es[n], ReturnAccepted(s, es, n), BlockNoted(s, es, n))
    ensures SomePending(s, es, n + 1)
  {
    if ReturnAccepted(s, es, n) {
      PendingNext(s, es, n, n);
    } else {
      var i: nat :| Pending(s, es, i, n);
      PendingNext(s, es, i, n);
    }
  }

  /** A return is pending after event n if that event is it, or leaves it pending. */
  ghost predicate StillPending(s: Log, es: seq<Event>, i: nat, n: nat)
    requires Run(s, es)
  {
    if ReturnAccepted(s, es, n) then i == n else Pending(s, es, i, n) && !BlockNoted(s, es, n)
  }

  lemma PendingNext(s: Log, es: seq<Event>, i: nat, n: nat)
    requires Run(s, es) && n < |es|
    ensures Pending(s, es, i, n + 1) <==> StillPending(s, es, i, n)
  {
    if Pending(s, es, i, n + 1) && i < n {
      assert Pending(s, es, i, n);
    }
  }

  lemma FollowUpStep(s: Log, es: seq<Event>, n: nat, before: Log, after: Log, c: nat, p: nat)
    requires Run(s, es) && n < |es| && FollowUpsRight(s, es, n, before)
    requires FollowUpEffect(before, after, es[n], ReturnAccepted(s, es, n), BlockNoted(s, es, n))
    ensures (c, p) in after.trace.callerToFollowUp <==>
      (c, p) in s.trace.callerToFollowUp || FollowUpExists(s, es, n + 1, c, p)
  {
    FollowUpsGrow(s, es, n, c, p);
    if NewFollowUp(s, es, n, c, p) {
      var i: nat :| FollowsNow(s, es, i, n, c, p);
      assert Pending(s, es, i, n) && before.callerPc == c;
    }
    if BlockNoted(s, es, n) && before.callerPc != 0 && (c, p) == (before.callerPc, es[n].pc) {
      var i: nat :| Pending(s, es, i, n);
      assert FollowsNow(s, es, i, n, c, p);
    }
  }

  /** The block at n follows some return. */
  ghost predicate NewFollowUp(s: Log, es: seq<Event>, n: nat, c: nat, p: nat)
    requires Run(s, es)
  {
    exists i: nat :: FollowsNow(s, es, i, n, c, p)
  }

  ghost predicate FollowsNow(s: Log, es: seq<Event>, i: nat, n: nat, c: nat, p: nat)
    requires Run(s, es)
  {
    Follows(s, es, i, n, n + 1, c, p)
  }

  lemma FollowUpsGrow(s: Log, es: seq<Event>, n: nat, c: nat, p: nat)
    requires Run(s, es) && n < |es|
    ensures FollowUpExists(s, es, n + 1, c, p) <==> FollowUpExists(s, es, n, c, p) || NewFollowUp(s, es, n, c, p)
  {
    var next := n + 1;
    forall i: nat, j: nat
      ensures Follows(s, es, i, j, next, c, p) <==>
        Follows(s, es, i, j, n, c, p) || (j == n && FollowsNow(s, es, i, n, c, p))
    {
      FollowsNext(s, es, i, j, n, c, p);
    }
    if i: nat :| FollowsNow(s, es, i, n, c, p) {
      assert Follows(s, es, i, n, next, c, p);
    }
  }

  lemma FollowsNext(s: Log, es: seq<Event>, i: nat, j: nat, n: nat, c: nat, p: nat)
    requires Run(s, es) && n < |es|
    ensures Follows(s, es, i, j, n + 1, c, p) <==>
      Follows(s, es, i, j, n, c, p) || (j == n && FollowsNow(s, es, i, n, c, p))
  {
  }

  lemma {:induction false} FollowUpsUpTo(s: Log, es: seq<Event>, n: nat)
    requires Run(s, es) && n <= |es| && s.callerPc == 0
    requires forall k :: 0 <= k < |es| ==> !es[k].Switch?
    ensures Run(s, es[..n]) && FollowUpsRight(s, es, n, After(s, es[..n]))
  {
    RunAt(s, es, n);
    if n > 0 {
      FollowUpsUpTo(s, es, n - 1);
      FollowUpEffectAt(s, es, n - 1);
      var before, after := After(s, es[..n - 1]), After(s, es[..n]);
      PendingStep(s, es, n - 1, before, after);
      forall c: nat, p: nat
        ensures (c, p) in after.trace.callerToFollowUp <==>
          (c, p) in s.trace.callerToFollowUp || FollowUpExists(s, es, n, c, p)
      {
        FollowUpStep(s, es, n - 1, before, after, c, p);
      }
    }
  }

  /** A follow-up is recorded exactly for the first block noted after an accepted return with a caller. */
  lemma FollowUps(s: Log, es: seq<Event>)
    requires Run(s, es) && s.callerPc == 0
    requires forall k :: 0 <= k < |es| ==> !es[k].Switch?
    ensures forall c: nat, p: nat :: (c, p) in After(s, es).trace.callerToFollowUp <==>
      (c, p) in s.trace.callerToFollowUp || FollowUpExists(s, es, |es|, c, p)
  {
    FollowUpsUpTo(s, es, |es|);
    assert es[..|es|] == es;
  }

  // ----- snapshots -----

  predicate Forks(e: Event, state: int) {
    e.Fork? && state in e.states
  }

  predicate Erases(e: Event, state: int) {
    e.Switch? && (state == e.from || state == e.to)
  }

  ghost predicate ErasedBetween(es: seq<Event>, i: nat, n: nat, state: int) {
    exists k :: i < k < n && k < |es| && Erases(es[k], state)
  }

  /** i is the earliest fork that listed the state since its snapshot was last erased, before n. */
  ghost predicate SavedAt(es: seq<Event>, i: nat, n: nat, state: int) {
    && i < n <= |es| && Forks(es[i], state) && !ErasedBetween(es, i, n, state)
    && forall j: nat :: j < i && Forks(es[j], state) ==> ErasedBetween(es, j, i, state)
  }

  ghost predicate Saved(es: seq<Event>, n: nat, state: int) {
    exists i: nat :: SavedAt(es, i, n, state)
  }

  ghost predicate SameKeys(s: Snapshots) {
    s.traces.Keys == s.stacks.Keys == s.blocks.Keys == s.callers.Keys
  }

  ghost predicate Holds(saved: Snapshots, state: int, s: Log) {
    && state in saved.traces && state in saved.stacks && state in saved.blocks && state in saved.callers
    && saved.traces[state] == s.trace && saved.stacks[state] == s.stack
    && saved.blocks[state] == s.lastBlock && saved.callers[state] == s.callerPc
  }

  /** A state has a snapshot exactly if some fork saved it, and it shows the log before that fork. */
  ghost predicate SnapshotRight(s: Log, es: seq<Event>, n: nat, x: int)
    requires Run(s, es) && n <= |es| && Run(s, es[..n])
  {
    && (x in After(s, es[..n]).saved.traces <==> Saved(es, n, x))
    && forall i: nat :: SavedAt(es, i, n, x) ==>
         Run(s, es[..i]) && Holds(After(s, es[..n]).saved, x, After(s, es[..i]))
  }

  lemma {:induction false} EarliestFork(es: seq<Event>, j: nat, n: nat, state: int) returns (i: nat)
    requires j < n <= |es| && Forks(es[j], state) && !ErasedBetween(es, j, n, state)
    ensures SavedAt(es, i, n, state)
    decreases j
  {
    if j': nat :| j' < j && Forks(es[j'], state) && !ErasedBetween(es, j', j, state) {
      assert !ErasedBetween(es, j', n, state) by {
        forall k | j' < k < n && k < |es| ensures !Erases(es[k], state) {
          if k == j { assert es[k].Fork?; }
        }
      }
      i := EarliestFork(es, j', n, state);
    } else {
      i := j;
    }
  }

  lemma {:induction false} SnapshotsUpTo(s: Log, es: seq<Event>, n: nat)
    requires Run(s, es) && n <= |es| && s.saved == Snapshots(map[], map[], map[], map[])
    ensures Run(s, es[..n]) && SameKeys(After(s, es[..n]).saved)
    ensures forall x :: SnapshotRight(s, es, n, x)
  {
    RunAt(s, es, n);
    if n > 0 {
      RunAt(s, es, n - 1);
      SnapshotsUpTo(s, es, n - 1);
      StepKeys(After(s, es[..n - 1]), es[n - 1]);
      forall x ensures SnapshotRight(s, es, n, x) {
        assert SnapshotRight(s, es, n - 1, x);
        SnapshotStep(s, es, n, x);
      }
    } else {
      forall x ensures SnapshotRight(s, es, n, x) {}
    }
  }

  lemma StepKeys(s: Log, e: Event)
    requires Enabled(s, e) && SameKeys(s.saved)
    ensures SameKeys(Step(s, e).saved)
  {
    match e
    case Execute(pc) => assert Step(s, e).saved == s.saved;
    case Call(_, _, _) =>
    case Return(_, _) =>
    case Fork(_) =>
    case Switch(_, _) =>
  }

  /** Between forks and erasures of a state, nothing about its snapshot changes. */
  lemma SavedAtStep(es: seq<Event>, n: nat, x: int)
    requires 0 < n <= |es|
    ensures Erases(es[n - 1], x) ==> !Saved(es, n, x)
    ensures !Erases(es[n - 1], x) ==>
      forall i: nat :: i < n - 1 ==> (SavedAt(es, i, n, x) <==> SavedAt(es, i, n - 1, x))
    ensures SavedAt(es, n - 1, n, x) <==> Forks(es[n - 1], x) && !Saved(es, n - 1, x)
  {
    forall i: nat | i < n - 1
      ensures ErasedBetween(es, i, n, x) <==> ErasedBetween(es, i, n - 1, x) || Erases(es[n - 1], x)
    {
      if ErasedBetween(es, i, n - 1, x) {
        var k :| i < k < n - 1 && k < |es| && Erases(es[k], x);
        assert k < n;
      }
    }
    if Forks(es[n - 1], x) && !Saved(es, n - 1, x) {
      forall j: nat | j < n - 1 && Forks(es[j], x) ensures ErasedBetween(es, j, n - 1, x) {
        if !ErasedBetween(es, j, n - 1, x) {
          var i := EarliestFork(es, j, n - 1, x);
        }
      }
    }
  }

  lemma SnapshotStep(s: Log, es: seq<Event>, n: nat, x: int)
    requires Run(s, es) && 0 < n <= |es| && Run(s, es[..n]) && Run(s, es[..n - 1])
    requires Enabled(After(s, es[..n - 1]), es[n - 1])
    requires After(s, es[..n]) == Step(After(s, es[..n - 1]), es[n - 1])
    requires SameKeys(After(s, es[..n - 1]).saved) && SnapshotRight(s, es, n - 1, x)
    ensures SnapshotRight(s, es, n, x)
  {
    var before, after := After(s, es[..n - 1]), After(s, es[..n]);
    SavedAtStep(es, n, x);
    if Forks(es[n - 1], x) && !Saved(es, n - 1, x) {
      assert Holds(after.saved, x, before) && SavedAt(es, n - 1, n, x);
    } else if Erases(es[n - 1], x) {
      assert x !in after.saved.traces;
    } else {
      SnapshotKept(before, es[n - 1], x);
      if Saved(es, n - 1, x) {
        var i: nat :| SavedAt(es, i, n - 1, x);
        assert SavedAt(es, i, n, x);
      }
    }
  }

  /** An event that neither saves nor erases a state leaves its snapshot alone. */
  lemma SnapshotKept(s: Log, e: Event, x: int)
    requires Enabled(s, e) && SameKeys(s.saved) && !Erases(e, x) && (Forks(e, x) ==> x in s.saved.traces)
    ensures x in Step(s, e).saved.traces <==> x in s.saved.traces
    ensures forall was :: Holds(s.saved, x, was) ==> Holds(Step(s, e).saved, x, was)
  {
    if e.Execute? {
      assert Step(s, e).saved == s.saved;
    }
  }

  /** A switch restores everything as it was at the earliest fork since the state's last erasure. */
  lemma SwitchRestores(s: Log, es: seq<Event>, n: nat) returns (i: nat)
    requires Run(s, es) && n < |es| && es[n].Switch? && s.saved == Snapshots(map[], map[], map[], map[])
    ensures SavedAt(es, i, n, es[n].to) && Run(s, es[..i]) && Run(s, es[..n + 1])
    ensures var was, now := After(s, es[..i]), After(s, es[..n + 1]);
      now.trace == was.trace && now.stack == was.stack && now.lastBlock == was.lastBlock && now.callerPc == was.callerPc
  {
    RunAt(s, es, n);
    SnapshotsUpTo(s, es, n);
    assert SnapshotRight(s, es, n, es[n].to);
    i :| SavedAt(es, i, n, es[n].to);
  }

  // ----- the files -----

  predicate Leaves(e: Event, file: int) {
    e.Switch? && FileOf(e.from) == file
  }

  /** Event i is the last before n that left a state with this file. */
  ghost predicate LastLeft(es: seq<Event>, i: nat, n: nat, file: int) {
    i < n <= |es| && Leaves(es[i], file) && forall j: nat :: i < j < n ==> !Leaves(es[j], file)
  }

  /** A file holds the trace as it was just before the last switch away from its state, if there was one. */
  ghost predicate FileRight(s: Log, es: seq<Event>, n: nat, file: int)
    requires Run(s, es) && n <= |es| && Run(s, es[..n])
  {
    var files := After(s, es[..n]).files;
    && (forall i: nat :: LastLeft(es, i, n, file) ==> FileFrom(s, es, i, files, file))
    && ((forall i: nat :: i < n ==> !Leaves(es[i], file)) ==>
          (file in files <==> file in s.files) && (file in s.files ==> files[file] == s.files[file]))
  }

  ghost predicate FileFrom(s: Log, es: seq<Event>, i: nat, files: map<int, Trace>, file: int) {
    i <= |es| && Run(s, es[..i]) && file in files && files[file] == After(s, es[..i]).trace
  }

  lemma StepFiles(s: Log, e: Event, file: int)
    requires Enabled(s, e)
    ensures Leaves(e, file) ==> file in Step(s, e).files && Step(s, e).files[file] == s.trace
    ensures !Leaves(e, file) ==> (file in Step(s, e).files <==> file in s.files)
    ensures !Leaves(e, file) && file in s.files ==> Step(s, e).files[file] == s.files[file]
  {
    if !e.Switch? {
      assert Step(s, e).files == s.files;
    }
  }

  lemma FileNext(s: Log, es: seq<Event>, n: nat, file: int, before: Log, after: Log)
    requires Run(s, es) && 0 < n <= |es| && Run(s, es[..n]) && Run(s, es[..n - 1])
    requires before == After(s, es[..n - 1]) && after == After(s, es[..n]) && FileRight(s, es, n - 1, file)
    requires Enabled(before, es[n - 1]) && after == Step(before, es[n - 1])
    ensures FileRight(s, es, n, file)
  {
    StepFiles(before, es[n - 1], file);
    forall i: nat | LastLeft(es, i, n, file) ensures FileFrom(s, es, i, after.files, file) {
      if i < n - 1 {
        assert LastLeft(es, i, n - 1, file) && !Leaves(es[n - 1], file);
      }
    }
  }

  lemma {:induction false} FilesUpTo(s: Log, es: seq<Event>, n: nat, file: int)
    requires Run(s, es) && n <= |es|
    ensures Run(s, es[..n]) && FileRight(s, es, n, file)
  {
    RunAt(s, es, n);
    if n > 0 {
      RunAt(s, es, n - 1);
      FilesUpTo(s, es, n - 1, file);
      FileNext(s, es, n, file, After(s, es[..n - 1]), After(s, es[..n]));
    } else {
      assert es[..0] == [];
    }
  }
}
