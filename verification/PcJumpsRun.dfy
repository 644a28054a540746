/** The switches visit the blocks the dispatcher would look up by PC. */
module PcJumpsRun {
  import opened Options
  import opened PcJumps

  datatype Place =
    | At(block: BlockId)
    | AtError
    | NotFound     // the dispatcher has no block for PC
    | Returned     // to the caller
    | OriginalText // the lifted code was left for the original code at PC
    | Stuck

  datatype Config = Config(place: Place, state: State)

  // The new function also has prevPC, which the old one does not know.
  datatype NewConfig = NewConfig(place: Place, state: State, prevPc: nat)

  // ----- the dispatcher -----

  ghost predicate Names(f: Function, pc: nat, b: BlockId) {
    b < |f.blocks| && f.blocks[b].recovered && f.blocks[b].addr == pc
  }

  ghost function Lookup(f: Function, pc: nat): Place {
    if b: BlockId :| Names(f, pc, b) then At(b) else NotFound
  }

  /**
   A returning block goes on through the dispatcher if its recovered block was never seen to return
   and has successors, all in this function; otherwise it returns to the caller.
   */
  ghost predicate GoesOn(f: Function, b: BlockId)
    requires FunctionOk(f) && b < |f.blocks|
  {
    f.blocks[b].term.Return? && exists m: BlockId :: m < |f.blocks| && PartOfJump(f, b, m)
  }

  lemma GoesOnDispatches(f: Function, b: BlockId)
    requires FunctionOk(f) && b < |f.blocks|
    ensures GoesOn(f, b) <==> Dispatches(f, b)
  {
    assert BlockOk(f, b);
    if Dispatches(f, b) {
      var m := f.masters[b].value;
      forall k | 0 <= k < |f.blocks[m].succs| ensures f.blocks[m].succs[k].Here? {
        assert f.blocks[m].succs[k] in f.blocks[m].succs;
      }
      assert PartOfJump(f, b, m);
    }
  }

  /** One block of the old function: returning blocks that go on do so at the block PC names. */
  ghost function Step(f: Function, c: Config): Config
    requires FunctionOk(f)
  {
    if !c.place.At? || c.place.block >= |f.blocks| then c
    else
      var b := c.place.block;
      var s := f.blocks[b].effect(c.state);
      match f.blocks[b].term
      case Branch(next) => Config(At(next(s)), s)
      case Unreachable => Config(Stuck, s)
      case PcSwitch(_, _) => Config(Stuck, s)
      case Return => Config(if GoesOn(f, b) then Lookup(f, s.pc) else Returned, s)
  }

  // ----- the switches -----

  ghost predicate CaseFor(cases: seq<(nat, BlockId)>, pc: nat, b: BlockId) {
    (pc, b) in cases
  }

  ghost function Choose(cases: seq<(nat, BlockId)>, pc: nat, default: Place): Place {
    if b: BlockId :| CaseFor(cases, pc, b) then At(b) else default
  }

  /** The block a number stands for: an old one, the error block, or the jump table, which is run at once. */
  ghost function BlockAt(f: Function, id: BlockId, pc: nat): Place {
    if id < |f.blocks| then At(id) else if id == |f.blocks| then AtError else Choose(TableFrom(f, 0), pc, AtError)
  }

  ghost function StepNew(f: Function, mode: Fallback, c: NewConfig): NewConfig
    requires FunctionOk(f)
  {
    match c.place
    case At(b) => if b < |f.blocks| then StepBlock(f, mode, b, c.state, c.prevPc) else c
    case AtError => StepError(f, mode, c.state, c.prevPc)
    case _ => c
  }

  ghost function StepBlock(f: Function, mode: Fallback, b: BlockId, state: State, prevPc: nat): NewConfig
    requires FunctionOk(f) && b < |f.blocks|
  {
    var s := f.blocks[b].effect(state);
    var p := if StoresPrevPc(f, mode, b) then f.blocks[b].addr else prevPc;
    match NewTerm(f, b, DefaultBlock(f, mode))
    case Branch(next) => NewConfig(At(next(s)), s, p)
    case Unreachable => NewConfig(Stuck, s, p)
    case PcSwitch(cases, default) => NewConfig(Choose(cases, s.pc, BlockAt(f, default, s.pc)), s, p)
    case Return => NewConfig(Returned, s, p)
  }

  /** The error block is a block like any other; its own switch defaults to itself. */
  ghost function StepError(f: Function, mode: Fallback, state: State, prevPc: nat): NewConfig
    requires FunctionOk(f)
  {
    var s := ErrorEffect(mode, state);
    match NewErrorTerm(f, mode)
    case Return => NewConfig(Returned, s, prevPc)
    case PcSwitch(cases, default) => NewConfig(Choose(cases, s.pc, BlockAt(f, default, s.pc)), s, prevPc)
    case _ => NewConfig(if mode.BASIC? || mode.EXTENDED? then OriginalText else Stuck, s, prevPc)
  }

  ghost function Run(f: Function, c: Config, n: nat): Config
    requires FunctionOk(f)
  {
    if n == 0 then c else Step(f, Run(f, c, n - 1))
  }

  ghost function RunNew(f: Function, mode: Fallback, c: NewConfig, n: nat): NewConfig
    requires FunctionOk(f)
  {
    if n == 0 then c else StepNew(f, mode, RunNew(f, mode, c, n - 1))
  }

  // ----- cases -----

  ghost predicate Listed(f: Function, succs: seq<Succ>, pc: nat, b: BlockId) {
    Here(b) in succs && Names(f, pc, b)
  }

  lemma {:induction false} CasesHave(f: Function, succs: seq<Succ>, pc: nat, b: BlockId)
    requires forall k :: 0 <= k < |succs| && succs[k].Here? ==>
      succs[k].id < |f.blocks| && f.blocks[succs[k].id].recovered
    ensures CaseFor(Cases(f, succs), pc, b) <==> Listed(f, succs, pc, b)
  {
    if succs != [] {
      CasesHave(f, succs[1..], pc, b);
      assert succs == [succs[0]] + succs[1..];
    }
  }

  /** Not the entry, and with a name of no more than BB_ and eight digits. */
  ghost predicate Eligible(f: Function, b: BlockId) {
    0 < b < |f.blocks| && f.blocks[b].nameLength <= |"BB_"| + 8
  }

  lemma {:induction false} TableHas(f: Function, from: BlockId, pc: nat, b: BlockId)
    ensures CaseFor(TableFrom(f, from), pc, b) <==>
      from <= b && Names(f, pc, b) && Eligible(f, b)
    decreases |f.blocks| - from
  {
    if from < |f.blocks| {
      TableHas(f, from + 1, pc, b);
    }
  }

  /** The values of a switch's cases differ, whatever successors are listed. */
  lemma {:induction false} CasesDistinct(f: Function, succs: seq<Succ>)
    requires FunctionOk(f)
    requires forall k :: 0 <= k < |succs| && succs[k].Here? ==>
      succs[k].id < |f.blocks| && f.blocks[succs[k].id].recovered
    requires forall j, k :: 0 <= j < k < |succs| && succs[j].Here? ==> succs[j] != succs[k]
    ensures forall i, j :: 0 <= i < j < |Cases(f, succs)| ==> Cases(f, succs)[i].0 != Cases(f, succs)[j].0
  {
    if succs != [] {
      CasesDistinct(f, succs[1..]);
      var rest := Cases(f, succs[1..]);
      if succs[0].Here? {
        var pc, b := f.blocks[succs[0].id].addr, succs[0].id;
        forall j | 0 <= j < |rest| ensures rest[j].0 != pc {
          CasesHave(f, succs[1..], rest[j].0, rest[j].1);
          assert CaseFor(rest, rest[j].0, rest[j].1);
        }
      }
    }
  }

  // ----- refinement -----

  ghost predicate SomeTarget(f: Function, mode: Fallback, b: BlockId, pc: nat)
    requires FunctionOk(f) && b < |f.blocks|
  {
    exists t: BlockId :: Names(f, pc, t) && (Follows(f, b, t) || (mode.EXTENDED? && Eligible(f, t)))
  }

  /** t is listed as a successor of the recovered block that b is part of. */
  ghost predicate Follows(f: Function, b: BlockId, t: BlockId)
    requires FunctionOk(f) && b < |f.blocks|
  {
    f.masters[b].Some? && f.masters[b].value < |f.blocks| && Here(t) in f.blocks[f.masters[b].value].succs
  }

  /** Each step either finds the block the dispatcher finds, or there is no listed or eligible one. */
  lemma StepRefines(f: Function, mode: Fallback, b: BlockId, state: State, prevPc: nat)
    requires FunctionOk(f) && b < |f.blocks|
    ensures var s, d := f.blocks[b].effect(state), StepBlock(f, mode, b, state, prevPc);
      && (d.place.AtError? <==> GoesOn(f, b) && !SomeTarget(f, mode, b, s.pc))
      && (!d.place.AtError? ==> Config(d.place, d.state) == Step(f, Config(At(b), state)))
  {
    var s := f.blocks[b].effect(state);
    assert BlockOk(f, b);
    GoesOnDispatches(f, b);
    if Dispatches(f, b) {
      ChoiceRefines(f, mode, b, s.pc);
    }
  }

  lemma ChoiceRefines(f: Function, mode: Fallback, b: BlockId, pc: nat)
    requires FunctionOk(f) && b < |f.blocks| && Dispatches(f, b)
    ensures var place :=
        Choose(Cases(f, f.blocks[f.masters[b].value].succs), pc, BlockAt(f, DefaultBlock(f, mode), pc));
      && (place.AtError? <==> !SomeTarget(f, mode, b, pc))
      && (!place.AtError? ==> place == Lookup(f, pc))
  {
    assert BlockOk(f, b) && BlockOk(f, f.masters[b].value);
    var succs := f.blocks[f.masters[b].value].succs;
    forall t: BlockId ensures CaseFor(Cases(f, succs), pc, t) <==> Listed(f, succs, pc, t) {
      CasesHave(f, succs, pc, t);
    }
    forall t: BlockId ensures CaseFor(TableFrom(f, 0), pc, t) <==> Names(f, pc, t) && Eligible(f, t) {
      TableHas(f, 0, pc, t);
    }
    if t: BlockId :| CaseFor(Cases(f, succs), pc, t) {
      assert Listed(f, succs, pc, t) && SomeTarget(f, mode, b, pc);
    } else if t: BlockId :| mode.EXTENDED? && CaseFor(TableFrom(f, 0), pc, t) {
      assert Names(f, pc, t) && SomeTarget(f, mode, b, pc);
    } else {
      forall t: BlockId | Names(f, pc, t) ensures !(Follows(f, b, t) || (mode.EXTENDED? && Eligible(f, t))) {
        assert !CaseFor(Cases(f, succs), pc, t);
      }
    }
  }

  /** Where the error block's own switch leads. */
  lemma ErrorChoice(f: Function, mode: Fallback, pc: nat)
    requires FunctionOk(f) && ErrorRewritten(f, mode)
    ensures NewErrorTerm(f, mode) == PcSwitch(Cases(f, ErrorSuccs(f)), PcJumps.ErrorBlock(f))
    ensures forall t: BlockId :: Listed(f, ErrorSuccs(f), pc, t) ==>
      Choose(Cases(f, ErrorSuccs(f)), pc, AtError) == At(t)
    ensures (forall t: BlockId :: !Listed(f, ErrorSuccs(f), pc, t)) ==>
      Choose(Cases(f, ErrorSuccs(f)), pc, AtError) == AtError
  {
    SwitchedDispatches(f, |f.blocks|);
    var last := LastSwitched(f, |f.blocks|).value;
    assert BlockOk(f, last) && BlockOk(f, f.masters[last].value);
    var succs := f.blocks[f.masters[last].value].succs;
    forall t: BlockId ensures CaseFor(Cases(f, succs), pc, t) <==> Listed(f, succs, pc, t) {
      CasesHave(f, succs, pc, t);
    }
  }

  /** The successors the error block sees: those of the master of the last block given a switch. */
  ghost function ErrorSuccs(f: Function): seq<Succ>
    requires FunctionOk(f)
  {
    var last := LastSwitched(f, |f.blocks|);
    if last.Some? && last.value < |f.blocks| && f.masters[last.value].Some? && f.masters[last.value].value < |f.blocks|
    then f.blocks[f.masters[last.value].value].succs else []
  }

  lemma StepInside(f: Function, mode: Fallback, c: NewConfig)
    requires FunctionOk(f) && (c.place.At? ==> c.place.block < |f.blocks|)
    ensures StepNew(f, mode, c).place.At? ==> StepNew(f, mode, c).place.block < |f.blocks|
  {
    if c.place.At? {
      var b := c.place.block;
      assert BlockOk(f, b);
      StepRefines(f, mode, b, c.state, c.prevPc);
    } else if c.place.AtError? && ErrorRewritten(f, mode) {
      var pc := ErrorEffect(mode, c.state).pc;
      ErrorChoice(f, mode, pc);
      if t: BlockId :| Listed(f, ErrorSuccs(f), pc, t) {
        assert StepNew(f, mode, c).place == At(t);
      }
    }
  }

  lemma {:induction false} StaysInside(f: Function, mode: Fallback, c: NewConfig, n: nat)
    requires FunctionOk(f) && (c.place.At? ==> c.place.block < |f.blocks|)
    ensures RunNew(f, mode, c, n).place.At? ==> RunNew(f, mode, c, n).place.block < |f.blocks|
  {
    if n > 0 {
      StaysInside(f, mode, c, n - 1);
      StepInside(f, mode, RunNew(f, mode, c, n - 1));
    }
  }

  /** The run has not been at the error block up to step n. */
  ghost predicate NeverAtError(f: Function, mode: Fallback, c: NewConfig, n: nat)
    requires FunctionOk(f)
  {
    forall k: nat :: k <= n ==> !RunNew(f, mode, c, k).place.AtError?
  }

  /** Until it enters the error block, the new function visits the same blocks in the same states. */
  lemma {:induction false} Refines(f: Function, mode: Fallback, c: NewConfig, n: nat)
    requires FunctionOk(f) && (c.place.At? ==> c.place.block < |f.blocks|) && NeverAtError(f, mode, c, n)
    ensures Config(RunNew(f, mode, c, n).place, RunNew(f, mode, c, n).state) == Run(f, Config(c.place, c.state), n)
  {
    if n > 0 {
      assert NeverAtError(f, mode, c, n - 1);
      Refines(f, mode, c, n - 1);
      StaysInside(f, mode, c, n - 1);
      var d := RunNew(f, mode, c, n - 1);
      assert !d.place.AtError? && !RunNew(f, mode, c, n).place.AtError?;
      if d.place.At? {
        StepRefines(f, mode, d.place.block, d.state, d.prevPc);
      }
    }
  }

  /** From a block the error block is entered exactly at a dispatch whose PC names no listed or eligible block. */
  lemma ErrorExactly(f: Function, mode: Fallback, c: NewConfig, n: nat)
    requires FunctionOk(f) && (c.place.At? ==> c.place.block < |f.blocks|)
    requires !RunNew(f, mode, c, n).place.AtError?
    ensures RunNew(f, mode, c, n + 1).place.AtError? <==>
      var d := RunNew(f, mode, c, n);
      d.place.At? && d.place.block < |f.blocks| && GoesOn(f, d.place.block) &&
      !SomeTarget(f, mode, d.place.block, f.blocks[d.place.block].effect(d.state).pc)
  {
    StaysInside(f, mode, c, n);
    var d := RunNew(f, mode, c, n);
    if d.place.At? {
      StepRefines(f, mode, d.place.block, d.state, d.prevPc);
    }
  }

  // ----- what the error block does -----

  /** In the error modes a run at the error block returns -1, exactly if the error block was not rewritten. */
  lemma ErrorReturns(f: Function, mode: Fallback, c: NewConfig, n: nat)
    requires FunctionOk(f) && (mode.ERROR? || mode.ERROR1?) && RunNew(f, mode, c, n).place.AtError?
    ensures RunNew(f, mode, c, n + 1).state == RunNew(f, mode, c, n).state.(eax := -1)
    ensures RunNew(f, mode, c, n + 1).place.Returned? <==> !ErrorRewritten(f, mode)
  {
    if ErrorRewritten(f, mode) {
      ErrorChoice(f, mode, RunNew(f, mode, c, n).state.pc);
    }
  }

  /** In the other modes it goes on in the original code at PC, or nowhere, without any change. */
  lemma ErrorLeaves(f: Function, mode: Fallback, c: NewConfig, n: nat)
    requires FunctionOk(f) && !mode.ERROR? && !mode.ERROR1? && RunNew(f, mode, c, n).place.AtError?
    ensures RunNew(f, mode, c, n + 1) ==
      RunNew(f, mode, c, n).(place := if mode.BASIC? || mode.EXTENDED? then OriginalText else Stuck)
  {
    assert !ErrorRewritten(f, mode);
  }

  /** A rewritten error block goes on at the successor PC names, with -1 in R_EAX, as if nothing had happened. */
  lemma ErrorResumes(f: Function, mode: Fallback, c: NewConfig, n: nat, t: BlockId)
    requires FunctionOk(f) && ErrorRewritten(f, mode) && RunNew(f, mode, c, n).place.AtError?
    requires Listed(f, ErrorSuccs(f), RunNew(f, mode, c, n).state.pc, t)
    ensures var d := RunNew(f, mode, c, n);
      RunNew(f, mode, c, n + 1) == NewConfig(At(t), d.state.(eax := -1), d.prevPc)
  {
    ErrorChoice(f, mode, RunNew(f, mode, c, n).state.pc);
  }

  /** When PC names none, it stays there for ever. */
  lemma {:induction false} ErrorStays(f: Function, mode: Fallback, c: NewConfig, n: nat, k: nat)
    requires FunctionOk(f) && ErrorRewritten(f, mode) && RunNew(f, mode, c, n).place.AtError?
    requires forall t: BlockId :: !Listed(f, ErrorSuccs(f), RunNew(f, mode, c, n).state.pc, t)
    ensures var d := RunNew(f, mode, c, n);
      RunNew(f, mode, c, n + k) == if k == 0 then d else NewConfig(AtError, d.state.(eax := -1), d.prevPc)
    decreases k
  {
    if k > 0 {
      ErrorStays(f, mode, c, n, k - 1);
      ErrorChoice(f, mode, RunNew(f, mode, c, n).state.pc);
    }
  }

  /** The parts of a recovered block branch only to parts of the same block. */
  ghost predicate PartsOk(f: Function)
    requires FunctionOk(f)
  {
    forall b: BlockId, s :: b < |f.blocks| && f.blocks[b].term.Branch? ==>
      var next := f.blocks[b].term.next(s);
      next < |f.blocks| && f.masters[b].Some? && f.masters[next] == f.masters[b]
  }

  /** A part that is not the start of its recovered block runs with prevPC naming it. */
  ghost predicate PrevPcRight(f: Function, c: NewConfig)
    requires FunctionOk(f)
  {
    c.place.At? && c.place.block < |f.blocks| && !f.blocks[c.place.block].recovered ==>
      var m := f.masters[c.place.block];
      m.Some? && m.value < |f.blocks| && c.prevPc == f.blocks[m.value].addr
  }

  lemma PrevPcStep(f: Function, c: NewConfig)
    requires FunctionOk(f) && PartsOk(f) && PrevPcRight(f, c) && (c.place.At? ==> c.place.block < |f.blocks|)
    ensures PrevPcRight(f, StepNew(f, ERROR1, c))
  {
    var d := StepNew(f, ERROR1, c);
    if c.place.At? {
      var b := c.place.block;
      assert BlockOk(f, b);
      StepRefines(f, ERROR1, b, c.state, c.prevPc);
    } else if c.place.AtError? && ErrorRewritten(f, ERROR1) {
      var pc := ErrorEffect(ERROR1, c.state).pc;
      ErrorChoice(f, ERROR1, pc);
      if t: BlockId :| Listed(f, ErrorSuccs(f), pc, t) {
        assert d.place == At(t);
      }
    }
  }

  lemma {:induction false} PrevPcRun(f: Function, c: NewConfig, n: nat)
    requires FunctionOk(f) && PartsOk(f) && c.place.At? && c.place.block < |f.blocks| &&
      f.blocks[c.place.block].recovered
    ensures PrevPcRight(f, RunNew(f, ERROR1, c, n))
  {
    if n > 0 {
      PrevPcRun(f, c, n - 1);
      StaysInside(f, ERROR1, c, n - 1);
      PrevPcStep(f, RunNew(f, ERROR1, c, n - 1));
    }
  }

  /** In ERROR1 mode, when the error block is entered prevPC names the recovered block that led there. */
  lemma PrevPcNamesBlock(f: Function, c: NewConfig, n: nat)
    requires FunctionOk(f) && PartsOk(f) && c.place.At? && c.place.block < |f.blocks| &&
      f.blocks[c.place.block].recovered
    requires !RunNew(f, ERROR1, c, n).place.AtError? && RunNew(f, ERROR1, c, n + 1).place.AtError?
    ensures var d := RunNew(f, ERROR1, c, n);
      && d.place.At? && d.place.block < |f.blocks| && GoesOn(f, d.place.block) && f.masters[d.place.block].Some?
      && RunNew(f, ERROR1, c, n + 1).prevPc == f.blocks[f.masters[d.place.block].value].addr
  {
    PrevPcRun(f, c, n);
    ErrorExactly(f, ERROR1, c, n);
    var b := RunNew(f, ERROR1, c, n).place.block;
    assert BlockOk(f, b);
    GoesOnDispatches(f, b);
  }

  /** In the other modes nothing is ever recorded in prevPC. */
  lemma {:induction false} PrevPcUnused(f: Function, mode: Fallback, c: NewConfig, n: nat)
    requires FunctionOk(f) && !mode.ERROR1?
    ensures RunNew(f, mode, c, n).prevPc == c.prevPc
  {
    if n > 0 {
      PrevPcUnused(f, mode, c, n - 1);
    }
  }

  /**
   The error block ends the program as it was made to unless the mode makes it return and the last
   block given a switch is only a part of its recovered block.
   */
  lemma ErrorBlockKept(f: Function, mode: Fallback)
    requires FunctionOk(f)
    ensures NewErrorTerm(f, mode) == ErrorTerm(mode) <==> !ErrorRewritten(f, mode)
  {
    SwitchedDispatches(f, |f.blocks|);
    var last := LastSwitched(f, |f.blocks|);
    if last.Some? {
      assert BlockOk(f, last.value);
    }
  }

  // ----- a function whose error block does not report the error -----

  /** Two recovered blocks of two parts each, with one successor each. */
  function TwoByTwo(): Function {
    Function(
      [Block(true, 0x10, 5, (s: State) => s, Branch((s: State) => 1), [Here(4)]),
       Block(false, 0, 0, (s: State) => s, Return, []),
       Block(true, 0x20, 5, (s: State) => s, Branch((s: State) => 3), [Here(5)]),
       Block(false, 0, 0, (s: State) => s, Return, []),
       Block(true, 0x40, 5, (s: State) => s, Return, []),
       Block(true, 0x50, 5, (s: State) => s, Return, [])],
      [Some(0), Some(0), Some(2), Some(2), Some(4), Some(5)], {})
  }

  lemma TwoByTwoRewritten()
    ensures FunctionOk(TwoByTwo()) && ErrorRewritten(TwoByTwo(), ERROR) && ErrorSuccs(TwoByTwo()) == [Here(5)]
    ensures forall mode, s, p ::
      StepBlock(TwoByTwo(), mode, 0, s, p).place == At(1) && StepBlock(TwoByTwo(), mode, 0, s, p).state == s
  {
    var f := TwoByTwo();
    assert forall b: BlockId :: b < 6 ==> BlockOk(f, b);
    assert !Dispatches(f, 5) && !Dispatches(f, 4) && Dispatches(f, 3);
    assert LastSwitched(f, 6) == LastSwitched(f, 5) == LastSwitched(f, 4) == Some(3);
  }

  /** Its first block, left for an address that is no successor of its own, enters the error block. */
  lemma EntersError(s: State, prevPc: nat)
    requires s.pc != 0x40
    ensures FunctionOk(TwoByTwo())
    ensures RunNew(TwoByTwo(), ERROR, NewConfig(At(0), s, prevPc), 2) == NewConfig(AtError, s, prevPc)
  {
    TwoByTwoRewritten();
    var f, c := TwoByTwo(), NewConfig(At(0), s, prevPc);
    assert RunNew(f, ERROR, c, 1) == NewConfig(At(1), s, prevPc);
    assert Dispatches(f, 1);
    StepRefines(f, ERROR, 1, s, prevPc);
    forall t: BlockId | Names(f, s.pc, t) ensures Here(t) !in f.blocks[0].succs {
      assert t != 4;
    }
    assert !SomeTarget(f, ERROR, 1, s.pc);
  }

  /** Left for the other block's successor it goes on there, with -1 in R_EAX. */
  lemma ErrorBlockResumes(s: State, prevPc: nat)
    requires s.pc == 0x50
    ensures FunctionOk(TwoByTwo())
    ensures RunNew(TwoByTwo(), ERROR, NewConfig(At(0), s, prevPc), 3) == NewConfig(At(5), s.(eax := -1), prevPc)
  {
    EntersError(s, prevPc);
    TwoByTwoRewritten();
    assert Listed(TwoByTwo(), ErrorSuccs(TwoByTwo()), 0x50, 5);
    ErrorResumes(TwoByTwo(), ERROR, NewConfig(At(0), s, prevPc), 2, 5);
  }

  lemma OnlyOneListed(pc: nat)
    requires pc != 0x50
    ensures forall t: BlockId :: !Listed(TwoByTwo(), [Here(5)], pc, t)
  {
    forall t: BlockId ensures !Listed(TwoByTwo(), [Here(5)], pc, t) {
      assert Here(t) in [Here(5)] ==> t == 5;
    }
  }

  /** Left for any other address it never leaves the error block. */
  lemma ErrorBlockLoops(s: State, prevPc: nat, n: nat)
    requires s.pc != 0x40 && s.pc != 0x50 && n >= 2
    ensures FunctionOk(TwoByTwo())
    ensures RunNew(TwoByTwo(), ERROR, NewConfig(At(0), s, prevPc), n).place.AtError?
  {
    EntersError(s, prevPc);
    TwoByTwoRewritten();
    OnlyOneListed(s.pc);
    StaysFrom(TwoByTwo(), ERROR, NewConfig(At(0), s, prevPc), 2, n);
  }

  lemma StaysFrom(f: Function, mode: Fallback, c: NewConfig, n: nat, k: nat)
    requires FunctionOk(f) && ErrorRewritten(f, mode) && RunNew(f, mode, c, n).place.AtError? && k >= n
    requires forall t: BlockId :: !Listed(f, ErrorSuccs(f), RunNew(f, mode, c, n).state.pc, t)
    ensures RunNew(f, mode, c, k).place.AtError?
  {
    ErrorStays(f, mode, c, n, k - n);
  }
}
