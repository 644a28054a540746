/** Turning "store PC and return to the dispatcher" into switches on PC. */
module PcJumps {
  import opened Options

  type BlockId = nat

  // PC, R_EAX and everything else.
  datatype State = State(pc: nat, eax: int, rest: map<nat, int>)

  datatype Term =
    | Return
    | Unreachable
    | Branch(next: State -> BlockId)  // to another part of the same recovered block
    | PcSwitch(cases: seq<(nat, BlockId)>, default: BlockId)

  // A successor in this function, or the first block of another.
  datatype Succ = Here(id: BlockId) | Elsewhere

  datatype Block = Block(recovered: bool, addr: nat, nameLength: nat, effect: State -> State, term: Term,
    succs: seq<Succ>)

  // masters: the recovered block each block is part of; retAddrs: addresses of blocks seen to return.
  datatype Function = Function(blocks: seq<Block>, masters: seq<Option<BlockId>>, retAddrs: set<nat>)

  datatype Fallback = NONE | ERROR1 | ERROR | BASIC | EXTENDED | UNFALLBACK

  ghost predicate FunctionOk(f: Function) {
    && |f.blocks| == |f.masters|
    && (forall b :: 0 <= b < |f.blocks| ==> BlockOk(f, b))
    && forall b, c :: 0 <= b < c < |f.blocks| && f.blocks[b].recovered && f.blocks[c].recovered ==>
         f.blocks[b].addr != f.blocks[c].addr
  }

  ghost predicate BlockOk(f: Function, b: BlockId)
    requires b < |f.blocks| == |f.masters|
  {
    var block := f.blocks[b];
    && !block.term.PcSwitch?
    && (block.recovered ==> f.masters[b] == Some(b))
    && (f.masters[b].Some? ==> f.masters[b].value < |f.blocks| && f.blocks[f.masters[b].value].recovered)
    && (f.masters[b].Some? && f.masters[b].value != b ==> f.blocks[f.masters[b].value].term.Branch?)
    && (forall s :: block.term.Branch? ==> block.term.next(s) < |f.blocks|)
    && (forall k :: 0 <= k < |block.succs| && block.succs[k].Here? ==>
          block.succs[k].id < |f.blocks| && f.blocks[block.succs[k].id].recovered)
    && forall j, k :: 0 <= j < k < |block.succs| && block.succs[j].Here? ==> block.succs[j] != block.succs[k]
  }

  // ----- which blocks are rewritten, and how -----

  /** The block returns to a caller: it was seen to, or control goes on in another function. */
  predicate IsRet(f: Function, m: BlockId)
    requires m < |f.blocks|
  {
    f.blocks[m].addr in f.retAddrs || Elsewhere in f.blocks[m].succs
  }

  predicate Dispatches(f: Function, b: BlockId)
    requires b < |f.blocks| == |f.masters|
  {
    && f.blocks[b].term.Return? && f.masters[b].Some? && f.masters[b].value < |f.blocks|
    && f.blocks[f.masters[b].value].succs != [] && !IsRet(f, f.masters[b].value)
  }

  /** One case per listed successor. */
  function Cases(f: Function, succs: seq<Succ>): seq<(nat, BlockId)> {
    if succs == [] then []
    else if succs[0].Here? && succs[0].id < |f.blocks|
    then [(f.blocks[succs[0].id].addr, succs[0].id)] + Cases(f, succs[1..])
    else Cases(f, succs[1..])
  }

  predicate PossibleTarget(f: Function, b: BlockId)
    requires b < |f.blocks|
  {
    f.blocks[b].recovered && f.blocks[b].nameLength <= 11 && b != 0
  }

  function TableFrom(f: Function, b: BlockId): seq<(nat, BlockId)>
    decreases |f.blocks| - b
  {
    if b >= |f.blocks| then []
    else (if PossibleTarget(f, b) then [(f.blocks[b].addr, b)] else []) + TableFrom(f, b + 1)
  }

  /** What the error block does to the state before its terminator. */
  function ErrorEffect(mode: Fallback, s: State): State {
    if mode.ERROR? || mode.ERROR1? then s.(eax := -1) else s
  }

  function ErrorTerm(mode: Fallback): Term {
    match mode
    case ERROR | ERROR1 => Return
    case NONE | UNFALLBACK | BASIC | EXTENDED => Unreachable
  }

  /** The blocks that record their own address in prevPC. */
  predicate StoresPrevPc(f: Function, mode: Fallback, b: BlockId)
    requires b < |f.blocks|
  {
    mode.ERROR1? && f.blocks[b].recovered
  }

  // Blocks of the new function: the old ones, the error block, and perhaps the jump table.
  function ErrorBlock(f: Function): BlockId { |f.blocks| }

  function DefaultBlock(f: Function, mode: Fallback): BlockId {
    if mode.EXTENDED? then |f.blocks| + 1 else |f.blocks|
  }

  function NewTerm(f: Function, b: BlockId, default: BlockId): Term
    requires b < |f.blocks| == |f.masters|
  {
    if Dispatches(f, b) then PcSwitch(Cases(f, f.blocks[f.masters[b].value].succs), default) else f.blocks[b].term
  }

  /** The last block given a switch so far: the first predecessor the error block shows. */
  function LastSwitched(f: Function, n: nat): Option<BlockId>
    requires n <= |f.blocks| == |f.masters|
  {
    if n == 0 then None else if Dispatches(f, n - 1) then Some(n - 1) else LastSwitched(f, n - 1)
  }

  /** The error block is given a switch itself: it returns, and its predecessor's master still lists successors. */
  predicate ErrorRewritten(f: Function, mode: Fallback)
    requires |f.blocks| == |f.masters|
  {
    var last := LastSwitched(f, |f.blocks|);
    ErrorTerm(mode).Return? && last.Some? && last.value < |f.blocks| && f.masters[last.value] != Some(last.value)
  }

  function NewErrorTerm(f: Function, mode: Fallback): Term
    requires |f.blocks| == |f.masters|
  {
    var last := LastSwitched(f, |f.blocks|);
    if ErrorRewritten(f, mode) && f.masters[last.value].Some? && f.masters[last.value].value < |f.blocks|
    then PcSwitch(Cases(f, f.blocks[f.masters[last.value].value].succs), ErrorBlock(f))
    else ErrorTerm(mode)
  }

  // ----- what the pass is to do, block by block -----

  /** The block was seen to return, or control goes on in another function from it. */
  ghost predicate SeenReturning(f: Function, m: BlockId)
    requires m < |f.blocks|
  {
    f.blocks[m].addr in f.retAddrs || exists k :: 0 <= k < |f.blocks[m].succs| && f.blocks[m].succs[k].Elsewhere?
  }

  /** It never was, and has successors, all in this function. */
  ghost predicate SeenJumping(f: Function, m: BlockId)
    requires m < |f.blocks|
  {
    && f.blocks[m].addr !in f.retAddrs && f.blocks[m].succs != []
    && forall k :: 0 <= k < |f.blocks[m].succs| ==> f.blocks[m].succs[k].Here?
  }

  ghost predicate PartOfReturn(f: Function, b: BlockId, m: BlockId)
    requires b < |f.masters| && m < |f.blocks|
  {
    f.masters[b] == Some(m) && SeenReturning(f, m)
  }

  ghost predicate PartOfJump(f: Function, b: BlockId, m: BlockId)
    requires b < |f.masters| && m < |f.blocks|
  {
    f.masters[b] == Some(m) && SeenJumping(f, m)
  }

  /** A switch on PC to exactly the successors of m. */
  ghost predicate SwitchesTo(f: Function, m: BlockId, term: Term, default: BlockId)
    requires m < |f.blocks|
  {
    && term.PcSwitch? && term.default == default
    && forall pc, t: BlockId :: (pc, t) in term.cases <==>
         Here(t) in f.blocks[m].succs && t < |f.blocks| && f.blocks[t].addr == pc
  }

  /** The returns that become switches, and all other terminators as they were. */
  ghost predicate TermRight(f: Function, b: BlockId, term: Term, default: BlockId)
    requires b < |f.blocks| == |f.masters|
  {
    && (forall m: BlockId :: m < |f.blocks| && f.blocks[b].term.Return? && PartOfJump(f, b, m) ==>
          SwitchesTo(f, m, term, default))
    && (forall m: BlockId :: m < |f.blocks| && PartOfReturn(f, b, m) ==> term == f.blocks[b].term)
    && (!f.blocks[b].term.Return? || f.masters[b].None? ==> term == f.blocks[b].term)
    && (forall m: BlockId :: m < |f.blocks| && f.masters[b] == Some(m) && f.blocks[m].succs == [] ==>
          term == f.blocks[b].term)
  }

  /** Every recovered block but the entry has a name longer than BB_ and eight digits. */
  ghost predicate NoTarget(f: Function) {
    forall b :: 0 < b < |f.blocks| && f.blocks[b].recovered ==> f.blocks[b].nameLength > 11
  }

  /** The last block that has a switch. */
  ghost predicate LastSwitch(terms: seq<Term>, b: BlockId) {
    b < |terms| && terms[b].PcSwitch? && forall c :: b < c < |terms| ==> !terms[c].PcSwitch?
  }

  /** In the error modes the error block has the last switch's cases, if that is in a part of a block, or returns. */
  ghost predicate ErrorTermRight(f: Function, mode: Fallback, terms: seq<Term>, term: Term)
    requires |terms| == |f.blocks| == |f.masters|
  {
    if mode.ERROR? || mode.ERROR1? then
      && (forall b: BlockId :: LastSwitch(terms, b) && f.masters[b] != Some(b) ==>
            term == PcSwitch(terms[b].cases, |f.blocks|))
      && (forall b: BlockId :: LastSwitch(terms, b) && f.masters[b] == Some(b) ==> term == Return)
      && ((forall b :: 0 <= b < |terms| ==> !terms[b].PcSwitch?) ==> term == Return)
    else term == Unreachable
  }

  lemma {:induction false} CasesAre(f: Function, succs: seq<Succ>, pc: nat, t: BlockId)
    ensures (pc, t) in Cases(f, succs) <==> Here(t) in succs && t < |f.blocks| && f.blocks[t].addr == pc
  {
    if succs != [] {
      CasesAre(f, succs[1..], pc, t);
      assert succs == [succs[0]] + succs[1..];
    }
  }

  // ----- the pass -----

  method SuccessorCases(f: Function, succs: seq<Succ>) returns (cases: seq<(nat, BlockId)>)
    requires forall k :: 0 <= k < |succs| ==> succs[k].Here? && succs[k].id < |f.blocks|
    ensures cases == Cases(f, succs)
  {
    cases := [];
    for k := 0 to |succs|
      invariant cases + Cases(f, succs[k..]) == Cases(f, succs)
    {
      var more := [(f.blocks[succs[k].id].addr, succs[k].id)];
      assert succs[k..][1..] == succs[k + 1..];
      assert cases + (more + Cases(f, succs[k + 1..])) == (cases + more) + Cases(f, succs[k + 1..]);
      cases := cases + more;
    }
  }

  method CreateJumpTable(f: Function) returns (cases: seq<(nat, BlockId)>)
    ensures cases == TableFrom(f, 0)
  {
    cases := [];
    for b := 0 to |f.blocks|
      invariant cases + TableFrom(f, b) == TableFrom(f, 0)
    {
      if PossibleTarget(f, b) {
        cases := cases + [(f.blocks[b].addr, b)];
      }
    }
  }

  // The successors a block's terminator still lists: a switch put in its place lists none.
  function ListedSuccs(b: Block): seq<Succ> {
    if b.term.PcSwitch? then [] else b.succs
  }

  /** Blocks before n have their new terminators. */
  ghost predicate RewrittenTo(f: Function, blocks: seq<Block>, n: nat) {
    && |f.masters| == |f.blocks| == |blocks|
    && forall c :: 0 <= c < |blocks| ==>
         blocks[c] == if c < n then f.blocks[c].(term := NewTerm(f, c, ErrorBlock(f))) else f.blocks[c]
  }

  lemma ListedSuccsOf(f: Function, blocks: seq<Block>, n: nat, b: BlockId)
    requires FunctionOk(f) && RewrittenTo(f, blocks, n) && b < |f.blocks|
    requires f.masters[b].Some? && f.masters[b].value == b ==> n <= b
    ensures f.masters[b].Some? ==> f.masters[b].value < |blocks| == |f.blocks|
    ensures f.masters[b].Some? ==> ListedSuccs(blocks[f.masters[b].value]) == f.blocks[f.masters[b].value].succs
  {
    assert BlockOk(f, b);
    if f.masters[b].Some? { assert BlockOk(f, f.masters[b].value); }
  }

  /** The switch a returning block gets, if its master lists successors and is not a return. */
  method SwitchFor(f: Function, blocks: seq<Block>, term: Term, m: BlockId) returns (sw: Option<Term>)
    requires FunctionOk(f) && m < |f.blocks| == |blocks| && blocks[m].addr == f.blocks[m].addr
    requires ListedSuccs(blocks[m]) == [] || ListedSuccs(blocks[m]) == f.blocks[m].succs
    ensures sw == if term.Return? && ListedSuccs(blocks[m]) != [] && !IsRet(f, m)
      then Some(PcSwitch(Cases(f, f.blocks[m].succs), ErrorBlock(f))) else None
    ensures SeenReturning(f, m) ==> sw == None
    ensures term.Return? && ListedSuccs(blocks[m]) != [] && SeenJumping(f, m) ==>
      sw.Some? && SwitchesTo(f, m, sw.value, |f.blocks|)
  {
    var successors := ListedSuccs(blocks[m]);
    if !term.Return? || successors == [] {
      return None;
    }
    var isRet := blocks[m].addr in f.retAddrs;
    if Elsewhere in successors {
      isRet := true;
    }
    if isRet {
      return None;
    }
    assert BlockOk(f, m);
    forall k | 0 <= k < |successors| ensures successors[k].Here? && successors[k].id < |f.blocks| {
      assert successors[k] in successors;
    }
    var cases := SuccessorCases(f, successors);
    forall pc, t: BlockId { CasesAre(f, successors, pc, t); }
    return Some(PcSwitch(cases, ErrorBlock(f)));
  }

  /** Give every dispatching block a switch with the error block as default. */
  method RewriteBlocks(f: Function) returns (blocks: seq<Block>, last: Option<BlockId>)
    requires FunctionOk(f)
    ensures RewrittenTo(f, blocks, |f.blocks|) && last == LastSwitched(f, |f.blocks|)
    ensures forall b :: 0 <= b < |f.blocks| ==> TermRight(f, b, blocks[b].term, |f.blocks|)
  {
    blocks, last := f.blocks, None;
    for b := 0 to |f.blocks|
      invariant RewrittenTo(f, blocks, b) && last == LastSwitched(f, b)
    {
      assert BlockOk(f, b);
      if f.masters[b].None? {
        continue;
      }
      ListedSuccsOf(f, blocks, b, b);
      var sw := SwitchFor(f, blocks, blocks[b].term, f.masters[b].value);
      if sw.Some? {
        blocks := blocks[b := blocks[b].(term := sw.value)];
        last := Some(b);
      }
    }
    forall b | 0 <= b < |f.blocks| ensures TermRight(f, b, blocks[b].term, |f.blocks|) {
      IsTermRight(f, b, |f.blocks|);
    }
  }

  /** The error block comes last and is looked at like the others. */
  method RewriteErrorBlock(f: Function, mode: Fallback, blocks: seq<Block>, last: Option<BlockId>) returns (term: Term)
    requires FunctionOk(f) && RewrittenTo(f, blocks, |f.blocks|) && last == LastSwitched(f, |f.blocks|)
    ensures term == NewErrorTerm(f, mode)
  {
    term := ErrorTerm(mode);
    SwitchedDispatches(f, |f.blocks|);
    if last.None? {
      return;
    }
    var m := f.masters[last.value].value;
    assert BlockOk(f, last.value) && BlockOk(f, m);
    var sw := SwitchFor(f, blocks, term, m);
    if sw.Some? {
      term := sw.value;
    }
  }

  /** The jump table replaces the error block wherever a switch uses it. */
  method ReplaceErrorBlock(f: Function, blocks: seq<Block>, default: BlockId) returns (terms: seq<Term>)
    requires FunctionOk(f) && RewrittenTo(f, blocks, |f.blocks|)
    ensures |terms| == |f.blocks| && forall b :: 0 <= b < |terms| ==> terms[b] == NewTerm(f, b, default)
  {
    terms := [];
    for b := 0 to |blocks|
      invariant |terms| == b && forall c :: 0 <= c < b ==> terms[c] == NewTerm(f, c, default)
    {
      assert BlockOk(f, b);
      var t := blocks[b].term;
      terms := terms + [if t.PcSwitch? then t.(default := default) else t];
    }
  }

  lemma {:induction false} TableEmpty(f: Function, from: BlockId)
    ensures TableFrom(f, from) == [] <==> forall b :: from <= b < |f.blocks| ==> !PossibleTarget(f, b)
    decreases |f.blocks| - from
  {
    if from < |f.blocks| {
      TableEmpty(f, from + 1);
    }
  }

  /** Make every recovered block record its address behind its first PC store. */
  method InsertPrevPc(f: Function) returns (storing: set<BlockId>)
    ensures forall b: BlockId :: b in storing <==> b < |f.blocks| && f.blocks[b].recovered
  {
    storing := {};
    for b := 0 to |f.blocks|
      invariant forall c: BlockId :: c in storing <==> c < b && f.blocks[c].recovered
    {
      if f.blocks[b].recovered {
        storing := storing + {b};
      }
    }
  }

  lemma IsTermRight(f: Function, b: BlockId, default: BlockId)
    requires FunctionOk(f) && b < |f.blocks|
    ensures TermRight(f, b, NewTerm(f, b, default), default)
  {
    forall m: BlockId | m < |f.blocks| && f.blocks[b].term.Return? && PartOfJump(f, b, m)
      ensures SwitchesTo(f, m, NewTerm(f, b, default), default)
    {
      forall pc, t: BlockId { CasesAre(f, f.blocks[m].succs, pc, t); }
      assert Elsewhere !in f.blocks[m].succs;
    }
    forall m: BlockId | m < |f.blocks| && PartOfReturn(f, b, m) ensures NewTerm(f, b, default) == f.blocks[b].term {
      if f.blocks[m].addr !in f.retAddrs {
        var k :| 0 <= k < |f.blocks[m].succs| && f.blocks[m].succs[k].Elsewhere?;
        assert f.blocks[m].succs[k] == Elsewhere;
      }
    }
  }

  lemma {:induction false} LastSwitchedIs(f: Function, terms: seq<Term>, n: nat, b: BlockId)
    requires FunctionOk(f) && n <= |terms| == |f.blocks| && b < n
    requires forall c :: 0 <= c < |terms| ==> (terms[c].PcSwitch? <==> Dispatches(f, c))
    requires terms[b].PcSwitch? && forall c :: b < c < n ==> !terms[c].PcSwitch?
    ensures LastSwitched(f, n) == Some(b)
  {
    if n - 1 > b {
      LastSwitchedIs(f, terms, n - 1, b);
    }
  }

  lemma IsErrorTermRight(f: Function, mode: Fallback, terms: seq<Term>)
    requires FunctionOk(f) && |terms| == |f.blocks|
    requires forall b :: 0 <= b < |terms| ==> terms[b] == NewTerm(f, b, DefaultBlock(f, mode))
    ensures ErrorTermRight(f, mode, terms, NewErrorTerm(f, mode))
  {
    SwitchedDispatches(f, |f.blocks|);
    forall b: BlockId | b < |f.blocks| ensures terms[b].PcSwitch? <==> Dispatches(f, b) {
      assert BlockOk(f, b);
    }
    forall b: BlockId | LastSwitch(terms, b) ensures LastSwitched(f, |f.blocks|) == Some(b) {
      LastSwitchedIs(f, terms, |f.blocks|, b);
    }
  }

  /** The pass over one function; not ok when a jump table is wanted and would be empty. */
  method RunPass(f: Function, mode: Fallback)
    returns (ok: bool, storing: set<BlockId>, terms: seq<Term>, errorTerm: Term, table: Option<seq<(nat, BlockId)>>)
    requires FunctionOk(f)
    ensures !ok <==> mode.EXTENDED? && NoTarget(f)
    ensures forall b: BlockId :: b in storing <==> mode.ERROR1? && b < |f.blocks| && f.blocks[b].recovered
    ensures |terms| == |f.blocks|
    ensures forall b :: 0 <= b < |terms| ==>
      TermRight(f, b, terms[b], if mode.EXTENDED? then |f.blocks| + 1 else |f.blocks|)
    ensures ErrorTermRight(f, mode, terms, errorTerm)
    ensures forall b :: 0 <= b < |terms| ==> terms[b] == NewTerm(f, b, DefaultBlock(f, mode))
    ensures errorTerm == NewErrorTerm(f, mode)
    ensures table == if mode.EXTENDED? then Some(TableFrom(f, 0)) else None
  {
    storing := {};
    if mode.ERROR1? {
      storing := InsertPrevPc(f);
    }
    var blocks, last := RewriteBlocks(f);
    errorTerm := RewriteErrorBlock(f, mode, blocks, last);
    ok, table := true, None;
    if mode.EXTENDED? {
      var cases := CreateJumpTable(f);
      table := Some(cases);
      ok := cases != [];
      TableEmpty(f, 0);
      forall b: BlockId | b < |f.blocks|
        ensures PossibleTarget(f, b) <==> b > 0 && f.blocks[b].recovered && f.blocks[b].nameLength <= 11
      {}
    }
    terms := ReplaceErrorBlock(f, blocks, DefaultBlock(f, mode));
    forall b | 0 <= b < |terms| ensures TermRight(f, b, terms[b], DefaultBlock(f, mode)) {
      IsTermRight(f, b, DefaultBlock(f, mode));
    }
    IsErrorTermRight(f, mode, terms);
  }

  lemma {:induction false} SwitchedDispatches(f: Function, n: nat)
    requires n <= |f.blocks| == |f.masters|
    ensures LastSwitched(f, n).Some? ==> LastSwitched(f, n).value < n && Dispatches(f, LastSwitched(f, n).value)
  {
    if n > 0 {
      SwitchedDispatches(f, n - 1);
    }
  }
}
