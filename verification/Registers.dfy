/**
 The twelve register globals of a lifted module, sets of them, and the order in which
 a rewritten function takes them as parameters and returns them.
 */
module Registers {

  datatype Reg =
    | PC | EAX | EBX | ECX | EDX | EDI | ESI | EBP | ESP | CC_OP | CC_SRC | CC_DST

  type RegSet = set<Reg>

  // The contents of the register globals, or of one activation's locals.
  type RegFile = Reg -> int

  const WIDTH: nat := 12

  const ALL: RegSet := {PC, EAX, EBX, ECX, EDX, EDI, ESI, EBP, ESP, CC_OP, CC_SRC, CC_DST}

  // All registers, in the order the pass looks their globals up.
  const NAMED: seq<Reg> := [PC, EAX, EBX, ECX, EDX, EDI, ESI, EBP, ESP, CC_OP, CC_SRC, CC_DST]

  lemma NamedIsAll()
    ensures forall r: Reg :: r in NAMED
  {
    forall r: Reg ensures r in NAMED {
      match r case PC => case EAX => case EBX => case ECX => case EDX => case EDI =>
      case ESI => case EBP => case ESP => case CC_OP => case CC_SRC => case CC_DST =>
    }
  }

  function Set(regs: RegFile, reg: Reg, value: int): RegFile {
    r => if r == reg then value else regs(r)
  }

  ghost predicate AgreeOn(a: RegFile, b: RegFile, on: RegSet) {
    forall r :: r in on ==> a(r) == b(r)
  }

  ghost predicate AgreeOff(a: RegFile, b: RegFile, off: RegSet) {
    forall r :: r !in off ==> a(r) == b(r)
  }

  /** How many bits of a bit set are still clear. */
  function Clear(s: RegSet): (n: nat)
    ensures n == WIDTH - |s|
  {
    SizeBound(s);
    WIDTH - |s|
  }

  /** The clear bits of a table of bit sets: the termination measure of every fixpoint loop. */
  function Missing(table: seq<RegSet>): nat {
    if table == [] then 0 else Clear(table[0]) + Missing(table[1..])
  }

  lemma AllIsAll()
    ensures forall r: Reg :: r in ALL
  {
    forall r: Reg ensures r in ALL {
      match r case PC => case EAX => case EBX => case ECX => case EDX => case EDI =>
      case ESI => case EBP => case ESP => case CC_OP => case CC_SRC => case CC_DST =>
    }
  }

  lemma SizeBound(s: RegSet)
    ensures s <= ALL && |s| <= WIDTH
  {
    AllIsAll();
    SubsetSize(s, ALL);
    assert |ALL| == WIDTH;
  }

  lemma SubsetSize<T>(a: set<T>, b: set<T>)
    requires a <= b
    ensures |a| <= |b|
    ensures |a| == |b| ==> a == b
  {
    assert b == a + (b - a);
    assert |b| == |a| + |b - a|;
  }

  /** Setting bits in one row, and no others, lowers the measure exactly when a bit was clear. */
  lemma {:induction false} MissingUpdate(table: seq<RegSet>, k: nat, row: RegSet)
    requires k < |table| && table[k] <= row
    ensures Missing(table[k := row]) <= Missing(table)
    ensures table[k] != row ==> Missing(table[k := row]) < Missing(table)
  {
    SubsetSize(table[k], row);
    var table' := table[k := row];
    if k == 0 {
      assert table'[1..] == table[1..];
    } else {
      MissingUpdate(table[1..], k - 1, row);
      assert table'[1..] == table[1..][k - 1 := row];
    }
  }

  ghost predicate Leq(a: seq<RegSet>, b: seq<RegSet>) {
    |a| == |b| && forall k :: 0 <= k < |a| ==> a[k] <= b[k]
  }

  /** Growing a whole table lowers the measure, strictly unless nothing changed. */
  lemma {:induction false} MissingLeq(a: seq<RegSet>, b: seq<RegSet>)
    requires Leq(a, b)
    ensures Missing(b) <= Missing(a)
    ensures a != b ==> Missing(b) < Missing(a)
  {
    if a != [] {
      SubsetSize(a[0], b[0]);
      forall k | 0 <= k < |a[1..]| ensures a[1..][k] <= b[1..][k] {
        assert a[1..][k] == a[k + 1] && b[1..][k] == b[k + 1];
      }
      MissingLeq(a[1..], b[1..]);
      assert a == [a[0]] + a[1..] && b == [b[0]] + b[1..];
    }
  }
}
