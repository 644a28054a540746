/**
 The order in which a rewritten function takes its inputs as arguments and returns its
 outputs: stack pointer, accumulator and EDX first, then by name.
 */
module Convention {
  import opened Registers

  function Name(r: Reg): string {
    match r
    case PC => "PC"
    case EAX => "R_EAX"
    case EBX => "R_EBX"
    case ECX => "R_ECX"
    case EDX => "R_EDX"
    case EDI => "R_EDI"
    case ESI => "R_ESI"
    case EBP => "R_EBP"
    case ESP => "R_ESP"
    case CC_OP => "cc_op"
    case CC_SRC => "cc_src"
    case CC_DST => "cc_dst"
  }

  function Weight(r: Reg): int {
    match r
    case ESP => -3
    case EAX => -2
    case EDX => -1
    case _ => 0
  }

  /** Byte-wise order of names. */
  predicate NameBefore(a: string, b: string) {
    if b == "" then false
    else if a == "" then true
    else a[0] < b[0] || (a[0] == b[0] && NameBefore(a[1..], b[1..]))
  }

  predicate SortRegs(a: Reg, b: Reg) {
    if Weight(a) == Weight(b) then NameBefore(Name(a), Name(b)) else Weight(a) < Weight(b)
  }

  const ORDER: seq<Reg> := [ESP, EAX, EDX, PC, EBP, EBX, ECX, EDI, ESI, CC_DST, CC_OP, CC_SRC]

  // The first differing character decides.
  lemma {:induction false} Differ(a: string, b: string, k: nat)
    requires k < |a| && k < |b| && a[..k] == b[..k] && a[k] != b[k]
    ensures NameBefore(a, b) <==> a[k] < b[k]
  {
    if k > 0 {
      assert a[0] == a[..k][0] == b[..k][0] == b[0];
      assert a[1..][..k - 1] == a[..k][1..] == b[..k][1..] == b[1..][..k - 1];
      Differ(a[1..], b[1..], k - 1);
    }
  }

  function Rank(r: Reg): nat {
    match r
    case ESP => 0 case EAX => 1 case EDX => 2 case PC => 3 case EBP => 4 case EBX => 5
    case ECX => 6 case EDI => 7 case ESI => 8 case CC_DST => 9 case CC_OP => 10 case CC_SRC => 11
  }

  lemma NameOrder(a: Reg, b: Reg)
    ensures SortRegs(a, b) <==> Rank(a) < Rank(b)
  {
    if a == b {
      NotBeforeSelf(Name(a));
    } else if Name(a)[0] != Name(b)[0] {
      Differ(Name(a), Name(b), 0);
    } else if Name(a)[3] != Name(b)[3] {
      Differ(Name(a), Name(b), 3);
    } else {
      Differ(Name(a), Name(b), 4);
    }
  }

  lemma NotBeforeSelf(a: string)
    ensures !NameBefore(a, a)
  {}

  function Pick(order: seq<Reg>, s: RegSet): seq<Reg>
    decreases order, s
  {
    if order == [] then []
    else if order[0] in s then [order[0]] + Pick(order[1..], s)
    else Pick(order[1..], s)
  }

  /** The registers of a set in calling order. */
  function Sorted(s: RegSet): seq<Reg> {
    Pick(ORDER, s)
  }

  ghost predicate Strictly(regs: seq<Reg>) {
    forall i, j :: 0 <= i < j < |regs| ==> SortRegs(regs[i], regs[j])
  }

  ghost predicate Lists(regs: seq<Reg>, s: RegSet) {
    forall r :: r in regs <==> r in s
  }

  lemma {:induction false} PickLists(order: seq<Reg>, s: RegSet)
    requires forall i, j :: 0 <= i < j < |order| ==> Rank(order[i]) < Rank(order[j])
    ensures forall r :: r in Pick(order, s) <==> r in order && r in s
    ensures forall i, j :: 0 <= i < j < |Pick(order, s)| ==> Rank(Pick(order, s)[i]) < Rank(Pick(order, s)[j])
  {
    if order != [] {
      PickLists(order[1..], s);
      var rest := Pick(order[1..], s);
      assert order == [order[0]] + order[1..];
      forall j | 0 <= j < |rest| ensures Rank(order[0]) < Rank(rest[j]) {
        assert rest[j] in order[1..];
        var k :| 0 <= k < |order[1..]| && order[1..][k] == rest[j];
        assert order[k + 1] == rest[j];
      }
    }
  }

  lemma OrderHas(r: Reg)
    ensures r in ORDER
  {
    assert ORDER[Rank(r)] == r;
  }

  lemma OrderAt(i: nat)
    requires i < |ORDER|
    ensures Rank(ORDER[i]) == i
  {}

  /** The calling order lists every register of the set once, sorted by sort_regs. */
  lemma SortedLists(s: RegSet)
    ensures Lists(Sorted(s), s) && Strictly(Sorted(s))
  {
    forall r: Reg ensures r in ORDER { OrderHas(r); }
    forall i | 0 <= i < |ORDER| ensures Rank(ORDER[i]) == i { OrderAt(i); }
    PickLists(ORDER, s);
    forall i, j | 0 <= i < j < |Sorted(s)| ensures SortRegs(Sorted(s)[i], Sorted(s)[j]) {
      NameOrder(Sorted(s)[i], Sorted(s)[j]);
    }
  }

  /** Stack pointer, accumulator and EDX come first, and the others in the order of their names. */
  lemma FirstThree(s: RegSet, i: nat, j: nat)
    requires i < j < |Sorted(s)|
    ensures var a, b := Sorted(s)[i], Sorted(s)[j];
      && b != ESP && (b == EAX ==> a == ESP) && (b == EDX ==> a == ESP || a == EAX)
      && (a !in [ESP, EAX, EDX] ==> b !in [ESP, EAX, EDX] && NameBefore(Name(a), Name(b)))
  {
    SortedLists(s);
    assert SortRegs(Sorted(s)[i], Sorted(s)[j]);
    NameOrder(Sorted(s)[i], Sorted(s)[j]);
  }

  /** A function that takes every register takes them in this order. */
  lemma AllInOrder()
    ensures Sorted(ALL) == [ESP, EAX, EDX, PC, EBP, EBX, ECX, EDI, ESI, CC_DST, CC_OP, CC_SRC]
  {
    var order := [ESP, EAX, EDX, PC, EBP, EBX, ECX, EDI, ESI, CC_DST, CC_OP, CC_SRC];
    AllIsAll();
    ByRank(order, ALL);
  }

  lemma ByRank(order: seq<Reg>, all: RegSet)
    requires |order| == 12 && forall i :: 0 <= i < |order| ==> Rank(order[i]) == i
    requires forall r: Reg :: r in all
    ensures Sorted(all) == order
  {
    SortedLists(all);
    forall i, j | 0 <= i < j < |order| ensures SortRegs(order[i], order[j]) {
      NameOrder(order[i], order[j]);
    }
    forall r: Reg ensures r in order {
      SameRank(order[Rank(r)], r);
    }
    SortedUnique(Sorted(all), order, all);
  }

  lemma SameRank(a: Reg, b: Reg)
    requires Rank(a) == Rank(b)
    ensures a == b
  {}

  /** Any listing sorted by sort_regs is the calling order, so caller and callee agree on positions. */
  lemma {:induction false} SortedUnique(a: seq<Reg>, b: seq<Reg>, s: RegSet)
    requires Lists(a, s) && Strictly(a) && Lists(b, s) && Strictly(b)
    ensures a == b
  {
    assert a != [] ==> a[0] in a;
    assert b != [] ==> b[0] in b;
    if a != [] {
      SameHead(a, b, s);
      var s' := s - {a[0]};
      TailLists(a, s);
      TailLists(b, s);
      SortedUnique(a[1..], b[1..], s');
      assert a == [a[0]] + a[1..] && b == [b[0]] + b[1..];
    }
  }

  lemma SameHead(a: seq<Reg>, b: seq<Reg>, s: RegSet)
    requires Lists(a, s) && Strictly(a) && Lists(b, s) && Strictly(b) && a != [] && b != []
    ensures a[0] == b[0]
  {
    assert a[0] in a && b[0] in b;
    var i :| 0 <= i < |b| && b[i] == a[0];
    var j :| 0 <= j < |a| && a[j] == b[0];
    NameOrder(a[0], b[0]);
    NameOrder(b[0], a[0]);
  }

  lemma TailLists(a: seq<Reg>, s: RegSet)
    requires Lists(a, s) && Strictly(a) && a != []
    ensures Lists(a[1..], s - {a[0]}) && Strictly(a[1..])
  {
    forall r ensures r in a[1..] <==> r in s && r != a[0] {
      if r in a[1..] {
        var k :| 0 <= k < |a[1..]| && a[1..][k] == r;
        assert a[k + 1] == r;
        NameOrder(a[0], r);
      } else if r in s {
        assert r in a;
        assert a == [a[0]] + a[1..];
      }
    }
  }
}
