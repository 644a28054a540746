/** The descent to a member in the machine integers it is computed in, and when they make no difference. */
module UnflattenCut {
  import opened Options
  import opened Unflatten

  const WORD: nat := 0x1_0000_0000_0000_0000

  // Offsets have 64 bits. An index is cut to 32 bits and, in an array, taken as a signed number.
  datatype Path = Path(indices: seq<int>, ty: Ty, rest: nat) | Failed

  function Signed32(n: nat): int {
    var w := n % 0x1_0000_0000;
    if w < 0x8000_0000 then w else w - 0x1_0000_0000
  }

  function IndexCut(ty: Ty, offset: nat): (r: Option<int>)
    ensures r.Some? && ty.Struct? ==> 0 <= r.value < |ty.fields|
    ensures r.Some? ==> !ty.Scalar?
  {
    match GetMemberIndex(ty, offset)
    case None => None
    case Some(k) => Some(if ty.Array? then Signed32(k) else k)
  }

  /** An element's index has 32 bits and a sign, and is the quotient but for multiples of 2^32. */
  lemma ElementWraps(elem: Ty, count: nat, offset: nat)
    requires AllocSize(elem) > 0
    ensures IndexCut(Array(elem, count), offset).Some?
    ensures var i := IndexCut(Array(elem, count), offset).value;
      -0x8000_0000 <= i < 0x8000_0000 && (offset / AllocSize(elem) - i) % 0x1_0000_0000 == 0
  {
  }

  function MemberCut(ty: Ty, index: int): Ty
    requires !ty.Scalar? && (ty.Struct? ==> 0 <= index < |ty.fields|)
  {
    if ty.Array? then ty.elem else ty.fields[index].ty
  }

  function OffsetCut(ty: Ty, index: int): int
    requires !ty.Scalar? && (ty.Struct? ==> 0 <= index < |ty.fields|)
  {
    if ty.Array? then index * AllocSize(ty.elem) else ty.fields[index].offset
  }

  function RestCut(ty: Ty, index: int, offset: nat): nat
    requires !ty.Scalar? && (ty.Struct? ==> 0 <= index < |ty.fields|)
  {
    (offset - OffsetCut(ty, index)) % WORD
  }

  function UnderCut(index: int, o: Path): Path {
    if o.Failed? then Failed else Path([index] + o.indices, o.ty, o.rest)
  }

  function AfterCut(indices: seq<int>, o: Path): Path {
    if o.Failed? then Failed else Path(indices + o.indices, o.ty, o.rest)
  }

  function DescendCut(ty: Ty, offset: nat, target: Ty): Path
    decreases ty, 1
  {
    if ty == target || ty.Scalar? then Path([], ty, offset) else EnterCut(ty, offset, target)
  }

  function EnterCut(ty: Ty, offset: nat, target: Ty): Path
    decreases ty, 0
  {
    match IndexCut(ty, offset)
    case None => Failed
    case Some(k) => UnderCut(k, DescendCut(MemberCut(ty, k), RestCut(ty, k, offset), target))
  }

  lemma AfterStep(indices: seq<int>, k: int, o: Path)
    ensures AfterCut(indices, UnderCut(k, o)) == AfterCut(indices + [k], o)
  {
    if o.Path? {
      assert indices + ([k] + o.indices) == (indices + [k]) + o.indices;
    }
  }

  /** The pass's loop: the member of the state first, then down until the wanted type. */
  method FindMember(env: Ty, start: nat, target: Ty) returns (o: Path)
    requires env.Struct? && start < WORD
    ensures o == EnterCut(env, start, target)
  {
    var member := IndexCut(env, start);
    if member == None {
      return Failed;
    }
    var indices := [member.value];
    var ty := MemberCut(env, member.value);
    var offset := RestCut(env, member.value, start);
    while ty != target && !ty.Scalar?
      invariant EnterCut(env, start, target) == AfterCut(indices, DescendCut(ty, offset, target))
      decreases ty
    {
      member := IndexCut(ty, offset);
      if member == None {
        return Failed;
      }
      ghost var below := DescendCut(MemberCut(ty, member.value), RestCut(ty, member.value, offset), target);
      AfterStep(indices, member.value, below);
      indices := indices + [member.value];
      offset := RestCut(ty, member.value, offset);
      ty := MemberCut(ty, member.value);
    }
    assert indices + [] == indices;
    o := Path(indices, ty, offset);
  }

  function Uncut(o: Outcome): Path {
    if o.Trap? then Failed else Path(o.path, o.ty, o.rest)
  }

  lemma StepUncut(ty: Ty, offset: nat)
    requires offset < 0x8000_0000 && GetMemberIndex(ty, offset).Some?
    ensures var k := GetMemberIndex(ty, offset).value;
      && IndexCut(ty, offset) == Some(k) && Member(ty, k) == Some(MemberCut(ty, k))
      && MemberOffset(ty, k) <= offset && RestCut(ty, k, offset) == offset - MemberOffset(ty, k)
  {
    IndexStartsBefore(ty, offset);
    if ty.Array? {
      var size := AllocSize(ty.elem);
      assert offset / size * size + offset % size == offset;
      QuotientSmall(offset / size, size, offset % size, offset);
    }
  }

  lemma QuotientSmall(q: nat, size: nat, r: nat, n: nat)
    requires size > 0 && q * size + r == n
    ensures q <= n
  {
    var less: nat := size - 1;
    assert q * size == q * less + q;
  }

  /** Below 2^31 nothing is cut. */
  lemma {:induction false} EnterUncut(ty: Ty, offset: nat, target: Ty)
    requires offset < 0x8000_0000
    ensures EnterCut(ty, offset, target) == Uncut(Enter(ty, offset, target))
    decreases ty, 0
  {
    if GetMemberIndex(ty, offset).Some? {
      StepUncut(ty, offset);
      var k := GetMemberIndex(ty, offset).value;
      DescendUncut(MemberCut(ty, k), RestCut(ty, k, offset), target);
    }
  }

  lemma {:induction false} DescendUncut(ty: Ty, offset: nat, target: Ty)
    requires offset < 0x8000_0000
    ensures DescendCut(ty, offset, target) == Uncut(Descend(ty, offset, target))
    decreases ty, 1
  {
    if ty != target && !ty.Scalar? {
      EnterUncut(ty, offset, target);
    }
  }

  /** Where the indices of a path lead, as the address computation reads them. */
  function Denoted(ty: Ty, indices: seq<int>): Option<(Ty, int)>
    decreases |indices|
  {
    if indices == [] then Some((ty, 0))
    else if ty.Scalar? || (ty.Struct? && !(0 <= indices[0] < |ty.fields|)) then None
    else match Denoted(MemberCut(ty, indices[0]), indices[1..])
      case None => None
      case Some((inner, offset)) => Some((inner, OffsetCut(ty, indices[0]) + offset))
  }

  ghost predicate DenotesRest(ty: Ty, offset: nat, o: Path) {
    o.Path? ==>
      var d := Denoted(ty, o.indices);
      d.Some? && d.value.0 == o.ty && (d.value.1 + o.rest) % WORD == offset % WORD && o.rest < WORD
  }

  lemma {:induction false} DescendDenotes(ty: Ty, offset: nat, target: Ty)
    requires offset < WORD
    ensures DenotesRest(ty, offset, DescendCut(ty, offset, target))
    decreases ty, 1
  {
    if ty != target && !ty.Scalar? {
      EnterDenotes(ty, offset, target);
    }
  }

  lemma {:induction false} EnterDenotes(ty: Ty, offset: nat, target: Ty)
    requires offset < WORD
    ensures DenotesRest(ty, offset, EnterCut(ty, offset, target))
    decreases ty, 0
  {
    if IndexCut(ty, offset).Some? {
      var k := IndexCut(ty, offset).value;
      var below := DescendCut(MemberCut(ty, k), RestCut(ty, k, offset), target);
      DescendDenotes(MemberCut(ty, k), RestCut(ty, k, offset), target);
      if below.Path? {
        assert ([k] + below.indices)[1..] == below.indices;
        Rewrap(offset, OffsetCut(ty, k), Denoted(MemberCut(ty, k), below.indices).value.1 + below.rest);
      }
    }
  }

  lemma Rewrap(offset: int, first: int, rest: int)
    requires rest % WORD == (offset - first) % WORD % WORD
    ensures (first + rest) % WORD == offset % WORD
  {
  }

  /** An access is accepted exactly when its path denotes its offset, modulo the width of a machine word. */
  lemma AcceptedIffDenoted(env: Ty, offset: nat, target: Ty)
    requires offset < WORD && EnterCut(env, offset, target).Path?
    ensures var o := EnterCut(env, offset, target);
      Denoted(env, o.indices).Some? && (o.rest == 0 <==> Denoted(env, o.indices).value.1 % WORD == offset)
  {
    EnterDenotes(env, offset, target);
    var o := EnterCut(env, offset, target);
    WholeOrNot(Denoted(env, o.indices).value.1, o.rest, offset);
  }

  lemma WholeOrNot(denoted: int, rest: nat, offset: nat)
    requires rest < WORD && offset < WORD && (denoted + rest) % WORD == offset % WORD
    ensures rest == 0 <==> denoted % WORD == offset
  {
  }
}
