/**
 Turning a byte offset into a member path: the descent through nested structs and arrays that
 replaces flat accesses to the emulated CPU state by accesses to its members.
 */
module Unflatten {
  import opened Options

  datatype Field = Field(offset: nat, ty: Ty)

  /** A type with its layout; pointers and numbers are scalars. */
  datatype Ty =
    | Scalar(id: nat, size: nat)
    | Array(elem: Ty, count: nat)
    | Struct(fields: seq<Field>, size: nat)

  function AllocSize(ty: Ty): nat {
    match ty
    case Scalar(_, size) => size
    case Array(elem, count) => count * AllocSize(elem)
    case Struct(_, size) => size
  }

  /** What a data layout guarantees: members in order, without overlap, the first one at the start. */
  predicate Laid(ty: Ty) {
    match ty
    case Scalar(_, _) => true
    case Array(elem, _) => Laid(elem)
    case Struct(fields, size) =>
      && (fields != [] ==> fields[0].offset == 0)
      && (forall i :: 0 <= i < |fields| ==> Laid(fields[i].ty) && fields[i].offset + AllocSize(fields[i].ty) <= size)
      && (forall i, j :: 0 <= i < j < |fields| ==> fields[i].offset + AllocSize(fields[i].ty) <= fields[j].offset)
  }

  /** Nothing in it is empty. */
  predicate Solid(ty: Ty) {
    match ty
    case Scalar(_, size) => size > 0
    case Array(elem, count) => count > 0 && Solid(elem)
    case Struct(fields, _) => fields != [] && forall i :: 0 <= i < |fields| ==> Solid(fields[i].ty)
  }

  /** The byte at offset belongs to a scalar: it is not padding, nor past the end. */
  predicate Covers(ty: Ty, offset: nat) {
    match ty
    case Scalar(_, size) => offset < size
    case Array(elem, count) => AllocSize(elem) > 0 && offset / AllocSize(elem) < count &&
      Covers(elem, offset % AllocSize(elem))
    case Struct(fields, _) =>
      exists i :: 0 <= i < |fields| && fields[i].offset <= offset < fields[i].offset + AllocSize(fields[i].ty) &&
        Covers(fields[i].ty, offset - fields[i].offset)
  }

  // ----- member paths -----

  function Member(ty: Ty, index: nat): Option<Ty> {
    match ty
    case Scalar(_, _) => None
    case Array(elem, _) => Some(elem)
    case Struct(fields, _) => if index < |fields| then Some(fields[index].ty) else None
  }

  function MemberOffset(ty: Ty, index: nat): nat
    requires Member(ty, index).Some?
  {
    match ty
    case Array(elem, _) => index * AllocSize(elem)
    case Struct(fields, _) => fields[index].offset
  }

  /** The type a path leads to, if the path makes sense; array bounds are not looked at. */
  function TypeAt(ty: Ty, path: seq<nat>): Option<Ty> {
    if path == [] then Some(ty)
    else match Member(ty, path[0])
      case None => None
      case Some(inner) => TypeAt(inner, path[1..])
  }

  function OffsetAt(ty: Ty, path: seq<nat>): nat
    requires TypeAt(ty, path).Some?
  {
    if path == [] then 0 else MemberOffset(ty, path[0]) + OffsetAt(Member(ty, path[0]).value, path[1..])
  }

  predicate InBounds(ty: Ty, path: seq<nat>)
    requires TypeAt(ty, path).Some?
  {
    path != [] ==> (ty.Array? ==> path[0] < ty.count) && InBounds(Member(ty, path[0]).value, path[1..])
  }

  // ----- one step -----

  /** How many of the fields start at or before the offset. */
  function StartedBy(fields: seq<Field>, offset: nat): (n: nat)
    ensures n <= |fields|
    ensures n > 0 ==> fields[n - 1].offset <= offset
    ensures n < |fields| ==> forall j :: n <= j < |fields| ==> fields[j].offset > offset
  {
    if fields == [] then 0
    else if fields[|fields| - 1].offset <= offset then |fields|
    else StartedBy(fields[..|fields| - 1], offset)
  }

  /** The member an offset belongs to: of a struct the last one that starts at or before it. */
  function GetMemberIndex(ty: Ty, offset: nat): Option<nat> {
    match ty
    case Scalar(_, _) => None
    case Array(elem, _) => if AllocSize(elem) == 0 then None else Some(offset / AllocSize(elem))
    case Struct(fields, _) => if StartedBy(fields, offset) == 0 then None else Some(StartedBy(fields, offset) - 1)
  }

  lemma IndexStartsBefore(ty: Ty, offset: nat)
    requires GetMemberIndex(ty, offset).Some?
    ensures Member(ty, GetMemberIndex(ty, offset).value).Some?
    ensures MemberOffset(ty, GetMemberIndex(ty, offset).value) <= offset
    ensures ty.Array? ==> offset - MemberOffset(ty, GetMemberIndex(ty, offset).value) == offset % AllocSize(ty.elem)
  {
    if ty.Array? {
      var size := AllocSize(ty.elem);
      assert offset == offset / size * size + offset % size;
    }
  }

  lemma ElementFits(k: nat, count: nat, size: nat, d: nat)
    requires k < count && d < size
    ensures k * size + d < count * size
  {
    var more: nat := count - k - 1;
    assert count * size == k * size + size + more * size;
  }

  lemma SameQuotient(q: nat, k: nat, size: nat, r: nat, d: nat)
    requires r < size && d < size && q * size + r == k * size + d
    ensures q == k
  {
    if q < k {
      ElementFits(q, k, size, r);
    } else if k < q {
      ElementFits(k, q, size, d);
    }
  }

  lemma DivideBack(k: nat, size: nat, d: nat)
    requires d < size
    ensures (k * size + d) / size == k && (k * size + d) % size == d
  {
    var sum := k * size + d;
    SameQuotient(sum / size, k, size, sum % size, d);
  }

  lemma FieldIndex(fields: seq<Field>, size: nat, index: nat, d: nat)
    requires Laid(Struct(fields, size)) && index < |fields| && d < AllocSize(fields[index].ty)
    ensures GetMemberIndex(Struct(fields, size), fields[index].offset + d) == Some(index)
  {
    var offset := fields[index].offset + d;
    assert forall j :: index < j < |fields| ==> fields[j].offset > offset;
    assert StartedBy(fields, offset) == index + 1;
  }

  lemma ElementIndex(elem: Ty, count: nat, index: nat, d: nat)
    requires d < AllocSize(elem)
    ensures GetMemberIndex(Array(elem, count), index * AllocSize(elem) + d) == Some(index)
  {
    DivideBack(index, AllocSize(elem), d);
  }

  /** The index found is that of the member whose bytes hold the offset. */
  lemma IndexOfMember(ty: Ty, index: nat, d: nat)
    requires Laid(ty) && Member(ty, index).Some? && d < AllocSize(Member(ty, index).value)
    ensures GetMemberIndex(ty, MemberOffset(ty, index) + d) == Some(index)
  {
    match ty
    case Array(elem, count) => ElementIndex(elem, count, index, d);
    case Struct(fields, size) => FieldIndex(fields, size, index, d);
  }

  // ----- the descent -----

  /** Where the descent ends: at a path with some bytes left over, or in a failed assertion. */
  datatype Outcome = Stopped(path: seq<nat>, ty: Ty, rest: nat) | Trap

  function Under(index: nat, o: Outcome): Outcome {
    if o.Trap? then Trap else Stopped([index] + o.path, o.ty, o.rest)
  }

  /** Descend until the wanted type or a scalar is met. */
  function Descend(ty: Ty, offset: nat, target: Ty): Outcome
    decreases ty, 1
  {
    if ty == target || ty.Scalar? then Stopped([], ty, offset) else Enter(ty, offset, target)
  }

  /** One step down, whatever the wanted type is. */
  function Enter(ty: Ty, offset: nat, target: Ty): Outcome
    decreases ty, 0
  {
    match GetMemberIndex(ty, offset)
    case None => Trap
    case Some(k) =>
      IndexStartsBefore(ty, offset);
      Under(k, Descend(Member(ty, k).value, offset - MemberOffset(ty, k), target))
  }

  // ----- what the descent finds -----

  ghost predicate Consistent(ty: Ty, offset: nat, target: Ty, o: Outcome) {
    o.Stopped? ==>
      && TypeAt(ty, o.path) == Some(o.ty)
      && OffsetAt(ty, o.path) + o.rest == offset
      && (o.ty == target || o.ty.Scalar?)
  }

  /** The first step is always taken, whatever the wanted type is. */
  lemma EnterStepsDown(ty: Ty, offset: nat, target: Ty)
    ensures Enter(ty, offset, target).Stopped? ==> Enter(ty, offset, target).path != []
  {
  }

  /** The path's offset and the rest always make up the offset asked for. */
  lemma {:induction false} DescendIsConsistent(ty: Ty, offset: nat, target: Ty)
    ensures Consistent(ty, offset, target, Descend(ty, offset, target))
    decreases ty
  {
    if ty != target && !ty.Scalar? {
      EnterIsConsistent(ty, offset, target);
    }
  }

  lemma {:induction false} EnterIsConsistent(ty: Ty, offset: nat, target: Ty)
    ensures Consistent(ty, offset, target, Enter(ty, offset, target))
    decreases ty, 0
  {
    if GetMemberIndex(ty, offset).Some? {
      IndexStartsBefore(ty, offset);
      var k := GetMemberIndex(ty, offset).value;
      var below := Descend(Member(ty, k).value, offset - MemberOffset(ty, k), target);
      DescendIsConsistent(Member(ty, k).value, offset - MemberOffset(ty, k), target);
      assert below.Stopped? ==> ([k] + below.path)[1..] == below.path;
    }
  }

  /** An access is accepted, with nothing left over, exactly when the path denotes the offset. */
  lemma AcceptedIffExact(env: Ty, offset: nat, target: Ty)
    requires Enter(env, offset, target).Stopped?
    ensures TypeAt(env, Enter(env, offset, target).path).Some?
    ensures Enter(env, offset, target).rest == 0 <==> OffsetAt(env, Enter(env, offset, target).path) == offset
  {
    EnterIsConsistent(env, offset, target);
  }

  ghost predicate Lands(ty: Ty, o: Outcome) {
    o.Stopped? && TypeAt(ty, o.path) == Some(o.ty) && InBounds(ty, o.path) && Covers(o.ty, o.rest)
  }

  /** From a byte that is not padding every index is in bounds, and nothing traps. */
  lemma {:induction false} DescendLands(ty: Ty, offset: nat, target: Ty)
    requires Laid(ty) && Covers(ty, offset)
    ensures Lands(ty, Descend(ty, offset, target))
    decreases ty
  {
    if ty != target && !ty.Scalar? {
      EnterLands(ty, offset, target);
    }
  }

  lemma ElementCovers(elem: Ty, count: nat, offset: nat) returns (k: nat, rest: nat)
    requires Covers(Array(elem, count), offset)
    ensures GetMemberIndex(Array(elem, count), offset) == Some(k) && k < count
    ensures k * AllocSize(elem) + rest == offset && Covers(elem, rest)
  {
    k, rest := offset / AllocSize(elem), offset % AllocSize(elem);
  }

  lemma FieldCovers(fields: seq<Field>, size: nat, offset: nat) returns (k: nat, rest: nat)
    requires Laid(Struct(fields, size)) && Covers(Struct(fields, size), offset)
    ensures GetMemberIndex(Struct(fields, size), offset) == Some(k) && k < |fields|
    ensures fields[k].offset + rest == offset && Covers(fields[k].ty, rest)
  {
    k :| 0 <= k < |fields| && fields[k].offset <= offset < fields[k].offset + AllocSize(fields[k].ty) &&
         Covers(fields[k].ty, offset - fields[k].offset);
    rest := offset - fields[k].offset;
    FieldIndex(fields, size, k, rest);
  }

  /** The member found for a byte that is not padding holds it, and not as padding either. */
  lemma MemberCovers(ty: Ty, offset: nat) returns (k: nat, inner: Ty, rest: nat)
    requires Laid(ty) && Covers(ty, offset) && !ty.Scalar?
    ensures GetMemberIndex(ty, offset) == Some(k) && Member(ty, k) == Some(inner)
    ensures MemberOffset(ty, k) + rest == offset && (ty.Array? ==> k < ty.count)
    ensures Laid(inner) && Covers(inner, rest) && inner < ty
  {
    match ty
    case Array(elem, count) =>
      k, rest := ElementCovers(elem, count, offset);
      inner := elem;
    case Struct(fields, size) =>
      k, rest := FieldCovers(fields, size, offset);
      inner := fields[k].ty;
  }

  lemma UnderLands(ty: Ty, k: nat, inner: Ty, below: Outcome)
    requires Member(ty, k) == Some(inner) && (ty.Array? ==> k < ty.count) && Lands(inner, below)
    ensures Lands(ty, Under(k, below))
  {
    assert ([k] + below.path)[1..] == below.path;
  }

  lemma {:induction false} EnterLands(ty: Ty, offset: nat, target: Ty)
    requires Laid(ty) && Covers(ty, offset) && !ty.Scalar?
    ensures Lands(ty, Enter(ty, offset, target))
    decreases ty, 0
  {
    var k, inner, rest := MemberCovers(ty, offset);
    DescendLands(inner, rest, target);
    UnderLands(ty, k, inner, Descend(inner, rest, target));
  }

  // ----- every member is found -----

  function Depth(ty: Ty): nat {
    match ty
    case Scalar(_, _) => 0
    case Array(elem, _) => 1 + Depth(elem)
    case Struct(fields, _) => 1 + DepthOf(ty, |fields|)
  }

  function DepthOf(ty: Ty, n: nat): (d: nat)
    requires ty.Struct? && n <= |ty.fields|
    ensures forall i :: 0 <= i < n ==> Depth(ty.fields[i].ty) <= d
    decreases ty, n
  {
    if n == 0 then 0
    else
      var rest := DepthOf(ty, n - 1);
      if Depth(ty.fields[n - 1].ty) > rest then Depth(ty.fields[n - 1].ty) else rest
  }

  lemma {:induction false} InsideIsSmaller(ty: Ty, path: seq<nat>)
    requires TypeAt(ty, path).Some?
    ensures Depth(TypeAt(ty, path).value) + |path| <= Depth(ty)
    decreases path
  {
    if path != [] {
      InsideIsSmaller(Member(ty, path[0]).value, path[1..]);
    }
  }

  lemma {:induction false} PathEndsInside(ty: Ty, path: seq<nat>, d: nat)
    requires Laid(ty) && TypeAt(ty, path).Some? && InBounds(ty, path) && d < AllocSize(TypeAt(ty, path).value)
    ensures OffsetAt(ty, path) + d < AllocSize(ty)
    decreases path
  {
    if path != [] {
      PathEndsInside(Member(ty, path[0]).value, path[1..], d);
      if ty.Array? {
        ElementFits(path[0], ty.count, AllocSize(ty.elem), OffsetAt(ty.elem, path[1..]) + d);
      }
    }
  }

  /** Any byte of any member of the wanted type leads to that member. */
  lemma {:induction false} DescendFinds(ty: Ty, path: seq<nat>, d: nat, target: Ty)
    requires Laid(ty) && TypeAt(ty, path) == Some(target) && InBounds(ty, path) && d < AllocSize(target)
    ensures Descend(ty, OffsetAt(ty, path) + d, target) == Stopped(path, target, d)
    decreases path
  {
    if path != [] {
      InsideIsSmaller(ty, path);
      EnterFinds(ty, path, d, target);
    }
  }

  lemma {:induction false} EnterFinds(ty: Ty, path: seq<nat>, d: nat, target: Ty)
    requires Laid(ty) && path != [] && TypeAt(ty, path) == Some(target) && InBounds(ty, path) && d < AllocSize(target)
    ensures Enter(ty, OffsetAt(ty, path) + d, target) == Stopped(path, target, d)
    decreases path, 0
  {
    var inner, rest := Member(ty, path[0]).value, path[1..];
    PathEndsInside(inner, rest, d);
    DescendFinds(inner, rest, d, target);
    EnterAt(ty, path[0], inner, OffsetAt(inner, rest) + d, OffsetAt(ty, path) + d, target, Stopped(rest, target, d));
    UnderPath(path, target, d);
  }

  lemma UnderPath(path: seq<nat>, ty: Ty, d: nat)
    requires path != []
    ensures Under(path[0], Stopped(path[1..], ty, d)) == Stopped(path, ty, d)
  {
    assert [path[0]] + path[1..] == path;
  }

  lemma EnterAt(ty: Ty, k: nat, inner: Ty, d: nat, offset: nat, target: Ty, o: Outcome)
    requires Laid(ty) && Member(ty, k) == Some(inner) && d < AllocSize(inner) && offset == MemberOffset(ty, k) + d
    requires o == Descend(inner, d, target)
    ensures Enter(ty, offset, target) == Under(k, o)
  {
    IndexOfMember(ty, k, d);
    EnterStep(ty, k, inner, d, offset, target);
  }

  lemma EnterStep(ty: Ty, k: nat, inner: Ty, d: nat, offset: nat, target: Ty)
    requires Member(ty, k) == Some(inner) && offset == MemberOffset(ty, k) + d && GetMemberIndex(ty, offset) == Some(k)
    ensures Enter(ty, offset, target) == Under(k, Descend(inner, d, target))
  {
  }

  // ----- padding -----

  lemma {:induction false} StartIsCovered(ty: Ty)
    requires Laid(ty) && Solid(ty)
    ensures Covers(ty, 0) && AllocSize(ty) > 0
  {
    match ty
    case Scalar(_, _) =>
    case Array(elem, count) =>
      StartIsCovered(elem);
      assert count * AllocSize(elem) >= AllocSize(elem);
    case Struct(fields, _) =>
      StartIsCovered(fields[0].ty);
      assert fields[0].offset == 0;
  }

  lemma SolidStruct(fields: seq<Field>, size: nat, offset: nat)
    requires Laid(Struct(fields, size)) && Solid(Struct(fields, size))
    ensures GetMemberIndex(Struct(fields, size), offset).Some?
  {
    assert fields[0].offset == 0;
  }

  lemma SolidMember(ty: Ty, offset: nat) returns (k: nat, inner: Ty, rest: nat)
    requires Laid(ty) && Solid(ty) && !ty.Scalar?
    ensures GetMemberIndex(ty, offset) == Some(k) && Member(ty, k) == Some(inner)
    ensures MemberOffset(ty, k) + rest == offset
    ensures Laid(inner) && Solid(inner) && inner < ty
  {
    match ty {
      case Array(elem, _) => StartIsCovered(elem);
      case Struct(fields, size) => SolidStruct(fields, size, offset);
    }
    IndexStartsBefore(ty, offset);
    k := GetMemberIndex(ty, offset).value;
    inner, rest := Member(ty, k).value, offset - MemberOffset(ty, k);
  }

  /** In a layout in which nothing is empty the descent ends somewhere, whatever the offset. */
  lemma {:induction false} NeverTraps(ty: Ty, offset: nat, target: Ty)
    requires Laid(ty) && Solid(ty)
    ensures Descend(ty, offset, target).Stopped?
    ensures !ty.Scalar? ==> Enter(ty, offset, target).Stopped?
    decreases ty
  {
    if !ty.Scalar? {
      var k, inner, rest := SolidMember(ty, offset);
      NeverTraps(inner, rest, target);
      EnterStep(ty, k, inner, rest, offset, target);
    }
  }

  lemma {:induction false} CoveredThrough(ty: Ty, path: seq<nat>, d: nat)
    requires Laid(ty) && TypeAt(ty, path).Some? && InBounds(ty, path)
    requires d < AllocSize(TypeAt(ty, path).value) && Covers(TypeAt(ty, path).value, d)
    ensures Covers(ty, OffsetAt(ty, path) + d)
    decreases path
  {
    if path != [] {
      var inner := Member(ty, path[0]).value;
      CoveredThrough(inner, path[1..], d);
      PathEndsInside(inner, path[1..], d);
      if ty.Array? {
        DivideBack(path[0], AllocSize(inner), OffsetAt(inner, path[1..]) + d);
      } else {
        assert ty.fields[path[0]].offset <= OffsetAt(ty, path) + d;
      }
    }
  }

  lemma {:induction false} SolidInside(ty: Ty, path: seq<nat>)
    requires Laid(ty) && Solid(ty) && TypeAt(ty, path).Some?
    ensures Laid(TypeAt(ty, path).value) && Solid(TypeAt(ty, path).value)
    decreases path
  {
    if path != [] {
      SolidInside(Member(ty, path[0]).value, path[1..]);
    }
  }

  /** Of the accesses accepted, those in bounds are exactly the ones that are not to padding. */
  lemma AcceptedInBoundsIff(env: Ty, offset: nat, target: Ty)
    requires env.Struct? && Laid(env) && Solid(env)
    requires Enter(env, offset, target).Stopped? && Enter(env, offset, target).rest == 0
    ensures TypeAt(env, Enter(env, offset, target).path).Some?
    ensures InBounds(env, Enter(env, offset, target).path) <==> Covers(env, offset)
  {
    var o := Enter(env, offset, target);
    EnterIsConsistent(env, offset, target);
    SolidInside(env, o.path);
    StartIsCovered(o.ty);
    if InBounds(env, o.path) {
      CoveredThrough(env, o.path, 0);
    }
    if Covers(env, offset) {
      EnterLands(env, offset, target);
    }
  }

  /** The padding byte after a three byte array is accepted, as a fourth element of the array. */
  lemma PaddingAccepted()
    ensures var byte := Scalar(8, 1);
            var env := Struct([Field(0, Array(byte, 3)), Field(4, Scalar(32, 4))], 8);
            && Laid(env) && !Covers(env, 3)
            && Enter(env, 3, byte) == Stopped([0, 3], byte, 0)
            && !InBounds(env, [0, 3])
  {
    var byte := Scalar(8, 1);
    var triple := Array(byte, 3);
    var env := Struct([Field(0, triple), Field(4, Scalar(32, 4))], 8);
    assert env.fields[..1] == [Field(0, triple)];
    assert StartedBy(env.fields, 3) == 1;
    assert Enter(triple, 3, byte) == Under(3, Descend(byte, 0, byte));
    assert [0, 3][1..] == [3];
  }
}
