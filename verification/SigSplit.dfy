/** Splitting a C function signature into its return type and its argument types. */
module SigSplit {

  import opened Options
  import opened Text

  datatype Signature = Signature(ret: string, args: seq<string>)

  // ----- the argument list -----

  function Step(c: char): int {
    if c == '(' then 1 else if c == ')' then -1 else 0
  }

  /** How many more parentheses s closes than it opens. */
  function Closing(s: string): int {
    if s == [] then 0 else Closing(s[1..]) - Step(s[0])
  }

  /** The same for what is behind position k. */
  function ClosingFrom(s: string, k: nat): int
    requires k <= |s|
  {
    Closing(s[k..])
  }

  /** Counting back from the end, where the last group of parentheses begins; position 0 is never looked at. */
  function ArgListStart(sig: string, from: nat): (i: nat)
    requires 1 <= from < |sig|
    ensures 1 <= i <= from
  {
    if from == 1 || ClosingFrom(sig, from) == 0 then from else ArgListStart(sig, from - 1)
  }

  /** The source's first loop. */
  method FindArgList(sig: string) returns (i: nat)
    requires |sig| >= 2
    ensures i == ArgListStart(sig, |sig| - 1)
  {
    var parenCount := 0;
    i := |sig| - 1;
    assert sig[|sig|..] == [];
    while true
      invariant 1 <= i < |sig|
      invariant parenCount == Closing(sig[i + 1..])
      invariant ArgListStart(sig, |sig| - 1) == ArgListStart(sig, i)
      decreases i
    {
      assert sig[i..] == [sig[i]] + sig[i + 1..];
      if sig[i] == ')' {
        parenCount := parenCount + 1;
      } else if sig[i] == '(' {
        parenCount := parenCount - 1;
      }
      if parenCount == 0 || i == 1 {
        break;
      }
      i := i - 1;
    }
  }

  // ----- the arguments -----

  function Glue(head: string, pieces: seq<string>): (r: seq<string>)
    requires pieces != []
    ensures |r| == |pieces|
  {
    [head + pieces[0]] + pieces[1..]
  }

  /** The text between the commas that are outside all parentheses. */
  function Pieces(s: string, depth: int): (r: seq<string>)
    ensures r != []
    decreases |s|
  {
    if s == [] then [[]]
    else if s[0] == ',' && depth == 0 then [[]] + Pieces(s[1..], depth)
    else Glue([s[0]], Pieces(s[1..], depth + Step(s[0])))
  }

  function StripAll(pieces: seq<string>): (r: seq<string>)
    ensures |r| == |pieces|
  {
    if pieces == [] then [] else StripAll(pieces[..|pieces| - 1]) + [Strip(pieces[|pieces| - 1])]
  }

  /** The pieces stripped; an empty last one does not count, and a lone void means none. */
  function ArgTypes(pieces: seq<string>): seq<string>
    requires pieces != []
  {
    var last := Strip(pieces[|pieces| - 1]);
    NoVoid(StripAll(pieces[..|pieces| - 1]) + if last == [] then [] else [last])
  }

  function NoVoid(args: seq<string>): seq<string> {
    if args == ["void"] then [] else args
  }

  /** No white space at either end. */
  predicate Bare(s: string) {
    s == [] || Trimmed(s)
  }

  lemma StripBare(s: string)
    ensures Bare(Strip(s))
  {
    var a, b := StripTakes(s);
  }

  lemma {:induction false} StripAllBare(pieces: seq<string>)
    ensures forall i :: 0 <= i < |pieces| ==> Bare(StripAll(pieces)[i])
    decreases |pieces|
  {
    if pieces != [] {
      StripAllBare(pieces[..|pieces| - 1]);
      StripBare(pieces[|pieces| - 1]);
    }
  }

  lemma ArgsBare(pieces: seq<string>)
    requires pieces != []
    ensures forall i :: 0 <= i < |ArgTypes(pieces)| ==> Bare(ArgTypes(pieces)[i])
  {
    StripAllBare(pieces[..|pieces| - 1]);
    StripBare(pieces[|pieces| - 1]);
  }

  lemma GlueTwice(a: string, b: string, pieces: seq<string>)
    requires pieces != []
    ensures Glue(a, Glue(b, pieces)) == Glue(a + b, pieces)
  {
    assert a + (b + pieces[0]) == (a + b) + pieces[0];
  }

  lemma GlueNothing(pieces: seq<string>)
    requires pieces != []
    ensures Glue([], pieces) == pieces
  {
    assert [] + pieces[0] == pieces[0];
  }

  lemma GlueAtComma(a: string, pieces: seq<string>)
    ensures Glue(a, [[]] + pieces) == [a] + pieces
  {
    assert a + [] == a;
  }

  /** Up to position i the stripped pieces are args, and the next one begins at start. */
  ghost predicate Parted(arg: string, args: seq<string>, start: nat, i: nat, depth: int) {
    start <= i <= |arg| && exists done :: Done(arg, done, args, start, i, depth)
  }

  ghost predicate Done(arg: string, done: seq<string>, args: seq<string>, start: nat, i: nat, depth: int)
    requires start <= i <= |arg|
  {
    args == StripAll(done) && Pieces(arg, 0) == done + Glue(arg[start..i], Pieces(arg[i..], depth))
  }

  lemma PartedStart(arg: string)
    ensures Parted(arg, [], 0, 0, 0)
  {
    assert arg[0..0] == [] && arg[0..] == arg;
    GlueNothing(Pieces(arg, 0));
    assert Done(arg, [], [], 0, 0, 0);
  }

  lemma PartedComma(arg: string, args: seq<string>, start: nat, i: nat)
    requires Parted(arg, args, start, i, 0) && i < |arg| && arg[i] == ','
    ensures Parted(arg, args + [Strip(arg[start..i])], i + 1, i + 1, 0)
  {
    var done :| Done(arg, done, args, start, i, 0);
    var after, piece := Pieces(arg[i + 1..], 0), arg[start..i];
    AtComma(arg, i, piece, after);
    GlueNothing(after);
    assert done + ([piece] + after) == (done + [piece]) + after;
    assert arg[i + 1..i + 1] == [];
    StripMore(done, piece);
    assert Done(arg, done + [piece], args + [Strip(piece)], i + 1, i + 1, 0);
  }

  lemma AtComma(arg: string, i: nat, piece: string, after: seq<string>)
    requires i < |arg| && arg[i] == ',' && after == Pieces(arg[i + 1..], 0)
    ensures Glue(piece, Pieces(arg[i..], 0)) == [piece] + after
  {
    assert arg[i..][1..] == arg[i + 1..];
    GlueAtComma(piece, after);
  }

  lemma StripMore(done: seq<string>, piece: string)
    ensures StripAll(done + [piece]) == StripAll(done) + [Strip(piece)]
  {
    assert (done + [piece])[..|done|] == done;
  }

  lemma PieceGrows(arg: string, start: nat, i: nat, depth: int)
    requires start <= i < |arg| && !(arg[i] == ',' && depth == 0)
    ensures Glue(arg[start..i], Pieces(arg[i..], depth)) ==
      Glue(arg[start..i + 1], Pieces(arg[i + 1..], depth + Step(arg[i])))
  {
    var after := Pieces(arg[i + 1..], depth + Step(arg[i]));
    assert arg[i..][1..] == arg[i + 1..];
    GlueTwice(arg[start..i], [arg[i]], after);
    assert arg[start..i] + [arg[i]] == arg[start..i + 1];
  }

  lemma PartedOther(arg: string, args: seq<string>, start: nat, i: nat, depth: int)
    requires Parted(arg, args, start, i, depth) && i < |arg| && !(arg[i] == ',' && depth == 0)
    ensures Parted(arg, args, start, i + 1, depth + Step(arg[i]))
  {
    var done :| Done(arg, done, args, start, i, depth);
    PieceGrows(arg, start, i, depth);
    assert Done(arg, done, args, start, i + 1, depth + Step(arg[i]));
  }

  /** The arguments, given those before the last piece. */
  function WithLast(args: seq<string>, last: string): seq<string> {
    NoVoid(args + if last == [] then [] else [last])
  }

  lemma PartedEnd(arg: string, args: seq<string>, start: nat, depth: int)
    requires Parted(arg, args, start, |arg|, depth)
    ensures ArgTypes(Pieces(arg, 0)) == WithLast(args, Strip(arg[start..]))
  {
    var done :| Done(arg, done, args, start, |arg|, depth);
    assert arg[|arg|..] == [];
    assert arg[start..|arg|] + [] == arg[start..];
    assert (done + [arg[start..]])[..|done|] == done;
  }

  /** The source's second loop. */
  method SplitArgs(arg: string) returns (args: seq<string>)
    ensures args == ArgTypes(Pieces(arg, 0))
    ensures forall i :: 0 <= i < |args| ==> Bare(args[i])
  {
    var parenCount, argStart, i := 0, 0, 0;
    args := [];
    PartedStart(arg);
    while i < |arg|
      invariant argStart <= i <= |arg|
      invariant Parted(arg, args, argStart, i, parenCount)
    {
      var c := arg[i];
      if c == '(' {
        PartedOther(arg, args, argStart, i, parenCount);
        parenCount := parenCount + 1;
      } else if c == ')' {
        PartedOther(arg, args, argStart, i, parenCount);
        parenCount := parenCount - 1;
      } else if c == ',' && parenCount == 0 {
        PartedComma(arg, args, argStart, i);
        args := args + [Strip(arg[argStart..i])];
        argStart := i + 1;
      } else {
        PartedOther(arg, args, argStart, i, parenCount);
      }
      i := i + 1;
    }
    PartedEnd(arg, args, argStart, parenCount);
    args := AddLast(args, Strip(arg[argStart..]));
    ArgsBare(Pieces(arg, 0));
  }

  method AddLast(before: seq<string>, lastArg: string) returns (args: seq<string>)
    ensures args == WithLast(before, lastArg)
  {
    args := before;
    if lastArg != [] {
      args := args + [lastArg];
    }
    if args == ["void"] {
      args := [];
    }
  }

  // ----- the whole -----

  function SplitSpec(sig: string): Option<Signature> {
    if |sig| < 2 then None
    else
      var i := ArgListStart(sig, |sig| - 1);
      var arg := if i + 1 <= |sig| - 1 then sig[i + 1..|sig| - 1] else [];
      Some(Signature(Strip(sig[..i]), ArgTypes(Pieces(arg, 0))))
  }

  /** A text of less than two characters leaves the loop variable unset, which is an error. */
  method SplitFunctionSignature(sig: string) returns (r: Option<Signature>)
    ensures r == SplitSpec(sig)
    ensures r.None? <==> |sig| < 2
    ensures r.Some? ==> Bare(r.value.ret) && forall i :: 0 <= i < |r.value.args| ==> Bare(r.value.args[i])
  {
    if |sig| < 2 {
      return None;
    }
    var i := FindArgList(sig);
    var arg := if i + 1 <= |sig| - 1 then sig[i + 1..|sig| - 1] else [];
    var args := SplitArgs(arg);
    StripBare(sig[..i]);
    r := Some(Signature(Strip(sig[..i]), args));
  }

  // ----- printing a signature and splitting it again -----

  function Join(args: seq<string>): string {
    if args == [] then [] else if |args| == 1 then args[0] else args[0] + ", " + Join(args[1..])
  }

  function Print(ret: string, args: seq<string>): string {
    ret + "(" + Join(args) + ")"
  }

  /** From depth on, s closes all it opens, closes nothing else, and has no comma outside parentheses. */
  predicate Clean(s: string, depth: int) {
    if s == [] then depth == 0
    else !(s[0] == ',' && depth == 0) && depth + Step(s[0]) >= 0 && Clean(s[1..], depth + Step(s[0]))
  }

  predicate GoodArgs(args: seq<string>) {
    forall i :: 0 <= i < |args| ==> Trimmed(args[i]) && Clean(args[i], 0)
  }

  lemma {:induction false} CleanPieces(a: string, depth: int, rest: string)
    requires Clean(a, depth)
    ensures Pieces(a + rest, depth) == Glue(a, Pieces(rest, 0))
    decreases |a|
  {
    if a == [] {
      assert a + rest == rest;
      GlueNothing(Pieces(rest, 0));
    } else {
      assert (a + rest)[1..] == a[1..] + rest;
      CleanPieces(a[1..], depth + Step(a[0]), rest);
      GlueTwice([a[0]], a[1..], Pieces(rest, 0));
      assert [a[0]] + a[1..] == a;
    }
  }

  /** Texts with commas between them. */
  function Commas(texts: seq<string>): string {
    if texts == [] then [] else if |texts| == 1 then texts[0] else texts[0] + "," + Commas(texts[1..])
  }

  predicate AllClean(texts: seq<string>) {
    forall i :: 0 <= i < |texts| ==> Clean(texts[i], 0)
  }

  lemma {:induction false} CommasPieces(texts: seq<string>)
    requires texts != [] && AllClean(texts)
    ensures Pieces(Commas(texts), 0) == texts
    decreases |texts|
  {
    if |texts| == 1 {
      CleanPieces(texts[0], 0, []);
      assert texts[0] + [] == texts[0];
      assert Glue(texts[0], [[]]) == [texts[0]];
    } else {
      var rest := Commas(texts[1..]);
      CommasPieces(texts[1..]);
      assert Commas(texts) == texts[0] + ("," + rest);
      assert ("," + rest)[1..] == rest;
      CleanPieces(texts[0], 0, "," + rest);
      GlueAtComma(texts[0], texts[1..]);
    }
  }

  lemma {:induction false} CleanAppend(a: string, depth: int, b: string)
    requires Clean(a, depth) && Clean(b, 0)
    ensures Clean(a + b, depth)
    decreases |a|
  {
    if a == [] {
      assert a + b == b;
    } else {
      assert (a + b)[1..] == a[1..] + b;
      CleanAppend(a[1..], depth + Step(a[0]), b);
    }
  }

  lemma {:induction false} BlankClean(s: string)
    requires Blank(s)
    ensures Clean(s, 0)
  {
    if s != [] {
      BlankClean(s[1..]);
    }
  }

  // ----- white space around the arguments -----

  /** The argument with white space around it. */
  ghost predicate Pads(padded: string, arg: string) {
    exists a, b :: Padding(padded, a, arg, b)
  }

  predicate Padding(padded: string, a: string, arg: string, b: string) {
    padded == a + arg + b && Blank(a) && Blank(b)
  }

  /** Every argument with white space around it; without arguments there may be white space, too. */
  ghost predicate PadsAll(padded: seq<string>, args: seq<string>) {
    || (|padded| == |args| && forall i :: 0 <= i < |args| ==> Pads(padded[i], args[i]))
    || (args == [] && |padded| == 1 && Blank(padded[0]))
  }

  lemma PadsClean(padded: string, arg: string)
    requires Pads(padded, arg) && Clean(arg, 0)
    ensures Clean(padded, 0)
  {
    var a, b :| Padding(padded, a, arg, b);
    BlankClean(a);
    BlankClean(b);
    CleanAppend(a, 0, arg);
    CleanAppend(a + arg, 0, b);
  }

  lemma PadsAllClean(padded: seq<string>, args: seq<string>)
    requires PadsAll(padded, args) && GoodArgs(args)
    ensures AllClean(padded)
  {
    forall i | 0 <= i < |padded| ensures Clean(padded[i], 0) {
      if args == [] {
        BlankClean(padded[i]);
      } else {
        PadsClean(padded[i], args[i]);
      }
    }
  }

  lemma PadsStrip(padded: string, arg: string)
    requires Pads(padded, arg) && Trimmed(arg)
    ensures Strip(padded) == arg
  {
    var a, b :| Padding(padded, a, arg, b);
    StripPadded(a, arg, b);
  }

  lemma {:induction false} StripPads(padded: seq<string>, args: seq<string>, n: nat)
    requires n <= |padded| == |args| && GoodArgs(args) && forall i :: 0 <= i < |args| ==> Pads(padded[i], args[i])
    ensures StripAll(padded[..n]) == args[..n]
  {
    if n > 0 {
      StripPads(padded, args, n - 1);
      PadsStrip(padded[n - 1], args[n - 1]);
      assert padded[..n][..n - 1] == padded[..n - 1];
      assert args[..n] == args[..n - 1] + [args[n - 1]];
    }
  }

  lemma BlankGone(blank: string)
    requires Blank(blank)
    ensures Strip(blank) == []
  {
    StripPadded(blank, [], []);
    assert blank + [] + [] == blank;
  }

  lemma PiecesComeBack(padded: seq<string>, args: seq<string>)
    requires args != [] && GoodArgs(args) && PadsAll(padded, args)
    ensures ArgTypes(padded) == NoVoid(args)
  {
    var n := |args| - 1;
    StripPads(padded, args, n);
    PadsStrip(padded[n], args[n]);
    assert args[..n] + [args[n]] == args;
  }

  lemma ArgsComeBack(padded: seq<string>, args: seq<string>)
    requires GoodArgs(args) && PadsAll(padded, args)
    ensures ArgTypes(Pieces(Commas(padded), 0)) == NoVoid(args)
  {
    if padded == [] {
      BlankGone([]);
    } else {
      PadsAllClean(padded, args);
      CommasPieces(padded);
      if args == [] {
        BlankGone(padded[0]);
      } else {
        PiecesComeBack(padded, args);
      }
    }
  }

  // ----- finding the argument list -----

  lemma {:induction false} ClosingOfConcat(a: string, b: string)
    ensures Closing(a + b) == Closing(a) + Closing(b)
  {
    if a == [] {
      assert a + b == b;
    } else {
      assert (a + b)[1..] == a[1..] + b;
      ClosingOfConcat(a[1..], b);
    }
  }

  lemma {:induction false} CleanTotal(s: string, depth: int)
    requires Clean(s, depth)
    ensures Closing(s) == depth
    decreases |s|
  {
    if s != [] {
      CleanTotal(s[1..], depth + Step(s[0]));
    }
  }

  /** A clean text's tails close at least as much as they open. */
  lemma {:induction false} CleanTails(s: string, depth: int, k: nat)
    requires Clean(s, depth) && depth >= 0 && k <= |s|
    ensures ClosingFrom(s, k) >= 0
    decreases k
  {
    if k == 0 {
      CleanTotal(s, depth);
      assert s[0..] == s;
    } else {
      CleanTails(s[1..], depth + Step(s[0]), k - 1);
      assert s[k..] == s[1..][k - 1..];
    }
  }

  lemma CleanConcat(a: string, depth: int, b: string)
    requires Clean(a, depth) && forall i :: 0 <= i <= |b| ==> ClosingFrom(b, i) >= 0
    requires depth >= 0
    ensures forall k :: 0 <= k <= |a + b| ==> ClosingFrom(a + b, k) >= 0
  {
    forall k | 0 <= k <= |a + b| ensures ClosingFrom(a + b, k) >= 0 {
      if k <= |a| {
        assert (a + b)[k..] == a[k..] + b;
        ClosingOfConcat(a[k..], b);
        CleanTails(a, depth, k);
        assert ClosingFrom(b, 0) >= 0 && b[0..] == b;
      } else {
        assert (a + b)[k..] == b[k - |a|..] && ClosingFrom(b, k - |a|) >= 0;
      }
    }
  }

  lemma {:induction false} CommasTails(texts: seq<string>)
    requires AllClean(texts)
    ensures Closing(Commas(texts)) == 0
    ensures forall k :: 0 <= k <= |Commas(texts)| ==> ClosingFrom(Commas(texts), k) >= 0
    decreases |texts|
  {
    if |texts| == 1 {
      CleanConcat(texts[0], 0, []);
      CleanTotal(texts[0], 0);
      assert texts[0] + [] == texts[0];
    } else if |texts| > 1 {
      var rest := Commas(texts[1..]);
      CommasTails(texts[1..]);
      assert Commas(texts) == texts[0] + ("," + rest);
      forall i | 0 <= i <= |"," + rest| ensures ClosingFrom("," + rest, i) >= 0 {
        ConsTail(',', rest, i);
      }
      CleanConcat(texts[0], 0, "," + rest);
      ClosingOfConcat(texts[0], "," + rest);
      CleanTotal(texts[0], 0);
      ClosingAfter(',', rest);
    }
  }

  lemma ClosingAfter(c: char, rest: string)
    requires Step(c) == 0
    ensures Closing([c] + rest) == Closing(rest)
  {
    assert ([c] + rest)[1..] == rest;
  }

  lemma ConsTail(c: char, rest: string, i: nat)
    requires i <= |rest| + 1 && Step(c) == 0 && ClosingFrom(rest, if i == 0 then 0 else i - 1) >= 0
    ensures ClosingFrom([c] + rest, i) >= 0
  {
    if i == 0 {
      ClosingAfter(c, rest);
      assert ([c] + rest)[0..] == [c] + rest && rest[0..] == rest;
    } else {
      assert ([c] + rest)[i..] == rest[i - 1..];
    }
  }

  lemma {:induction false} ScanStops(sig: string, from: nat, open: nat)
    requires open <= from < |sig| && 1 <= from
    requires ClosingFrom(sig, open) == 0 && forall k :: open < k <= from ==> ClosingFrom(sig, k) > 0
    ensures ArgListStart(sig, from) == if open == 0 then 1 else open
  {
    if from != open && from != 1 {
      ScanStops(sig, from - 1, open);
    }
  }

  /** The opening parenthesis found is that of the list, unless it is the first character. */
  lemma ListStart(front: string, texts: seq<string>)
    requires AllClean(texts)
    ensures var sig := front + "(" + Commas(texts) + ")";
      ArgListStart(sig, |sig| - 1) == if front == [] then 1 else |front|
  {
    var sig := front + "(" + Commas(texts) + ")";
    CommasTails(texts);
    ListTails(front, Commas(texts));
    ScanStops(sig, |sig| - 1, |front|);
  }

  lemma TailOf(front: string, back: string, k: nat)
    requires |front| <= k <= |front + back|
    ensures (front + back)[k..] == back[k - |front|..]
  {
  }

  lemma ClosedTail(join: string, k: nat)
    requires k <= |join| && ClosingFrom(join, k) >= 0
    ensures ClosingFrom(join + ")", k) > 0
  {
    assert (join + ")")[k..] == join[k..] + ")";
    ClosingOfConcat(join[k..], ")");
    assert Closing(")") == 1;
  }

  lemma InsideTails(open: string, join: string)
    requires forall k :: 0 <= k <= |join| ==> ClosingFrom(join, k) >= 0
    ensures forall k :: |open| <= k < |open + (join + ")")| ==> ClosingFrom(open + (join + ")"), k) > 0
  {
    forall k | |open| <= k < |open + (join + ")")| ensures ClosingFrom(open + (join + ")"), k) > 0 {
      TailOf(open, join + ")", k);
      ClosedTail(join, k - |open|);
    }
  }

  lemma AtOpen(ret: string, join: string)
    requires Closing(join) == 0
    ensures ClosingFrom(ret + (['('] + (join + ")")), |ret|) == 0
  {
    var close := join + ")";
    TailOf(ret, ['('] + close, |ret|);
    assert (['('] + close)[0..] == ['('] + close && (['('] + close)[1..] == close;
    ClosingOfConcat(join, ")");
    assert Closing(")") == 1;
  }

  /** Only at the opening parenthesis of the list are all that were closed opened again. */
  lemma ListTails(ret: string, join: string)
    requires Closing(join) == 0 && forall k :: 0 <= k <= |join| ==> ClosingFrom(join, k) >= 0
    ensures var sig := ret + "(" + join + ")";
            ClosingFrom(sig, |ret|) == 0 && forall k :: |ret| < k < |sig| ==> ClosingFrom(sig, k) > 0
  {
    var sig := ret + "(" + join + ")";
    InsideTails(ret + "(", join);
    AtOpen(ret, join);
    assert sig == (ret + "(") + (join + ")");
    assert sig == ret + (['('] + (join + ")"));
  }

  /**
   Any text with this return type and these arguments, and any white space around them, is split into
   them. A lone void means no arguments.
   */
  lemma PaddedComesBack(ret: string, before: string, after: string, args: seq<string>, padded: seq<string>)
    requires GoodArgs(args) && Trimmed(ret) && Blank(before) && Blank(after) && PadsAll(padded, args)
    ensures SplitSpec(before + ret + after + "(" + Commas(padded) + ")") ==
      Some(Signature(ret, if args == ["void"] then [] else args))
  {
    var front := before + ret + after;
    var sig := front + "(" + Commas(padded) + ")";
    PadsAllClean(padded, args);
    ListStart(front, padded);
    assert sig[..|front|] == front;
    assert sig[|front| + 1..|sig| - 1] == Commas(padded);
    StripPadded(before, ret, after);
    ArgsComeBack(padded, args);
  }

  /** Every argument but the first has the space printed before it. */
  function Spaced(first: string, args: seq<string>): (r: seq<string>)
    ensures |r| == |args|
    decreases |args|
  {
    if args == [] then [] else [first + args[0]] + Spaced(" ", args[1..])
  }

  lemma {:induction false} SpacedPads(first: string, args: seq<string>)
    requires Blank(first)
    ensures PadsAll(Spaced(first, args), args)
    decreases |args|
  {
    if args != [] {
      SpacedPads(" ", args[1..]);
      assert Padding(Spaced(first, args)[0], first, args[0], "");
      forall i | 1 <= i < |args| ensures Pads(Spaced(first, args)[i], args[i]) {
        assert Spaced(first, args)[i] == Spaced(" ", args[1..])[i - 1] && args[i] == args[1..][i - 1];
      }
    }
  }

  lemma {:induction false} SpacedJoin(first: string, args: seq<string>)
    requires args != []
    ensures Commas(Spaced(first, args)) == first + Join(args)
    decreases |args|
  {
    if |args| > 1 {
      var rest := args[1..];
      SpacedJoin(" ", rest);
      assert Spaced(first, args)[1..] == Spaced(" ", rest);
      assert Join(args) == args[0] + ", " + Join(rest);
      assert (first + args[0]) + "," + (" " + Join(rest)) == first + (args[0] + ", " + Join(rest));
    }
  }

  /** What is printed is split into what it was printed from, exactly when there is a return type. */
  lemma RoundTrip(ret: string, args: seq<string>)
    requires GoodArgs(args) && (ret != [] ==> Trimmed(ret))
    ensures SplitSpec(Print(ret, args)) == Some(Signature(ret, if args == ["void"] then [] else args)) <==> ret != []
  {
    PrintedIs(ret, args);
    SpacedPads("", args);
    if ret != [] {
      assert "" + ret + "" == ret;
      PaddedComesBack(ret, "", "", args, Spaced("", args));
    } else {
      NoReturnType(args, Spaced("", args));
    }
  }

  lemma PrintedIs(ret: string, args: seq<string>)
    ensures Print(ret, args) == ret + "(" + Commas(Spaced("", args)) + ")"
  {
    if args != [] {
      SpacedJoin("", args);
      assert "" + Join(args) == Join(args);
    }
  }

  /** The opening parenthesis is taken for the return type. */
  lemma NoReturnType(args: seq<string>, texts: seq<string>)
    requires GoodArgs(args) && PadsAll(texts, args)
    ensures SplitSpec([] + "(" + Commas(texts) + ")").Some?
    ensures SplitSpec([] + "(" + Commas(texts) + ")").value.ret == "("
  {
    var sig := [] + "(" + Commas(texts) + ")";
    PadsAllClean(texts, args);
    ListStart([], texts);
    assert sig[..1] == "(";
    StripPadded("", "(", "");
    assert "" + "(" + "" == "(";
  }
}
