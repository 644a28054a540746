/**
 The signature database: printed line by line from inside the debugger, filtered out of its
 output, written to a file, and read back by the lifter.
 */
module SigDb {

  import opened Options
  import opened Text

  // One function: whether it returns a floating point number, and the sizes of its result and arguments.
  datatype Entry = Entry(isFloat: bool, retSize: nat, argSizes: seq<nat>)

  datatype Record = Record(name: string, entry: Entry)

  // The types of every function, result first, and the size of every type.
  type Functions = map<string, seq<string>>
  type Sizes = map<string, nat>

  const PREFIX := "SIG:"
  const PTR_SIZE := 4

  // size_t of the lifter's host
  const SIZE_LIMIT := 0x1_0000_0000_0000_0000

  // ----- printing, inside the debugger -----

  /** The words of a type name, as Python splits it. */
  function Words(s: string): seq<string>
    decreases |s|
  {
    var t := LStrip(s);
    if t == [] then [] else [PyWord(t)] + Words(t[|PyWord(t)|..])
  }

  function PyWord(s: string): (w: string)
    ensures |w| <= |s| && w == s[..|w|] && (s != [] && !IsPySpace(s[0]) ==> w != [])
    ensures (forall i :: 0 <= i < |w| ==> !IsPySpace(w[i])) && (|w| < |s| ==> IsPySpace(s[|w|]))
  {
    if s == [] || IsPySpace(s[0]) then [] else [s[0]] + PyWord(s[1..])
  }

  /** The characters up to the first white space. */
  function FirstWord(s: string): (w: string)
    ensures |w| <= |s| && w == s[..|w|]
    ensures s != [] && !IsSpace(s[0]) ==> w != []
    ensures forall i :: 0 <= i < |w| ==> !IsSpace(w[i])
    ensures |w| < |s| ==> IsSpace(s[|w|])
  {
    if s == [] || IsSpace(s[0]) then [] else [s[0]] + FirstWord(s[1..])
  }

  /** The types of a function, its result first, with their sizes. */
  predicate Known(types: seq<string>, sizes: Sizes) {
    types != [] && forall i :: 0 <= i < |types| ==> types[i] == "..." || types[i] in sizes
  }

  /** Every function named has its types, and every type its size. */
  predicate Complete(names: seq<string>, functions: Functions, sizes: Sizes) {
    forall n :: n in names ==> n in functions && Known(functions[n], sizes)
  }

  predicate Variadic(types: seq<string>) {
    "..." in types
  }

  function SizesOf(types: seq<string>, sizes: Sizes): (r: seq<nat>)
    requires forall i :: 0 <= i < |types| ==> types[i] in sizes
    ensures |r| == |types| && forall i :: 0 <= i < |types| ==> r[i] == sizes[types[i]]
  {
    seq(|types|, i requires 0 <= i < |types| => sizes[types[i]])
  }

  /** A small integer result is passed back as a full word. */
  function Coerced(size: nat): nat {
    if 0 < size < PTR_SIZE then PTR_SIZE else size
  }

  function EntryOf(types: seq<string>, sizes: Sizes): Entry
    requires Known(types, sizes) && !Variadic(types)
  {
    var words := Words(types[0]);
    Entry("float" in words || "double" in words, Coerced(sizes[types[0]]), SizesOf(types[1..], sizes))
  }

  function Bit(b: bool): string {
    if b then "1" else "0"
  }

  function PrintSizes(sizes: seq<nat>): string {
    if sizes == [] then [] else " " + Digits(sizes[0]) + PrintSizes(sizes[1..])
  }

  function PrintRecord(r: Record): string {
    r.name + " " + Bit(r.entry.isFloat) + PrintSizes([r.entry.retSize] + r.entry.argSizes)
  }

  /** The lines for the functions in order; variadic functions have none. */
  function Records(names: seq<string>, functions: Functions, sizes: Sizes): seq<Record>
    requires Complete(names, functions, sizes)
  {
    if names == [] then []
    else
      var types := functions[names[0]];
      (if Variadic(types) then [] else [Record(names[0], EntryOf(types, sizes))]) +
      Records(names[1..], functions, sizes)
  }

  // ----- what an entry says of the function's types -----

  predicate Solid(w: string) {
    w != [] && forall i :: 0 <= i < |w| ==> !IsPySpace(w[i])
  }

  /** The word is in the text, with white space or nothing on either side. */
  ghost predicate HasWord(s: string, w: string) {
    exists a, b :: WordAt(s, a, w, b)
  }

  predicate WordAt(s: string, a: string, w: string, b: string) {
    && s == a + w + b
    && (a != [] ==> IsPySpace(a[|a| - 1])) && (b != [] ==> IsPySpace(b[0]))
  }

  lemma WordEnds(s: string, w: string, b: string)
    requires s == w + b && Solid(w) && (b != [] ==> IsPySpace(b[0]))
    ensures PyWord(s) == w
  {
    assert forall i :: 0 <= i < |w| ==> s[i] == w[i];
    assert b != [] ==> s[|w|] == b[0];
  }

  lemma WordsSplit(s: string, t: string, w: string)
    requires t == LStrip(s)
    ensures w in Words(s) <==> t != [] && (w == PyWord(t) || w in Words(t[|PyWord(t)|..]))
  {
  }

  lemma {:induction false} WordFound(s: string, w: string)
    requires w in Words(s)
    ensures HasWord(s, w) && Solid(w)
    decreases |s|
  {
    WordsSplit(s, LStrip(s), w);
    var lead, first, rest := FirstOf(s);
    if w == first {
      FirstAt(s, lead, w, rest);
    } else {
      WordFound(rest, w);
      WordBehind(s, lead, first, rest, w);
    }
  }

  lemma FirstOf(s: string) returns (lead: string, first: string, rest: string)
    requires LStrip(s) != []
    ensures s == lead + (first + rest) && Blank(lead) && Solid(first) && (rest != [] ==> IsPySpace(rest[0]))
    ensures first == PyWord(LStrip(s)) && rest == LStrip(s)[|first|..] && |rest| < |s|
  {
    var t := LStrip(s);
    lead := LStripTakes(s);
    first, rest := PyWord(t), t[|PyWord(t)|..];
    assert t == first + rest;
  }

  lemma FirstAt(s: string, lead: string, w: string, rest: string)
    requires s == lead + (w + rest) && Blank(lead) && (rest != [] ==> IsPySpace(rest[0]))
    ensures HasWord(s, w)
  {
    assert s == lead + w + rest;
    assert WordAt(s, lead, w, rest);
  }

  lemma WordBehind(s: string, lead: string, first: string, rest: string, w: string)
    requires s == lead + (first + rest) && HasWord(rest, w) && Solid(w) && (rest != [] ==> IsPySpace(rest[0]))
    ensures HasWord(s, w)
  {
    var a, b :| WordAt(rest, a, w, b);
    assert rest[|a|] == w[0];
    assert s == (lead + (first + a)) + w + b;
    assert WordAt(s, lead + (first + a), w, b);
  }

  lemma {:induction false} WordHas(s: string, a: string, w: string, b: string)
    requires WordAt(s, a, w, b) && Solid(w)
    ensures w in Words(s)
    decreases |s|, 1
  {
    var t := LStrip(s);
    var lead := LStripTakes(s);
    if |lead| >= |a| {
      LeadIsAll(s, a, w, b, lead);
      WordEnds(t, w, b);
      WordsSplit(s, t, w);
    } else {
      var c := a[|lead|..];
      Behind(s, lead, t, a, w + b);
      WordLater(s, t, c, w, b);
    }
  }

  /** White space is in front of the word: it is not the first. */
  lemma {:induction false} WordLater(s: string, t: string, c: string, w: string, b: string)
    requires t == LStrip(s) == c + (w + b) && Solid(w) && c != [] && IsPySpace(c[|c| - 1])
    requires b != [] ==> IsPySpace(b[0])
    ensures w in Words(s)
    decreases |s|, 0
  {
    var first := PyWord(t);
    FirstInside(t, c, w + b, first);
    var rest, d := t[|first|..], c[|first|..];
    assert d != [] && d[|d| - 1] == c[|c| - 1];
    assert WordAt(rest, d, w, b);
    WordHas(rest, d, w, b);
    WordsSplit(s, t, w);
  }

  lemma Behind(s: string, lead: string, t: string, a: string, tail: string)
    requires s == lead + t == a + tail && |lead| <= |a|
    ensures t == a[|lead|..] + tail
  {
    assert t == s[|lead|..];
    assert (a + tail)[|lead|..] == a[|lead|..] + tail;
  }

  /** The first word ends before white space that is inside the text. */
  lemma FirstInside(t: string, c: string, tail: string, first: string)
    requires t == c + tail && c != [] && IsPySpace(c[|c| - 1]) && first <= t
    requires forall i :: 0 <= i < |first| ==> !IsPySpace(first[i])
    ensures |first| < |c| && t[|first|..] == c[|first|..] + tail
  {
    assert t[|c| - 1] == c[|c| - 1];
    assert forall i :: 0 <= i < |first| ==> first[i] == t[i];
  }

  lemma LeadIsAll(s: string, a: string, w: string, b: string, lead: string)
    requires WordAt(s, a, w, b) && Solid(w) && s == lead + LStrip(s) && Blank(lead) && |lead| >= |a|
    ensures LStrip(s) == w + b
  {
    assert s[|a|] == w[0];
    assert forall i :: 0 <= i < |lead| ==> lead[i] == s[i];
    Behind(s, a, w + b, lead, LStrip(s));
    assert s == a + (w + b);
  }

  /**
   The flag says whether float or double is a word of the result type, a result smaller than a word
   of four bytes is widened to one, and arguments have their own sizes.
   */
  ghost predicate EntryRight(types: seq<string>, sizes: Sizes, e: Entry)
    requires Known(types, sizes) && !Variadic(types)
  {
    && (e.isFloat <==> HasWord(types[0], "float") || HasWord(types[0], "double"))
    && (sizes[types[0]] == 0 || sizes[types[0]] >= 4 ==> e.retSize == sizes[types[0]])
    && (0 < sizes[types[0]] < 4 ==> e.retSize == 4)
    && |e.argSizes| == |types| - 1
    && forall i :: 1 <= i < |types| ==> e.argSizes[i - 1] == sizes[types[i]]
  }

  lemma EntryIsRight(types: seq<string>, sizes: Sizes)
    requires Known(types, sizes) && !Variadic(types)
    ensures EntryRight(types, sizes, EntryOf(types, sizes))
  {
    WordsHave(types[0], "float");
    WordsHave(types[0], "double");
  }

  lemma WordsHave(s: string, w: string)
    requires Solid(w)
    ensures w in Words(s) <==> HasWord(s, w)
  {
    if w in Words(s) {
      WordFound(s, w);
    }
    if a, b :| WordAt(s, a, w, b) {
      WordHas(s, a, w, b);
    }
  }

  lemma SizesPrinted(types: seq<string>, sizes: Sizes)
    requires Known(types, sizes) && !Variadic(types)
    ensures var e := EntryOf(types, sizes);
            [e.retSize] + e.argSizes == SizesOf(types, sizes)[0 := Coerced(sizes[types[0]])]
  {
  }

  /** The line of one function. */
  method PrintSignature(name: string, types: seq<string>, sizes: Sizes) returns (line: string)
    requires Known(types, sizes) && !Variadic(types)
    ensures line == PREFIX + PrintRecord(Record(name, EntryOf(types, sizes)))
  {
    var all := SizesOf(types, sizes);
    var tokens := Words(types[0]);
    var isFloat := "float" in tokens || "double" in tokens;
    if 0 < all[0] < PTR_SIZE {
      all := all[0 := PTR_SIZE];
    }
    SizesPrinted(types, sizes);
    assert all == SizesOf(types, sizes)[0 := Coerced(sizes[types[0]])];
    line := PREFIX + (name + " " + Bit(isFloat) + PrintSizes(all));
  }

  function LinesOf(records: seq<Record>): seq<string> {
    if records == [] then [] else [PREFIX + PrintRecord(records[0])] + LinesOf(records[1..])
  }

  lemma LinesOfFirst(r: Record, records: seq<Record>)
    ensures LinesOf([r] + records) == [PREFIX + PrintRecord(r)] + LinesOf(records)
  {
    assert ([r] + records)[1..] == records;
  }

  /** The lines are those of the functions before position i. */
  ghost predicate PrintedUpTo(names: seq<string>, functions: Functions, sizes: Sizes, i: nat, lines: seq<string>)
    requires Complete(names, functions, sizes)
  {
    i <= |names| && LinesOf(Records(names, functions, sizes)) == lines + LinesOf(Records(names[i..], functions, sizes))
  }

  /** The lines the function at position i adds: one, or none if it is variadic. */
  lemma PrintedNext(names: seq<string>, functions: Functions, sizes: Sizes, i: nat, lines: seq<string>)
    requires Complete(names, functions, sizes) && PrintedUpTo(names, functions, sizes, i, lines) && i < |names|
    ensures var types := functions[names[i]];
            var line := if Variadic(types) then [] else [PREFIX + PrintRecord(Record(names[i], EntryOf(types, sizes)))];
            PrintedUpTo(names, functions, sizes, i + 1, lines + line)
  {
    var types := functions[names[i]];
    var rest := Records(names[i + 1..], functions, sizes);
    assert names[i..][1..] == names[i + 1..];
    if Variadic(types) {
      assert Records(names[i..], functions, sizes) == rest;
      assert lines + [] == lines;
    } else {
      var r := Record(names[i], EntryOf(types, sizes));
      LinesOfFirst(r, rest);
      assert lines + ([PREFIX + PrintRecord(r)] + LinesOf(rest)) == (lines + [PREFIX + PrintRecord(r)]) + LinesOf(rest);
    }
  }

  /** The printing loop. */
  method PrintDatabase(names: seq<string>, functions: Functions, sizes: Sizes) returns (lines: seq<string>)
    requires Complete(names, functions, sizes)
    ensures lines == LinesOf(Records(names, functions, sizes))
  {
    lines := [];
    var i := 0;
    assert names[0..] == names;
    while i < |names|
      invariant i <= |names| && PrintedUpTo(names, functions, sizes, i, lines)
    {
      PrintedNext(names, functions, sizes, i, lines);
      if Variadic(functions[names[i]]) {
        assert lines + [] == lines;
      } else {
        var line := PrintSignature(names[i], functions[names[i]], sizes);
        lines := lines + [line];
      }
      i := i + 1;
    }
  }

  // ----- filtering the debugger's output -----

  /** Python's split at newlines. */
  function SplitLines(s: string): (r: seq<string>)
    ensures r != []
    decreases |s|
  {
    if s == [] then [[]]
    else if s[0] == '\n' then [[]] + SplitLines(s[1..])
    else var rest := SplitLines(s[1..]); [[s[0]] + rest[0]] + rest[1..]
  }

  function Lines(lines: seq<string>): string {
    if lines == [] then [] else lines[0] + "\n" + Lines(lines[1..])
  }

  predicate IsSignature(line: string) {
    PREFIX <= line
  }

  /** The lines with the prefix, without it. */
  function Signatures(lines: seq<string>): seq<string> {
    if lines == [] then []
    else (if IsSignature(lines[0]) then [lines[0][|PREFIX|..]] else []) + Signatures(lines[1..])
  }

  lemma {:induction false} SplitLine(line: string, rest: string)
    requires '\n' !in line
    ensures SplitLines(line + "\n" + rest) == [line] + SplitLines(rest)
  {
    var text := line + "\n" + rest;
    if line == [] {
      assert text[1..] == rest;
    } else {
      assert text[1..] == line[1..] + "\n" + rest;
      SplitLine(line[1..], rest);
      assert [line[0]] + line[1..] == line;
    }
  }

  /** Splitting complete lines gives the lines, and an empty one at the end. */
  lemma {:induction false} LinesComeBack(lines: seq<string>)
    requires forall i :: 0 <= i < |lines| ==> '\n' !in lines[i]
    ensures SplitLines(Lines(lines)) == lines + [[]]
  {
    if lines != [] {
      LinesComeBack(lines[1..]);
      SplitLine(lines[0], Lines(lines[1..]));
      assert lines == [lines[0]] + lines[1..];
    }
  }

  lemma {:induction false} SignaturesOfMore(lines: seq<string>)
    ensures Signatures(lines + [[]]) == Signatures(lines)
  {
    if lines == [] {
      assert lines + [[]] == [[]];
      assert (lines + [[]])[1..] == [];
    } else {
      SignaturesOfMore(lines[1..]);
      assert (lines + [[]])[1..] == lines[1..] + [[]];
    }
  }

  // ----- reading the file -----

  /** Skip white space, then take a word; none is a failure. */
  function ReadWord(s: string): Option<(string, string)> {
    var t := SkipSpace(s);
    if t == [] then None else Some((FirstWord(t), t[|FirstWord(t)|..]))
  }

  function FirstDigits(s: string): (w: string)
    ensures |w| <= |s| && w == s[..|w|] && AllDigits(w)
    ensures s != [] && IsDigit(s[0]) ==> w != []
  {
    if s == [] || !IsDigit(s[0]) then [] else [s[0]] + FirstDigits(s[1..])
  }

  datatype Numeral = Numeral(negative: bool, value: nat)

  /** Skip white space, then take a sign, if there is one, and digits; no digits are a failure. */
  function ReadNumeral(s: string): (r: Option<(Numeral, string)>)
    ensures r.Some? ==> |r.value.1| < |s|
  {
    var t := SkipSpace(s);
    var sign := t != [] && (t[0] == '+' || t[0] == '-');
    var u := if sign then t[1..] else t;
    var d := FirstDigits(u);
    if d == [] then None else Some((Numeral(sign && t[0] == '-', Value(d)), u[|d|..]))
  }

  /** A size below the limit, where a minus sign wraps around; a larger one is a failure. */
  function ReadNumber(s: string): (r: Option<(nat, string)>)
    ensures r.Some? ==> |r.value.1| < |s| && r.value.0 < SIZE_LIMIT
  {
    match ReadNumeral(s)
    case None => None
    case Some((n, rest)) =>
      if n.value >= SIZE_LIMIT then None
      else Some((if n.negative && n.value > 0 then SIZE_LIMIT - n.value else n.value, rest))
  }

  /** A flag is the number 0 or 1. */
  function ReadFlag(s: string): (r: Option<(bool, string)>)
    ensures r.Some? ==> |r.value.1| < |s|
  {
    match ReadNumeral(s)
    case None => None
    case Some((n, rest)) =>
      if n.value == 0 then Some((false, rest)) else if n == Numeral(false, 1) then Some((true, rest)) else None
  }

  /** Numbers up to the end of the line, which is not consumed; a failure is an error. */
  function ReadArgs(s: string): (r: Option<(seq<nat>, string)>)
    ensures r.Some? ==> |r.value.1| <= |s| && forall k :: 0 <= k < |r.value.0| ==> r.value.0[k] < SIZE_LIMIT
    decreases |s|
  {
    if s != [] && s[0] == '\n' then Some(([], s))
    else match ReadNumber(s)
      case None => None
      case Some((n, rest)) =>
        match ReadArgs(rest)
        case None => None
        case Some((more, rest')) => Some(([n] + more, rest'))
  }

  /** A name, a flag and a size; a failure ends the file. */
  function ReadHead(s: string): (r: Option<(string, bool, nat, string)>)
    ensures r.Some? ==> |r.value.3| < |s| && r.value.2 < SIZE_LIMIT
  {
    match ReadWord(s)
    case None => None
    case Some((name, s1)) =>
      match ReadFlag(s1)
      case None => None
      case Some((isFloat, s2)) =>
        match ReadNumber(s2)
        case None => None
        case Some((retSize, s3)) => Some((name, isFloat, retSize, s3))
  }

  type SigMap = map<string, Entry>

  /** The first record of a name stays. */
  function Insert(sigs: SigMap, name: string, e: Entry): SigMap {
    if name in sigs then sigs else sigs[name := e]
  }

  function ReadAll(s: string, sigs: SigMap): Option<SigMap>
    decreases |s|
  {
    match ReadHead(s)
    case None => Some(sigs)
    case Some((name, isFloat, retSize, rest)) =>
      match ReadArgs(rest)
      case None => None
      case Some((args, rest')) => ReadAll(rest', Insert(sigs, name, Entry(isFloat, retSize, args)))
  }

  ghost function AfterSome(args: seq<nat>, r: Option<(seq<nat>, string)>): Option<(seq<nat>, string)> {
    if r == None then None else Some((args + r.value.0, r.value.1))
  }

  /** The reader's inner loop. */
  method ReadSizes(text: string) returns (r: Option<(seq<nat>, string)>)
    ensures r == ReadArgs(text)
  {
    var args: seq<nat> := [];
    var rest := text;
    assert ReadArgs(text).Some? ==> args + ReadArgs(text).value.0 == ReadArgs(text).value.0;
    while !(rest != [] && rest[0] == '\n')
      invariant |rest| <= |text|
      invariant ReadArgs(text) == AfterSome(args, ReadArgs(rest))
      decreases |rest|
    {
      var n := ReadNumber(rest);
      if n == None {
        return None;
      }
      ghost var more := ReadArgs(n.value.1);
      assert more.Some? ==> args + ([n.value.0] + more.value.0) == (args + [n.value.0]) + more.value.0;
      args := args + [n.value.0];
      rest := n.value.1;
    }
    assert args + [] == args;
    r := Some((args, rest));
  }

  /** The reader; None stands for the error it raises when a size cannot be read. */
  method ReadLibcArgSizes(file: string) returns (r: Option<SigMap>)
    ensures r == ReadAll(file, map[])
  {
    var rest := file;
    var sigs: SigMap := map[];
    var head := ReadHead(rest);
    while head.Some?
      invariant head == ReadHead(rest)
      invariant ReadAll(file, map[]) == ReadAll(rest, sigs)
      decreases |rest|
    {
      var (name, isFloat, retSize, tail) := head.value;
      var args := ReadSizes(tail);
      if args == None {
        return None;
      }
      sigs := Insert(sigs, name, Entry(isFloat, retSize, args.value.0));
      rest := args.value.1;
      head := ReadHead(rest);
    }
    r := Some(sigs);
  }

  // ----- the round trip -----

  predicate GoodName(name: string) {
    name != [] && forall i :: 0 <= i < |name| ==> !IsSpace(name[i])
  }

  predicate Fits(e: Entry) {
    e.retSize < SIZE_LIMIT && Small(e.argSizes)
  }

  predicate Small(sizes: seq<nat>) {
    forall i :: 0 <= i < |sizes| ==> sizes[i] < SIZE_LIMIT
  }

  lemma SmallSplits(sizes: seq<nat>)
    requires sizes != []
    ensures Small(sizes) <==> sizes[0] < SIZE_LIMIT && Small(sizes[1..])
  {
    assert sizes == [sizes[0]] + sizes[1..];
  }

  predicate Readable(r: Record) {
    GoodName(r.name) && Fits(r.entry)
  }

  predicate EndsNumber(s: string) {
    s == [] || !IsDigit(s[0])
  }

  lemma {:induction false} TakeDigits(d: string, rest: string)
    requires AllDigits(d) && EndsNumber(rest)
    ensures FirstDigits(d + rest) == d
  {
    if d == [] {
      assert d + rest == rest;
    } else {
      assert (d + rest)[1..] == d[1..] + rest;
      TakeDigits(d[1..], rest);
    }
  }

  lemma {:induction false} TakeWord(w: string, rest: string)
    requires (forall i :: 0 <= i < |w| ==> !IsSpace(w[i])) && rest != [] && IsSpace(rest[0])
    ensures FirstWord(w + rest) == w
  {
    if w == [] {
      assert w + rest == rest;
    } else {
      assert (w + rest)[1..] == w[1..] + rest;
      TakeWord(w[1..], rest);
    }
  }

  lemma NumeralComesBack(n: nat, rest: string)
    requires EndsNumber(rest)
    ensures ReadNumeral(" " + Digits(n) + rest) == Some((Numeral(false, n), rest))
  {
    var digits := Digits(n);
    var text, u := " " + digits + rest, digits + rest;
    ValueOfDigits(n);
    TakeDigits(digits, rest);
    SpaceSkipped(text, u);
    assert u[0] == digits[0] && IsDigit(u[0]);
    assert u[|digits|..] == rest;
  }

  lemma SpaceSkipped(text: string, u: string)
    requires text == " " + u && u != [] && !IsSpace(u[0])
    ensures SkipSpace(text) == u
  {
    assert text[1..] == u;
    assert SkipSpace(u) == u;
  }

  /** A number printed after a space is read back, exactly when it is below the limit. */
  lemma NumberComesBack(n: nat, rest: string)
    requires EndsNumber(rest)
    ensures ReadNumber(" " + Digits(n) + rest) == if n < 0x1_0000_0000_0000_0000 then Some((n, rest)) else None
  {
    NumeralComesBack(n, rest);
  }

  lemma SignedNumeral(sign: char, n: nat, rest: string)
    requires EndsNumber(rest) && (sign == '+' || sign == '-')
    ensures ReadNumeral(" " + [sign] + Digits(n) + rest) == Some((Numeral(sign == '-', n), rest))
  {
    var digits := Digits(n);
    var text, u := " " + [sign] + digits + rest, [sign] + (digits + rest);
    ValueOfDigits(n);
    TakeDigits(digits, rest);
    SpaceSkipped(text, u);
    assert u[1..] == digits + rest;
    assert (digits + rest)[|digits|..] == rest;
  }

  /** With a sign, a size wraps around below 0, and a flag is still the number 0 or 1. */
  lemma SignedNumber(sign: char, n: nat, rest: string)
    requires EndsNumber(rest) && (sign == '+' || sign == '-')
    ensures ReadNumber(" " + [sign] + Digits(n) + rest) ==
      if n >= 0x1_0000_0000_0000_0000 then None
      else Some((if sign == '+' || n == 0 then n else 0x1_0000_0000_0000_0000 - n, rest))
    ensures ReadFlag(" " + [sign] + Digits(n) + rest) ==
      if n == 0 then Some((false, rest)) else if n == 1 && sign == '+' then Some((true, rest)) else None
  {
    SignedNumeral(sign, n, rest);
  }

  lemma SizesEndNumber(sizes: seq<nat>, rest: string)
    requires EndsNumber(rest)
    ensures EndsNumber(PrintSizes(sizes) + rest)
  {
    if sizes == [] {
      assert PrintSizes(sizes) + rest == rest;
    }
  }

  lemma {:induction false} ArgsComeBack(sizes: seq<nat>, rest: string)
    requires rest != [] && rest[0] == '\n'
    ensures ReadArgs(PrintSizes(sizes) + rest) == if Small(sizes) then Some((sizes, rest)) else None
    decreases |sizes|
  {
    if sizes == [] {
      assert PrintSizes(sizes) + rest == rest;
    } else {
      var more := ReadArgs(PrintSizes(sizes[1..]) + rest);
      ArgsComeBack(sizes[1..], rest);
      SmallSplits(sizes);
      FirstArg(sizes, rest, more);
      assert sizes == [sizes[0]] + sizes[1..];
    }
  }

  lemma FirstArg(sizes: seq<nat>, rest: string, more: Option<(seq<nat>, string)>)
    requires sizes != [] && EndsNumber(rest) && more == ReadArgs(PrintSizes(sizes[1..]) + rest)
    ensures ReadArgs(PrintSizes(sizes) + rest) ==
      if sizes[0] >= SIZE_LIMIT || more == None then None else Some(([sizes[0]] + more.value.0, more.value.1))
  {
    SizesEndNumber(sizes[1..], rest);
    Regroup(" " + Digits(sizes[0]), PrintSizes(sizes[1..]), rest);
    OneArg(sizes[0], PrintSizes(sizes[1..]) + rest, more);
  }

  lemma Regroup(a: string, b: string, c: string)
    ensures (a + b) + c == a + (b + c)
  {
  }

  lemma OneArg(n: nat, tail: string, more: Option<(seq<nat>, string)>)
    requires EndsNumber(tail) && more == ReadArgs(tail)
    ensures ReadArgs(" " + Digits(n) + tail) ==
      if n >= SIZE_LIMIT || more == None then None else Some(([n] + more.value.0, more.value.1))
  {
    NumberComesBack(n, tail);
    assert (" " + Digits(n) + tail)[0] == ' ';
  }

  lemma FlagComesBack(b: bool, rest: string)
    requires EndsNumber(rest)
    ensures ReadFlag(" " + Bit(b) + rest) == Some((b, rest))
  {
    var n := if b then 1 else 0;
    assert Digits(n) == Bit(b);
    NumeralComesBack(n, rest);
  }

  lemma HeadComesBack(r: Record, rest: string)
    requires GoodName(r.name) && rest != [] && rest[0] == '\n'
    ensures ReadHead(PrintRecord(r) + rest) ==
      if r.entry.retSize < SIZE_LIMIT then Some((r.name, r.entry.isFloat, r.entry.retSize,
        PrintSizes(r.entry.argSizes) + rest)) else None
  {
    var e := r.entry;
    var s3 := PrintSizes(e.argSizes) + rest;
    var s2 := " " + Digits(e.retSize) + s3;
    var s1 := " " + Bit(e.isFloat) + s2;
    var sizes := [e.retSize] + e.argSizes;
    assert sizes[1..] == e.argSizes;
    assert PrintSizes(sizes) == " " + Digits(e.retSize) + PrintSizes(e.argSizes);
    assert PrintRecord(r) + rest == r.name + s1;
    TakeWord(r.name, s1);
    assert !IsSpace((r.name + s1)[0]);
    assert SkipSpace(r.name + s1) == r.name + s1;
    assert (r.name + s1)[|r.name|..] == s1;
    FlagComesBack(e.isFloat, s2);
    SizesEndNumber(e.argSizes, rest);
    NumberComesBack(e.retSize, s3);
  }

  function FirstWins(records: seq<Record>, sigs: SigMap): SigMap {
    if records == [] then sigs else FirstWins(records[1..], Insert(sigs, records[0].name, records[0].entry))
  }

  function FileOf(records: seq<Record>): string {
    if records == [] then [] else PrintRecord(records[0]) + "\n" + FileOf(records[1..])
  }

  /** White space before a line is skipped. */
  lemma NewlineSkipped(s: string, sigs: SigMap)
    ensures ReadAll("\n" + s, sigs) == ReadAll(s, sigs)
  {
    assert ("\n" + s)[1..] == s;
    assert SkipSpace("\n" + s) == SkipSpace(s);
    assert ReadHead("\n" + s) == ReadHead(s);
  }

  /** Reading the first record: it goes into the map, ends the reading or fails it. */
  lemma OneRecord(records: seq<Record>, sigs: SigMap)
    requires records != [] && GoodName(records[0].name)
    ensures ReadAll(FileOf(records), sigs) ==
      if records[0].entry.retSize >= SIZE_LIMIT then Some(sigs)
      else if !Small(records[0].entry.argSizes) then None
      else ReadAll(FileOf(records[1..]), Insert(sigs, records[0].name, records[0].entry))
  {
    var r, more := records[0], FileOf(records[1..]);
    RecordThen(r, "\n" + more, sigs);
    assert FileOf(records) == PrintRecord(r) + ("\n" + more);
    NewlineSkipped(more, Insert(sigs, r.name, r.entry));
  }

  lemma RecordThen(r: Record, rest: string, sigs: SigMap)
    requires GoodName(r.name) && rest != [] && rest[0] == '\n'
    ensures ReadAll(PrintRecord(r) + rest, sigs) ==
      if r.entry.retSize >= SIZE_LIMIT then Some(sigs)
      else if !Small(r.entry.argSizes) then None
      else ReadAll(rest, Insert(sigs, r.name, r.entry))
  {
    HeadComesBack(r, rest);
    ArgsComeBack(r.entry.argSizes, rest);
  }

  /** Reading printed records: each in turn, until one does not fit. */
  lemma {:induction false} RecordsComeBack(records: seq<Record>, sigs: SigMap)
    requires forall k :: 0 <= k < |records| ==> Readable(records[k])
    ensures ReadAll(FileOf(records), sigs) == Some(FirstWins(records, sigs))
    decreases |records|
  {
    if records != [] {
      var r := records[0];
      OneRecord(records, sigs);
      RecordsComeBack(records[1..], Insert(sigs, r.name, r.entry));
    }
  }

  lemma FirstWinsOf(records: seq<Record>, sigs: SigMap, k: nat)
    requires 0 < k <= |records|
    ensures FirstWins(records[..k], sigs) ==
      FirstWins(records[1..][..k - 1], Insert(sigs, records[0].name, records[0].entry))
  {
    assert records[..k][1..] == records[1..][..k - 1];
  }

  /** At the first record that does not fit, reading ends if it is the result's size, and else fails. */
  lemma {:induction false} FirstBad(records: seq<Record>, sigs: SigMap, k: nat)
    requires k < |records| && (forall j :: 0 <= j < k ==> Readable(records[j]))
    requires GoodName(records[k].name) && !Fits(records[k].entry)
    ensures ReadAll(FileOf(records), sigs) ==
      if records[k].entry.retSize >= 0x1_0000_0000_0000_0000 then Some(FirstWins(records[..k], sigs)) else None
    decreases k
  {
    var r := records[0];
    OneRecord(records, sigs);
    if k > 0 {
      FirstBad(records[1..], Insert(sigs, r.name, r.entry), k - 1);
      FirstWinsOf(records, sigs, k);
    }
  }

  // ----- exactly when -----

  ghost predicate AllFit(sigs: SigMap) {
    forall n :: n in sigs ==> Fits(sigs[n])
  }

  lemma {:induction false} ReadFits(s: string, sigs: SigMap)
    requires AllFit(sigs)
    ensures ReadAll(s, sigs).Some? ==> AllFit(ReadAll(s, sigs).value)
    decreases |s|
  {
    if ReadHead(s).Some? {
      var (name, isFloat, retSize, rest) := ReadHead(s).value;
      if ReadArgs(rest).Some? {
        ReadFits(ReadArgs(rest).value.1, Insert(sigs, name, Entry(isFloat, retSize, ReadArgs(rest).value.0)));
      }
    }
  }

  predicate DistinctNames(records: seq<Record>) {
    forall i, j :: 0 <= i < j < |records| ==> records[i].name != records[j].name
  }

  /** Every name keeps the entry of its first record. */
  lemma {:induction false} FirstWinsAt(records: seq<Record>, sigs: SigMap, k: nat)
    requires k < |records|
    requires records[k].name !in sigs && forall j :: 0 <= j < k ==> records[j].name != records[k].name
    ensures records[k].name in FirstWins(records, sigs) && FirstWins(records, sigs)[records[k].name] == records[k].entry
    decreases k
  {
    var sigs' := Insert(sigs, records[0].name, records[0].entry);
    if k == 0 {
      Kept(records[1..], sigs', records[0].name);
    } else {
      assert forall j :: 0 <= j < k - 1 ==> records[1..][j].name != records[k].name by {
        assert forall j :: 0 <= j < k - 1 ==> records[1..][j] == records[j + 1];
      }
      FirstWinsAt(records[1..], sigs', k - 1);
    }
  }

  lemma {:induction false} Kept(records: seq<Record>, sigs: SigMap, name: string)
    requires name in sigs
    ensures name in FirstWins(records, sigs) && FirstWins(records, sigs)[name] == sigs[name]
    decreases |records|
  {
    if records != [] {
      Kept(records[1..], Insert(sigs, records[0].name, records[0].entry), name);
    }
  }

  lemma {:induction false} NamesOnly(records: seq<Record>, sigs: SigMap, name: string)
    requires name in FirstWins(records, sigs)
    ensures name in sigs || exists k :: 0 <= k < |records| && records[k].name == name
    decreases |records|
  {
    if records != [] {
      NamesOnly(records[1..], Insert(sigs, records[0].name, records[0].entry), name);
      if k :| 0 <= k < |records| - 1 && records[1..][k].name == name {
        assert records[k + 1].name == name;
      }
    }
  }

  /** With distinct names, as a dictionary has,
    the records come back exactly when all sizes fit the reader's integers. */
  lemma ComeBackIff(records: seq<Record>)
    requires DistinctNames(records) && forall k :: 0 <= k < |records| ==> GoodName(records[k].name)
    ensures ReadAll(FileOf(records), map[]) == Some(FirstWins(records, map[])) <==>
      forall k :: 0 <= k < |records| ==> Fits(records[k].entry)
  {
    if forall k :: 0 <= k < |records| ==> Fits(records[k].entry) {
      RecordsComeBack(records, map[]);
    } else if ReadAll(FileOf(records), map[]) == Some(FirstWins(records, map[])) {
      ReadFits(FileOf(records), map[]);
      forall k | 0 <= k < |records| ensures Fits(records[k].entry) {
        FirstWinsAt(records, map[], k);
      }
    }
  }

  // ----- from the debugger's output to the map -----

  /** A line of the output: what the debugger says itself, or a printed record. */
  datatype Line = Noise(text: string) | Printed(record: Record)

  predicate Clean(l: Line) {
    match l
    case Noise(text) => '\n' !in text && !IsSignature(text)
    case Printed(r) => Readable(r)
  }

  function TextOf(l: Line): string {
    match l
    case Noise(text) => text
    case Printed(r) => PREFIX + PrintRecord(r)
  }

  function Texts(output: seq<Line>): (r: seq<string>)
    ensures |r| == |output|
  {
    if output == [] then [] else [TextOf(output[0])] + Texts(output[1..])
  }

  function PrintedRecords(output: seq<Line>): seq<Record> {
    if output == [] then []
    else (if output[0].Printed? then [output[0].record] else []) + PrintedRecords(output[1..])
  }

  lemma {:induction false} DigitsNoNewline(sizes: seq<nat>)
    ensures '\n' !in PrintSizes(sizes)
  {
    if sizes != [] {
      ValueOfDigits(sizes[0]);
      DigitsNoNewline(sizes[1..]);
    }
  }

  lemma RecordNoNewline(r: Record)
    requires Readable(r)
    ensures '\n' !in PREFIX + PrintRecord(r)
  {
    assert '\n' !in r.name by {
      assert IsSpace('\n');
    }
    DigitsNoNewline([r.entry.retSize] + r.entry.argSizes);
    assert '\n' !in Bit(r.entry.isFloat);
  }

  lemma {:induction false} TextsNoNewline(output: seq<Line>)
    requires forall i :: 0 <= i < |output| ==> Clean(output[i])
    ensures forall i :: 0 <= i < |output| ==> '\n' !in Texts(output)[i]
  {
    if output != [] {
      TextsNoNewline(output[1..]);
      if output[0].Printed? {
        RecordNoNewline(output[0].record);
      }
    }
  }

  lemma {:induction false} FilteredAre(output: seq<Line>)
    requires forall i :: 0 <= i < |output| ==> Clean(output[i])
    ensures Lines(Signatures(Texts(output))) == FileOf(PrintedRecords(output))
  {
    if output != [] {
      FilteredAre(output[1..]);
      assert Texts(output)[1..] == Texts(output[1..]);
      var rest := Signatures(Texts(output[1..]));
      if output[0].Printed? {
        var r := output[0].record;
        assert (PREFIX + PrintRecord(r))[|PREFIX|..] == PrintRecord(r);
        assert Signatures(Texts(output)) == [PrintRecord(r)] + rest;
        assert ([PrintRecord(r)] + rest)[1..] == rest;
        assert ([r] + PrintedRecords(output[1..]))[1..] == PrintedRecords(output[1..]);
      } else {
        assert Signatures(Texts(output)) == rest;
        assert PrintedRecords(output) == PrintedRecords(output[1..]);
      }
    }
  }

  /** What the debugger prints, whatever else it prints between, is what the lifter reads. */
  lemma OutputComesBack(output: seq<Line>)
    requires forall i :: 0 <= i < |output| ==> Clean(output[i])
    ensures ReadAll(Lines(Signatures(SplitLines(Lines(Texts(output))))), map[]) ==
      Some(FirstWins(PrintedRecords(output), map[]))
  {
    TextsNoNewline(output);
    LinesComeBack(Texts(output));
    SignaturesOfMore(Texts(output));
    FilteredAre(output);
    PrintedAreReadable(output);
    RecordsComeBack(PrintedRecords(output), map[]);
  }

  lemma {:induction false} PrintedAreReadable(output: seq<Line>)
    requires forall i :: 0 <= i < |output| ==> Clean(output[i])
    ensures forall k :: 0 <= k < |PrintedRecords(output)| ==> Readable(PrintedRecords(output)[k])
  {
    if output != [] {
      PrintedAreReadable(output[1..]);
    }
  }

  // ----- what the lifter knows of every function -----

  lemma {:induction false} RecordsAre(names: seq<string>, functions: Functions, sizes: Sizes, r: Record)
    requires Complete(names, functions, sizes)
    ensures r in Records(names, functions, sizes) <==>
      r.name in names && !Variadic(functions[r.name]) && r.entry == EntryOf(functions[r.name], sizes)
    decreases |names|
  {
    if names != [] {
      RecordsAre(names[1..], functions, sizes, r);
    }
  }

  /** Every function that is not variadic has its own sizes in the map, and no other name is there. */
  lemma LifterKnows(names: seq<string>, functions: Functions, sizes: Sizes, name: string)
    requires Complete(names, functions, sizes)
    ensures var sigs := FirstWins(Records(names, functions, sizes), map[]);
            && (name in sigs <==> name in names && "..." !in functions[name])
            && (name in sigs ==> EntryRight(functions[name], sizes, sigs[name]))
  {
    var records := Records(names, functions, sizes);
    if name in FirstWins(records, map[]) {
      NamesOnly(records, map[], name);
      var k :| 0 <= k < |records| && records[k].name == name;
      RecordsAre(names, functions, sizes, records[k]);
    }
    if name in names && !Variadic(functions[name]) {
      var r := Record(name, EntryOf(functions[name], sizes));
      RecordsAre(names, functions, sizes, r);
      var k := FirstNamed(records, name);
      RecordsAre(names, functions, sizes, records[k]);
      FirstWinsAt(records, map[], k);
      EntryIsRight(functions[name], sizes);
    }
  }

  function FirstNamed(records: seq<Record>, name: string): (k: nat)
    requires exists r :: r in records && r.name == name
    ensures k < |records| && records[k].name == name && forall j :: 0 <= j < k ==> records[j].name != name
  {
    if records[0].name == name then 0
    else
      assert forall r :: r in records && r.name == name ==> r in records[1..];
      1 + FirstNamed(records[1..], name)
  }

  /** From the debugger's types and sizes, through its mixed output and the file, to the lifter's map. */
  lemma DatabaseRoundTrip(output: seq<Line>, names: seq<string>, functions: Functions, sizes: Sizes, name: string)
    requires Complete(names, functions, sizes)
    requires (forall i :: 0 <= i < |output| ==>
      Clean(output[i])) && PrintedRecords(output) == Records(names, functions, sizes)
    ensures var r := ReadAll(Lines(Signatures(SplitLines(Lines(Texts(output))))), map[]);
            && r.Some?
            && (name in r.value <==> name in names && "..." !in functions[name])
            && (name in r.value ==> EntryRight(functions[name], sizes, r.value[name]))
  {
    OutputComesBack(output);
    LifterKnows(names, functions, sizes, name);
  }
}
