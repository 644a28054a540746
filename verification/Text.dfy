/** Strings as the signature tools see them: white space, stripping and decimal numbers. */
module Text {

  // White space to a C++ stream.
  predicate IsSpace(c: char) {
    c == ' ' || '\t' <= c <= '\r'
  }

  // White space to Python's strip and split, which knows more of it.
  predicate IsPySpace(c: char) {
    || IsSpace(c) || '\U{1C}' <= c <= '\U{1F}' || c == '\U{85}' || c == '\U{A0}' || c == '\U{1680}'
    || '\U{2000}' <= c <= '\U{200A}' || c == '\U{2028}' || c == '\U{2029}' || c == '\U{202F}' || c == '\U{205F}' ||
      c == '\U{3000}'
  }

  /** What a stream reads from. */
  function SkipSpace(s: string): (r: string)
    ensures |r| <= |s|
  {
    if s != [] && IsSpace(s[0]) then SkipSpace(s[1..]) else s
  }

  function LStrip(s: string): (r: string)
    ensures |r| <= |s|
    ensures r != [] ==> !IsPySpace(r[0])
  {
    if s != [] && IsPySpace(s[0]) then LStrip(s[1..]) else s
  }

  function RStrip(s: string): (r: string)
    ensures |r| <= |s|
  {
    if s != [] && IsPySpace(s[|s| - 1]) then RStrip(s[..|s| - 1]) else s
  }

  function Strip(s: string): string {
    RStrip(LStrip(s))
  }

  /** Not empty, and no white space at either end. */
  predicate Trimmed(s: string) {
    s != [] && !IsPySpace(s[0]) && !IsPySpace(s[|s| - 1])
  }

  predicate Blank(s: string) {
    forall i :: 0 <= i < |s| ==> IsPySpace(s[i])
  }

  lemma {:induction false} LStripPad(a: string, t: string)
    requires Blank(a) && (t != [] ==> !IsPySpace(t[0]))
    ensures LStrip(a + t) == t
  {
    if a == [] {
      assert a + t == t;
    } else {
      assert (a + t)[1..] == a[1..] + t;
      LStripPad(a[1..], t);
    }
  }

  lemma {:induction false} RStripPad(t: string, b: string)
    requires Blank(b) && (t != [] ==> !IsPySpace(t[|t| - 1]))
    ensures RStrip(t + b) == t
    decreases |b|
  {
    if b == [] {
      assert t + b == t;
    } else {
      assert (t + b)[..|t + b| - 1] == t + b[..|b| - 1];
      RStripPad(t, b[..|b| - 1]);
    }
  }

  /** White space around a text is stripped, whatever there is of it. */
  lemma StripPadded(a: string, t: string, b: string)
    requires Blank(a) && Blank(b) && (t == [] || Trimmed(t))
    ensures Strip(a + t + b) == t
  {
    if t == [] {
      assert a + t + b == a + b && (a + b) + [] == a + b;
      LStripPad(a + b, []);
    } else {
      assert a + t + b == a + (t + b);
      LStripPad(a, t + b);
      RStripPad(t, b);
    }
  }

  lemma {:induction false} LStripTakes(s: string) returns (a: string)
    ensures s == a + LStrip(s) && Blank(a)
  {
    a := [];
    if s != [] && IsPySpace(s[0]) {
      a := LStripTakes(s[1..]);
      a := [s[0]] + a;
    }
  }

  lemma {:induction false} RStripTakes(s: string) returns (b: string)
    ensures s == RStrip(s) + b && Blank(b)
    ensures RStrip(s) != [] ==> !IsPySpace(RStrip(s)[|RStrip(s)| - 1])
    decreases |s|
  {
    b := [];
    if s != [] && IsPySpace(s[|s| - 1]) {
      b := RStripTakes(s[..|s| - 1]);
      b := b + [s[|s| - 1]];
    }
  }

  /** Stripping takes white space from both ends, and all of it. */
  lemma StripTakes(s: string) returns (a: string, b: string)
    ensures s == a + Strip(s) + b && Blank(a) && Blank(b)
    ensures Strip(s) == [] || Trimmed(Strip(s))
  {
    a := LStripTakes(s);
    b := RStripTakes(LStrip(s));
    assert s == a + (Strip(s) + b);
  }

  // ----- decimal numbers -----

  predicate IsDigit(c: char) {
    '0' <= c <= '9'
  }

  function DigitValue(c: char): nat
    requires IsDigit(c)
  {
    (c - '0') as nat
  }

  function Digits(n: nat): (s: string)
    ensures s != []
  {
    if n < 10 then ['0' + n as char] else Digits(n / 10) + ['0' + (n % 10) as char]
  }

  predicate AllDigits(s: string) {
    forall i :: 0 <= i < |s| ==> IsDigit(s[i])
  }

  function Value(s: string): nat
    requires AllDigits(s)
  {
    if s == [] then 0 else 10 * Value(s[..|s| - 1]) + DigitValue(s[|s| - 1])
  }

  /** Reading the digits back gives the number. */
  lemma {:induction false} ValueOfDigits(n: nat)
    ensures AllDigits(Digits(n)) && Value(Digits(n)) == n
  {
    if n < 10 {
      assert Value(Digits(n)[..0]) == 0;
    } else {
      ValueOfDigits(n / 10);
      assert Digits(n)[..|Digits(n)| - 1] == Digits(n / 10);
    }
  }

  lemma InDecimal()
    ensures Digits(1024) == "1024" && Value("1024") == 1024
  {
    assert "1024"[..3] == "102" && "102"[..2] == "10" && "10"[..1] == "1" && "1"[..0] == "";
    assert Digits(1) == "1" && Digits(10) == "10" && Digits(102) == "102";
    assert Value("") == 0 && Value("1") == 1 && Value("10") == 10 && Value("102") == 102;
  }
}
