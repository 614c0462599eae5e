/**
 * The pieces of Python's string handling that the modelled scripts rely on:
 * `str.split()` with no argument, iterating a text file line by line,
 * `str(int)`, `int(str)`, a subset of `float(str)`, `str.lower()` on the
 * ASCII range, `str.replace` and finding the last occurrence of a character.
 */
module Text {
  import opened Wrappers

  // ---------------------------------------------------------------------
  // Whitespace splitting: str.split() with no separator
  // ---------------------------------------------------------------------

  /** The ASCII characters Python's `str.split()` treats as whitespace. */
  predicate IsSpace(c: char) {
    c == ' ' || c == '\t' || c == '\n' || c == '\r' || c == '\U{0B}' || c == '\U{0C}'
    || ('\U{1C}' <= c <= '\U{1F}')
  }

  /** A field that `str.split()` gives back unchanged: non-empty, no whitespace. */
  predicate IsToken(s: string) {
    |s| > 0 && forall i :: 0 <= i < |s| ==> !IsSpace(s[i])
  }

  /** Length of the run of non-whitespace characters that starts `s`. */
  function TokenLength(s: string): (n: nat)
    requires s != [] && !IsSpace(s[0])
    ensures 1 <= n <= |s|
    ensures forall i :: 0 <= i < n ==> !IsSpace(s[i])
    ensures n < |s| ==> IsSpace(s[n])
    decreases |s|
  {
    if |s| == 1 || IsSpace(s[1]) then 1 else 1 + TokenLength(s[1..])
  }

  /** `s.split()`: the maximal runs of non-whitespace characters, in order. */
  function Fields(s: string): (r: seq<string>)
    ensures forall k :: 0 <= k < |r| ==> IsToken(r[k])
    decreases |s|
  {
    if s == [] then []
    else if IsSpace(s[0]) then Fields(s[1..])
    else
      var n := TokenLength(s);
      [s[..n]] + Fields(s[n..])
  }

  /** `" ".join(ts)`. */
  function Unwords(ts: seq<string>): string
    decreases |ts|
  {
    if |ts| == 0 then ""
    else if |ts| == 1 then ts[0]
    else ts[0] + " " + Unwords(ts[1..])
  }

  lemma {:induction false} TokenLengthOfToken(t: string, rest: string)
    requires IsToken(t)
    requires rest == [] || IsSpace(rest[0])
    ensures TokenLength(t + rest) == |t|
    decreases |t|
  {
    var s := t + rest;
    if |t| > 1 {
      assert s[1..] == t[1..] + rest;
      TokenLengthOfToken(t[1..], rest);
    }
  }

  /** A token followed by whitespace (or nothing) is split off as one field. */
  lemma {:induction false} FieldsOfToken(t: string, rest: string)
    requires IsToken(t)
    requires rest == [] || IsSpace(rest[0])
    ensures Fields(t + rest) == [t] + Fields(rest)
  {
    var s := t + rest;
    TokenLengthOfToken(t, rest);
    assert s[..|t|] == t;
    assert s[|t|..] == rest;
  }

  /** Splitting a space-joined line of tokens gives the tokens back. */
  lemma {:induction false} FieldsOfUnwords(ts: seq<string>)
    requires forall k :: 0 <= k < |ts| ==> IsToken(ts[k])
    ensures Fields(Unwords(ts)) == ts
    decreases |ts|
  {
    if |ts| == 1 {
      FieldsOfToken(ts[0], "");
      assert ts[0] + "" == ts[0];
    } else if |ts| > 1 {
      var tail := Unwords(ts[1..]);
      FieldsOfToken(ts[0], " " + tail);
      assert ts[0] + " " + tail == ts[0] + (" " + tail);
      assert (" " + tail)[1..] == tail;
      FieldsOfUnwords(ts[1..]);
      assert ts == [ts[0]] + ts[1..];
    }
  }

  // ---------------------------------------------------------------------
  // Iterating a text file: universal newlines
  // ---------------------------------------------------------------------

  predicate IsLineBreak(c: char) {
    c == '\n' || c == '\r'
  }

  predicate NoLineBreak(s: string) {
    forall i :: 0 <= i < |s| ==> !IsLineBreak(s[i])
  }

  /** Length of the text before the first line break of `s`. */
  function LineLength(s: string): (n: nat)
    ensures n <= |s|
    ensures forall i :: 0 <= i < n ==> !IsLineBreak(s[i])
    ensures n < |s| ==> IsLineBreak(s[n])
    decreases |s|
  {
    if s == [] || IsLineBreak(s[0]) then 0 else 1 + LineLength(s[1..])
  }

  /**
   * The lines a Python text-mode file yields for content `s`, without their
   * terminators: "\n", "\r" and "\r\n" each end a line, and a last line
   * without terminator is still a line.
   */
  function Lines(s: string): (r: seq<string>)
    ensures forall k :: 0 <= k < |r| ==> NoLineBreak(r[k])
    decreases |s|
  {
    if s == [] then []
    else
      var n := LineLength(s);
      if n == |s| then [s]
      else
        var next := if s[n] == '\r' && n + 1 < |s| && s[n + 1] == '\n' then n + 2 else n + 1;
        [s[..n]] + Lines(s[next..])
  }

  /** What a loop of `f.write(line + "\n")` leaves in the file. */
  function Terminated(ls: seq<string>): string
    decreases |ls|
  {
    if ls == [] then "" else ls[0] + "\n" + Terminated(ls[1..])
  }

  lemma {:induction false} LineLengthOf(l: string, rest: string)
    requires NoLineBreak(l)
    ensures LineLength(l + "\n" + rest) == |l|
    decreases |l|
  {
    if l != [] {
      assert (l + "\n" + rest)[1..] == l[1..] + "\n" + rest;
      LineLengthOf(l[1..], rest);
    }
  }

  /** A line ended by "\n" is read as that line, and reading goes on after the terminator. */
  lemma LinesOfLine(l: string, rest: string)
    requires NoLineBreak(l)
    ensures Lines(l + "\n" + rest) == [l] + Lines(rest)
  {
    var s := l + "\n" + rest;
    LineLengthOf(l, rest);
    assert s[|l|] == '\n';
    assert s[..|l|] == l;
    assert s[|l| + 1..] == rest;
  }

  /** Reading back lines written with "\n" terminators gives the lines. */
  lemma {:induction false} LinesOfTerminated(ls: seq<string>)
    requires forall k :: 0 <= k < |ls| ==> NoLineBreak(ls[k])
    ensures Lines(Terminated(ls)) == ls
    decreases |ls|
  {
    if ls != [] {
      LinesOfLine(ls[0], Terminated(ls[1..]));
      LinesOfTerminated(ls[1..]);
      assert ls == [ls[0]] + ls[1..];
    }
  }

  lemma {:induction false} TerminatedAppend(a: seq<string>, b: seq<string>)
    ensures Terminated(a + b) == Terminated(a) + Terminated(b)
    decreases |a|
  {
    if a == [] {
      assert a + b == b;
    } else {
      assert (a + b)[1..] == a[1..] + b;
      TerminatedAppend(a[1..], b);
    }
  }

  /** Appending in two steps is appending the two pieces together. */
  lemma ConcatAssociative(a: string, b: string, c: string)
    ensures (a + b) + c == a + (b + c)
  {
  }

  /** `[f(x) for x in xs]`. */
  function Mapped<T>(f: T -> string, xs: seq<T>): (r: seq<string>)
    ensures |r| == |xs|
    ensures forall i :: 0 <= i < |xs| ==> r[i] == f(xs[i])
  {
    seq(|xs|, i requires 0 <= i < |xs| => f(xs[i]))
  }

  lemma MappedAppend<T>(f: T -> string, a: seq<T>, b: seq<T>)
    ensures Mapped(f, a + b) == Mapped(f, a) + Mapped(f, b)
  {
    var whole := Mapped(f, a + b);
    forall k | 0 <= k < |whole| ensures whole[k] == (Mapped(f, a) + Mapped(f, b))[k] {
      if k < |a| {
        assert (a + b)[k] == a[k];
      } else {
        assert (a + b)[k] == b[k - |a|];
      }
    }
  }

  lemma MappedSnoc<T>(f: T -> string, xs: seq<T>, i: nat)
    requires i < |xs|
    ensures Mapped(f, xs[..i + 1]) == Mapped(f, xs[..i]) + [f(xs[i])]
  {
    assert xs[..i + 1] == xs[..i] + [xs[i]];
    MappedAppend(f, xs[..i], [xs[i]]);
  }

  /** `"".join(f(x) for x in xs)`: the pieces one after another. */
  function ConcatMap<T>(f: T --> string, xs: seq<T>): string
    requires forall k :: 0 <= k < |xs| ==> f.requires(xs[k])
    decreases |xs|
  {
    if xs == [] then "" else ConcatMap(f, xs[..|xs| - 1]) + f(xs[|xs| - 1])
  }

  lemma {:induction false} ConcatMapAppend<T>(f: T --> string, a: seq<T>, b: seq<T>)
    requires forall k :: 0 <= k < |a + b| ==> f.requires((a + b)[k])
    ensures forall k :: 0 <= k < |a| ==> f.requires(a[k])
    ensures forall k :: 0 <= k < |b| ==> f.requires(b[k])
    ensures ConcatMap(f, a + b) == ConcatMap(f, a) + ConcatMap(f, b)
    decreases |b|
  {
    assert forall k :: 0 <= k < |a| ==> (a + b)[k] == a[k];
    assert forall k :: 0 <= k < |b| ==> (a + b)[|a| + k] == b[k];
    if b == [] {
      assert a + b == a;
    } else {
      var b' := b[..|b| - 1];
      assert (a + b)[..|a + b| - 1] == a + b';
      ConcatMapAppend(f, a, b');
    }
  }

  // ---------------------------------------------------------------------
  // Integers: str(int) and int(str)
  // ---------------------------------------------------------------------

  predicate IsDigit(c: char) {
    '0' <= c <= '9'
  }

  predicate AllDigits(s: string) {
    forall i :: 0 <= i < |s| ==> IsDigit(s[i])
  }

  function DigitChar(d: nat): (c: char)
    requires d < 10
    ensures IsDigit(c) && c as int - '0' as int == d
  {
    ['0', '1', '2', '3', '4', '5', '6', '7', '8', '9'][d]
  }

  function DigitValue(c: char): nat
    requires IsDigit(c)
  {
    c as int - '0' as int
  }

  /** The decimal digits of `n`, without leading zeros. */
  function NatToString(n: nat): (s: string)
    ensures |s| > 0 && AllDigits(s)
    decreases n
  {
    if n < 10 then [DigitChar(n)] else NatToString(n / 10) + [DigitChar(n % 10)]
  }

  /** `str(n)` for a Python int. */
  function IntToString(n: int): string {
    if n < 0 then "-" + NatToString(-n) else NatToString(n)
  }

  /** The number a string of decimal digits denotes. */
  function DigitsValue(s: string): nat
    requires AllDigits(s)
    decreases |s|
  {
    if s == [] then 0 else 10 * DigitsValue(s[..|s| - 1]) + DigitValue(s[|s| - 1])
  }

  lemma {:induction false} DigitsValueOfNatToString(n: nat)
    ensures DigitsValue(NatToString(n)) == n
    decreases n
  {
    if n >= 10 {
      var s := NatToString(n);
      assert s[..|s| - 1] == NatToString(n / 10);
      DigitsValueOfNatToString(n / 10);
    }
  }

  /** `int(s)` for a field without surrounding whitespace: an optional sign and ASCII digits. */
  function ParseInt(s: string): Option<int> {
    if |s| > 0 && (s[0] == '+' || s[0] == '-') then
      var body := s[1..];
      if |body| > 0 && AllDigits(body) then
        Some(if s[0] == '-' then -(DigitsValue(body) as int) else DigitsValue(body))
      else None
    else if |s| > 0 && AllDigits(s) then Some(DigitsValue(s))
    else None
  }

  lemma IntToStringIsToken(n: int)
    ensures IsToken(IntToString(n))
  {
  }

  /** `int(str(n)) == n`. */
  lemma ParseIntOfIntToString(n: int)
    ensures ParseInt(IntToString(n)) == Some(n)
  {
    if n < 0 {
      var body := NatToString(-n);
      var s := "-" + body;
      assert s[0] == '-' && s[1..] == body;
      DigitsValueOfNatToString(-n);
    } else {
      var s := NatToString(n);
      assert s[0] != '+' && s[0] != '-' by { assert IsDigit(s[0]); }
      DigitsValueOfNatToString(n);
    }
  }

  /** `str(n) == "1"` holds exactly for the integer 1. */
  lemma IntToStringIsOne(n: int)
    ensures IntToString(n) == "1" <==> n == 1
  {
    if n >= 0 && IntToString(n) == "1" {
      DigitsValueOfNatToString(n);
    }
  }

  /** A string holding a '.', such as every `str(float)` of a finite float, is not an int. */
  lemma ParseIntRejectsDot(s: string, i: nat)
    requires i < |s| && s[i] == '.'
    ensures ParseInt(s).None?
  {
    if |s| > 0 && (s[0] == '+' || s[0] == '-') {
      assert i > 0 && s[1..][i - 1] == '.';
    }
  }

  // ---------------------------------------------------------------------
  // Decimal fractions: the part of float(str) the logs use
  // ---------------------------------------------------------------------

  function Pow10(k: nat): (p: nat)
    ensures p >= 1
  {
    if k == 0 then 1 else 10 * Pow10(k - 1)
  }

  /** Index of the first `c` in `s`, or `|s|` when there is none. */
  function FirstIndexOf(s: string, c: char): (i: nat)
    ensures i <= |s|
    ensures forall j :: 0 <= j < i ==> s[j] != c
    ensures i < |s| ==> s[i] == c
    decreases |s|
  {
    if s == [] || s[0] == c then 0 else 1 + FirstIndexOf(s[1..], c)
  }

  /** The value of the digits after the point: "fff" stands for fff / 10^|fff|. */
  function FractionValue(frac: string): real
    requires AllDigits(frac)
  {
    DigitsValue(frac) as real / Pow10(|frac|) as real
  }

  /** The number with integer digits `whole` and fraction digits `frac`, when both are digit strings and not both empty. */
  function DecimalOf(whole: string, frac: string): Option<real> {
    if AllDigits(whole) && AllDigits(frac) && |whole| + |frac| > 0 then
      Some(DigitsValue(whole) as real + FractionValue(frac))
    else None
  }

  /** Unsigned "ddd", "ddd.", ".fff" or "ddd.fff". */
  function ParseDecimal(s: string): Option<real> {
    var dot := FirstIndexOf(s, '.');
    DecimalOf(s[..dot], if dot < |s| then s[dot + 1..] else "")
  }

  /** `float(s)` restricted to an optional sign and a plain decimal fraction. */
  function ParseFloat(s: string): Option<real> {
    var body := if |s| > 0 && (s[0] == '+' || s[0] == '-') then s[1..] else s;
    match ParseDecimal(body)
    case None => None
    case Some(v) => Some(if |s| > 0 && s[0] == '-' then -v else v)
  }

  lemma {:induction false} FirstIndexOfDigits(s: string)
    requires AllDigits(s)
    ensures FirstIndexOf(s, '.') == |s|
    decreases |s|
  {
    if s != [] {
      assert IsDigit(s[0]);
      FirstIndexOfDigits(s[1..]);
    }
  }

  lemma ParseDecimalOfDigits(s: string)
    requires |s| > 0 && AllDigits(s)
    ensures ParseDecimal(s) == Some(DigitsValue(s) as real)
  {
    FirstIndexOfDigits(s);
    assert s[..|s|] == s;
    assert ParseDecimal(s) == DecimalOf(s, "");
    EmptyFraction();
  }

  lemma EmptyFraction()
    ensures AllDigits("") && FractionValue("") == 0.0
  {
    assert DigitsValue("") == 0 && Pow10(0) == 1;
  }

  lemma ParseFloatOfNatToString(n: nat)
    ensures ParseFloat(NatToString(n)) == Some(n as real)
  {
    var s := NatToString(n);
    assert s[0] != '+' && s[0] != '-' by { assert IsDigit(s[0]); }
    ParseDecimalOfDigits(s);
    DigitsValueOfNatToString(n);
  }

  /** `float("-" + body)` is the negation of the unsigned decimal `body`. */
  lemma ParseFloatOfMinus(body: string)
    ensures ParseFloat("-" + body) == match ParseDecimal(body) case None => None case Some(v) => Some(-v)
  {
    assert ("-" + body)[0] == '-' && ("-" + body)[1..] == body;
  }

  lemma ParseFloatOfNegative(n: int)
    requires n < 0
    ensures ParseFloat(IntToString(n)) == Some(n as real)
  {
    var body := NatToString(-n);
    assert IntToString(n) == "-" + body;
    ParseFloatOfMinus(body);
    ParseDecimalOfDigits(body);
    DigitsValueOfNatToString(-n);
    assert ParseDecimal(body) == Some((-n) as real);
    assert -((-n) as real) == n as real;
  }

  /** `float(str(n)) == n` for every int `n`. */
  lemma ParseFloatOfIntToString(n: int)
    ensures ParseFloat(IntToString(n)) == Some(n as real)
  {
    if n < 0 {
      ParseFloatOfNegative(n);
    } else {
      ParseFloatOfNatToString(n);
    }
  }

  /** The exceptions reading a field of a split line raises: `IndexError` and `ValueError`. */
  datatype FieldError = MissingField | NotANumber

  /** `int(parts[i])`. */
  function IntField(parts: seq<string>, i: nat): (r: Result<int, FieldError>)
    ensures i >= |parts| ==> r == Err(MissingField)
    ensures i < |parts| && ParseInt(parts[i]).None? ==> r == Err(NotANumber)
    ensures i < |parts| && ParseInt(parts[i]).Some? ==> r == Ok(ParseInt(parts[i]).value)
  {
    if i >= |parts| then Err(MissingField)
    else match ParseInt(parts[i])
      case None => Err(NotANumber)
      case Some(n) => Ok(n)
  }

  /** `float(parts[i])`. */
  function FloatField(parts: seq<string>, i: nat): (r: Result<real, FieldError>)
    ensures i >= |parts| ==> r == Err(MissingField)
    ensures i < |parts| && ParseFloat(parts[i]).None? ==> r == Err(NotANumber)
    ensures i < |parts| && ParseFloat(parts[i]).Some? ==> r == Ok(ParseFloat(parts[i]).value)
  {
    if i >= |parts| then Err(MissingField)
    else match ParseFloat(parts[i])
      case None => Err(NotANumber)
      case Some(x) => Ok(x)
  }

  /** Parsing the lines of a file one by one, stopping at the first line that fails. */
  function ParseEach<X, E>(parse: string -> Result<X, E>, lines: seq<string>): (r: Result<seq<X>, E>)
    ensures r.Ok? ==> |r.value| == |lines| && forall k :: 0 <= k < |lines| ==> parse(lines[k]) == Ok(r.value[k])
    ensures r.Err? ==> exists k :: (0 <= k < |lines| && parse(lines[k]) == Err(r.error)
                                    && forall j :: 0 <= j < k ==> parse(lines[j]).Ok?)
    decreases |lines|
  {
    if lines == [] then Ok([])
    else
      var n := |lines| - 1;
      assert forall k :: 0 <= k < n ==> lines[..n][k] == lines[k];
      match ParseEach(parse, lines[..n])
      case Err(e) => Err(e)
      case Ok(xs) =>
        match parse(lines[n])
        case Err(e) => Err(e)
        case Ok(x) => Ok(xs + [x])
  }

  lemma ParseEachStep<X, E>(parse: string -> Result<X, E>, lines: seq<string>, i: nat)
    requires i < |lines| && ParseEach(parse, lines[..i]).Ok?
    ensures parse(lines[i]).Err? ==> ParseEach(parse, lines[..i + 1]) == Err(parse(lines[i]).error)
    ensures parse(lines[i]).Ok? ==>
      ParseEach(parse, lines[..i + 1]) == Ok(ParseEach(parse, lines[..i]).value + [parse(lines[i]).value])
  {
    assert lines[..i + 1][..i] == lines[..i];
  }

  /** Once a prefix of the file has failed, the whole file fails with the same error. */
  lemma {:induction false} ParseEachErrPersists<X, E>(parse: string -> Result<X, E>, lines: seq<string>, i: nat)
    requires i <= |lines| && ParseEach(parse, lines[..i]).Err?
    ensures ParseEach(parse, lines) == ParseEach(parse, lines[..i])
    decreases |lines| - i
  {
    if i < |lines| {
      assert lines[..i + 1][..i] == lines[..i];
      ParseEachErrPersists(parse, lines, i + 1);
    } else {
      assert lines[..i] == lines;
    }
  }

  /** When every line parses, the result is the values, one per line and in order. */
  lemma {:induction false} ParseEachAllOk<X, E>(parse: string -> Result<X, E>, lines: seq<string>)
    requires forall k :: 0 <= k < |lines| ==> parse(lines[k]).Ok?
    ensures ParseEach(parse, lines).Ok?
    decreases |lines|
  {
    if lines != [] {
      var n := |lines| - 1;
      assert forall k :: 0 <= k < n ==> lines[..n][k] == lines[k];
      ParseEachAllOk(parse, lines[..n]);
    }
  }

  // ---------------------------------------------------------------------
  // Other string operations
  // ---------------------------------------------------------------------

  function LowerChar(c: char): char {
    if 'A' <= c <= 'Z' then (c as int + 32) as char else c
  }

  /** `s.lower()` on ASCII letters; every other character is kept. */
  function Lower(s: string): (r: string)
    ensures |r| == |s|
    ensures forall i :: 0 <= i < |s| ==> r[i] == LowerChar(s[i])
  {
    seq(|s|, i requires 0 <= i < |s| => LowerChar(s[i]))
  }

  /** The last index of `c` in `s`, if any. */
  function LastIndexOf(s: string, c: char): (r: Option<nat>)
    ensures r.None? ==> forall i :: 0 <= i < |s| ==> s[i] != c
    ensures r.Some? ==> r.value < |s| && s[r.value] == c
    ensures r.Some? ==> forall i :: r.value < i < |s| ==> s[i] != c
    decreases |s|
  {
    if s == [] then None
    else if s[|s| - 1] == c then Some(|s| - 1)
    else LastIndexOf(s[..|s| - 1], c)
  }

  /** `s.split(c)[-1]`: the text after the last `c`, or all of `s`. */
  function AfterLast(s: string, c: char): (r: string)
    ensures forall i :: 0 <= i < |r| ==> r[i] != c
    ensures exists k :: 0 <= k <= |s| && r == s[k..] && (k == 0 || s[k - 1] == c)
  {
    match LastIndexOf(s, c)
    case None => assert s == s[0..]; s
    case Some(i) => s[i + 1..]
  }

  predicate OccursAt(s: string, i: nat, pat: string) {
    i + |pat| <= |s| && s[i..i + |pat|] == pat
  }

  /** `s.replace(pat, rep)`: every non-overlapping occurrence, scanning left to right. */
  function ReplaceAll(s: string, pat: string, rep: string): string
    requires |pat| > 0
    decreases |s|
  {
    if |s| < |pat| then s
    else if s[..|pat|] == pat then rep + ReplaceAll(s[|pat|..], pat, rep)
    else [s[0]] + ReplaceAll(s[1..], pat, rep)
  }

  /** When `pat` occurs only as the suffix of `s + pat`, replace rewrites just that suffix. */
  lemma {:induction false} ReplaceAllSuffix(s: string, pat: string, rep: string)
    requires |pat| > 0
    requires forall i :: 0 <= i < |s| ==> !OccursAt(s + pat, i, pat)
    ensures ReplaceAll(s + pat, pat, rep) == s + rep
    decreases |s|
  {
    var t := s + pat;
    if s == [] {
      assert t == pat && t[..|pat|] == pat && t[|pat|..] == [];
    } else {
      assert !OccursAt(t, 0, pat);
      assert t[1..] == s[1..] + pat;
      forall i | 0 <= i < |s[1..]|
        ensures !OccursAt(s[1..] + pat, i, pat)
      {
        assert !OccursAt(t, i + 1, pat);
        assert (s[1..] + pat)[i..i + |pat|] == t[i + 1..i + 1 + |pat|];
      }
      ReplaceAllSuffix(s[1..], pat, rep);
      assert [s[0]] + (s[1..] + rep) == s + rep;
    }
  }
}
