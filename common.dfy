/** The small slice of Python's string and integer behaviour that the puzzle
    solvers rely on: character classes (ASCII only), `int()` on a string,
    `str.split(sep)`, `strip`/`lstrip`/`rstrip`, and the `\d+` scanner that
    `re.findall` is used for. Exceptions become a `Result`. */
module PyText {

  datatype Option<T> = None | Some(value: T)

  /** The Python exception a failing operation raises. */
  datatype Failure = ValueError | IndexError | AssertionError

  datatype Result<T> = Ok(value: T) | Err(failure: Failure) {
    predicate IsFailure() { Err? }
    function PropagateFailure<U>(): Result<U> requires Err? { Err(failure) }
    function Extract(): T requires Ok? { value }
  }

  // ---------------------------------------------------------------- characters

  predicate IsDigit(c: char) { '0' <= c <= '9' }

  predicate IsLower(c: char) { 'a' <= c <= 'z' }

  /** `str.isspace` restricted to ASCII. */
  predicate IsSpace(c: char) {
    c == ' ' || (9 <= c as int <= 13) || (28 <= c as int <= 31)
  }

  /** The character sets the source strips: `string.whitespace` (the
      default of `strip()`) and `string.ascii_lowercase`. */
  datatype CharClass = Whitespace | Lowercase

  predicate InClass(c: char, cls: CharClass) {
    match cls
    case Whitespace => IsSpace(c)
    case Lowercase => IsLower(c)
  }

  function DigitValue(c: char): (d: nat)
    requires IsDigit(c)
    ensures d <= 9
  {
    (c as int) - ('0' as int)
  }

  function DigitChar(d: nat): (c: char)
    requires d <= 9
    ensures IsDigit(c) && DigitValue(c) == d
  {
    (('0' as int) + d) as char
  }

  predicate AllDigits(s: string) {
    forall i :: 0 <= i < |s| ==> IsDigit(s[i])
  }

  // ---------------------------------------------------------------- decimal numbers

  /** The value of a string of decimal digits, most significant first. */
  function DecimalValue(s: string): nat
    requires AllDigits(s)
    decreases |s|
  {
    if s == [] then 0 else 10 * DecimalValue(s[..|s| - 1]) + DigitValue(s[|s| - 1])
  }

  /** The shortest decimal spelling of `n`. */
  function DecimalString(n: nat): (s: string)
    ensures |s| > 0 && AllDigits(s)
    decreases n
  {
    if n < 10 then [DigitChar(n)] else DecimalString(n / 10) + [DigitChar(n % 10)]
  }

  lemma {:induction false} DecimalRoundTrip(n: nat)
    ensures DecimalValue(DecimalString(n)) == n
    decreases n
  {
    if n >= 10 {
      var s := DecimalString(n);
      assert s[..|s| - 1] == DecimalString(n / 10);
      DecimalRoundTrip(n / 10);
    }
  }

  /** `str(n)` for an int. */
  function IntString(n: int): string {
    if n < 0 then "-" + DecimalString(-n) else DecimalString(n)
  }

  /** `str(n)` is a non-empty run of digits, after a minus sign when `n` is
      negative. */
  lemma IntStringChars(n: int)
    ensures |IntString(n)| > 0 && IsDigit(IntString(n)[|IntString(n)| - 1])
    ensures IntString(n)[0] == '-' || IsDigit(IntString(n)[0])
    ensures forall i :: 0 < i < |IntString(n)| ==> IsDigit(IntString(n)[i])
    ensures forall c :: c in IntString(n) ==> c == '-' || IsDigit(c)
  {
    if n < 0 {
      var d := DecimalString(-n);
      assert forall i :: 0 < i < |IntString(n)| ==> IntString(n)[i] == d[i - 1];
    }
  }

  // ---------------------------------------------------------------- stripping

  /** `s.lstrip(chars)`, the stripped set given by `cls`. */
  function LStrip(s: string, cls: CharClass): (r: string)
    ensures |r| <= |s|
    decreases |s|
  {
    if s != [] && InClass(s[0], cls) then LStrip(s[1..], cls) else s
  }

  /** `s.rstrip(chars)`, the stripped set given by `cls`. */
  function RStrip(s: string, cls: CharClass): (r: string)
    ensures |r| <= |s|
    decreases |s|
  {
    if s != [] && InClass(s[|s| - 1], cls) then RStrip(s[..|s| - 1], cls) else s
  }

  /** `lstrip` keeps a suffix: everything it removed is in the class, and
      what is left does not start with a character of the class. */
  lemma {:induction false} LStripSpec(s: string, cls: CharClass)
    ensures LStrip(s, cls) == s[|s| - |LStrip(s, cls)|..]
    ensures forall i :: 0 <= i < |s| - |LStrip(s, cls)| ==> InClass(s[i], cls)
    ensures LStrip(s, cls) != [] ==> !InClass(LStrip(s, cls)[0], cls)
    decreases |s|
  {
    if s != [] && InClass(s[0], cls) {
      LStripSpec(s[1..], cls);
      forall i | 1 <= i < |s| - |LStrip(s, cls)| ensures InClass(s[i], cls) {
        assert s[i] == s[1..][i - 1];
      }
    }
  }

  /** `rstrip` keeps a prefix: everything it removed is in the class, and
      what is left does not end with a character of the class. */
  lemma {:induction false} RStripSpec(s: string, cls: CharClass)
    ensures RStrip(s, cls) == s[..|RStrip(s, cls)|]
    ensures forall i :: |RStrip(s, cls)| <= i < |s| ==> InClass(s[i], cls)
    ensures RStrip(s, cls) != [] ==> !InClass(RStrip(s, cls)[|RStrip(s, cls)| - 1], cls)
    decreases |s|
  {
    if s != [] && InClass(s[|s| - 1], cls) {
      RStripSpec(s[..|s| - 1], cls);
      forall i | |RStrip(s, cls)| <= i < |s| - 1 ensures InClass(s[i], cls) {
        assert s[i] == s[..|s| - 1][i];
      }
    }
  }

  /** `lstrip` removes exactly the leading characters of the class. */
  lemma {:induction false} LStripExact(s: string, cls: CharClass, n: nat)
    requires n <= |s| && (forall k :: 0 <= k < n ==> InClass(s[k], cls)) && (n < |s| ==> !InClass(s[n], cls))
    ensures LStrip(s, cls) == s[n..]
    decreases n
  {
    if n > 0 {
      LStripExact(s[1..], cls, n - 1);
      assert s[1..][n - 1..] == s[n..];
    }
  }

  /** `rstrip` removes exactly the trailing characters of the class. */
  lemma {:induction false} RStripExact(s: string, cls: CharClass, n: nat)
    requires n <= |s| && (forall k :: n <= k < |s| ==> InClass(s[k], cls)) && (n > 0 ==> !InClass(s[n - 1], cls))
    ensures RStrip(s, cls) == s[..n]
    decreases |s| - n
  {
    if n < |s| {
      RStripExact(s[..|s| - 1], cls, n);
      assert s[..|s| - 1][..n] == s[..n];
    } else {
      assert s[..n] == s;
    }
  }

  /** `s.strip()` with no argument: surrounding whitespace removed. */
  function Strip(s: string): string {
    RStrip(LStrip(s, Whitespace), Whitespace)
  }

  /** `strip` removes exactly the surrounding whitespace: with only
      whitespace before `i` and from `j` on, and none at `i` or at `j - 1`,
      what is left is `s[i..j]`. */
  lemma StripExact(s: string, i: nat, j: nat)
    requires i < j <= |s|
    requires forall k :: 0 <= k < i ==> IsSpace(s[k])
    requires forall k :: j <= k < |s| ==> IsSpace(s[k])
    requires !IsSpace(s[i]) && !IsSpace(s[j - 1])
    ensures Strip(s) == s[i..j]
  {
    LStripExact(s, Whitespace, i);
    var t := s[i..];
    assert forall k :: j - i <= k < |t| ==> t[k] == s[k + i];
    RStripExact(t, Whitespace, j - i);
    assert t[..j - i] == s[i..j];
  }

  // ---------------------------------------------------------------- int()

  /** The text Python's `int()` accepts once surrounding whitespace is gone:
      an optional sign followed by one or more decimal digits. */
  predicate IsIntLiteral(t: string) {
    if |t| > 0 && (t[0] == '-' || t[0] == '+') then |t| > 1 && AllDigits(t[1..])
    else |t| > 0 && AllDigits(t)
  }

  /** `int(s)` on a string: ValueError unless the stripped text is an
      optionally signed run of decimal digits. */
  function ParseInt(s: string): (r: Result<int>)
    ensures r.Ok? <==> IsIntLiteral(Strip(s))
    ensures r.Err? ==> r.failure == ValueError
  {
    var t := Strip(s);
    if |t| > 0 && (t[0] == '-' || t[0] == '+') then
      var digits := t[1..];
      if |digits| > 0 && AllDigits(digits) then
        var magnitude: int := DecimalValue(digits);
        Ok(if t[0] == '-' then -magnitude else magnitude)
      else Err(ValueError)
    else if |t| > 0 && AllDigits(t) then Ok(DecimalValue(t))
    else Err(ValueError)
  }

  /** `int(str(n)) == n`. */
  lemma IntRoundTrip(n: int)
    ensures ParseInt(IntString(n)) == Ok(n)
  {
    var s := IntString(n);
    var m := if n < 0 then -n else n;
    var d := DecimalString(m);
    DecimalRoundTrip(m);
    assert !InClass(s[0], Whitespace) && !InClass(s[|s| - 1], Whitespace);
    LStripExact(s, Whitespace, 0);
    RStripExact(s, Whitespace, |s|);
    assert Strip(s) == s;
    if n < 0 {
      assert s[1..] == d;
    }
  }

  /** A single character converts with `int()` exactly when it is a digit. */
  lemma ParseIntDigit(c: char)
    ensures ParseInt([c]).Ok? <==> IsDigit(c)
    ensures IsDigit(c) ==> ParseInt([c]) == Ok(DigitValue(c))
  {
    if IsSpace(c) {
      LStripExact([c], Whitespace, 1);
      RStripExact([], Whitespace, 0);
      assert Strip([c]) == [];
    } else {
      LStripExact([c], Whitespace, 0);
      RStripExact([c], Whitespace, 1);
      assert Strip([c]) == [c];
      if IsDigit(c) {
        assert [c][..0] == [];
        assert DecimalValue([c]) == 10 * DecimalValue([]) + DigitValue(c);
      }
    }
  }

  // ---------------------------------------------------------------- split

  /** `s.split(sep)`: the pieces between separators, always at least one. */
  function Split(s: string, sep: char): (parts: seq<string>)
    ensures |parts| >= 1
    ensures forall i :: 0 <= i < |parts| ==> sep !in parts[i]
    decreases |s|
  {
    if s == [] then [[]]
    else
      var rest := Split(s[1..], sep);
      if s[0] == sep then [[]] + rest else [[s[0]] + rest[0]] + rest[1..]
  }

  /** A string without the separator is a single piece. */
  lemma {:induction false} SplitWithout(a: string, sep: char)
    requires sep !in a
    ensures Split(a, sep) == [a]
    decreases |a|
  {
    if a != [] {
      assert sep !in a[1..] && a[0] != sep;
      SplitWithout(a[1..], sep);
      assert [a[0]] + a[1..] == a;
    }
  }

  /** A separator after a piece without one ends that piece. */
  lemma {:induction false} SplitAfter(a: string, sep: char, b: string)
    requires sep !in a
    ensures Split(a + [sep] + b, sep) == [a] + Split(b, sep)
    decreases |a|
  {
    var s := a + [sep] + b;
    if a == [] {
      assert s[1..] == b;
    } else {
      assert s[1..] == a[1..] + [sep] + b;
      assert sep !in a[1..] && s[0] == a[0] != sep;
      SplitAfter(a[1..], sep, b);
      var rest := Split(s[1..], sep);
      assert rest == [a[1..]] + Split(b, sep);
      assert [s[0]] + rest[0] == a;
      assert rest[1..] == Split(b, sep);
    }
  }

  /** A text with exactly one separator splits into the two sides. */
  lemma SplitTwo(a: string, sep: char, b: string)
    requires sep !in a && sep !in b
    ensures Split(a + [sep] + b, sep) == [a, b]
  {
    SplitAfter(a, sep, b);
    SplitWithout(b, sep);
  }

  /** `glue.join(parts)`, for a glue of any length. */
  function JoinWith(parts: seq<string>, glue: string): string
    decreases |parts|
  {
    if |parts| == 0 then [] else if |parts| == 1 then parts[0]
    else parts[0] + glue + JoinWith(parts[1..], glue)
  }

  /** Glue and pieces without a character join into text without it. */
  lemma {:induction false} JoinWithFree(parts: seq<string>, glue: string, c: char)
    requires c !in glue && forall i :: 0 <= i < |parts| ==> c !in parts[i]
    ensures c !in JoinWith(parts, glue)
    decreases |parts|
  {
    if |parts| > 1 {
      assert forall i :: 0 <= i < |parts| - 1 ==> parts[1..][i] == parts[i + 1];
      JoinWithFree(parts[1..], glue, c);
    }
  }

  /** Pieces glued with a separator followed by `gap`, after a `lead`, split
      back apart at the separator when nothing else holds it: the first
      piece keeps the lead and every later one the gap. */
  lemma {:induction false} SplitJoined(lead: string, parts: seq<string>, sep: char, gap: string)
    requires |parts| > 0 && sep !in lead && sep !in gap
    requires forall i :: 0 <= i < |parts| ==> sep !in parts[i]
    ensures var pieces := Split(lead + JoinWith(parts, [sep] + gap), sep);
      |pieces| == |parts| && pieces[0] == lead + parts[0] &&
      forall i :: 1 <= i < |parts| ==> pieces[i] == gap + parts[i]
    decreases |parts|
  {
    var glue := [sep] + gap;
    if |parts| == 1 {
      SplitWithout(lead + parts[0], sep);
    } else {
      var rest := JoinWith(parts[1..], glue);
      assert lead + JoinWith(parts, glue) == (lead + parts[0]) + [sep] + (gap + rest);
      SplitAfter(lead + parts[0], sep, gap + rest);
      SplitJoined(gap, parts[1..], sep, gap);
      var pieces := Split(lead + JoinWith(parts, glue), sep);
      var later := Split(gap + rest, sep);
      assert pieces == [lead + parts[0]] + later;
      assert forall i :: 1 <= i < |parts| ==> pieces[i] == later[i - 1] && parts[1..][i - 1] == parts[i];
    }
  }

  /** `sep.join(parts)`. */
  function Join(parts: seq<string>, sep: char): string
    decreases |parts|
  {
    if |parts| == 0 then [] else if |parts| == 1 then parts[0]
    else parts[0] + [sep] + Join(parts[1..], sep)
  }

  /** Splitting loses nothing: joining the pieces back gives the input. */
  lemma {:induction false} JoinSplit(s: string, sep: char)
    ensures Join(Split(s, sep), sep) == s
    decreases |s|
  {
    if s != [] {
      var rest := Split(s[1..], sep);
      JoinSplit(s[1..], sep);
      if s[0] == sep {
        assert Split(s, sep) == [[]] + rest;
      } else {
        var parts := Split(s, sep);
        assert parts == [[s[0]] + rest[0]] + rest[1..];
        if |rest| > 1 {
          assert rest == [rest[0]] + rest[1..];
          assert Join(rest, sep) == rest[0] + [sep] + Join(rest[1..], sep);
          assert parts[1..] == rest[1..];
        }
      }
    }
  }

  // ---------------------------------------------------------------- \d+ scanning

  /** Length of the run of digits at the start of `s`. */
  function DigitPrefixLength(s: string): (n: nat)
    ensures n <= |s| && AllDigits(s[..n])
    ensures n < |s| ==> !IsDigit(s[n])
    decreases |s|
  {
    if s != [] && IsDigit(s[0]) then
      var n := 1 + DigitPrefixLength(s[1..]);
      assert s[..n] == [s[0]] + s[1..][..n - 1];
      n
    else 0
  }

  /** `re.findall(r'\d+', s)`: the maximal runs of digits, left to right. */
  function DigitRuns(s: string): (runs: seq<string>)
    ensures forall i :: 0 <= i < |runs| ==> |runs[i]| > 0 && AllDigits(runs[i])
    decreases |s|
  {
    if s == [] then []
    else if !IsDigit(s[0]) then DigitRuns(s[1..])
    else
      var n := DigitPrefixLength(s);
      [s[..n]] + DigitRuns(s[n..])
  }

  /** `[int(m) for m in re.findall(r'\d+', s)]`. */
  function Numbers(s: string): (ns: seq<nat>)
    ensures |ns| == |DigitRuns(s)|
  {
    var runs := DigitRuns(s);
    seq(|runs|, i requires 0 <= i < |runs| => DecimalValue(runs[i]))
  }

  function Concat(parts: seq<string>): string
    decreases |parts|
  {
    if parts == [] then [] else parts[0] + Concat(parts[1..])
  }

  function KeepDigits(s: string): (r: string)
    ensures AllDigits(r)
    decreases |s|
  {
    if s == [] then [] else (if IsDigit(s[0]) then [s[0]] else []) + KeepDigits(s[1..])
  }

  lemma {:induction false} KeepDigitsAppend(a: string, b: string)
    ensures KeepDigits(a + b) == KeepDigits(a) + KeepDigits(b)
    decreases |a|
  {
    if a != [] {
      var head: string := if IsDigit(a[0]) then [a[0]] else [];
      assert (a + b)[0] == a[0] && (a + b)[1..] == a[1..] + b;
      KeepDigitsAppend(a[1..], b);
      calc {
        KeepDigits(a + b);
        head + KeepDigits(a[1..] + b);
        head + (KeepDigits(a[1..]) + KeepDigits(b));
        (head + KeepDigits(a[1..])) + KeepDigits(b);
      }
    } else {
      assert a + b == b;
    }
  }

  lemma {:induction false} KeepAllDigits(d: string)
    requires AllDigits(d)
    ensures KeepDigits(d) == d
    decreases |d|
  {
    if d != [] { KeepAllDigits(d[1..]); }
  }

  /** The runs hold every digit of `s`, in order, and nothing else. */
  lemma {:induction false} DigitRunsCoverDigits(s: string)
    ensures Concat(DigitRuns(s)) == KeepDigits(s)
    decreases |s|
  {
    if s != [] {
      if !IsDigit(s[0]) {
        DigitRunsCoverDigits(s[1..]);
      } else {
        var n := DigitPrefixLength(s);
        DigitRunsCoverDigits(s[n..]);
        assert s == s[..n] + s[n..];
        KeepDigitsAppend(s[..n], s[n..]);
        KeepAllDigits(s[..n]);
        var runs := DigitRuns(s);
        assert runs == [s[..n]] + DigitRuns(s[n..]);
        assert runs[1..] == DigitRuns(s[n..]);
      }
    }
  }

  lemma {:induction false} DigitRunsOfNonDigits(g: string)
    requires forall i :: 0 <= i < |g| ==> !IsDigit(g[i])
    ensures DigitRuns(g) == []
    decreases |g|
  {
    if g != [] { DigitRunsOfNonDigits(g[1..]); }
  }

  /** A run never spans a non-digit: the scan splits at every non-digit. */
  lemma {:induction false} DigitRunsSplitAtNonDigit(a: string, c: char, b: string)
    requires !IsDigit(c)
    ensures DigitRuns(a + [c] + b) == DigitRuns(a) + DigitRuns(b)
    decreases |a|
  {
    var s := a + [c] + b;
    if a == [] {
      assert s[1..] == b;
    } else if !IsDigit(a[0]) {
      assert s[1..] == a[1..] + [c] + b;
      DigitRunsSplitAtNonDigit(a[1..], c, b);
    } else {
      var n := DigitPrefixLength(a);
      var m := DigitPrefixLength(s);
      DigitPrefixLengthExtend(a, [c] + b);
      assert s == a + ([c] + b);
      assert m == n;
      assert s[..m] == a[..n];
      assert s[m..] == a[n..] + [c] + b;
      DigitRunsSplitAtNonDigit(a[n..], c, b);
    }
  }

  lemma {:induction false} DigitPrefixLengthExtend(a: string, b: string)
    requires b != [] && !IsDigit(b[0])
    ensures DigitPrefixLength(a + b) == DigitPrefixLength(a)
    decreases |a|
  {
    if a != [] && IsDigit(a[0]) {
      assert (a + b)[1..] == a[1..] + b;
      DigitPrefixLengthExtend(a[1..], b);
    } else if a == [] {
      assert a + b == b;
    }
  }

  /** A string of digits is one run by itself. */
  lemma DigitRunsOfDigits(d: string)
    requires |d| > 0 && AllDigits(d)
    ensures DigitRuns(d) == [d]
  {
    DigitPrefixLengthAll(d);
    assert d[|d|..] == [];
    assert d[..|d|] == d;
  }

  lemma {:induction false} DigitPrefixLengthAll(d: string)
    requires AllDigits(d)
    ensures DigitPrefixLength(d) == |d|
    decreases |d|
  {
    if d != [] { DigitPrefixLengthAll(d[1..]); }
  }

  /** `' '.join(str(n) for n in ns)`. */
  function SpacedNumbers(ns: seq<nat>): string
    decreases |ns|
  {
    if |ns| == 0 then []
    else if |ns| == 1 then DecimalString(ns[0])
    else DecimalString(ns[0]) + " " + SpacedNumbers(ns[1..])
  }

  /** Numbers written out with single spaces hold only digits and spaces,
      and start and end with a digit. */
  lemma {:induction false} SpacedCharacters(ns: seq<nat>)
    ensures forall i :: 0 <= i < |SpacedNumbers(ns)| ==>
      SpacedNumbers(ns)[i] == ' ' || IsDigit(SpacedNumbers(ns)[i])
    ensures |ns| > 0 ==> |SpacedNumbers(ns)| > 0 && IsDigit(SpacedNumbers(ns)[0])
    ensures |ns| > 0 ==> IsDigit(SpacedNumbers(ns)[|SpacedNumbers(ns)| - 1])
    decreases |ns|
  {
    if |ns| > 1 {
      SpacedCharacters(ns[1..]);
      var a := DecimalString(ns[0]);
      var rest := SpacedNumbers(ns[1..]);
      var s := SpacedNumbers(ns);
      assert s == a + [' '] + rest;
      forall i | 0 <= i < |s| ensures s[i] == ' ' || IsDigit(s[i]) {
        if i > |a| { assert s[i] == rest[i - |a| - 1]; }
      }
      assert s[|s| - 1] == rest[|rest| - 1];
    }
  }

  /** Scanning numbers written out with single spaces gives them back. */
  lemma {:induction false} NumbersOfSpaced(ns: seq<nat>)
    ensures Numbers(SpacedNumbers(ns)) == ns
    decreases |ns|
  {
    if |ns| == 1 {
      DigitRunsOfDigits(DecimalString(ns[0]));
      DecimalRoundTrip(ns[0]);
    } else if |ns| > 1 {
      var a := DecimalString(ns[0]);
      var rest := SpacedNumbers(ns[1..]);
      assert SpacedNumbers(ns) == a + [' '] + rest;
      DigitRunsSplitAtNonDigit(a, ' ', rest);
      DigitRunsOfDigits(a);
      DecimalRoundTrip(ns[0]);
      NumbersOfSpaced(ns[1..]);
      var runs := DigitRuns(SpacedNumbers(ns));
      assert runs == [a] + DigitRuns(rest);
      assert forall i :: 1 <= i < |runs| ==> runs[i] == DigitRuns(rest)[i - 1];
    }
  }

  // ---------------------------------------------------------------- slicing and search

  /** `s[::-1]`. */
  function Reversed<T>(s: seq<T>): (r: seq<T>)
    ensures |r| == |s|
    decreases |s|
  {
    if s == [] then [] else Reversed(s[1..]) + [s[0]]
  }

  /** Index `i` of the reversal is index `|s| - 1 - i` of `s`. */
  lemma {:induction false} ReversedSpec<T>(s: seq<T>)
    ensures forall i :: 0 <= i < |s| ==> Reversed(s)[i] == s[|s| - 1 - i]
    decreases |s|
  {
    if s != [] {
      ReversedSpec(s[1..]);
    }
  }

  /** `s.startswith(p)`. */
  predicate StartsWith(s: string, p: string) {
    |p| <= |s| && s[..|p|] == p
  }

  /** `p` occurs in `s` starting at index `i`. */
  predicate OccursAt(s: string, p: string, i: nat) {
    i <= |s| && StartsWith(s[i..], p)
  }

  /** `s.find(p)` from index `from` on, None for -1. */
  function FindFrom(s: string, p: string, from: nat): (r: Option<nat>)
    ensures r.Some? ==> from <= r.value && OccursAt(s, p, r.value)
    ensures r.Some? ==> forall j :: from <= j < r.value ==> !OccursAt(s, p, j)
    ensures r.None? ==> forall j :: from <= j ==> !OccursAt(s, p, j)
    decreases |s| - from
  {
    if from > |s| then None
    else if OccursAt(s, p, from) then Some(from)
    else FindFrom(s, p, from + 1)
  }

  /** `s.replace(pat, repl, 1)`: the leftmost occurrence of `pat`, if any, is
      replaced by `repl`. */
  function ReplaceFirst(s: string, pat: string, repl: string): (r: string)
    ensures FindFrom(s, pat, 0).None? ==> r == s
  {
    match FindFrom(s, pat, 0)
    case None => s
    case Some(j) => s[..j] + repl + s[j + |pat|..]
  }

  /** When `pat` first occurs at `i`, `replace(pat, repl, 1)` rewrites exactly
      the characters `s[i..i + |pat|]`. */
  lemma ReplaceFirstAt(s: string, pat: string, repl: string, i: nat)
    requires OccursAt(s, pat, i)
    requires forall j :: 0 <= j < i ==> !OccursAt(s, pat, j)
    ensures ReplaceFirst(s, pat, repl) == s[..i] + repl + s[i + |pat|..]
  {
    match FindFrom(s, pat, 0)
    case None =>
    case Some(j) =>
      if j < i {
      } else if j > i {
      }
  }

  // ---------------------------------------------------------------- totals over lines

  /** A list comprehension whose items may raise: all the values in order,
      or the failure of the first item that fails. */
  function Collect<T>(rs: seq<Result<T>>): (r: Result<seq<T>>)
    ensures r.Ok? <==> forall i :: 0 <= i < |rs| ==> rs[i].Ok?
    ensures r.Ok? ==> |r.value| == |rs| && forall i :: 0 <= i < |rs| ==> rs[i] == Ok(r.value[i])
    ensures r.Err? ==> exists i :: 0 <= i < |rs| && rs[i] == Err(r.failure) && forall j :: 0 <= j < i ==> rs[j].Ok?
    decreases |rs|
  {
    if rs == [] then Ok([])
    else
      var init := rs[..|rs| - 1];
      assert forall i :: 0 <= i < |init| ==> init[i] == rs[i];
      var values :- Collect(init);
      var last :- rs[|rs| - 1];
      Ok(values + [last])
  }

  /** `sum_ += value` over the lines, where computing a line's value may
      raise: the total of the values, or the failure of the first line that
      fails (`SumResultsFailure`). */
  function SumResults(rs: seq<Result<int>>): Result<int>
    decreases |rs|
  {
    if rs == [] then Ok(0)
    else
      var total :- SumResults(rs[..|rs| - 1]);
      var last :- rs[|rs| - 1];
      Ok(total + last)
  }

  /** The parsing loop shared by the solvers: `f` applied to every line in
      order, stopping at the first line that fails. */
  method ParseLines<T>(f: string -> Result<T>, lines: seq<string>) returns (r: Result<seq<T>>)
    ensures r.Ok? <==> forall i :: 0 <= i < |lines| ==> f(lines[i]).Ok?
    ensures r.Err? ==> exists i :: 0 <= i < |lines| && f(lines[i]) == Err(r.failure) && forall j :: 0 <= j < i ==> f(lines[j]).Ok?
    ensures r.Ok? ==> |r.value| == |lines| && forall i :: 0 <= i < |lines| ==> f(lines[i]) == Ok(r.value[i])
  {
    var parsed: seq<T> := [];
    for i := 0 to |lines|
      invariant |parsed| == i
      invariant forall j :: 0 <= j < i ==> f(lines[j]) == Ok(parsed[j])
    {
      var item :- f(lines[i]);
      parsed := parsed + [item];
    }
    r := Ok(parsed);
  }

  /** `f` applied to every line, in order. */
  function MapLines(f: string -> Result<int>, lines: seq<string>): (vs: seq<Result<int>>)
    ensures |vs| == |lines|
  {
    seq(|lines|, i requires 0 <= i < |lines| => f(lines[i]))
  }

  /** One more value of a sum: a success adds its value, a failure is
      the failure of the whole sum. */
  lemma SumResultsNext(rs: seq<Result<int>>, i: nat, sum: int)
    requires i < |rs| && SumResults(rs[..i]) == Ok(sum)
    ensures rs[i].Ok? ==> SumResults(rs[..i + 1]) == Ok(sum + rs[i].value)
    ensures rs[i].Err? ==> SumResults(rs) == rs[i]
  {
    if rs[i].Ok? {
      SumResultsStep(rs, i, sum, rs[i].value);
    } else {
      SumResultsStops(rs, i);
    }
  }

  /** One more line of a loop that adds up `f` of each line: a success
      adds its value, a failure is the failure of the whole loop. */
  lemma SumLinesStep(f: string -> Result<int>, lines: seq<string>, i: nat, sum: int)
    requires i < |lines| && SumResults(MapLines(f, lines[..i])) == Ok(sum)
    ensures f(lines[i]).Ok? ==> SumResults(MapLines(f, lines[..i + 1])) == Ok(sum + f(lines[i]).value)
    ensures f(lines[i]).Err? ==> SumResults(MapLines(f, lines)) == f(lines[i])
  {
    var vs := MapLines(f, lines);
    assert MapLines(f, lines[..i]) == vs[..i];
    assert MapLines(f, lines[..i + 1]) == vs[..i + 1];
    if f(lines[i]).Ok? {
      SumResultsStep(vs, i, sum, f(lines[i]).value);
    } else {
      SumResultsStops(vs, i);
    }
  }

  /** `SumLinesStep` for a value already computed for the line. */
  lemma SumLinesNext(f: string -> Result<int>, lines: seq<string>, i: nat, sum: int, value: Result<int>)
    requires i < |lines| && SumResults(MapLines(f, lines[..i])) == Ok(sum) && f(lines[i]) == value
    ensures value.Ok? ==> SumResults(MapLines(f, lines[..i + 1])) == Ok(sum + value.value)
    ensures value.Err? ==> SumResults(MapLines(f, lines)) == value
  {
    SumLinesStep(f, lines, i, sum);
  }

  /** The total exists exactly when every line succeeds; otherwise it is the
      failure of the first line that fails. */
  lemma {:induction false} SumResultsFailure(rs: seq<Result<int>>)
    ensures SumResults(rs).Ok? <==> forall i :: 0 <= i < |rs| ==> rs[i].Ok?
    ensures SumResults(rs).Err? ==> exists i :: (0 <= i < |rs| && rs[i] == Err(SumResults(rs).failure)
                                                 && forall j :: 0 <= j < i ==> rs[j].Ok?)
    decreases |rs|
  {
    if rs != [] {
      var init := rs[..|rs| - 1];
      SumResultsFailure(init);
      assert forall i :: 0 <= i < |init| ==> init[i] == rs[i];
      if SumResults(init).Ok? && rs[|rs| - 1].Err? {
        assert rs[|rs| - 1] == Err(SumResults(rs).failure);
      }
    }
  }

  /** The total of values that all lie in `lo..hi` lies in `|rs| * lo..|rs| * hi`. */
  lemma {:induction false} SumResultsBounds(rs: seq<Result<int>>, lo: int, hi: int)
    requires forall i :: 0 <= i < |rs| ==> rs[i].Ok? ==> lo <= rs[i].value <= hi
    ensures SumResults(rs).Ok? ==> |rs| * lo <= SumResults(rs).value <= |rs| * hi
    decreases |rs|
  {
    if rs != [] {
      var init := rs[..|rs| - 1];
      SumResultsBounds(init, lo, hi);
      assert forall i :: 0 <= i < |init| ==> init[i] == rs[i];
    }
  }

  /** Totals of lines that fail together and whose values are pointwise no
      larger fail together and are no larger. */
  lemma {:induction false} SumResultsMonotone(rs: seq<Result<int>>, qs: seq<Result<int>>)
    requires |rs| == |qs|
    requires forall i :: 0 <= i < |rs| ==> (rs[i].Ok? <==> qs[i].Ok?)
    requires forall i :: 0 <= i < |rs| && rs[i].Ok? && qs[i].Ok? ==> rs[i].value <= qs[i].value
    ensures SumResults(rs).Ok? <==> SumResults(qs).Ok?
    ensures SumResults(rs).Ok? && SumResults(qs).Ok? ==> SumResults(rs).value <= SumResults(qs).value
    decreases |rs|
  {
    if rs != [] {
      var n := |rs| - 1;
      SumResultsMonotone(rs[..n], qs[..n]);
    }
  }

  /** One more successful line adds its value to the running total. */
  lemma SumResultsStep(rs: seq<Result<int>>, i: nat, total: int, last: int)
    requires i < |rs| && SumResults(rs[..i]) == Ok(total) && rs[i] == Ok(last)
    ensures SumResults(rs[..i + 1]) == Ok(total + last)
  {
    assert rs[..i + 1][..i] == rs[..i];
  }

  /** A failing line after successful ones decides the failure of the whole. */
  lemma SumResultsStops(rs: seq<Result<int>>, i: nat)
    requires i < |rs| && SumResults(rs[..i]).Ok? && rs[i].Err?
    ensures SumResults(rs) == Err(rs[i].failure)
  {
    SumResultsStopsAt(rs, i, |rs|);
    assert rs[..|rs|] == rs;
  }

  lemma {:induction false} SumResultsStopsAt(rs: seq<Result<int>>, i: nat, m: nat)
    requires i < m <= |rs| && SumResults(rs[..i]).Ok? && rs[i].Err?
    ensures SumResults(rs[..m]) == Err(rs[i].failure)
    decreases m
  {
    if m == i + 1 {
      assert rs[..m][..i] == rs[..i];
    } else {
      SumResultsStopsAt(rs, i, m - 1);
      assert rs[..m][..m - 1] == rs[..m - 1];
    }
  }
}
