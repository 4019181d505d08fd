/** Trebuchet calibration (01/main.py): every line yields a two-digit value
    from its first and last digit, once after trimming lowercase letters
    (`main`) and once after rewriting spelled-out digit words (`main2`). */
module Calibration {
  import opened PyText

  // ================================================================ part one

  /** `truncate_line`: lowercase letters stripped on the left, then whitespace
      and then lowercase letters stripped on the right. */
  function TruncateLine(line: string): string {
    RStrip(RStrip(LStrip(line, Lowercase), Whitespace), Lowercase)
  }

  /** What is left is one piece of the line, and it neither starts nor ends
      with a lowercase letter. */
  lemma TruncateLineSpec(line: string)
    ensures exists i :: PieceAt(line, TruncateLine(line), i)
    ensures var t := TruncateLine(line); t != [] ==> !IsLower(t[0]) && !IsLower(t[|t| - 1])
  {
    var a := LStrip(line, Lowercase);
    var b := RStrip(a, Whitespace);
    var t := RStrip(b, Lowercase);
    LStripSpec(line, Lowercase);
    RStripSpec(a, Whitespace);
    RStripSpec(b, Lowercase);
    assert t == TruncateLine(line);
    assert PieceAt(line, TruncateLine(line), |line| - |a|);
    if t != [] {
      assert t[0] == b[0] == a[0];
      assert !InClass(a[0], Lowercase);
      assert !InClass(t[|t| - 1], Lowercase);
    }
  }

  /** `t` is the piece of `s` that starts at index `i`. */
  predicate PieceAt(s: string, t: string, i: nat) {
    i + |t| <= |s| && t == s[i..i + |t|]
  }

  /** `int(hi) * 10 + int(lo)` for two single characters: both must be
      digits, otherwise `int()` raises a value error (see `TwoDigitValueIsInt`). */
  function TwoDigitValue(hi: char, lo: char): (r: Result<int>)
    ensures r.Ok? ==> 0 <= r.value <= 99
  {
    if IsDigit(hi) && IsDigit(lo) then Ok(10 * DigitValue(hi) + DigitValue(lo)) else Err(ValueError)
  }

  /** The value is Python's `int()` of each character, the first failing
      conversion deciding the error. */
  lemma TwoDigitValueIsInt(hi: char, lo: char)
    ensures ParseInt([hi]).Ok? && ParseInt([lo]).Ok? ==>
      TwoDigitValue(hi, lo) == Ok(ParseInt([hi]).value * 10 + ParseInt([lo]).value)
    ensures !ParseInt([hi]).Ok? ==> TwoDigitValue(hi, lo) == ParseInt([hi]).PropagateFailure()
    ensures ParseInt([hi]).Ok? && !ParseInt([lo]).Ok? ==> TwoDigitValue(hi, lo) == ParseInt([lo]).PropagateFailure()
  {
    ParseIntDigit(hi);
    ParseIntDigit(lo);
  }

  /** The body of `main`'s loop: the first and the last character of the
      truncated line read as digits. An empty truncated line fails at the
      index. */
  function CalibrationValue(line: string): (r: Result<int>)
    ensures r.Ok? ==> 0 <= r.value <= 99
  {
    var t := TruncateLine(line);
    if t == [] then Err(IndexError) else TwoDigitValue(t[0], t[|t| - 1])
  }

  predicate IsFirstDigit(s: string, i: nat) {
    i < |s| && IsDigit(s[i]) && forall k :: 0 <= k < i ==> !IsDigit(s[k])
  }

  predicate IsLastDigit(s: string, j: nat) {
    j < |s| && IsDigit(s[j]) && forall k :: j < k < |s| ==> !IsDigit(s[k])
  }

  /** A line of lowercase letters and digits followed by whitespace (the
      line break). */
  predicate LetterDigitLine(body: string, ws: string) {
    (forall k :: 0 <= k < |body| ==> IsLower(body[k]) || IsDigit(body[k]))
    && (forall k :: 0 <= k < |ws| ==> IsSpace(ws[k]))
  }

  /** On such a line, truncation keeps exactly the stretch from the first
      digit to the last. */
  lemma TruncateLetterDigitLine(body: string, ws: string, i: nat, j: nat)
    requires LetterDigitLine(body, ws)
    requires IsFirstDigit(body, i) && IsLastDigit(body, j)
    ensures TruncateLine(body + ws) == body[i..j + 1]
  {
    var line := body + ws;
    forall k | 0 <= k < i ensures InClass(line[k], Lowercase) {
      assert line[k] == body[k];
    }
    assert line[i] == body[i];
    LStripExact(line, Lowercase, i);
    var a := line[i..];
    assert a == body[i..] + ws;
    forall k | |body| - i <= k < |a| ensures InClass(a[k], Whitespace) {
      assert a[k] == ws[k - (|body| - i)];
    }
    assert a[|body| - i - 1] == body[|body| - 1];
    RStripExact(a, Whitespace, |body| - i);
    var b := a[..|body| - i];
    assert b == body[i..];
    forall k | j + 1 - i <= k < |b| ensures InClass(b[k], Lowercase) {
      assert b[k] == body[k + i];
    }
    assert b[j - i] == body[j];
    RStripExact(b, Lowercase, j + 1 - i);
    assert b[..j + 1 - i] == body[i..j + 1];
  }

  /** So the value is ten times the first digit plus the last. */
  lemma CalibrationValueOfLetterDigitLine(body: string, ws: string, i: nat, j: nat)
    requires LetterDigitLine(body, ws)
    requires IsFirstDigit(body, i) && IsLastDigit(body, j)
    ensures CalibrationValue(body + ws) == Ok(10 * DigitValue(body[i]) + DigitValue(body[j]))
  {
    TruncateLetterDigitLine(body, ws, i, j);
    assert body[i..j + 1][0] == body[i];
    assert body[i..j + 1][j - i] == body[j];
  }

  /** `main`'s total: the sum of the line values, or the failure of the
      first line that fails. Every line contributes between 0 and 99. */
  lemma CalibrationTotalBounds(lines: seq<string>)
    ensures SumResults(MapLines(CalibrationValue, lines)).Ok? ==>
      0 <= SumResults(MapLines(CalibrationValue, lines)).value <= 99 * |lines|
  {
    SumResultsBounds(MapLines(CalibrationValue, lines), 0, 99);
  }

  /** `main` without the file reading and printing. */
  method SumCalibrationValues(lines: seq<string>) returns (r: Result<int>)
    ensures r == SumResults(MapLines(CalibrationValue, lines))
  {
    var sum := 0;
    for i := 0 to |lines|
      invariant SumResults(MapLines(CalibrationValue, lines[..i])) == Ok(sum)
    {
      var value := CalibrationValue(lines[i]);
      SumLinesStep(CalibrationValue, lines, i, sum);
      if value.Err? {
        return value;
      }
      sum := sum + value.value;
    }
    assert lines[..|lines|] == lines;
    r := Ok(sum);
  }

  // ================================================================ part two

  /** The keys of `digit_map`, in insertion order; the word at index `k`
      stands for the digit `k + 1`. */
  const Words: seq<string> := ["one", "two", "three", "four", "five", "six", "seven", "eight", "nine"]

  /** `key[::-1]` for every key of the table, as the second loop of `main2`
      computes it. */
  function ReversedKeys(words: seq<string>): (r: seq<string>)
    ensures |r| == |words|
  {
    seq(|words|, k requires 0 <= k < |words| => Reversed(words[k]))
  }

  /** A table of words of the shape above: nine non-empty words of letters. */
  predicate LetterWords(words: seq<string>) {
    |words| == 9 && forall k :: 0 <= k < 9 ==> |words[k]| > 0 && forall c :: c in words[k] ==> IsLower(c)
  }

  lemma DigitWordsAreLetterWords()
    ensures LetterWords(Words)
  {
  }

  /** Reversing each word of such a table gives such a table again. */
  lemma ReversedKeysAreLetterWords(words: seq<string>)
    requires LetterWords(words)
    ensures LetterWords(ReversedKeys(words))
  {
    forall k | 0 <= k < 9
      ensures |ReversedKeys(words)[k]| > 0 && forall c :: c in ReversedKeys(words)[k] ==> IsLower(c)
    {
      var w := words[k];
      ReversedSpec(w);
      forall c | c in Reversed(w) ensures IsLower(c) {
        var j :| 0 <= j < |w| && Reversed(w)[j] == c;
        assert w[|w| - 1 - j] in w;
      }
    }
  }

  /** The first key, in table order from `k` on, that `t` starts with. */
  function FirstMatch(words: seq<string>, t: string, k: nat): (r: Option<nat>)
    ensures r.Some? ==> k <= r.value < |words| && StartsWith(t, words[r.value])
    decreases |words| - k
  {
    if k >= |words| then None
    else if StartsWith(t, words[k]) then Some(k)
    else FirstMatch(words, t, k + 1)
  }

  /** The match is the first in table order, and there is none only when
      `t` starts with no word from `k` on. */
  lemma {:induction false} FirstMatchSpec(words: seq<string>, t: string, k: nat)
    ensures FirstMatch(words, t, k).Some? ==> forall m :: k <= m < FirstMatch(words, t, k).value ==> !StartsWith(t, words[m])
    ensures FirstMatch(words, t, k).None? ==> forall m :: k <= m < |words| ==> !StartsWith(t, words[m])
    decreases |words| - k
  {
    if k < |words| && !StartsWith(t, words[k]) {
      FirstMatchSpec(words, t, k + 1);
    }
  }

  /** Some word of the table begins at index `i` of `s`. */
  predicate WordAt(words: seq<string>, s: string, i: nat) {
    i <= |s| && FirstMatch(words, s[i..], 0).Some?
  }

  /** No word of the table begins before index `n` of `s`. */
  predicate NoWordBefore(words: seq<string>, s: string, n: nat) {
    forall j :: 0 <= j < n ==> !WordAt(words, s, j)
  }

  /** No digit occurs before index `n` of `s`. */
  predicate DigitFreeBefore(s: string, n: nat) {
    n <= |s| && forall k :: 0 <= k < n ==> !IsDigit(s[k])
  }

  /** `s[..i] + str(k + 1) + s[i + len(word)..]`: the word at index `i`
      replaced by its digit. */
  function RewriteAt(words: seq<string>, s: string, i: nat, k: nat): string
    requires k < |words| && OccursAt(s, words[k], i)
  {
    s[..i] + DecimalString(k + 1) + s[i + |words[k]|..]
  }

  /** For one of the nine digit words, `str(value)` is one digit, so the
      rewrite keeps what comes before the word and what follows it. */
  lemma RewriteAtSpec(words: seq<string>, s: string, i: nat, k: nat)
    requires k < |words| && k < 9 && OccursAt(s, words[k], i)
    ensures RewriteAt(words, s, i, k) == s[..i] + [DigitChar(k + 1)] + s[i + |words[k]|..]
    ensures |RewriteAt(words, s, i, k)| == |s| - |words[k]| + 1 && IsDigit(RewriteAt(words, s, i, k)[i])
    ensures RewriteAt(words, s, i, k)[..i] == s[..i]
    ensures RewriteAt(words, s, i, k)[i + 1..] == s[i + |words[k]|..]
  {
    assert DecimalString(k + 1) == [DigitChar(k + 1)];
  }

  /** The forward rewrite from index `i` on: at the first index that holds a
      digit nothing changes; at the first index where a word begins, the
      first such word in table order becomes its digit. */
  function ForwardFrom(words: seq<string>, s: string, i: nat): string
    requires i <= |s|
    decreases |s| - i
  {
    if i == |s| || IsDigit(s[i]) then s
    else match FirstMatch(words, s[i..], 0)
      case Some(k) => RewriteAt(words, s, i, k)
      case None => ForwardFrom(words, s, i + 1)
  }

  lemma {:induction false} ForwardFromSkips(words: seq<string>, s: string, i: nat)
    requires LetterWords(words)
    requires DigitFreeBefore(s, i) && NoWordBefore(words, s, i)
    ensures ForwardFrom(words, s, 0) == ForwardFrom(words, s, i)
    decreases i
  {
    if i > 0 {
      ForwardFromSkips(words, s, i - 1);
      assert !WordAt(words, s, i - 1);
    }
  }

  /** If no digit word begins before the first digit, the forward pass leaves
      the line as it is. */
  lemma ForwardUnchanged(words: seq<string>, s: string, n: nat)
    requires LetterWords(words)
    requires DigitFreeBefore(s, n) && (n == |s| || IsDigit(s[n]))
    requires NoWordBefore(words, s, n)
    ensures ForwardFrom(words, s, 0) == s
  {
    ForwardFromSkips(words, s, n);
  }

  /** Otherwise the first word, at the first index where one begins, becomes
      its digit and the rest of the line is kept. */
  lemma ForwardRewritesFirstWord(words: seq<string>, s: string, i: nat, k: nat)
    requires LetterWords(words)
    requires DigitFreeBefore(s, i) && i < |s| && NoWordBefore(words, s, i)
    requires FirstMatch(words, s[i..], 0) == Some(k)
    ensures k < 9 && ForwardFrom(words, s, 0) == s[..i] + [DigitChar(k + 1)] + s[i + |words[k]|..]
  {
    ForwardFromSkips(words, s, i);
    assert !IsDigit(s[i]) by { assert s[i] == words[k][0]; assert words[k][0] in words[k]; }
  }

  /** A word of the table occurs at `j` of `s` exactly when `s[j..]` starts
      with it, so `str.replace` finds no earlier copy of a word than the
      first index where some word begins. */
  lemma NoEarlierCopy(words: seq<string>, s: string, n: nat, k: nat)
    requires k < |words| && NoWordBefore(words, s, n)
    ensures forall j :: 0 <= j < n ==> !OccursAt(s, words[k], j)
  {
    forall j | 0 <= j < n ensures !OccursAt(s, words[k], j) {
      assert !WordAt(words, s, j);
      if j <= |s| {
        FirstMatchSpec(words, s[j..], 0);
        assert FirstMatch(words, s[j..], 0).None?;
        assert !StartsWith(s[j..], words[k]);
      }
    }
  }

  /** The first loop of `main2`: walk the line until a digit; at the first
      index where a key of `digit_map` (tried in table order) begins,
      `replace` that key once by its digit and stop. */
  method ForwardPass(words: seq<string>, line: string) returns (parsed: string)
    requires LetterWords(words)
    ensures parsed == ForwardFrom(words, line, 0)
  {
    parsed := line;
    var done := false;
    var i := 0;
    while i < |line|
      invariant 0 <= i <= |line| && !done && parsed == line
      invariant DigitFreeBefore(line, i) && NoWordBefore(words, line, i)
    {
      var current := parsed[i..];
      if IsDigit(current[0]) {
        break;
      }
      var k := 0;
      while k < |words|
        invariant 0 <= k <= |words| && !done && parsed == line
        invariant forall m :: 0 <= m < k ==> !StartsWith(current, words[m])
      {
        if StartsWith(current, words[k]) {
          FirstMatchSpec(words, current, 0);
          NoEarlierCopy(words, line, i, k);
          ReplaceFirstAt(line, words[k], DecimalString(k + 1), i);
          parsed := ReplaceFirst(parsed, words[k], DecimalString(k + 1));
          done := true;
          break;
        }
        k := k + 1;
      }
      if done {
        ForwardRewritesFirstWord(words, line, i, k);
        break;
      }
      assert !WordAt(words, line, i);
      i := i + 1;
    }
    if !done {
      ForwardFromSkips(words, line, i);
    }
  }

  /** The reverse rewrite of a line of `n` characters from index `i` on. It
      does not stop after a rewrite: it goes on at the next index of the
      shortened text, stops at a digit, and fails with an index error when
      the text has become shorter than the index. */
  function ReverseFrom(words: seq<string>, n: nat, cur: string, i: nat): Result<string>
    decreases n - i
  {
    if i >= n then Ok(cur)
    else if i >= |cur| then Err(IndexError)
    else if IsDigit(cur[i]) then Ok(cur)
    else match FirstMatch(words, cur[i..], 0)
      case Some(k) => ReverseFrom(words, n, RewriteAt(words, cur, i, k), i + 1)
      case None => ReverseFrom(words, n, cur, i + 1)
  }

  /** Rewriting the word at the first index where one begins leaves no word
      before the next index: a word cannot contain the new digit, and any
      word wholly before it was there already. */
  lemma RewriteKeepsNoWordBefore(words: seq<string>, s: string, i: nat, k: nat)
    requires LetterWords(words) && k < 9 && OccursAt(s, words[k], i)
    requires NoWordBefore(words, s, i)
    ensures NoWordBefore(words, RewriteAt(words, s, i, k), i + 1)
  {
    var r := RewriteAt(words, s, i, k);
    forall j, m | 0 <= j < i + 1 && 0 <= m < 9 ensures !StartsWith(r[j..], words[m]) {
      var w := words[m];
      if j + |w| <= i {
        assert !WordAt(words, s, j);
        FirstMatchSpec(words, s[j..], 0);
        assert !StartsWith(s[j..], w);
        assert r[j..j + |w|] == s[j..j + |w|];
      } else {
        assert w[i - j] in w;
        assert r[j..][i - j] == r[i];
      }
    }
  }

  /** A successful `r` starts with the first `i` characters of `cur`. */
  predicate KeepsPrefix(r: Result<string>, cur: string, i: nat)
    requires i <= |cur|
  {
    r.Ok? ==> |r.value| >= i && r.value[..i] == cur[..i]
  }

  /** Once no word begins before `i`, the rest of the reverse pass keeps the
      first `i` characters. */
  lemma {:induction false} ReverseFromKeepsPrefix(words: seq<string>, n: nat, cur: string, i: nat)
    requires LetterWords(words)
    requires i <= |cur| && NoWordBefore(words, cur, i)
    ensures KeepsPrefix(ReverseFrom(words, n, cur, i), cur, i)
    decreases n - i
  {
    if i < n && i < |cur| && !IsDigit(cur[i]) {
      var m := FirstMatch(words, cur[i..], 0);
      if m.Some? {
        var k := m.value;
        var next := RewriteAt(words, cur, i, k);
        RewriteKeepsNoWordBefore(words, cur, i, k);
        ReverseFromKeepsPrefix(words, n, next, i + 1);
        KeepsPrefixShorter(ReverseFrom(words, n, next, i + 1), next, cur, i);
      } else {
        assert !WordAt(words, cur, i);
        ReverseFromKeepsPrefix(words, n, cur, i + 1);
        KeepsPrefixShorter(ReverseFrom(words, n, cur, i + 1), cur, cur, i);
      }
    }
  }

  lemma KeepsPrefixShorter(r: Result<string>, next: string, cur: string, i: nat)
    requires i < |next| && i <= |cur| && next[..i] == cur[..i]
    requires KeepsPrefix(r, next, i + 1)
    ensures KeepsPrefix(r, cur, i)
  {
    if r.Ok? {
      assert r.value[..i] == r.value[..i + 1][..i];
    }
  }

  /** The reverse pass never touches what comes before the first reversed
      word: when that word begins before the first digit, the pass (if it
      ends) has turned it into its digit. */
  lemma ReverseRewritesFirstWord(words: seq<string>, s: string, i: nat, k: nat)
    requires LetterWords(words)
    requires DigitFreeBefore(s, i) && i < |s| && NoWordBefore(words, s, i)
    requires FirstMatch(words, s[i..], 0) == Some(k)
    ensures ReverseFrom(words, |s|, s, 0).Ok? ==> |ReverseFrom(words, |s|, s, 0).value| > i
    ensures ReverseFrom(words, |s|, s, 0).Ok? ==> ReverseFrom(words, |s|, s, 0).value[..i + 1] == s[..i] + [DigitChar(k + 1)]
  {
    assert !IsDigit(s[i]) by { assert s[i] == words[k][0]; assert words[k][0] in words[k]; }
    ReverseFromSkips(words, s, i);
    var next := RewriteAt(words, s, i, k);
    RewriteKeepsNoWordBefore(words, s, i, k);
    ReverseFromKeepsPrefix(words, |s|, next, i + 1);
  }

  /** If no reversed word begins before the first digit, the reverse pass
      leaves the text as it is. */
  lemma ReverseUnchanged(words: seq<string>, s: string, n: nat)
    requires LetterWords(words)
    requires DigitFreeBefore(s, n) && (n == |s| || IsDigit(s[n]))
    requires NoWordBefore(words, s, n)
    ensures ReverseFrom(words, |s|, s, 0) == Ok(s)
  {
    ReverseFromSkips(words, s, n);
  }

  lemma {:induction false} ReverseFromSkips(words: seq<string>, s: string, i: nat)
    requires LetterWords(words)
    requires DigitFreeBefore(s, i) && NoWordBefore(words, s, i)
    ensures ReverseFrom(words, |s|, s, 0) == ReverseFrom(words, |s|, s, i)
    decreases i
  {
    if i > 0 {
      ReverseFromSkips(words, s, i - 1);
      assert !WordAt(words, s, i - 1);
    }
  }

  /** One step of the reverse loop that replaces the first word in table
      order beginning at `i`: `str.replace` finds it there, and the
      rewritten text goes on as `ReverseFrom` does. */
  lemma ReverseRewriteStep(words: seq<string>, n: nat, cur: string, i: nat, k: nat)
    requires LetterWords(words) && i < n && i < |cur| && !IsDigit(cur[i])
    requires NoWordBefore(words, cur, i)
    requires k < |words| && StartsWith(cur[i..], words[k])
    requires forall m :: 0 <= m < k ==> !StartsWith(cur[i..], words[m])
    ensures i + 1 <= |ReplaceFirst(cur, words[k], DecimalString(k + 1))|
    ensures NoWordBefore(words, ReplaceFirst(cur, words[k], DecimalString(k + 1)), i + 1)
    ensures ReverseFrom(words, n, cur, i) == ReverseFrom(words, n, ReplaceFirst(cur, words[k], DecimalString(k + 1)), i + 1)
  {
    FirstMatchSpec(words, cur[i..], 0);
    NoEarlierCopy(words, cur, i, k);
    ReplaceFirstAt(cur, words[k], DecimalString(k + 1), i);
    RewriteKeepsNoWordBefore(words, cur, i, k);
  }

  /** A step of the reverse loop at which no word begins. */
  lemma ReverseSkipStep(words: seq<string>, n: nat, cur: string, i: nat)
    requires |words| <= 9 && i < n && i < |cur| && !IsDigit(cur[i])
    requires NoWordBefore(words, cur, i)
    requires forall m :: 0 <= m < |words| ==> !StartsWith(cur[i..], words[m])
    ensures NoWordBefore(words, cur, i + 1)
    ensures ReverseFrom(words, n, cur, i) == ReverseFrom(words, n, cur, i + 1)
  {
    assert !WordAt(words, cur, i);
  }

  /** The second loop of `main2`, over the reversed line: the loop runs over
      the indices of the text it started with, but reads the rewritten text
      at each of them. */
  method ReversePass(words: seq<string>, reversedLine: string) returns (r: Result<string>)
    requires LetterWords(words)
    ensures r == ReverseFrom(words, |reversedLine|, reversedLine, 0)
  {
    var cur := reversedLine;
    var i := 0;
    while i < |reversedLine|
      invariant 0 <= i <= |reversedLine|
      invariant i <= |cur| && NoWordBefore(words, cur, i)
      invariant ReverseFrom(words, |reversedLine|, reversedLine, 0) == ReverseFrom(words, |reversedLine|, cur, i)
    {
      if i >= |cur| {
        return Err(IndexError);
      }
      var current := cur[i..];
      if IsDigit(current[0]) {
        break;
      }
      var k := 0;
      var replaced := false;
      while k < |words|
        invariant 0 <= k <= |words| && !replaced
        invariant forall m :: 0 <= m < k ==> !StartsWith(current, words[m])
      {
        if StartsWith(current, words[k]) {
          ReverseRewriteStep(words, |reversedLine|, cur, i, k);
          cur := ReplaceFirst(cur, words[k], DecimalString(k + 1));
          replaced := true;
          break;
        }
        k := k + 1;
      }
      if !replaced {
        ReverseSkipStep(words, |reversedLine|, cur, i);
      }
      i := i + 1;
    }
    r := Ok(cur);
  }

  /** The body of `main2`'s loop for the keys `words` of `digit_map`: strip
      the line's end, rewrite forwards, reverse, rewrite backwards with the
      reversed keys, truncate, and read the first digit from the end and the
      last digit from the start of the truncated text. */
  function WordCalibrationValue(words: seq<string>, line: string): (r: Result<int>)
    ensures r.Ok? ==> 0 <= r.value <= 99
  {
    var parsed := ForwardFrom(words, RStrip(line, Whitespace), 0);
    var reversed := Reversed(parsed);
    var rewritten :- ReverseFrom(ReversedKeys(words), |reversed|, reversed, 0);
    var t := TruncateLine(rewritten);
    if t == [] then Err(IndexError) else TwoDigitValue(t[|t| - 1], t[0])
  }

  /** `WordCalibrationValue` for one table, as a function of the line. */
  function WordCalibrationValueWith(words: seq<string>): string -> Result<int> {
    line => WordCalibrationValue(words, line)
  }

  /** One line of `main2`, with its two loops. */
  method WordCalibrationLine(words: seq<string>, line: string) returns (r: Result<int>)
    requires LetterWords(words)
    ensures r == WordCalibrationValue(words, line)
  {
    ReversedKeysAreLetterWords(words);
    var parsed := ForwardPass(words, RStrip(line, Whitespace));
    var rewritten :- ReversePass(ReversedKeys(words), Reversed(parsed));
    var t := TruncateLine(rewritten);
    if t == [] {
      return Err(IndexError);
    }
    r := TwoDigitValue(t[|t| - 1], t[0]);
  }

  /** Every line contributes between 0 and 99 here as well. */
  lemma WordCalibrationTotalBounds(words: seq<string>, lines: seq<string>)
    ensures SumResults(MapLines(WordCalibrationValueWith(words), lines)).Ok? ==>
      0 <= SumResults(MapLines(WordCalibrationValueWith(words), lines)).value <= 99 * |lines|
  {
    SumResultsBounds(MapLines(WordCalibrationValueWith(words), lines), 0, 99);
  }

  /** One iteration of `main2`'s loop: the value of line `i` added to the
      total of the lines before it, or the failure that ends the loop. */
  method AddWordCalibrationLine(words: seq<string>, lines: seq<string>, i: nat, sum: int) returns (r: Result<int>)
    requires LetterWords(words) && i < |lines|
    requires SumResults(MapLines(WordCalibrationValueWith(words), lines[..i])) == Ok(sum)
    ensures r.Ok? ==> SumResults(MapLines(WordCalibrationValueWith(words), lines[..i + 1])) == r
    ensures r.Err? ==> SumResults(MapLines(WordCalibrationValueWith(words), lines)) == r
  {
    var value := WordCalibrationLine(words, lines[i]);
    SumLinesStep(WordCalibrationValueWith(words), lines, i, sum);
    if value.Err? {
      return value;
    }
    r := Ok(sum + value.value);
  }

  /** `main2` without the file reading, printing and result file; `words`
      are the keys of `digit_map` (`Words` is such a table, see
      `DigitWordsAreLetterWords`). */
  method SumWordCalibrationValues(words: seq<string>, lines: seq<string>) returns (r: Result<int>)
    requires LetterWords(words)
    ensures r == SumResults(MapLines(WordCalibrationValueWith(words), lines))
  {
    var sum := 0;
    for i := 0 to |lines|
      invariant SumResults(MapLines(WordCalibrationValueWith(words), lines[..i])) == Ok(sum)
    {
      var next := AddWordCalibrationLine(words, lines, i, sum);
      if next.Err? {
        return next;
      }
      sum := next.value;
    }
    assert lines[..|lines|] == lines;
    r := Ok(sum);
  }
}
