/** Scratch cards (04/main.py): every line is a card with a list of winning
    numbers and a list of scratched numbers; a card with `n` scratched
    winners is worth `2^(n-1)` points, and the answer is the sum of the
    points of all cards. */
module ScratchCards {
  import opened PyText

  /** A `ScratchCard`: its ID and its two lists, kept as sets. */
  datatype Card = Card(id: int, winning: set<int>, scratched: set<int>)

  /** `set(numbers)`. */
  function ToSet(numbers: seq<nat>): (s: set<int>)
    ensures forall n :: n in s <==> exists i :: 0 <= i < |numbers| && numbers[i] == n
  {
    set i | 0 <= i < |numbers| :: numbers[i] as int
  }

  /** `2 ** n`. */
  function Pow2(n: nat): (p: nat)
    ensures p >= 1
  {
    if n == 0 then 1 else 2 * Pow2(n - 1)
  }

  ghost predicate IsPowerOfTwo(v: int) {
    exists k: nat :: Pow2(k) == v
  }

  /** The numbers of the card that were both winning and scratched. */
  function Winners(card: Card): set<int> {
    card.winning * card.scratched
  }

  /** `value`: nothing without winners, else one point doubled for every
      winner after the first. */
  function Value(card: Card): nat {
    var winners := Winners(card);
    if |winners| == 0 then 0 else Pow2(|winners| - 1)
  }

  /** A card is worth nothing exactly when no scratched number is a winning
      one. */
  lemma ValueZero(card: Card)
    ensures Value(card) == 0 <==> card.winning !! card.scratched
  {
    if Winners(card) == {} {
      forall n | n in card.winning
        ensures n !in card.scratched
      {
        assert n !in Winners(card);
      }
    }
  }

  /** A card with winners is worth a power of two: `2^(n-1)` for `n`
      winners. */
  lemma ValuePowerOfTwo(card: Card)
    requires !(card.winning !! card.scratched)
    ensures IsPowerOfTwo(Value(card))
    ensures Value(card) == Pow2(|card.winning * card.scratched| - 1)
  {
    ValueZero(card);
    assert |Winners(card)| > 0;
    assert Pow2(|Winners(card)| - 1) == Value(card);
  }

  /** Swapping the two lists does not change the value. */
  lemma ValueSymmetric(card: Card)
    ensures Value(card) == Value(Card(card.id, card.scratched, card.winning))
  {
    assert Winners(card) == Winners(Card(card.id, card.scratched, card.winning));
  }

  lemma {:induction false} Pow2Monotone(m: nat, n: nat)
    requires m <= n
    ensures Pow2(m) <= Pow2(n)
    decreases n
  {
    if m < n {
      Pow2Monotone(m, n - 1);
    }
  }

  /** The common part of two sets is no larger than either. */
  lemma IntersectionSize(a: set<int>, b: set<int>)
    ensures |a * b| <= |a|
  {
    assert a == a * b + (a - b);
    assert (a * b) !! (a - b);
  }

  /** A card is worth less than `2^k` for `k` its number of winning
      numbers: at most every winning number was scratched. */
  lemma ValueBound(card: Card)
    ensures Value(card) < Pow2(|card.winning|)
  {
    IntersectionSize(card.winning, card.scratched);
    if |Winners(card)| > 0 {
      Pow2Monotone(|Winners(card)| - 1, |card.winning| - 1);
    }
  }

  // ================================================================ parse

  /** `tokens[0][5:]`: Python's slice gives the empty string on a shorter
      text. */
  function DropFive(s: string): string {
    if |s| < 5 then [] else s[5..]
  }

  /** `ScratchCard.parse`: the ID is read with `int()` from the stripped
      line's text before the first ':' without its first 5 characters, the
      winning numbers are the digit runs before the first '|' of the text
      after it, and the scratched numbers those after. A missing ':' or '|'
      is an `IndexError`. */
  function ParseCard(line: string): (r: Result<Card>)
    ensures r.Err? ==> r.failure in {ValueError, IndexError}
  {
    var tokens := Split(Strip(line), ':');
    var id :- ParseInt(DropFive(tokens[0]));
    if |tokens| < 2 then Err(IndexError)
    else
      var lists := Split(tokens[1], '|');
      if |lists| < 2 then Err(IndexError)
      else Ok(Card(id, ToSet(Numbers(lists[0])), ToSet(Numbers(lists[1]))))
  }

  /** A card as the puzzle input writes it: "Card <id>: <winning> | <scratched>". */
  function CardLine(id: int, winning: seq<nat>, scratched: seq<nat>): string {
    var head := "Card " + IntString(id);
    var left := " " + SpacedNumbers(winning) + " ";
    var right := " " + SpacedNumbers(scratched);
    head + ":" + left + "|" + right
  }

  lemma SpacedFree(ns: seq<nat>)
    ensures ':' !in SpacedNumbers(ns) && '|' !in SpacedNumbers(ns)
  {
    SpacedCharacters(ns);
  }

  /** A space on either side of a list of numbers does not change them. */
  lemma NumbersPadded(ns: seq<nat>)
    ensures Numbers(" " + SpacedNumbers(ns) + " ") == ns
    ensures Numbers(" " + SpacedNumbers(ns)) == ns
  {
    var w := SpacedNumbers(ns);
    DigitRunsSplitAtNonDigit([], ' ', w + " ");
    assert [] + [' '] + (w + " ") == " " + w + " ";
    DigitRunsSplitAtNonDigit(w, ' ', []);
    assert w + [' '] + [] == w + " ";
    DigitRunsSplitAtNonDigit([], ' ', w);
    assert [] + [' '] + w == " " + w;
    NumbersOfSpaced(ns);
  }

  /** Parsing a card as the puzzle input writes it gives back its ID and
      the sets of its numbers (with at least one scratched number, so that
      the line ends in a digit). */
  lemma CardRoundTrip(id: int, winning: seq<nat>, scratched: seq<nat>)
    requires |scratched| > 0
    ensures ParseCard(CardLine(id, winning, scratched)) == Ok(Card(id, ToSet(winning), ToSet(scratched)))
  {
    var n, w, s := IntString(id), SpacedNumbers(winning), SpacedNumbers(scratched);
    var head, left, right := "Card " + n, " " + w + " ", " " + s;
    var lists := left + "|" + right;
    var line := CardLine(id, winning, scratched);
    IntStringChars(id);
    SpacedFree(winning);
    SpacedFree(scratched);
    SpacedCharacters(scratched);
    assert line == head + [':'] + lists;
    assert line[0] == 'C' && line[|line| - 1] == s[|s| - 1];
    StripExact(line, 0, |line|);
    assert line[0..|line|] == line;
    assert ':' !in n && '|' !in w && '|' !in s;
    assert ':' !in head && ':' !in lists;
    SplitTwo(head, ':', lists);
    assert '|' !in left && '|' !in right;
    SplitTwo(left, '|', right);
    assert DropFive(head) == n;
    IntRoundTrip(id);
    NumbersPadded(winning);
    NumbersPadded(scratched);
  }

  /** A card's numbers kept as sets: repeating a number changes nothing. */
  lemma DuplicatesIgnored(numbers: seq<nat>, i: nat)
    requires i < |numbers|
    ensures ToSet(numbers + [numbers[i]]) == ToSet(numbers)
  {
    var more := numbers + [numbers[i]];
    forall n | n in ToSet(more) ensures n in ToSet(numbers) {
      var j :| 0 <= j < |more| && more[j] == n;
      if j < |numbers| {
        assert numbers[j] == n;
      } else {
        assert numbers[i] == n;
      }
    }
    forall n | n in ToSet(numbers) ensures n in ToSet(more) {
      var j :| 0 <= j < |numbers| && numbers[j] == n;
      assert more[j] == n;
    }
  }

  // ================================================================ main

  /** The points of one line of the file, or its parse failure: the line
      is stripped when read, and once more by `parse`. */
  function Points(line: string): Result<int> {
    var card :- ParseCard(Strip(line));
    Ok(Value(card))
  }

  /** The body of the loop of `main`: parse the line and take its value. */
  method LinePoints(line: string) returns (r: Result<int>)
    ensures r == Points(line)
  {
    var card := ParseCard(Strip(line));
    if card.Err? {
      return Err(card.failure);
    }
    r := Ok(Value(card.value));
  }

  /** One iteration of the loop of `main`: the points of line `i` added
      to the total of the lines before it, or the failure that ends the
      loop. */
  method AddCardPoints(lines: seq<string>, i: nat, sum: int) returns (r: Result<int>)
    requires i < |lines| && SumResults(MapLines(Points, lines[..i])) == Ok(sum)
    ensures r.Ok? ==> SumResults(MapLines(Points, lines[..i + 1])) == r
    ensures r.Err? ==> SumResults(MapLines(Points, lines)) == r
  {
    var value := LinePoints(lines[i]);
    SumLinesStep(Points, lines, i, sum);
    if value.Err? {
      return value;
    }
    r := Ok(sum + value.value);
  }

  /** The loop of `main` over the lines, adding up the points of every card. */
  method SumOfPoints(lines: seq<string>) returns (r: Result<int>)
    ensures r == SumResults(MapLines(Points, lines))
  {
    var sum := 0;
    for i := 0 to |lines|
      invariant SumResults(MapLines(Points, lines[..i])) == Ok(sum)
    {
      var next := AddCardPoints(lines, i, sum);
      if next.Err? {
        return next;
      }
      sum := next.value;
    }
    assert lines[..|lines|] == lines;
    r := Ok(sum);
  }

  /** Adding up non-negative values gives 0 exactly when every value is 0. */
  lemma {:induction false} SumZero(rs: seq<Result<int>>)
    requires forall i :: 0 <= i < |rs| ==> rs[i].Ok? ==> rs[i].value >= 0
    ensures SumResults(rs).Ok? ==> SumResults(rs).value >= 0
    ensures SumResults(rs).Ok? ==> (SumResults(rs).value == 0 <==> forall i :: 0 <= i < |rs| ==> rs[i] == Ok(0))
    decreases |rs|
  {
    SumResultsFailure(rs);
    if rs != [] {
      var init := rs[..|rs| - 1];
      assert forall i :: 0 <= i < |init| ==> init[i] == rs[i];
      SumZero(init);
    }
  }

  /** The line is a card none of whose scratched numbers is a winning one. */
  predicate NoWinners(line: string) {
    var card := ParseCard(Strip(line));
    card.Ok? && card.value.winning !! card.value.scratched
  }

  /** The total is never negative, and it is 0 exactly when no card has a
      scratched winning number. */
  lemma TotalZero(lines: seq<string>)
    requires SumResults(MapLines(Points, lines)).Ok?
    ensures SumResults(MapLines(Points, lines)).value >= 0
    ensures SumResults(MapLines(Points, lines)).value == 0 <==>
      forall i :: 0 <= i < |lines| ==> NoWinners(lines[i])
  {
    var rs := MapLines(Points, lines);
    SumZero(rs);
    SumResultsFailure(rs);
    forall i | 0 <= i < |lines|
      ensures rs[i] == Ok(0) <==> NoWinners(lines[i])
    {
      if ParseCard(Strip(lines[i])).Ok? {
        ValueZero(ParseCard(Strip(lines[i])).value);
      }
    }
  }
}
