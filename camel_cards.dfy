/** Camel Cards (07/main.py): cards with a strength value, five-card hands
    compared card by card, a first-match chain of seven category evaluators
    over the hand's card-count profile, and the ranking that turns the
    hands into total winnings. */
module CamelCards {
  import opened PyText

  // ================================================================ cards

  /** A card: the strength `value` decides every comparison, the `symbol` (the
      source's `label`) is
      only for display. */
  datatype Card = Card(value: int, symbol: char)

  /** The labels `from_label` accepts. */
  predicate IsCardLabel(c: char) {
    c == 'A' || c == 'K' || c == 'Q' || c == 'J' || c == 'T' || '2' <= c <= '9'
  }

  /** `Card.from_label`: letters by table, anything else through `int()`
      and the assertion that the result lies in 2..9. */
  function FromLabel(symbol: char): (r: Result<Card>)
    ensures r.Ok? <==> IsCardLabel(symbol)
    ensures r.Ok? ==> r.value.symbol == symbol && 2 <= r.value.value <= 14
  {
    ParseIntDigit(symbol);
    if symbol == 'A' then Ok(Card(14, symbol))
    else if symbol == 'K' then Ok(Card(13, symbol))
    else if symbol == 'Q' then Ok(Card(12, symbol))
    else if symbol == 'J' then Ok(Card(11, symbol))
    else if symbol == 'T' then Ok(Card(10, symbol))
    else
      var val :- ParseInt([symbol]);
      if 2 <= val <= 9 then Ok(Card(val, symbol)) else Err(AssertionError)
  }

  /** The strength table: A, K, Q, J, T are 14, 13, 12, 11, 10 and a digit
      label is its own value. */
  lemma FromLabelTable(symbol: char)
    requires IsCardLabel(symbol)
    ensures FromLabel(symbol).value.value ==
      match symbol
      case 'A' => 14
      case 'K' => 13
      case 'Q' => 12
      case 'J' => 11
      case 'T' => 10
      case _ => DigitValue(symbol)
  {
    ParseIntDigit(symbol);
  }

  /** Distinct labels give distinct strengths: comparing values orders the
      labels by the table and never confuses two of them. */
  lemma FromLabelInjective(a: char, b: char)
    requires FromLabel(a).Ok? && FromLabel(b).Ok? && a != b
    ensures FromLabel(a).value.value != FromLabel(b).value.value
  {
    FromLabelTable(a);
    FromLabelTable(b);
  }

  // ================================================================ hands

  datatype Hand = Hand(cards: seq<Card>, bid: int)

  function Values(cards: seq<Card>): (vs: seq<int>)
    ensures |vs| == |cards|
    ensures forall i :: 0 <= i < |cards| ==> vs[i] == cards[i].value
  {
    seq(|cards|, i requires 0 <= i < |cards| => cards[i].value)
  }

  /** `[Card.from_label(label) for label in s]`: the first bad label raises. */
  function CardsFromLabels(s: string): (r: Result<seq<Card>>)
    ensures r.Ok? <==> forall i :: 0 <= i < |s| ==> IsCardLabel(s[i])
    ensures r.Ok? ==> |r.value| == |s| && forall i :: 0 <= i < |s| ==> FromLabel(s[i]) == Ok(r.value[i])
    decreases |s|
  {
    if s == [] then Ok([])
    else
      var card :- FromLabel(s[0]);
      var rest :- CardsFromLabels(s[1..]);
      assert forall i :: 1 <= i < |s| ==> s[i] == s[1..][i - 1];
      Ok([card] + rest)
  }

  /** `Hand.from_str`: exactly five labels, each a valid card, kept in order. */
  function FromStr(s: string, bid: int): (r: Result<Hand>)
    ensures r.Ok? <==> |s| == 5 && forall i :: 0 <= i < |s| ==> IsCardLabel(s[i])
    ensures |s| != 5 ==> r == Err(AssertionError)
    ensures r.Ok? ==> |r.value.cards| == 5 && r.value.bid == bid
    ensures r.Ok? ==> forall i :: 0 <= i < 5 ==> r.value.cards[i].symbol == s[i]
    ensures r.Ok? ==> forall i :: 0 <= i < 5 ==> FromLabel(s[i]) == Ok(r.value.cards[i])
  {
    if |s| != 5 then Err(AssertionError)
    else
      var cards :- CardsFromLabels(s);
      Ok(Hand(cards, bid))
  }

  /** `Hand.__eq__`: every pair of cards `zip` produces has equal values. */
  predicate HandEqual(a: Hand, b: Hand) {
    SameValues(Values(a.cards), Values(b.cards))
  }

  predicate SameValues(a: seq<int>, b: seq<int>)
    decreases |a|
  {
    a == [] || b == [] || (a[0] == b[0] && SameValues(a[1..], b[1..]))
  }

  /** `Hand.__lt__`: the first pair of cards with different values decides;
      when `zip` runs out the method falls off its end and returns None,
      which is false. */
  predicate HandLess(a: Hand, b: Hand) {
    LexLess(Values(a.cards), Values(b.cards))
  }

  predicate LexLess(a: seq<int>, b: seq<int>)
    decreases |a|
  {
    if a == [] || b == [] then false
    else if a[0] == b[0] then LexLess(a[1..], b[1..])
    else a[0] < b[0]
  }

  /** `__lt__` is the lexicographic order: some position inside both hands
      where all earlier values agree and this one is smaller. */
  lemma {:induction false} LexLessFirstDifference(a: seq<int>, b: seq<int>)
    ensures LexLess(a, b) <==>
      exists k :: 0 <= k < |a| && k < |b| && a[k] < b[k] && forall j :: 0 <= j < k ==> a[j] == b[j]
    decreases |a|
  {
    if a != [] && b != [] && a[0] == b[0] {
      LexLessFirstDifference(a[1..], b[1..]);
      if LexLess(a, b) {
        var k :| 0 <= k < |a[1..]| && k < |b[1..]| && a[1..][k] < b[1..][k]
          && forall j :: 0 <= j < k ==> a[1..][j] == b[1..][j];
        assert forall j :: 0 <= j < k + 1 ==> a[j] == b[j] by {
          forall j | 0 <= j < k + 1 ensures a[j] == b[j] {
            if j > 0 { assert a[1..][j - 1] == b[1..][j - 1]; }
          }
        }
        assert a[k + 1] < b[k + 1];
      }
      if exists k :: 0 <= k < |a| && k < |b| && a[k] < b[k] && forall j :: 0 <= j < k ==> a[j] == b[j] {
        var k :| 0 <= k < |a| && k < |b| && a[k] < b[k] && forall j :: 0 <= j < k ==> a[j] == b[j];
        assert k > 0;
        assert a[1..][k - 1] < b[1..][k - 1];
        assert forall j :: 0 <= j < k - 1 ==> a[1..][j] == b[1..][j] by {
          forall j | 0 <= j < k - 1 ensures a[1..][j] == b[1..][j] {
            assert a[j + 1] == b[j + 1];
          }
        }
      }
    }
  }

  lemma {:induction false} LexLessTransitive(a: seq<int>, b: seq<int>, c: seq<int>)
    requires LexLess(a, b) && LexLess(b, c)
    ensures LexLess(a, c)
    decreases |a|
  {
    if a[0] == b[0] && b[0] == c[0] {
      LexLessTransitive(a[1..], b[1..], c[1..]);
    }
  }

  lemma {:induction false} LexLessAsymmetric(a: seq<int>, b: seq<int>)
    requires LexLess(a, b)
    ensures !LexLess(b, a)
    decreases |a|
  {
    if a[0] == b[0] {
      LexLessAsymmetric(a[1..], b[1..]);
    }
  }

  /** For two hands of the same length exactly one of `a < b`, `b < a` and
      `a == b` holds, and `==` is equality of the value sequences. */
  lemma {:induction false} LexTrichotomy(a: seq<int>, b: seq<int>)
    requires |a| == |b|
    ensures SameValues(a, b) <==> a == b
    ensures LexLess(a, b) || LexLess(b, a) || a == b
    ensures !(LexLess(a, b) && LexLess(b, a)) && !(LexLess(a, b) && a == b)
    decreases |a|
  {
    if a != [] {
      LexTrichotomy(a[1..], b[1..]);
      if a[0] == b[0] && a[1..] == b[1..] {
        assert a == [a[0]] + a[1..] && b == [b[0]] + b[1..];
      }
      if LexLess(a, b) { LexLessAsymmetric(a, b); }
      if a == b { LexLessIrreflexive(a); }
    }
  }

  lemma {:induction false} LexLessIrreflexive(a: seq<int>)
    ensures !LexLess(a, a)
    decreases |a|
  {
    if a != [] { LexLessIrreflexive(a[1..]); }
  }

  /** The three comparisons `main` relies on, for hands as `from_str` builds
      them: exactly one of `a < b`, `b < a`, `a == b`. */
  lemma HandComparisonTrichotomy(a: Hand, b: Hand)
    requires |a.cards| == 5 && |b.cards| == 5
    ensures HandEqual(a, b) <==> Values(a.cards) == Values(b.cards)
    ensures HandLess(a, b) || HandLess(b, a) || HandEqual(a, b)
    ensures !(HandLess(a, b) && HandLess(b, a))
    ensures !(HandLess(a, b) && HandEqual(a, b)) && !(HandLess(b, a) && HandEqual(a, b))
  {
    LexTrichotomy(Values(a.cards), Values(b.cards));
    LexTrichotomy(Values(b.cards), Values(a.cards));
  }

  // ================================================================ count profiles

  /** How many times `v` occurs in `s` (a `Counter` entry). */
  function Occurrences(s: seq<int>, v: int): (n: nat)
    ensures n <= |s|
    ensures n > 0 <==> v in s
    decreases |s|
  {
    if s == [] then 0 else (if s[0] == v then 1 else 0) + Occurrences(s[1..], v)
  }

  /** `s` with every `v` removed. */
  function Without(s: seq<int>, v: int): (r: seq<int>)
    ensures |r| == |s| - Occurrences(s, v)
    ensures forall x :: x in r <==> x in s && x != v
    ensures forall x :: x != v ==> Occurrences(r, x) == Occurrences(s, x)
    decreases |s|
  {
    if s == [] then []
    else if s[0] == v then Without(s[1..], v)
    else
      var r := [s[0]] + Without(s[1..], v);
      assert r[1..] == Without(s[1..], v);
      r
  }

  predicate Descending(p: seq<nat>) {
    forall i, j :: 0 <= i < j < |p| ==> p[i] >= p[j]
  }

  function Sum(p: seq<nat>): nat
    decreases |p|
  {
    if p == [] then 0 else p[0] + Sum(p[1..])
  }

  function InsertDescending(c: nat, p: seq<nat>): (r: seq<nat>)
    ensures |r| == |p| + 1
    ensures forall x :: x in r <==> x in p || x == c
    ensures Sum(r) == Sum(p) + c
    decreases |p|
  {
    if p == [] || c >= p[0] then [c] + p
    else
      var t := InsertDescending(c, p[1..]);
      assert ([p[0]] + t)[1..] == t;
      assert p == [p[0]] + p[1..];
      [p[0]] + t
  }

  /** Inserting a count no larger than `m` into counts no larger than `m`
      gives counts no larger than `m`. */
  lemma {:induction false} InsertDescendingBelow(c: nat, p: seq<nat>, m: nat)
    requires c <= m && forall i :: 0 <= i < |p| ==> p[i] <= m
    ensures forall i :: 0 <= i < |InsertDescending(c, p)| ==> InsertDescending(c, p)[i] <= m
    decreases |p|
  {
    if p != [] && c < p[0] {
      InsertDescendingBelow(c, p[1..], m);
      var t := InsertDescending(c, p[1..]);
      assert InsertDescending(c, p) == [p[0]] + t;
    }
  }

  lemma {:induction false} InsertDescendingSorted(c: nat, p: seq<nat>)
    requires Descending(p)
    ensures Descending(InsertDescending(c, p))
    decreases |p|
  {
    if p != [] && c < p[0] {
      var t := InsertDescending(c, p[1..]);
      InsertDescendingSorted(c, p[1..]);
      InsertDescendingBelow(c, p[1..], p[0]);
      var r := [p[0]] + t;
      assert r == InsertDescending(c, p);
      forall i, j | 0 <= i < j < |r| ensures r[i] >= r[j] {
        assert r[j] == t[j - 1];
        if i > 0 { assert r[i] == t[i - 1]; }
      }
    }
  }

  /** The counts of `Counter(s).most_common()`, strongest first: one entry
      per distinct value, sorted descending. */
  function CountProfile(s: seq<int>): (p: seq<nat>)
    ensures Descending(p)
    ensures forall x :: x in p ==> x >= 1
    decreases |s|
  {
    if s == [] then []
    else
      var rest := CountProfile(Without(s, s[0]));
      InsertDescendingSorted(Occurrences(s, s[0]), rest);
      InsertDescending(Occurrences(s, s[0]), rest)
  }

  function Distinct(s: seq<int>): set<int> {
    set x | x in s
  }

  /** The counts add up to the number of cards. */
  lemma {:induction false} ProfileSum(s: seq<int>)
    ensures Sum(CountProfile(s)) == |s|
    decreases |s|
  {
    if s != [] { ProfileSum(Without(s, s[0])); }
  }

  /** One count per distinct value: `len(set(cards)) == len(most_common())`. */
  lemma {:induction false} ProfileLength(s: seq<int>)
    ensures |CountProfile(s)| == |Distinct(s)|
    decreases |s|
  {
    if s != [] {
      var w := Without(s, s[0]);
      ProfileLength(w);
      assert Distinct(s) == Distinct(w) + {s[0]};
      assert s[0] !in Distinct(w);
    }
  }

  /** The profile holds exactly the multiplicities of the values in `s`;
      in particular its head is the largest multiplicity, the count of
      `most_common()[0]`. */
  lemma {:induction false} ProfileEntries(s: seq<int>)
    ensures forall v :: v in s ==> Occurrences(s, v) in CountProfile(s)
    ensures forall c :: c in CountProfile(s) ==> exists v :: v in s && Occurrences(s, v) == c
    decreases |s|
  {
    if s != [] {
      var w := Without(s, s[0]);
      ProfileEntries(w);
      var p := CountProfile(s);
      forall v | v in s ensures Occurrences(s, v) in p {
        if v != s[0] {
          assert v in w;
        }
      }
      forall c | c in p ensures exists v :: v in s && Occurrences(s, v) == c {
        if c != Occurrences(s, s[0]) {
          assert c in CountProfile(w);
          var v :| v in w && Occurrences(w, v) == c;
          assert v != s[0] && v in s;
        }
      }
    }
  }

  lemma MostCommonIsHead(s: seq<int>)
    requires s != []
    ensures CountProfile(s) != []
    ensures forall v :: v in s ==> Occurrences(s, v) <= CountProfile(s)[0]
    ensures exists v :: v in s && Occurrences(s, v) == CountProfile(s)[0]
  {
    ProfileEntries(s);
    var p := CountProfile(s);
    assert Occurrences(s, s[0]) in p;
    forall v | v in s ensures Occurrences(s, v) <= p[0] {
      var i :| 0 <= i < |p| && p[i] == Occurrences(s, v);
    }
    assert p[0] in p;
  }

  /** The seven count profiles a five-card hand can have, indexed by the
      category the evaluator chain gives them. */
  const Profiles: seq<seq<nat>> :=
    [[1, 1, 1, 1, 1], [2, 1, 1, 1], [2, 2, 1], [3, 1, 1], [3, 2], [4, 1], [5]]

  lemma {:induction false} SumBounds(p: seq<nat>)
    requires forall x :: x in p ==> x >= 1
    ensures Sum(p) >= |p|
    ensures p != [] ==> Sum(p) >= p[0] + |p| - 1
    decreases |p|
  {
    if p != [] {
      assert p[0] in p && forall x :: x in p[1..] ==> x in p;
      SumBounds(p[1..]);
    }
  }

  /** The descending partitions of 5 are exactly the seven profiles. */
  lemma PartitionsOfFive(p: seq<nat>)
    requires Descending(p) && Sum(p) == 5
    requires forall x :: x in p ==> x >= 1
    ensures p in Profiles
  {
    SumBounds(p);
    SumUnfold(p);
    var q := p + [0, 0, 0, 0, 0];
    assert forall i :: 0 <= i < |p| ==> q[i] == p[i] && q[i] in p;
    PartitionsOfFiveEntries(p, q);
  }

  lemma PartitionsOfFiveEntries(p: seq<nat>, q: seq<nat>)
    requires 1 <= |p| <= 5 && q == p + [0, 0, 0, 0, 0]
    requires q[0] + q[1] + q[2] + q[3] + q[4] == 5
    requires forall i :: 0 <= i < |p| ==> q[i] >= 1
    requires forall i :: 0 <= i < |p| - 1 ==> q[i] >= q[i + 1]
    ensures p in Profiles
  {
    var n := |p|;
    assert forall i :: n <= i < n + 5 ==> q[i] == 0;
    assert q[0] >= 1;
    if n == 1 {
      assert p == [5] == Profiles[6];
    } else if n == 2 {
      assert q[0] >= q[1] >= 1;
      if q[0] == 4 { assert p == [4, 1] == Profiles[5]; } else { assert p == [3, 2] == Profiles[4]; }
    } else if n == 3 {
      assert q[0] >= q[1] >= q[2] >= 1;
      if q[0] == 3 { assert p == [3, 1, 1] == Profiles[3]; } else { assert p == [2, 2, 1] == Profiles[2]; }
    } else if n == 4 {
      assert q[0] >= q[1] >= q[2] >= q[3] >= 1;
      assert p == [2, 1, 1, 1] == Profiles[1];
    } else {
      assert q[0] >= q[1] >= q[2] >= q[3] >= q[4] >= 1;
      assert p == [1, 1, 1, 1, 1] == Profiles[0];
    }
  }

  /** Sum of a profile of at most five entries, written out. */
  lemma SumUnfold(p: seq<nat>)
    requires |p| <= 5
    ensures var q := p + [0, 0, 0, 0, 0]; Sum(p) == q[0] + q[1] + q[2] + q[3] + q[4]
  {
    var q := p + [0, 0, 0, 0, 0];
    if p != [] {
      SumUnfold(p[1..]);
      assert p[1..] + [0, 0, 0, 0, 0] == q[1..];
    }
  }

  // ================================================================ evaluators

  /** The seven `HandEvaluator` subclasses. */
  datatype Evaluator = FiveOfAKind | FourOfAKind | FullHouse | ThreeOfAKind | TwoPair | OnePair | Nothing

  /** `evaluator.evaluate(hand)` given the number of distinct card values
      (`len(set(hand.cards))`) and the count profile: Some(category) on a
      match, None otherwise; reading `most_common()[1]` when there is no
      second entry raises IndexError. */
  function EvaluateCounts(e: Evaluator, distinct: nat, counts: seq<nat>): Result<Option<nat>> {
    match e
    case FiveOfAKind => Ok(if distinct == 1 then Some(6) else None)
    case FourOfAKind =>
      if |counts| < 1 then Err(IndexError) else Ok(if counts[0] == 4 then Some(5) else None)
    case FullHouse =>
      if |counts| < 2 then Err(IndexError)
      else Ok(if counts[0] == 3 && counts[1] == 2 then Some(4) else None)
    case ThreeOfAKind =>
      if |counts| < 1 then Err(IndexError) else Ok(if counts[0] == 3 then Some(3) else None)
    case TwoPair =>
      if |counts| < 2 then Err(IndexError)
      else Ok(if counts[0] == 2 && counts[1] == 2 then Some(2) else None)
    case OnePair =>
      if |counts| < 1 then Err(IndexError) else Ok(if counts[0] == 2 then Some(1) else None)
    case Nothing => Ok(Some(0))
  }

  /** `evaluator.evaluate(hand)`. */
  function Evaluate(e: Evaluator, h: Hand): Result<Option<nat>> {
    var vs := Values(h.cards);
    EvaluateCounts(e, |Distinct(vs)|, CountProfile(vs))
  }

  /** `Hand.evaluate_hand_strength`: the result of the first evaluator that
      does not return None; AssertionError when every one does. */
  function EvaluateHandStrength(h: Hand, evaluators: seq<Evaluator>): Result<nat>
    decreases |evaluators|
  {
    if evaluators == [] then Err(AssertionError)
    else
      match Evaluate(evaluators[0], h)
      case Err(f) => Err(f)
      case Ok(Some(c)) => Ok(c)
      case Ok(None) => EvaluateHandStrength(h, evaluators[1..])
  }

  /** The chain returns the result of the first evaluator that matches,
      after every earlier one returned None, and fails with AssertionError
      when none matches. */
  lemma {:induction false} FirstMatchWins(h: Hand, evaluators: seq<Evaluator>)
    ensures var r := EvaluateHandStrength(h, evaluators);
      r.Ok? ==>
        exists i :: 0 <= i < |evaluators| && Evaluate(evaluators[i], h) == Ok(Some(r.value))
          && forall j :: 0 <= j < i ==> Evaluate(evaluators[j], h) == Ok(None)
    ensures (forall j :: 0 <= j < |evaluators| ==> Evaluate(evaluators[j], h) == Ok(None))
      ==> EvaluateHandStrength(h, evaluators) == Err(AssertionError)
    decreases |evaluators|
  {
    if evaluators != [] {
      var rest := evaluators[1..];
      FirstMatchWins(h, rest);
      assert forall j :: 1 <= j < |evaluators| ==> evaluators[j] == rest[j - 1];
      var r := EvaluateHandStrength(h, evaluators);
      if r.Ok? && Evaluate(evaluators[0], h) == Ok(None) {
        var i :| 0 <= i < |rest| && Evaluate(rest[i], h) == Ok(Some(r.value))
          && forall j :: 0 <= j < i ==> Evaluate(rest[j], h) == Ok(None);
        assert Evaluate(evaluators[i + 1], h) == Ok(Some(r.value));
        assert forall j :: 0 <= j < i + 1 ==> Evaluate(evaluators[j], h) == Ok(None) by {
          forall j | 0 <= j < i + 1 ensures Evaluate(evaluators[j], h) == Ok(None) {
            if j > 0 { assert evaluators[j] == rest[j - 1]; }
          }
        }
      }
      if forall j :: 0 <= j < |evaluators| ==> Evaluate(evaluators[j], h) == Ok(None) {
        assert Evaluate(evaluators[0], h) == Ok(None);
        assert forall j :: 0 <= j < |rest| ==> Evaluate(rest[j], h) == Ok(None) by {
          forall j | 0 <= j < |rest| ensures Evaluate(rest[j], h) == Ok(None) {
            assert rest[j] == evaluators[j + 1];
          }
        }
      }
    }
  }

  /** The chain `main` builds, strongest category first. */
  const StandardEvaluators: seq<Evaluator> :=
    [FiveOfAKind, FourOfAKind, FullHouse, ThreeOfAKind, TwoPair, OnePair, Nothing]

  /** The standard chain on a count profile of five cards. */
  function ChainOnCounts(distinct: nat, counts: seq<nat>, evaluators: seq<Evaluator>): Result<nat>
    decreases |evaluators|
  {
    if evaluators == [] then Err(AssertionError)
    else
      match EvaluateCounts(evaluators[0], distinct, counts)
      case Err(f) => Err(f)
      case Ok(Some(c)) => Ok(c)
      case Ok(None) => ChainOnCounts(distinct, counts, evaluators[1..])
  }

  lemma {:induction false} ChainOnHand(h: Hand, evaluators: seq<Evaluator>)
    ensures EvaluateHandStrength(h, evaluators) ==
      ChainOnCounts(|Distinct(Values(h.cards))|, CountProfile(Values(h.cards)), evaluators)
    decreases |evaluators|
  {
    if evaluators != [] { ChainOnHand(h, evaluators[1..]); }
  }

  /** On each of the seven profiles the chain stops at the evaluator of
      the profile's own category. */
  lemma ChainOnProfiles(c: nat)
    requires c < 7
    ensures ChainOnCounts(|Profiles[c]|, Profiles[c], StandardEvaluators) == Ok(c)
  {
    var e := StandardEvaluators;
    assert e[1..] == [FourOfAKind, FullHouse, ThreeOfAKind, TwoPair, OnePair, Nothing];
    assert e[1..][1..] == [FullHouse, ThreeOfAKind, TwoPair, OnePair, Nothing];
    assert e[1..][1..][1..] == [ThreeOfAKind, TwoPair, OnePair, Nothing];
    assert e[1..][1..][1..][1..] == [TwoPair, OnePair, Nothing];
    assert e[1..][1..][1..][1..][1..] == [OnePair, Nothing];
    assert e[1..][1..][1..][1..][1..][1..] == [Nothing];
  }

  /** Every five-card hand gets a category from the standard chain (so the
      `assert False` is unreachable and `most_common()[1]` is only read when
      two distinct values exist), and the category is the index of the
      hand's count profile in `Profiles`: [5] gives 6, [4,1] gives 5,
      [3,2] gives 4, [3,1,1] gives 3, [2,2,1] gives 2, [2,1,1,1] gives 1
      and five distinct values give 0. */
  lemma StandardChainClassifies(h: Hand)
    requires |h.cards| == 5
    ensures var r := EvaluateHandStrength(h, StandardEvaluators);
      r.Ok? && r.value < 7 && CountProfile(Values(h.cards)) == Profiles[r.value]
  {
    var vs := Values(h.cards);
    var p := CountProfile(vs);
    ProfileSum(vs);
    ProfileLength(vs);
    PartitionsOfFive(p);
    var c :| 0 <= c < 7 && Profiles[c] == p;
    ChainOnProfiles(c);
    ChainOnHand(h, StandardEvaluators);
  }

  /** The category `main` files a hand under. */
  function Category(h: Hand): (c: nat)
    requires |h.cards| == 5
    ensures c < 7
  {
    StandardChainClassifies(h);
    EvaluateHandStrength(h, StandardEvaluators).value
  }

  /** The category is the strength `evaluate_hand_strength` returns with the
      standard evaluators, and it is the index of the hand's count profile. */
  lemma CategoryClassifies(h: Hand)
    requires |h.cards| == 5
    ensures CountProfile(Values(h.cards)) == Profiles[Category(h)]
    ensures EvaluateHandStrength(h, StandardEvaluators) == Ok(Category(h))
  {
    StandardChainClassifies(h);
  }

  // ================================================================ ranking

  // The ranking below is stated for any `strength` that files each hand
  // under one of the seven buckets 0..6; `main` uses `Category`, the
  // strength `evaluate_hand_strength` gives with the standard evaluators.

  predicate AllFiveCards(hands: seq<Hand>) {
    forall i :: 0 <= i < |hands| ==> |hands[i].cards| == 5
  }

  /** `strength` files every hand of `hands` under a bucket in `lo..hi-1`. */
  ghost predicate Within(strength: Hand --> nat, hands: seq<Hand>, lo: nat, hi: nat) {
    forall i :: 0 <= i < |hands| ==> strength.requires(hands[i]) && lo <= strength(hands[i]) < hi
  }

  /** `strength` files every hand of `hands` under a bucket 0..6. */
  ghost predicate Rates(strength: Hand --> nat, hands: seq<Hand>) {
    Within(strength, hands, 0, 7)
  }

  lemma WithinConcat(strength: Hand --> nat, upper: seq<Hand>, lower: seq<Hand>, lo: nat, mid: nat, hi: nat)
    requires lo <= mid <= hi
    requires Within(strength, upper, mid, hi) && Within(strength, lower, lo, mid)
    ensures Within(strength, upper + lower, lo, hi)
  {
    var all := upper + lower;
    forall i | 0 <= i < |all| ensures strength.requires(all[i]) && lo <= strength(all[i]) < hi {
      if i < |upper| { assert all[i] == upper[i]; } else { assert all[i] == lower[i - |upper|]; }
    }
  }

  lemma CategoryRates(hands: seq<Hand>)
    requires AllFiveCards(hands)
    ensures Rates(Category, hands)
  {
  }

  /** `hand_buckets[c]` once the bucketing loop has seen `hands`: the hands
      of strength `c`, in input order. */
  function Bucket(strength: Hand --> nat, hands: seq<Hand>, c: nat): (b: seq<Hand>)
    requires Rates(strength, hands)
    ensures forall h :: h in b ==> h in hands && strength.requires(h) && strength(h) == c
    decreases |hands|
  {
    if hands == [] then []
    else
      var last := hands[|hands| - 1];
      var init := hands[..|hands| - 1];
      assert forall h :: h in init ==> h in hands;
      Bucket(strength, init, c) + (if strength(last) == c then [last] else [])
  }

  /** Place `x` after every hand of `s` that is not weaker than it. */
  function InsertByStrength(x: Hand, s: seq<Hand>): (r: seq<Hand>)
    ensures multiset(r) == multiset(s) + multiset{x}
    decreases |s|
  {
    if s == [] || HandLess(s[0], x) then [x] + s
    else
      assert s == [s[0]] + s[1..];
      [s[0]] + InsertByStrength(x, s[1..])
  }

  /** `sorted(bucket, reverse=True)`: strongest first, and, as Python's sort
      is stable, hands that compare equal keep their input order (each hand
      is inserted after the earlier ones that are not weaker). */
  function SortDescending(s: seq<Hand>): (r: seq<Hand>)
    ensures multiset(r) == multiset(s)
    decreases |s|
  {
    if s == [] then []
    else
      assert s == s[..|s| - 1] + [s[|s| - 1]];
      InsertByStrength(s[|s| - 1], SortDescending(s[..|s| - 1]))
  }

  predicate StrongestFirst(s: seq<Hand>) {
    forall i, j :: 0 <= i < j < |s| ==> !HandLess(s[i], s[j])
  }

  /** A hand not weaker than `x` and than every hand of `s` is not weaker
      than any hand of the insertion. */
  lemma {:induction false} InsertByStrengthBelow(x: Hand, s: seq<Hand>, y: Hand)
    requires !HandLess(y, x) && forall j :: 0 <= j < |s| ==> !HandLess(y, s[j])
    ensures forall j :: 0 <= j < |InsertByStrength(x, s)| ==> !HandLess(y, InsertByStrength(x, s)[j])
    decreases |s|
  {
    if s != [] && !HandLess(s[0], x) {
      InsertByStrengthBelow(x, s[1..], y);
      assert InsertByStrength(x, s) == [s[0]] + InsertByStrength(x, s[1..]);
    }
  }

  lemma {:induction false} InsertByStrengthSorted(x: Hand, s: seq<Hand>)
    requires StrongestFirst(s)
    ensures StrongestFirst(InsertByStrength(x, s))
    decreases |s|
  {
    var r := InsertByStrength(x, s);
    if s == [] {
    } else if HandLess(s[0], x) {
      forall j | 0 <= j < |s| ensures !HandLess(x, s[j]) {
        if HandLess(x, s[j]) {
          LexLessTransitive(Values(s[0].cards), Values(x.cards), Values(s[j].cards));
          if j == 0 { LexLessIrreflexive(Values(s[0].cards)); }
        }
      }
      forall i, j | 0 <= i < j < |r| ensures !HandLess(r[i], r[j]) {
        assert r[j] == s[j - 1];
        if i > 0 { assert r[i] == s[i - 1]; }
      }
    } else {
      var t := InsertByStrength(x, s[1..]);
      InsertByStrengthSorted(x, s[1..]);
      InsertByStrengthBelow(x, s[1..], s[0]);
      assert r == [s[0]] + t;
      forall i, j | 0 <= i < j < |r| ensures !HandLess(r[i], r[j]) {
        assert r[j] == t[j - 1];
        if i > 0 { assert r[i] == t[i - 1]; }
      }
    }
  }

  lemma {:induction false} SortDescendingSorted(s: seq<Hand>)
    ensures StrongestFirst(SortDescending(s))
    decreases |s|
  {
    if s != [] {
      SortDescendingSorted(s[..|s| - 1]);
      InsertByStrengthSorted(s[|s| - 1], SortDescending(s[..|s| - 1]));
    }
  }

  /** The hands of `s` whose card values are `v`, in their order in `s`:
      the hands `__lt__` cannot tell apart from one with values `v`. */
  function WithValues(s: seq<Hand>, v: seq<int>): (r: seq<Hand>)
    ensures forall h :: h in r ==> h in s && Values(h.cards) == v
    decreases |s|
  {
    if s == [] then []
    else (if Values(s[0].cards) == v then [s[0]] else []) + WithValues(s[1..], v)
  }

  lemma {:induction false} WithValuesAppend(a: seq<Hand>, b: seq<Hand>, v: seq<int>)
    ensures WithValues(a + b, v) == WithValues(a, v) + WithValues(b, v)
    decreases |a|
  {
    if a == [] {
      assert a + b == b;
    } else {
      assert (a + b)[0] == a[0] && (a + b)[1..] == a[1..] + b;
      WithValuesAppend(a[1..], b, v);
    }
  }

  lemma {:induction false} WithValuesNone(s: seq<Hand>, v: seq<int>)
    requires forall j :: 0 <= j < |s| ==> Values(s[j].cards) != v
    ensures WithValues(s, v) == []
    decreases |s|
  {
    if s != [] {
      WithValuesNone(s[1..], v);
    }
  }

  lemma WithValuesOne(x: Hand, v: seq<int>)
    ensures WithValues([x], v) == if Values(x.cards) == v then [x] else []
  {
    assert WithValues([x], v) == (if Values(x.cards) == v then [x] else []) + WithValues([], v);
  }

  /** A hand stronger than the head of a list sorted strongest first has
      values different from every hand of the list. */
  lemma InsertInFrontStable(x: Hand, s: seq<Hand>, v: seq<int>)
    requires StrongestFirst(s) && s != [] && HandLess(s[0], x)
    ensures WithValues([x] + s, v) == WithValues(s, v) + WithValues([x], v)
  {
    WithValuesOne(x, v);
    assert ([x] + s)[0] == x && ([x] + s)[1..] == s;
    if Values(x.cards) == v {
      forall j | 0 <= j < |s|
        ensures Values(s[j].cards) != v
      {
        if j == 0 {
          LexLessIrreflexive(Values(x.cards));
        } else {
          assert !HandLess(s[0], s[j]);
        }
      }
      WithValuesNone(s, v);
    }
  }

  /** Inserting into a list sorted strongest first puts `x` after every
      hand with the same values. */
  lemma {:induction false} InsertByStrengthStable(x: Hand, s: seq<Hand>, v: seq<int>)
    requires StrongestFirst(s)
    ensures WithValues(InsertByStrength(x, s), v) == WithValues(s, v) + WithValues([x], v)
    decreases |s|
  {
    if s == [] {
      assert InsertByStrength(x, s) == [x];
    } else if HandLess(s[0], x) {
      assert InsertByStrength(x, s) == [x] + s;
      InsertInFrontStable(x, s, v);
    } else {
      var t := s[1..];
      var inserted := InsertByStrength(x, t);
      var head := if Values(s[0].cards) == v then [s[0]] else [];
      assert InsertByStrength(x, s) == [s[0]] + inserted;
      assert WithValues(inserted, v) == WithValues(t, v) + WithValues([x], v) by {
        StrongestFirstTail(s);
        InsertByStrengthStable(x, t, v);
      }
      assert WithValues([s[0]] + inserted, v) == head + WithValues(inserted, v) by {
        assert ([s[0]] + inserted)[0] == s[0] && ([s[0]] + inserted)[1..] == inserted;
      }
      assert WithValues(s, v) == head + WithValues(t, v);
      ConcatAssociative(head, WithValues(t, v), WithValues([x], v));
    }
  }

  lemma ConcatAssociative(a: seq<Hand>, b: seq<Hand>, c: seq<Hand>)
    ensures a + (b + c) == (a + b) + c
  {
  }

  lemma StrongestFirstTail(s: seq<Hand>)
    requires StrongestFirst(s) && s != []
    ensures StrongestFirst(s[1..])
  {
    var t := s[1..];
    forall i, j | 0 <= i < j < |t| ensures !HandLess(t[i], t[j]) {
      assert t[i] == s[i + 1] && t[j] == s[j + 1];
    }
  }

  /** `sorted` is stable: hands with the same values keep their input
      order. */
  lemma {:induction false} SortDescendingStable(s: seq<Hand>, v: seq<int>)
    ensures WithValues(SortDescending(s), v) == WithValues(s, v)
    decreases |s|
  {
    if s != [] {
      var init, last := s[..|s| - 1], s[|s| - 1];
      SortDescendingStable(init, v);
      SortDescendingSorted(init);
      InsertByStrengthStable(last, SortDescending(init), v);
      assert s == init + [last];
      WithValuesAppend(init, [last], v);
    }
  }

  /** `total_order` once the buckets of strengths 6 down to `k` have been
      appended, each sorted strongest first. */
  function StrongBuckets(strength: Hand --> nat, hands: seq<Hand>, k: nat): seq<Hand>
    requires Rates(strength, hands) && k <= 7
    decreases 7 - k
  {
    if k == 7 then []
    else StrongBuckets(strength, hands, k + 1) + SortDescending(Bucket(strength, hands, k))
  }

  /** The complete `total_order` of `main`, strongest hand first. */
  function TotalOrder(hands: seq<Hand>): seq<Hand>
    requires AllFiveCards(hands)
  {
    CategoryRates(hands);
    StrongBuckets(Category, hands, 0)
  }

  /** `a` may stand before `b` in the total order: a higher strength, or the
      same strength and `a` not weaker card by card. */
  predicate RankedBefore(strength: Hand --> nat, a: Hand, b: Hand)
    requires strength.requires(a) && strength.requires(b)
  {
    strength(a) > strength(b) || (strength(a) == strength(b) && !HandLess(a, b))
  }

  /** A sequence of hands in total-order position. */
  predicate Ranked(strength: Hand --> nat, s: seq<Hand>)
    requires Rates(strength, s)
  {
    forall i, j :: 0 <= i < j < |s| ==> RankedBefore(strength, s[i], s[j])
  }

  /** The hands of `hands` whose strength is at least `k`, in input order. */
  function AtLeast(strength: Hand --> nat, hands: seq<Hand>, k: nat): seq<Hand>
    requires Rates(strength, hands)
    decreases |hands|
  {
    if hands == [] then []
    else
      var last := hands[|hands| - 1];
      AtLeast(strength, hands[..|hands| - 1], k) + (if strength(last) >= k then [last] else [])
  }

  lemma {:induction false} AtLeastSplit(strength: Hand --> nat, hands: seq<Hand>, k: nat)
    requires Rates(strength, hands)
    ensures multiset(AtLeast(strength, hands, k))
      == multiset(AtLeast(strength, hands, k + 1)) + multiset(Bucket(strength, hands, k))
    decreases |hands|
  {
    if hands != [] {
      var init, last := hands[..|hands| - 1], hands[|hands| - 1];
      assert Rates(strength, init) by {
        assert forall i :: 0 <= i < |init| ==> init[i] == hands[i];
      }
      var above, higher, bucket := AtLeast(strength, init, k), AtLeast(strength, init, k + 1), Bucket(strength, init, k);
      assert multiset(above) == multiset(higher) + multiset(bucket) by {
        AtLeastSplit(strength, init, k);
      }
      var c := strength(last);
      if c > k {
        assert AtLeast(strength, hands, k) == above + [last];
        assert AtLeast(strength, hands, k + 1) == higher + [last];
        assert Bucket(strength, hands, k) == bucket + [];
      } else if c == k {
        assert AtLeast(strength, hands, k) == above + [last];
        assert AtLeast(strength, hands, k + 1) == higher + [];
        assert Bucket(strength, hands, k) == bucket + [last];
      } else {
        assert AtLeast(strength, hands, k) == above + [];
        assert AtLeast(strength, hands, k + 1) == higher + [];
        assert Bucket(strength, hands, k) == bucket + [];
      }
    }
  }

  lemma {:induction false} AtLeastBounds(strength: Hand --> nat, hands: seq<Hand>)
    requires Rates(strength, hands)
    ensures AtLeast(strength, hands, 0) == hands && AtLeast(strength, hands, 7) == []
    decreases |hands|
  {
    if hands != [] {
      AtLeastBounds(strength, hands[..|hands| - 1]);
      assert hands == hands[..|hands| - 1] + [hands[|hands| - 1]];
    }
  }

  lemma {:induction false} StrongBucketsPermutation(strength: Hand --> nat, hands: seq<Hand>, k: nat)
    requires Rates(strength, hands) && k <= 7
    ensures multiset(StrongBuckets(strength, hands, k)) == multiset(AtLeast(strength, hands, k))
    decreases 7 - k
  {
    if k == 7 {
      AtLeastBounds(strength, hands);
    } else {
      StrongBucketsPermutation(strength, hands, k + 1);
      AtLeastSplit(strength, hands, k);
    }
  }

  /** Sorting a bucket keeps it a bucket: hands of strength `k`. */
  lemma SortedBucket(strength: Hand --> nat, hands: seq<Hand>, k: nat)
    requires Rates(strength, hands)
    ensures Within(strength, SortDescending(Bucket(strength, hands, k)), k, k + 1)
  {
    var bucket := Bucket(strength, hands, k);
    var lower := SortDescending(bucket);
    forall i | 0 <= i < |lower| ensures strength.requires(lower[i]) && k <= strength(lower[i]) < k + 1 {
      assert lower[i] in multiset(bucket);
    }
  }

  lemma {:induction false} StrongBucketsStrengths(strength: Hand --> nat, hands: seq<Hand>, k: nat)
    requires Rates(strength, hands) && k <= 7
    ensures Within(strength, StrongBuckets(strength, hands, k), k, 7)
    decreases 7 - k
  {
    if k < 7 {
      StrongBucketsStrengths(strength, hands, k + 1);
      SortedBucket(strength, hands, k);
      WithinConcat(strength, StrongBuckets(strength, hands, k + 1),
        SortDescending(Bucket(strength, hands, k)), k, k + 1, 7);
    }
  }

  /** A ranked run of stronger hands followed by one bucket's hands,
      strongest first, is ranked. */
  lemma AppendRanked(strength: Hand --> nat, upper: seq<Hand>, lower: seq<Hand>, k: nat)
    requires k < 7
    requires Within(strength, upper, k + 1, 7) && Within(strength, lower, k, k + 1)
    requires Ranked(strength, upper) && StrongestFirst(lower)
    ensures Within(strength, upper + lower, k, 7) && Ranked(strength, upper + lower)
  {
    WithinConcat(strength, upper, lower, k, k + 1, 7);
    var all := upper + lower;
    forall i, j | 0 <= i < j < |all| ensures RankedBefore(strength, all[i], all[j]) {
      if j < |upper| {
        assert all[i] == upper[i] && all[j] == upper[j];
      } else if i >= |upper| {
        assert all[i] == lower[i - |upper|] && all[j] == lower[j - |upper|];
      } else {
        assert all[i] == upper[i] && all[j] == lower[j - |upper|];
      }
    }
  }

  lemma {:induction false} StrongBucketsOrdered(strength: Hand --> nat, hands: seq<Hand>, k: nat)
    requires Rates(strength, hands) && k <= 7
    ensures Rates(strength, StrongBuckets(strength, hands, k))
    ensures Ranked(strength, StrongBuckets(strength, hands, k))
    decreases 7 - k
  {
    StrongBucketsStrengths(strength, hands, k);
    if k < 7 {
      StrongBucketsOrdered(strength, hands, k + 1);
      StrongBucketsStrengths(strength, hands, k + 1);
      SortedBucket(strength, hands, k);
      SortDescendingSorted(Bucket(strength, hands, k));
      var lower := SortDescending(Bucket(strength, hands, k));
      AppendRanked(strength, StrongBuckets(strength, hands, k + 1), lower, k);
    }
  }

  /** The total order is a permutation of the hands, and it runs from the
      strongest to the weakest: category descending, then card by card
      descending. */
  lemma TotalOrderRanksAllHands(hands: seq<Hand>)
    requires AllFiveCards(hands)
    ensures multiset(TotalOrder(hands)) == multiset(hands)
    ensures Rates(Category, TotalOrder(hands)) && Ranked(Category, TotalOrder(hands))
  {
    CategoryRates(hands);
    StrongBucketsPermutation(Category, hands, 0);
    StrongBucketsOrdered(Category, hands, 0);
    AtLeastBounds(Category, hands);
  }

  /** The evaluators read a hand only through its card values. */
  lemma {:induction false} StrengthByValues(a: Hand, b: Hand, evaluators: seq<Evaluator>)
    requires Values(a.cards) == Values(b.cards)
    ensures EvaluateHandStrength(a, evaluators) == EvaluateHandStrength(b, evaluators)
    decreases |evaluators|
  {
    if evaluators != [] {
      assert Evaluate(evaluators[0], a) == Evaluate(evaluators[0], b);
      StrengthByValues(a, b, evaluators[1..]);
    }
  }

  /** Every hand of `hands` with values `v` has strength `cv`. */
  ghost predicate StrengthOfValues(strength: Hand --> nat, hands: seq<Hand>, v: seq<int>, cv: nat)
    requires Rates(strength, hands)
  {
    forall i :: 0 <= i < |hands| && Values(hands[i].cards) == v ==> strength(hands[i]) == cv
  }

  /** Bucket `cv` holds all the hands with values `v`, in input order,
      when `cv` is their strength. */
  lemma {:induction false} BucketKeepsValues(strength: Hand --> nat, hands: seq<Hand>, v: seq<int>, cv: nat)
    requires Rates(strength, hands)
    requires StrengthOfValues(strength, hands, v, cv)
    ensures WithValues(Bucket(strength, hands, cv), v) == WithValues(hands, v)
    decreases |hands|
  {
    if hands != [] {
      var init, last := hands[..|hands| - 1], hands[|hands| - 1];
      var added := if strength(last) == cv then [last] else [];
      assert Bucket(strength, hands, cv) == Bucket(strength, init, cv) + added;
      assert WithValues(Bucket(strength, init, cv), v) == WithValues(init, v) by {
        assert forall i :: 0 <= i < |init| ==> init[i] == hands[i];
        BucketKeepsValues(strength, init, v, cv);
      }
      assert WithValues(added, v) == WithValues([last], v) by {
        assert WithValues([last], v) == (if Values(last.cards) == v then [last] else []) + WithValues([], v);
      }
      assert WithValues(hands, v) == WithValues(init, v) + WithValues([last], v) by {
        assert hands == init + [last];
        WithValuesAppend(init, [last], v);
      }
      WithValuesAppend(Bucket(strength, init, cv), added, v);
    }
  }

  /** Any other bucket holds none of the hands with values `v`. */
  lemma BucketOthersNone(strength: Hand --> nat, hands: seq<Hand>, v: seq<int>, cv: nat, c: nat)
    requires Rates(strength, hands)
    requires StrengthOfValues(strength, hands, v, cv) && c != cv
    ensures WithValues(Bucket(strength, hands, c), v) == []
  {
    var b := Bucket(strength, hands, c);
    forall j | 0 <= j < |b|
      ensures Values(b[j].cards) != v
    {
      assert b[j] in b;
      var i :| 0 <= i < |hands| && hands[i] == b[j];
    }
    WithValuesNone(b, v);
  }

  /** Appending the sorted bucket `k` appends, of the hands with values
      `v`, those of the bucket in their input order. */
  lemma StrongBucketsStep(strength: Hand --> nat, hands: seq<Hand>, v: seq<int>, k: nat)
    requires Rates(strength, hands) && k < 7
    ensures WithValues(StrongBuckets(strength, hands, k), v)
         == WithValues(StrongBuckets(strength, hands, k + 1), v) + WithValues(Bucket(strength, hands, k), v)
  {
    var bucket := Bucket(strength, hands, k);
    WithValuesAppend(StrongBuckets(strength, hands, k + 1), SortDescending(bucket), v);
    SortDescendingStable(bucket, v);
  }

  /** The buckets above the strength `cv` of the hands with values `v`
      hold none of them. */
  lemma {:induction false} StrongBucketsAboveNone(strength: Hand --> nat, hands: seq<Hand>, v: seq<int>, cv: nat, k: nat)
    requires Rates(strength, hands) && cv < k <= 7
    requires StrengthOfValues(strength, hands, v, cv)
    ensures WithValues(StrongBuckets(strength, hands, k), v) == []
    decreases 7 - k
  {
    if k < 7 {
      StrongBucketsStep(strength, hands, v, k);
      StrongBucketsAboveNone(strength, hands, v, cv, k + 1);
      BucketOthersNone(strength, hands, v, cv, k);
    }
  }

  /** Once the buckets down to the strength `cv` of the hands with values
      `v` are appended, those hands all stand in `total_order`, in input
      order. */
  lemma {:induction false} StrongBucketsWithValues(strength: Hand --> nat, hands: seq<Hand>, v: seq<int>, cv: nat, k: nat)
    requires Rates(strength, hands) && k <= cv < 7
    requires StrengthOfValues(strength, hands, v, cv)
    ensures WithValues(StrongBuckets(strength, hands, k), v) == WithValues(hands, v)
    decreases 7 - k
  {
    StrongBucketsStep(strength, hands, v, k);
    if k == cv {
      StrongBucketsAboveNone(strength, hands, v, cv, k + 1);
      BucketKeepsValues(strength, hands, v, cv);
      assert [] + WithValues(hands, v) == WithValues(hands, v);
    } else {
      StrongBucketsWithValues(strength, hands, v, cv, k + 1);
      BucketOthersNone(strength, hands, v, cv, k);
      assert WithValues(hands, v) + [] == WithValues(hands, v);
    }
  }

  /** Hands that compare equal keep their input order in `total_order`:
      they have the same category, so they share a bucket, and the bucket
      keeps input order and `sorted` is stable. Which of them gets the
      higher rank, and so how their bids are weighted, is therefore fixed. */
  lemma TotalOrderStable(hands: seq<Hand>, v: seq<int>)
    requires AllFiveCards(hands)
    ensures WithValues(TotalOrder(hands), v) == WithValues(hands, v)
  {
    CategoryRates(hands);
    var cv := 0;
    if i :| 0 <= i < |hands| && Values(hands[i].cards) == v {
      cv := Category(hands[i]);
      forall j | 0 <= j < |hands| && Values(hands[j].cards) == v
        ensures Category(hands[j]) == cv
      {
        StrengthByValues(hands[j], hands[i], StandardEvaluators);
      }
    }
    StrongBucketsWithValues(Category, hands, v, cv, 0);
  }

  /** Winnings of a total order listed strongest first: the hand at index
      `idx` has rank `|order| - idx`. */
  function Winnings(order: seq<Hand>): int
    decreases |order|
  {
    if order == [] then 0 else |order| * order[0].bid + Winnings(order[1..])
  }

  /** Σ rank × bid over hands listed weakest first, the first having `rank`. */
  function AscendingRankSum(weakestFirst: seq<Hand>, rank: int): int
    decreases |weakestFirst|
  {
    if weakestFirst == [] then 0
    else rank * weakestFirst[0].bid + AscendingRankSum(weakestFirst[1..], rank + 1)
  }

  lemma {:induction false} AscendingRankSumAppend(s: seq<Hand>, x: Hand, rank: int)
    ensures AscendingRankSum(s + [x], rank) == AscendingRankSum(s, rank) + (rank + |s|) * x.bid
    decreases |s|
  {
    if s != [] {
      assert (s + [x])[1..] == s[1..] + [x];
      AscendingRankSumAppend(s[1..], x, rank + 1);
    }
  }

  /** Read from the weakest hand up, the winnings give rank 1 to the weakest
      hand, rank 2 to the next, and so on up to rank N for the strongest;
      with no hands they are 0. */
  lemma {:induction false} WeakestHandHasRankOne(order: seq<Hand>)
    ensures Winnings(order) == AscendingRankSum(Reversed(order), 1)
    decreases |order|
  {
    if order != [] {
      WeakestHandHasRankOne(order[1..]);
      AscendingRankSumAppend(Reversed(order[1..]), order[0], 1);
    }
  }

  /** The bucketing loop of `main`: each hand is appended to the bucket of
      its category, so every bucket keeps input order. */
  method BucketHands(hands: seq<Hand>) returns (handBuckets: map<nat, seq<Hand>>)
    requires AllFiveCards(hands)
    ensures Rates(Category, hands)
    ensures forall k: nat :: k < 7 ==> k in handBuckets && handBuckets[k] == Bucket(Category, hands, k)
  {
    CategoryRates(hands);
    handBuckets := map[0 := [], 1 := [], 2 := [], 3 := [], 4 := [], 5 := [], 6 := []];
    for i := 0 to |hands|
      invariant forall k: nat :: k < 7 ==> k in handBuckets && handBuckets[k] == Bucket(Category, hands[..i], k)
    {
      assert hands[..i + 1][..i] == hands[..i];
      var c := Category(hands[i]);
      handBuckets := handBuckets[c := handBuckets[c] + [hands[i]]];
    }
    assert hands[..|hands|] == hands;
  }

  /** The winnings loop of `main`: rank `len(total_order) - idx` times the
      bid, summed over the total order. */
  method SumWinnings(totalOrder: seq<Hand>) returns (winnings: int)
    ensures winnings == Winnings(totalOrder)
  {
    winnings := 0;
    for idx := 0 to |totalOrder|
      invariant winnings + Winnings(totalOrder[idx..]) == Winnings(totalOrder)
    {
      assert totalOrder[idx..][1..] == totalOrder[idx + 1..];
      var rank := |totalOrder| - idx;
      winnings := winnings + rank * totalOrder[idx].bid;
    }
  }

  /** The bucketing, sorting and winnings loops of `main`. */
  method RankHands(hands: seq<Hand>) returns (totalOrder: seq<Hand>, winnings: int)
    requires AllFiveCards(hands)
    ensures totalOrder == TotalOrder(hands)
    ensures winnings == Winnings(totalOrder)
  {
    var handBuckets := BucketHands(hands);
    totalOrder := [];
    var k := 7;
    while k > 0
      invariant 0 <= k <= 7
      invariant totalOrder == StrongBuckets(Category, hands, k)
    {
      k := k - 1;
      totalOrder := totalOrder + SortDescending(handBuckets[k]);
    }
    winnings := SumWinnings(totalOrder);
  }

  // ================================================================ input lines

  /** One input line: split on ' ', assert two tokens, then
      `Hand.from_str(cards, int(bid))` (so `int(bid)` fails first). */
  function ParseHandLine(line: string): (r: Result<Hand>)
    ensures r.Ok? <==> var tokens := Split(line, ' ');
      |tokens| == 2 && ParseInt(tokens[1]).Ok? && |tokens[0]| == 5
      && forall i :: 0 <= i < 5 ==> IsCardLabel(tokens[0][i])
    ensures r.Ok? ==> |r.value.cards| == 5 && ParseInt(Split(line, ' ')[1]) == Ok(r.value.bid)
    ensures r.Ok? ==> forall i :: 0 <= i < 5 ==> r.value.cards[i].symbol == Split(line, ' ')[0][i]
  {
    var tokens := Split(line, ' ');
    if |tokens| != 2 then Err(AssertionError)
    else
      var bid :- ParseInt(tokens[1]);
      FromStr(tokens[0], bid)
  }

  function ParsedHands(lines: seq<string>): (hands: seq<Hand>)
    requires forall i :: 0 <= i < |lines| ==> ParseHandLine(lines[i]).Ok?
    ensures AllFiveCards(hands)
  {
    seq(|lines|, i requires 0 <= i < |lines| => ParseHandLine(lines[i]).value)
  }

  /** `main` without the file reading: parse every line, rank the hands and
      return the total winnings; the first bad line's failure otherwise. */
  method TotalWinnings(lines: seq<string>) returns (r: Result<int>)
    ensures r.Ok? <==> forall i :: 0 <= i < |lines| ==> ParseHandLine(lines[i]).Ok?
    ensures r.Err? ==> exists i :: 0 <= i < |lines| && ParseHandLine(lines[i]) == Err(r.failure)
                                   && forall j :: 0 <= j < i ==> ParseHandLine(lines[j]).Ok?
    ensures r.Ok? ==> r.value == Winnings(TotalOrder(ParsedHands(lines)))
  {
    var parsed := ParseLines(ParseHandLine, lines);
    if parsed.Err? {
      return Err(parsed.failure);
    }
    var hands := parsed.value;
    assert hands == ParsedHands(lines);
    var _, winnings := RankHands(hands);
    r := Ok(winnings);
  }
}
