/** Cube games (02/main.py): every line records a game as runs of cubes
    drawn from a bag, and the answer is the sum of the IDs of the games that
    a bag of 12 red, 13 green and 14 blue cubes makes possible. */
module CubeGames {
  import opened PyText

  /** A `CubeSet`: how many cubes of each colour. */
  datatype CubeSet = CubeSet(red: int, green: int, blue: int)

  datatype Colour = Red | Green | Blue

  /** A `GameConfig`: the bag it is checked against, its ID and its runs. */
  datatype Game = Game(bagLoad: CubeSet, id: int, runs: seq<CubeSet>)

  /** A fresh `CubeSet()`: every colour defaults to 0. */
  const Empty := CubeSet(0, 0, 0)

  /** The bag of `main`: 12 red, 13 green and 14 blue cubes. */
  const Bag := CubeSet(12, 13, 14)

  function Amount(cubes: CubeSet, colour: Colour): int {
    match colour
    case Red => cubes.red
    case Green => cubes.green
    case Blue => cubes.blue
  }

  /** The same cubes with the amount of one colour replaced, as the
      assignments of `CubeSet.parse` do. */
  function WithAmount(cubes: CubeSet, colour: Colour, amount: int): (r: CubeSet)
    ensures Amount(r, colour) == amount
    ensures forall other :: other != colour ==> Amount(r, other) == Amount(cubes, other)
  {
    match colour
    case Red => cubes.(red := amount)
    case Green => cubes.(green := amount)
    case Blue => cubes.(blue := amount)
  }

  function ColourName(colour: Colour): string {
    match colour
    case Red => "red"
    case Green => "green"
    case Blue => "blue"
  }

  /** The colour a token names; any other word is a `ValueError`. */
  function ColourNamed(name: string): (r: Result<Colour>)
    ensures r.Ok? ==> ColourName(r.value) == name
    ensures r.Err? ==> r.failure == ValueError && forall colour :: ColourName(colour) != name
  {
    if name == "red" then Ok(Red)
    else if name == "green" then Ok(Green)
    else if name == "blue" then Ok(Blue)
    else Err(ValueError)
  }

  // ================================================================ CubeSet.parse

  /** One "amount colour" token: stripped, split at single spaces into
      exactly two words (anything else fails the unpacking), the first
      read with `int()` and the second a colour name. */
  function ParseToken(token: string): (r: Result<(int, Colour)>)
    ensures r.Ok? <==> var words := Split(Strip(token), ' ');
      |words| == 2 && ParseInt(words[0]).Ok? && ColourNamed(words[1]).Ok?
    ensures r.Err? ==> r.failure == ValueError
  {
    var words := Split(Strip(token), ' ');
    if |words| != 2 then Err(ValueError)
    else
      var amount :- ParseInt(words[0]);
      var colour :- ColourNamed(words[1]);
      Ok((amount, colour))
  }

  function ParseTokens(tokens: seq<string>): (parsed: seq<Result<(int, Colour)>>)
    ensures |parsed| == |tokens|
  {
    seq(|tokens|, i requires 0 <= i < |tokens| => ParseToken(tokens[i]))
  }

  /** The cubes after the loop of `CubeSet.parse` has assigned the parsed
      tokens in order to a fresh `CubeSet`: it fails exactly when one of the
      tokens does, with the failure of the first token that fails. */
  function Assign(parsed: seq<Result<(int, Colour)>>): (r: Result<CubeSet>)
    ensures r.Ok? <==> forall i :: 0 <= i < |parsed| ==> parsed[i].Ok?
    ensures r.Err? ==> exists i :: 0 <= i < |parsed| && parsed[i] == Err(r.failure) && forall j :: 0 <= j < i ==> parsed[j].Ok?
    decreases |parsed|
  {
    if parsed == [] then Ok(Empty)
    else
      var init := parsed[..|parsed| - 1];
      assert forall i :: 0 <= i < |init| ==> init[i] == parsed[i];
      var cubes :- Assign(init);
      var token :- parsed[|parsed| - 1];
      Ok(WithAmount(cubes, token.1, token.0))
  }

  /** `CubeSet.parse`: the comma-separated tokens of `s`. */
  function ParseCubeSet(s: string): Result<CubeSet> {
    Assign(ParseTokens(Split(s, ',')))
  }

  /** A malformed token or an unknown colour is a `ValueError`. */
  lemma ParseCubeSetFailure(s: string)
    ensures ParseCubeSet(s).Err? ==> ParseCubeSet(s).failure == ValueError
  {
    var parsed := ParseTokens(Split(s, ','));
    if Assign(parsed).Err? {
      var i :| 0 <= i < |parsed| && parsed[i] == Err(Assign(parsed).failure);
      assert parsed[i] == ParseToken(Split(s, ',')[i]);
    }
  }

  /** Token `i` parses and names `colour`. */
  predicate Names(parsed: seq<Result<(int, Colour)>>, i: int, colour: Colour)
    requires 0 <= i < |parsed|
  {
    parsed[i].Ok? && parsed[i].value.1 == colour
  }

  /** A colour no token names stays 0, and one that tokens name holds the
      amount of the last of them: a repeated colour is overwritten. */
  lemma {:induction false} LastAmountWins(parsed: seq<Result<(int, Colour)>>, colour: Colour)
    requires Assign(parsed).Ok?
    ensures (forall i :: 0 <= i < |parsed| ==> !Names(parsed, i, colour)) ==>
      Amount(Assign(parsed).value, colour) == 0
    ensures forall i :: (0 <= i < |parsed| && Names(parsed, i, colour) &&
        forall j :: i < j < |parsed| ==> !Names(parsed, j, colour)) ==>
      Amount(Assign(parsed).value, colour) == parsed[i].value.0
    decreases |parsed|
  {
    if parsed != [] {
      var n := |parsed| - 1;
      var init := parsed[..n];
      assert forall i :: 0 <= i < n ==> init[i] == parsed[i];
      assert forall i :: 0 <= i < n ==> (Names(init, i, colour) <==> Names(parsed, i, colour));
      LastAmountWins(init, colour);
      var last := parsed[n].value;
      assert Assign(parsed).value == WithAmount(Assign(init).value, last.1, last.0);
      if Names(parsed, n, colour) {
        assert Amount(Assign(parsed).value, colour) == last.0;
      } else {
        assert Amount(Assign(parsed).value, colour) == Amount(Assign(init).value, colour);
        forall i | 0 <= i < n && Names(parsed, i, colour) && forall j :: i < j < |parsed| ==> !Names(parsed, j, colour)
          ensures Amount(Assign(parsed).value, colour) == parsed[i].value.0
        {
          assert Names(init, i, colour);
          assert forall j :: i < j < n ==> !Names(init, j, colour);
        }
      }
    }
  }

  /** `CubeSet.parse` as the loop over the tokens that fills in a fresh
      `CubeSet`. */
  method Parse(s: string) returns (r: Result<CubeSet>)
    ensures r == ParseCubeSet(s)
  {
    var tokens := Split(s, ',');
    ghost var parsed := ParseTokens(tokens);
    var cubes := Empty;
    for i := 0 to |tokens|
      invariant Assign(parsed[..i]) == Ok(cubes)
    {
      var token := ParseToken(tokens[i]);
      assert parsed[i] == token;
      if token.Err? {
        ParseCubeSetFailure(s);
        return Err(token.failure);
      }
      assert parsed[..i + 1][..i] == parsed[..i];
      cubes := WithAmount(cubes, token.value.1, token.value.0);
    }
    assert parsed[..|tokens|] == parsed;
    r := Ok(cubes);
  }

  /** One token as `CubeSet.__str__` writes it. */
  function TokenString(amount: int, colour: Colour): string {
    IntString(amount) + " " + ColourName(colour)
  }

  /** `CubeSet.__str__`: the three tokens joined by ", ". */
  function CubeSetString(cubes: CubeSet): string {
    JoinWith([TokenString(cubes.red, Red), TokenString(cubes.green, Green), TokenString(cubes.blue, Blue)], ", ")
  }

  /** A colour name is a word without separators, ending in a letter. */
  lemma ColourChars(colour: Colour)
    ensures var name := ColourName(colour);
      |name| > 0 && IsLower(name[|name| - 1]) && ' ' !in name && ',' !in name && ';' !in name && ':' !in name
  {
  }

  /** The characters of a token: digits, a sign, a space and lowercase
      letters, with no whitespace at either end. */
  lemma TokenChars(amount: int, colour: Colour)
    ensures var t := TokenString(amount, colour);
      |t| > 0 && !IsSpace(t[0]) && !IsSpace(t[|t| - 1]) && ',' !in t && ';' !in t && ':' !in t
    ensures ' ' !in IntString(amount) && ' ' !in ColourName(colour)
  {
    IntStringChars(amount);
    ColourChars(colour);
    var n := IntString(amount);
    assert ' ' !in n && ',' !in n && ';' !in n && ':' !in n;
    var t := TokenString(amount, colour);
    assert t[0] == IntString(amount)[0];
    assert t[|t| - 1] == ColourName(colour)[|ColourName(colour)| - 1];
  }

  /** Whitespace before a token is what `strip` removes. */
  lemma StripLead(lead: string, t: string)
    requires forall k :: 0 <= k < |lead| ==> IsSpace(lead[k])
    requires |t| > 0 && !IsSpace(t[0]) && !IsSpace(t[|t| - 1])
    ensures Strip(lead + t) == t
  {
    var s := lead + t;
    StripExact(s, |lead|, |s|);
    assert s[|lead|..|s|] == t;
  }

  /** A written token splits into its amount and its colour name. */
  lemma TokenWords(amount: int, colour: Colour)
    ensures Split(TokenString(amount, colour), ' ') == [IntString(amount), ColourName(colour)]
  {
    TokenChars(amount, colour);
    SplitAfter(IntString(amount), ' ', ColourName(colour));
    SplitWithout(ColourName(colour), ' ');
  }

  /** A token written out and preceded by whitespace reads back. */
  lemma TokenRoundTrip(amount: int, colour: Colour, lead: string)
    requires forall k :: 0 <= k < |lead| ==> IsSpace(lead[k])
    ensures ParseToken(lead + TokenString(amount, colour)) == Ok((amount, colour))
  {
    TokenChars(amount, colour);
    StripLead(lead, TokenString(amount, colour));
    TokenWords(amount, colour);
    IntRoundTrip(amount);
  }

  /** Three pieces glued with ", " split back apart at ','. */
  lemma SplitThree(lead: string, a: string, b: string, c: string)
    requires ',' !in lead && ',' !in a && ',' !in b && ',' !in c
    ensures Split(lead + JoinWith([a, b, c], ", "), ',') == [lead + a, " " + b, " " + c]
  {
    assert ", " == [','] + " ";
    var parts := [a, b, c];
    assert forall i :: 0 <= i < 3 ==> ',' !in parts[i];
    SplitJoined(lead, parts, ',', " ");
  }

  /** A written `CubeSet` splits at ',' into its three tokens. */
  lemma CubeSetTokens(cubes: CubeSet, lead: string)
    requires forall k :: 0 <= k < |lead| ==> IsSpace(lead[k])
    ensures var t1, t2, t3 := TokenString(cubes.red, Red), TokenString(cubes.green, Green), TokenString(cubes.blue, Blue);
      Split(lead + CubeSetString(cubes), ',') == [lead + t1, " " + t2, " " + t3]
  {
    TokenChars(cubes.red, Red);
    TokenChars(cubes.green, Green);
    TokenChars(cubes.blue, Blue);
    assert ',' !in lead;
    SplitThree(lead, TokenString(cubes.red, Red), TokenString(cubes.green, Green), TokenString(cubes.blue, Blue));
  }

  /** Three tokens that read as the red, green and blue amounts of `cubes`
      make up `cubes`. */
  lemma AssignThree(s: string, x: string, y: string, z: string, cubes: CubeSet)
    requires Split(s, ',') == [x, y, z]
    requires ParseToken(x) == Ok((cubes.red, Red)) && ParseToken(y) == Ok((cubes.green, Green))
    requires ParseToken(z) == Ok((cubes.blue, Blue))
    ensures ParseCubeSet(s) == Ok(cubes)
  {
    var p := ParseTokens([x, y, z]);
    assert p == [Ok((cubes.red, Red)), Ok((cubes.green, Green)), Ok((cubes.blue, Blue))];
    assert p[..2] == [p[0], p[1]] && [p[0], p[1]][..1] == [p[0]] && [p[0]][..0] == [];
    assert Assign([p[0]]) == Ok(CubeSet(cubes.red, 0, 0));
    assert Assign([p[0], p[1]]) == Ok(CubeSet(cubes.red, cubes.green, 0));
  }

  /** Parsing what `CubeSet.__str__` writes, after any whitespace, gives
      back the same cubes. */
  lemma CubeSetRoundTrip(cubes: CubeSet, lead: string)
    requires forall k :: 0 <= k < |lead| ==> IsSpace(lead[k])
    ensures ParseCubeSet(lead + CubeSetString(cubes)) == Ok(cubes)
  {
    var t1, t2, t3 := TokenString(cubes.red, Red), TokenString(cubes.green, Green), TokenString(cubes.blue, Blue);
    CubeSetTokens(cubes, lead);
    assert forall k :: 0 <= k < |" "| ==> IsSpace(" "[k]);
    TokenRoundTrip(cubes.red, Red, lead);
    TokenRoundTrip(cubes.green, Green, " ");
    TokenRoundTrip(cubes.blue, Blue, " ");
    AssignThree(lead + CubeSetString(cubes), lead + t1, " " + t2, " " + t3, cubes);
  }

  // ================================================================ GameConfig

  /** `[CubeSet.parse(run) for run in segments]`, item by item. */
  function ParsedRuns(segments: seq<string>): (rs: seq<Result<CubeSet>>)
    ensures |rs| == |segments|
  {
    seq(|segments|, i requires 0 <= i < |segments| => ParseCubeSet(segments[i]))
  }

  /** `GameConfig.parse`: the ID is the second space-separated word before
      the first ':' (an `IndexError` when there is none), the runs are the
      ';'-separated segments after it (an `IndexError` when there is no ':'). */
  function ParseGame(bagLoad: CubeSet, line: string): (r: Result<Game>)
    ensures r.Ok? ==> r.value.bagLoad == bagLoad
  {
    var tokens := Split(line, ':');
    var head := Split(tokens[0], ' ');
    if |head| < 2 then Err(IndexError)
    else
      var id :- ParseInt(head[1]);
      if |tokens| < 2 then Err(IndexError)
      else
        var runs :- Collect(ParsedRuns(Split(tokens[1], ';')));
        Ok(Game(bagLoad, id, runs))
  }

  /** `str(run)` for every run. */
  function RunStrings(runs: seq<CubeSet>): (parts: seq<string>)
    ensures |parts| == |runs|
  {
    seq(|runs|, i requires 0 <= i < |runs| => CubeSetString(runs[i]))
  }

  /** `GameConfig.__str__`: the ID, then the runs joined by "; ". */
  function GameString(game: Game): string {
    "Game " + IntString(game.id) + ": " + JoinWith(RunStrings(game.runs), "; ")
  }

  lemma CubeSetChars(cubes: CubeSet)
    ensures ';' !in CubeSetString(cubes) && ':' !in CubeSetString(cubes)
  {
    TokenChars(cubes.red, Red);
    TokenChars(cubes.green, Green);
    TokenChars(cubes.blue, Blue);
    JoinWithFree([TokenString(cubes.red, Red), TokenString(cubes.green, Green), TokenString(cubes.blue, Blue)], ", ", ';');
    JoinWithFree([TokenString(cubes.red, Red), TokenString(cubes.green, Green), TokenString(cubes.blue, Blue)], ", ", ':');
  }

  /** Splitting the written runs at ';' gives each run back, after a space. */
  lemma SplitRuns(runs: seq<CubeSet>)
    requires |runs| > 0
    ensures ':' !in JoinWith(RunStrings(runs), "; ")
    ensures var segments := Split(" " + JoinWith(RunStrings(runs), "; "), ';');
      |segments| == |runs| && forall i :: 0 <= i < |runs| ==> segments[i] == " " + CubeSetString(runs[i])
  {
    var parts := RunStrings(runs);
    forall i | 0 <= i < |parts| ensures ';' !in parts[i] && ':' !in parts[i] {
      CubeSetChars(runs[i]);
    }
    assert "; " == [';'] + " ";
    SplitJoined(" ", parts, ';', " ");
    JoinWithFree(parts, "; ", ':');
  }

  /** "Game <id>: <runs>" splits at ':' into its head and its runs, and its
      head at ' ' into "Game" and the ID. */
  lemma HeadAndRuns(id: string, runs: string)
    requires ':' !in id && ' ' !in id && ':' !in runs
    ensures Split("Game " + id + ": " + runs, ':') == ["Game " + id, " " + runs]
    ensures Split("Game " + id, ' ') == ["Game", id]
  {
    var head := "Game " + id;
    assert ':' !in head;
    assert "Game " + id + ": " + runs == head + [':'] + (" " + runs);
    SplitAfter(head, ':', " " + runs);
    SplitWithout(" " + runs, ':');
    assert head == "Game" + [' '] + id;
    SplitAfter("Game", ' ', id);
    SplitWithout(id, ' ');
  }

  /** Parsing what `GameConfig.__str__` writes gives back the game, as long
      as it has a run (an empty run list is written as a blank segment,
      which does not parse). */
  lemma GameRoundTrip(game: Game)
    requires |game.runs| > 0
    ensures ParseGame(game.bagLoad, GameString(game)) == Ok(game)
  {
    IntStringChars(game.id);
    SplitRuns(game.runs);
    var id := IntString(game.id);
    assert ':' !in id && ' ' !in id;
    HeadAndRuns(id, JoinWith(RunStrings(game.runs), "; "));
    IntRoundTrip(game.id);
    var segments := Split(" " + JoinWith(RunStrings(game.runs), "; "), ';');
    var rs := ParsedRuns(segments);
    forall i | 0 <= i < |rs| ensures rs[i] == Ok(game.runs[i]) {
      CubeSetRoundTrip(game.runs[i], " ");
    }
    assert Collect(rs).value == game.runs;
  }

  // ================================================================ is_valid

  /** A run fits a bag when it needs no more cubes of any colour. */
  predicate Fits(run: CubeSet, bagLoad: CubeSet) {
    run.red <= bagLoad.red && run.green <= bagLoad.green && run.blue <= bagLoad.blue
  }

  /** A game is possible when every run fits its bag. */
  predicate Valid(game: Game) {
    forall i :: 0 <= i < |game.runs| ==> Fits(game.runs[i], game.bagLoad)
  }

  /** `is_valid`: the loop that stops at the first run that does not fit. */
  method IsValid(game: Game) returns (valid: bool)
    ensures valid <==> Valid(game)
  {
    for i := 0 to |game.runs|
      invariant forall j :: 0 <= j < i ==> Fits(game.runs[j], game.bagLoad)
    {
      var run := game.runs[i];
      if run.red > game.bagLoad.red || run.green > game.bagLoad.green || run.blue > game.bagLoad.blue {
        return false;
      }
    }
    return true;
  }

  /** A larger bag keeps every possible game possible. */
  lemma ValidMonotone(game: Game, larger: CubeSet)
    requires Valid(game) && Fits(game.bagLoad, larger)
    ensures Valid(game.(bagLoad := larger))
  {
    forall i | 0 <= i < |game.runs| ensures Fits(game.runs[i], larger) {
      assert Fits(game.runs[i], game.bagLoad);
    }
  }

  // ================================================================ main

  /** What one line adds to the total: the game's ID when the bag makes it
      possible, else nothing; a line that does not parse fails. */
  function Score(bagLoad: CubeSet, line: string): Result<int> {
    var game :- ParseGame(bagLoad, Strip(line));
    Ok(if Valid(game) then game.id else 0)
  }

  /** `Score` against one bag, as a function of the line. */
  function ScoreWith(bagLoad: CubeSet): string -> Result<int> {
    line => Score(bagLoad, line)
  }

  /** The answer of `main`: the IDs of the possible games added up, or the
      failure of the first line that does not parse. */
  function PossibleIdSum(bagLoad: CubeSet, lines: seq<string>): Result<int> {
    SumResults(MapLines(ScoreWith(bagLoad), lines))
  }

  /** The body of the loop of `main`: parse the stripped line as a game
      against the bag, and add its ID when it is valid. */
  method LineScore(bagLoad: CubeSet, line: string) returns (r: Result<int>)
    ensures r == Score(bagLoad, line)
  {
    var game := ParseGame(bagLoad, Strip(line));
    if game.Err? {
      return Err(game.failure);
    }
    var valid := IsValid(game.value);
    r := Ok(if valid then game.value.id else 0);
  }

  /** One iteration of the loop of `main`: the score of line `i` added to
      the total of the lines before it, or the failure that ends the loop. */
  method AddGameScore(bagLoad: CubeSet, lines: seq<string>, i: nat, sum: int) returns (r: Result<int>)
    requires i < |lines| && SumResults(MapLines(ScoreWith(bagLoad), lines[..i])) == Ok(sum)
    ensures r.Ok? ==> SumResults(MapLines(ScoreWith(bagLoad), lines[..i + 1])) == r
    ensures r.Err? ==> PossibleIdSum(bagLoad, lines) == r
  {
    var score := LineScore(bagLoad, lines[i]);
    SumLinesNext(ScoreWith(bagLoad), lines, i, sum, score);
    if score.Err? {
      return score;
    }
    r := Ok(sum + score.value);
  }

  /** The loop of `main` over the lines, against the bag of 12 red, 13
      green and 14 blue cubes. */
  method SumPossibleGameIds(lines: seq<string>) returns (r: Result<int>)
    ensures r == PossibleIdSum(Bag, lines)
  {
    var sum := 0;
    for i := 0 to |lines|
      invariant SumResults(MapLines(ScoreWith(Bag), lines[..i])) == Ok(sum)
    {
      var next := AddGameScore(Bag, lines, i, sum);
      if next.Err? {
        return next;
      }
      sum := next.value;
    }
    assert lines[..|lines|] == lines;
    r := Ok(sum);
  }

  /** With a larger bag and games of non-negative IDs, the same lines parse
      and the sum of possible IDs can only grow. */
  lemma LargerBagLargerSum(lines: seq<string>, bagLoad: CubeSet, larger: CubeSet)
    requires Fits(bagLoad, larger)
    requires forall i :: 0 <= i < |lines| && ParseGame(bagLoad, Strip(lines[i])).Ok? ==>
      ParseGame(bagLoad, Strip(lines[i])).value.id >= 0
    ensures PossibleIdSum(bagLoad, lines).Ok? <==> PossibleIdSum(larger, lines).Ok?
    ensures PossibleIdSum(bagLoad, lines).Ok? ==> PossibleIdSum(bagLoad, lines).value <= PossibleIdSum(larger, lines).value
  {
    var rs, qs := MapLines(ScoreWith(bagLoad), lines), MapLines(ScoreWith(larger), lines);
    forall i | 0 <= i < |lines|
      ensures rs[i].Ok? <==> qs[i].Ok?
      ensures rs[i].Ok? && qs[i].Ok? ==> rs[i].value <= qs[i].value
    {
      var game := ParseGame(bagLoad, Strip(lines[i]));
      ParseGameBag(bagLoad, larger, Strip(lines[i]));
      if game.Ok? && Valid(game.value) {
        ValidMonotone(game.value, larger);
      }
    }
    SumResultsMonotone(rs, qs);
  }

  /** The bag plays no part in parsing. */
  lemma ParseGameBag(bagLoad: CubeSet, other: CubeSet, line: string)
    ensures ParseGame(other, line) == (
      match ParseGame(bagLoad, line)
      case Ok(game) => Ok(game.(bagLoad := other))
      case Err(failure) => Err(failure))
  {
  }
}
