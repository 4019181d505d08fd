/** Boat races (06/main.py): holding the button of a toy boat for `hold`
    milliseconds of a race of `time` milliseconds moves it `hold` millimetres
    per millisecond for the rest of the race; the answer is the product, over
    the races, of the number of ways to beat the record distance. */
module BoatRaces {
  import opened PyText

  /** A `Race`: its duration and the record distance to beat. */
  datatype Race = Race(time: int, recordDistance: int)

  /** `get_distance_traveled`: the special case for holding for no time or
      for the whole race agrees with the product. */
  function Distance(race: Race, hold: int): (d: int)
    ensures d == hold * (race.time - hold)
  {
    if hold == 0 || hold == race.time then 0
    else
      var speed := hold;
      var timeToMove := race.time - hold;
      timeToMove * speed
  }

  /** Holding for `hold` or for the rest of the race goes the same distance. */
  lemma DistanceSymmetric(race: Race, hold: int)
    ensures Distance(race, hold) == Distance(race, race.time - hold)
  {
    assert hold * (race.time - hold) == (race.time - hold) * hold;
  }

  predicate Wins(race: Race, hold: int) {
    Distance(race, hold) > race.recordDistance
  }

  /** The winning holds among `0 .. n - 1`, in increasing order: what the
      loop of `get_winning_times` has collected after `n` steps. */
  function WinsBelow(race: Race, n: int): (times: seq<int>)
    decreases n
  {
    if n <= 0 then []
    else WinsBelow(race, n - 1) + (if Wins(race, n - 1) then [n - 1] else [])
  }

  predicate StrictlyIncreasing(s: seq<int>) {
    forall i, j :: 0 <= i < j < |s| ==> s[i] < s[j]
  }

  /** The holds collected below `n` are exactly the winning ones in
      `0 .. n - 1`, strictly increasing, so there are at most `n` of them. */
  lemma {:induction false} WinsBelowSpec(race: Race, n: int)
    ensures forall t :: t in WinsBelow(race, n) <==> 0 <= t < n && Wins(race, t)
    ensures StrictlyIncreasing(WinsBelow(race, n))
    ensures |WinsBelow(race, n)| <= (if n < 0 then 0 else n)
    decreases n
  {
    if n > 0 {
      WinsBelowSpec(race, n - 1);
      var before := WinsBelow(race, n - 1);
      assert forall i :: 0 <= i < |before| ==> before[i] in before;
    }
  }

  /** `get_winning_times`: the loop over `range(time)` that appends every
      hold beating the record. */
  method WinningTimes(race: Race) returns (times: seq<int>)
    ensures times == WinsBelow(race, race.time)
  {
    times := [];
    var hold := 0;
    while hold < race.time
      invariant 0 <= hold <= (if race.time < 0 then 0 else race.time)
      invariant times == WinsBelow(race, hold)
    {
      var distance := Distance(race, hold);
      if distance > race.recordDistance {
        times := times + [hold];
      }
      hold := hold + 1;
    }
  }

  /** With a non-negative record, holding for no time never wins, and
      neither does holding for the whole race. */
  lemma EndsNeverWin(race: Race)
    requires race.recordDistance >= 0
    ensures !Wins(race, 0) && !Wins(race, race.time)
  {
  }

  /** How the distance changes from one hold to another. */
  lemma DistanceChange(race: Race, x: int, y: int)
    ensures Distance(race, y) - Distance(race, x) == (y - x) * (race.time - x - y)
  {
    var T := race.time;
    assert y * (T - y) == y * T - y * y;
    assert x * (T - x) == x * T - x * x;
    assert (y - x) * (T - x - y) == y * T - y * x - y * y - x * T + x * x + x * y;
  }

  /** The winning holds form one block: a hold between two winning holds
      wins too, because the distance rises and then falls. */
  lemma WinsContiguous(race: Race, a: int, b: int, c: int)
    requires a < b < c && Wins(race, a) && Wins(race, c)
    ensures Wins(race, b)
  {
    var T := race.time;
    if a + b <= T {
      DistanceChange(race, a, b);
      ProductSign(b - a, T - a - b);
    } else {
      DistanceChange(race, c, b);
      ProductSign(c - b, b + c - T);
      assert (b - c) * (T - c - b) == (c - b) * (b + c - T);
    }
  }

  lemma ProductSign(x: int, y: int)
    requires x > 0 && y >= 0
    ensures x * y >= 0 && (y > 0 ==> x * y > 0)
  {
  }

  // ================================================================ main

  /** `zip(times, record_distances)`: the races paired by position, the
      longer list cut to the length of the shorter. */
  function Races(times: seq<int>, records: seq<int>): (races: seq<Race>)
    ensures |races| == if |times| < |records| then |times| else |records|
    ensures forall i :: 0 <= i < |races| ==> races[i] == Race(times[i], records[i])
  {
    var n := if |times| < |records| then |times| else |records|;
    seq(n, i requires 0 <= i < n => Race(times[i], records[i]))
  }

  /** How many ways each race can be won. */
  function Ways(race: Race): nat {
    |WinsBelow(race, race.time)|
  }

  /** The product of the ways over the races; 1 for no race. */
  function WaysProduct(races: seq<Race>): int
    decreases |races|
  {
    if races == [] then 1 else WaysProduct(races[..|races| - 1]) * Ways(races[|races| - 1])
  }

  /** The product is 0 exactly when some race cannot be won, and positive
      otherwise. */
  lemma {:induction false} WaysProductZero(races: seq<Race>)
    ensures WaysProduct(races) >= 0
    ensures WaysProduct(races) == 0 <==> exists i :: 0 <= i < |races| && Ways(races[i]) == 0
    decreases |races|
  {
    if races != [] {
      var init := races[..|races| - 1];
      WaysProductZero(init);
      assert forall i :: 0 <= i < |init| ==> init[i] == races[i];
      var p, w := WaysProduct(init), Ways(races[|races| - 1]);
      assert p * w == 0 <==> p == 0 || w == 0;
      assert p * w >= 0;
    }
  }

  /** The answer of `main`: the numbers on the first two stripped lines are
      the times and the records (an `IndexError` with fewer than two lines),
      and the answer is the product of the ways over the paired races. */
  function Answer(lines: seq<string>): Result<int> {
    if |lines| < 2 then Err(IndexError)
    else Ok(WaysProduct(Races(Numbers(Strip(lines[0])), Numbers(Strip(lines[1])))))
  }

  /** The loop of `main`, multiplying the number of winning times of every
      race into the running product. */
  method ProductOfWays(lines: seq<string>) returns (r: Result<int>)
    ensures r == Answer(lines)
  {
    if |lines| < 2 {
      return Err(IndexError);
    }
    var times := Numbers(Strip(lines[0]));
    var records := Numbers(Strip(lines[1]));
    var races := Races(times, records);
    var product := 1;
    for i := 0 to |races|
      invariant product == WaysProduct(races[..i])
    {
      var winning := WinningTimes(Race(times[i], records[i]));
      assert races[..i + 1][..i] == races[..i];
      product := product * |winning|;
    }
    assert races[..|races|] == races;
    r := Ok(product);
  }
}
