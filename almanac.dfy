/** The seed-to-location solver (05/main.py): seven maps, each a list of
    half-open range shifts, applied one after another to every seed of the
    seed ranges, and the lowest location reached. */
module Almanac {
  import opened PyText

  // ================================================================ map entries

  /** `NumberMapEntry`: the source range `[src, src + len)` is moved onto
      `[dest, dest + len)`. */
  datatype MapEntry = MapEntry(dest: nat, src: nat, len: nat)

  function Abs(x: int): nat {
    if x < 0 then -x else x
  }

  /** `NumberMapEntry.map_number`: None outside the source range; inside
      it, the destination start plus the distance from the source start. */
  function EntryMap(e: MapEntry, num: int): (r: Option<int>)
    ensures r.Some? <==> e.src <= num < e.src + e.len
    ensures r.Some? ==> e.dest <= r.value < e.dest + e.len && r.value - e.dest == num - e.src
  {
    if e.src <= num < e.src + e.len then Some(e.dest + Abs(num - e.src)) else None
  }

  /** The entry with source and destination swapped undoes the shift. */
  lemma EntryMapInverse(e: MapEntry, num: int)
    requires EntryMap(e, num).Some?
    ensures EntryMap(MapEntry(e.src, e.dest, e.len), EntryMap(e, num).value) == Some(num)
  {
  }

  /** `NumberMapEntry.parse`: the line must hold exactly three numbers,
      read as destination, source and length. */
  function ParseEntry(line: string): (r: Result<MapEntry>)
    ensures r.Ok? <==> |Numbers(line)| == 3
    ensures r.Err? ==> r.failure == AssertionError
    ensures r.Ok? ==> Numbers(line) == [r.value.dest, r.value.src, r.value.len]
  {
    var numbers := Numbers(line);
    if |numbers| != 3 then Err(AssertionError)
    else Ok(MapEntry(numbers[0], numbers[1], numbers[2]))
  }

  /** `s.replace(' ', '')`. */
  function WithoutSpaces(s: string): (r: string)
    ensures forall i :: 0 <= i < |r| ==> r[i] != ' '
    decreases |s|
  {
    if s == [] then [] else (if s[0] == ' ' then [] else [s[0]]) + WithoutSpaces(s[1..])
  }

  /** `str.isnumeric`, restricted to ASCII digits: false on the empty string. */
  predicate IsNumeric(s: string) {
    |s| > 0 && AllDigits(s)
  }

  /** Only digits and spaces. */
  predicate DigitsAndSpaces(s: string) {
    forall i :: 0 <= i < |s| ==> s[i] == ' ' || IsDigit(s[i])
  }

  predicate HasDigit(s: string) {
    exists i :: 0 <= i < |s| && IsDigit(s[i])
  }

  lemma SplitFirst(s: string)
    requires s != []
    ensures DigitsAndSpaces(s) <==> (s[0] == ' ' || IsDigit(s[0])) && DigitsAndSpaces(s[1..])
    ensures HasDigit(s) <==> IsDigit(s[0]) || HasDigit(s[1..])
  {
    if HasDigit(s) && !IsDigit(s[0]) {
      var i :| 0 <= i < |s| && IsDigit(s[i]);
      assert IsDigit(s[1..][i - 1]);
    }
    if HasDigit(s[1..]) {
      var i :| 0 <= i < |s| - 1 && IsDigit(s[1..][i]);
      assert IsDigit(s[i + 1]);
    }
    if (s[0] == ' ' || IsDigit(s[0])) && DigitsAndSpaces(s[1..]) {
      forall i | 0 < i < |s| ensures s[i] == ' ' || IsDigit(s[i]) {
        assert s[i] == s[1..][i - 1];
      }
    }
  }

  /** The check `line.replace(' ', '').isnumeric()` accepts exactly the lines
      made of digits and spaces that hold at least one digit. */
  lemma NumericLine(line: string)
    ensures IsNumeric(WithoutSpaces(line)) <==> DigitsAndSpaces(line) && HasDigit(line)
  {
    WithoutSpacesDigits(line);
    if DigitsAndSpaces(line) {
      WithoutSpacesKeepsDigits(line);
    }
  }

  /** With the spaces gone only digits remain exactly when the line holds
      nothing but digits and spaces. */
  lemma {:induction false} WithoutSpacesDigits(s: string)
    ensures AllDigits(WithoutSpaces(s)) <==> DigitsAndSpaces(s)
    decreases |s|
  {
    if s != [] {
      SplitFirst(s);
      WithoutSpacesDigits(s[1..]);
      var w := WithoutSpaces(s);
      var tail := WithoutSpaces(s[1..]);
      if s[0] != ' ' {
        assert w == [s[0]] + tail;
        if AllDigits(w) {
          assert IsDigit(w[0]);
          forall i | 0 <= i < |tail| ensures IsDigit(tail[i]) {
            assert tail[i] == w[i + 1];
          }
        } else if IsDigit(s[0]) && AllDigits(tail) {
          forall i | 0 <= i < |w| ensures IsDigit(w[i]) {
            if i > 0 { assert w[i] == tail[i - 1]; }
          }
        }
      } else {
        assert w == tail;
      }
    }
  }

  /** Of a line of digits and spaces, something is left once the spaces are
      gone exactly when it holds a digit. */
  lemma {:induction false} WithoutSpacesKeepsDigits(s: string)
    requires DigitsAndSpaces(s)
    ensures |WithoutSpaces(s)| > 0 <==> HasDigit(s)
    decreases |s|
  {
    if s != [] {
      SplitFirst(s);
      WithoutSpacesKeepsDigits(s[1..]);
    }
  }

  /** One entry line of a map: `NumberMap.parse` checks it is numeric once
      spaces are removed, then `NumberMapEntry.parse` reads it. */
  function ParseMapLine(line: string): (r: Result<MapEntry>)
    ensures r.Ok? <==> IsNumeric(WithoutSpaces(line)) && |Numbers(line)| == 3
    ensures r.Err? ==> r.failure == AssertionError
    ensures r.Ok? ==> Numbers(line) == [r.value.dest, r.value.src, r.value.len]
  {
    if !IsNumeric(WithoutSpaces(line)) then Err(AssertionError) else ParseEntry(line)
  }

  /** `NumberMapEntry.__str__`: the three numbers separated by spaces. */
  function EntryString(e: MapEntry): string {
    SpacedNumbers([e.dest, e.src, e.len])
  }

  /** Every entry survives being written out and read back. */
  lemma EntryRoundTrip(e: MapEntry)
    ensures ParseMapLine(EntryString(e)) == Ok(e)
  {
    var line := EntryString(e);
    NumbersOfSpaced([e.dest, e.src, e.len]);
    SpacedCharacters([e.dest, e.src, e.len]);
    NumericLine(line);
  }

  // ================================================================ maps

  /** `NumberMap`: its entries, in input order.  The list is filled once by
      `NumberMap.parse` and never changed afterwards. */
  datatype NumberMap = NumberMap(entries: seq<MapEntry>)

  /** An entry whose result survives `entry.map_number(num) or val`: it
      covers `num`, and with a value other than 0 (which `or` treats as
      false, like None). */
  predicate Hits(e: MapEntry, num: int) {
    EntryMap(e, num).Some? && EntryMap(e, num).value != 0
  }

  /** The value of `val` after the loop of `NumberMap.map_number` has seen
      `entries`. */
  function LastHit(entries: seq<MapEntry>, num: int): (r: Option<int>)
    ensures r.Some? ==> r.value != 0
    decreases |entries|
  {
    if entries == [] then None
    else
      var hit := EntryMap(entries[|entries| - 1], num);
      if hit.Some? && hit.value != 0 then hit else LastHit(entries[..|entries| - 1], num)
  }

  /** The last entry that hits decides the value. */
  lemma {:induction false} LastHitAt(entries: seq<MapEntry>, num: int, k: nat)
    requires k < |entries| && Hits(entries[k], num)
    requires forall j :: k < j < |entries| ==> !Hits(entries[j], num)
    ensures LastHit(entries, num) == EntryMap(entries[k], num)
    decreases |entries|
  {
    if k < |entries| - 1 {
      LastHitAt(entries[..|entries| - 1], num, k);
    }
  }

  /** No value survives exactly when no entry hits: every entry misses
      `num` or sends it to 0. */
  lemma {:induction false} LastHitNone(entries: seq<MapEntry>, num: int)
    ensures LastHit(entries, num) == None <==> forall k :: 0 <= k < |entries| ==> !Hits(entries[k], num)
    decreases |entries|
  {
    if entries != [] {
      var init := entries[..|entries| - 1];
      LastHitNone(init, num);
      assert forall k :: 0 <= k < |init| ==> init[k] == entries[k];
    }
  }

  /** `NumberMap.map_number`: `val or num`, so `num` itself when no entry
      hits. */
  function Mapped(m: NumberMap, num: int): int {
    match LastHit(m.entries, num)
    case Some(v) => v
    case None => num
  }

  /** An entry that sends `num` to 0 is ignored: the value stays what the
      earlier entries gave, and `num` when none of them hit. */
  lemma ZeroIsNoMatch(m: NumberMap, e: MapEntry, num: int)
    requires EntryMap(e, num) == Some(0)
    ensures Mapped(NumberMap(m.entries + [e]), num) == Mapped(m, num)
  {
    assert (m.entries + [e])[..|m.entries|] == m.entries;
  }

  /** For instance a single entry `0 5 1` leaves 5 at 5 instead of moving
      it to 0. */
  lemma ZeroIsNoMatchExample()
    ensures Mapped(NumberMap([MapEntry(0, 5, 1)]), 5) == 5
  {
    ZeroIsNoMatch(NumberMap([]), MapEntry(0, 5, 1), 5);
    assert [] + [MapEntry(0, 5, 1)] == [MapEntry(0, 5, 1)];
  }

  /** The loop of `NumberMap.map_number`. */
  method MapNumber(m: NumberMap, num: int) returns (r: int)
    ensures r == Mapped(m, num)
  {
    var val: Option<int> := None;
    for i := 0 to |m.entries|
      invariant val == LastHit(m.entries[..i], num)
    {
      assert m.entries[..i + 1][..i] == m.entries[..i];
      var hit := EntryMap(m.entries[i], num);
      if hit.Some? && hit.value != 0 {
        val := hit;
      }
    }
    assert m.entries[..|m.entries|] == m.entries;
    r := if val.Some? && val.value != 0 then val.value else num;
  }

  /** The lines `NumberMap.parse` reads: all but the header, `lines[1:]`. */
  function EntryLines(lines: seq<string>): seq<string> {
    if |lines| == 0 then [] else lines[1..]
  }

  /** `NumberMap.parse`: every line after the header becomes an entry, in
      order; the first line that is not numeric or does not hold three
      numbers fails the parse. */
  function NumberMapOf(lines: seq<string>): (r: Result<NumberMap>)
    ensures r.Err? ==> r.failure == AssertionError
  {
    var body := EntryLines(lines);
    if forall i :: 0 <= i < |body| ==> ParseMapLine(body[i]).Ok? then
      Ok(NumberMap(seq(|body|, i requires 0 <= i < |body| => ParseMapLine(body[i]).value)))
    else Err(AssertionError)
  }

  method ParseNumberMap(lines: seq<string>) returns (r: Result<NumberMap>)
    ensures r == NumberMapOf(lines)
  {
    var body := EntryLines(lines);
    var entries :- ParseLines(ParseMapLine, body);
    assert NumberMap(entries) == NumberMapOf(lines).value;
    r := Ok(NumberMap(entries));
  }

  /** A map written out under any header reads back as the same map. */
  lemma NumberMapRoundTrip(header: string, m: NumberMap)
    ensures NumberMapOf([header] + seq(|m.entries|, i requires 0 <= i < |m.entries| => EntryString(m.entries[i])))
      == Ok(m)
  {
    var lines := [header] + seq(|m.entries|, i requires 0 <= i < |m.entries| => EntryString(m.entries[i]));
    var body := EntryLines(lines);
    assert |body| == |m.entries|;
    forall i | 0 <= i < |body| ensures ParseMapLine(body[i]) == Ok(m.entries[i]) {
      assert body[i] == EntryString(m.entries[i]);
      EntryRoundTrip(m.entries[i]);
    }
    var entries := seq(|body|, i requires 0 <= i < |body| => ParseMapLine(body[i]).value);
    assert entries == m.entries;
  }

  // ================================================================ grouping

  /** The lines split at empty lines: one segment more than there are empty
      lines, the empty lines themselves dropped. */
  function Segments(lines: seq<string>): (segs: seq<seq<string>>)
    ensures |segs| >= 1
    decreases |lines|
  {
    if lines == [] then [[]]
    else
      var segs := Segments(lines[..|lines| - 1]);
      var line := lines[|lines| - 1];
      if |line| == 0 then segs + [[]]
      else segs[..|segs| - 1] + [segs[|segs| - 1] + [line]]
  }

  /** `grouped_lines` after the grouping loop of `main`.  `current_idx`
      starts at -1 and trails the list by one, so the lines before the
      first empty line and those between the first and the second go to
      group 0, segment `j` (for `j >= 2`) goes to group `j - 1`, and the
      group opened by the last empty line stays empty. */
  function Grouped(lines: seq<string>): seq<seq<string>> {
    Merge(Segments(lines))
  }

  /** Segments 0 and 1 merged, and an empty list after the last one. */
  function Merge<T>(segs: seq<seq<T>>): (groups: seq<seq<T>>)
    requires |segs| >= 1
    ensures |groups| == |segs|
  {
    if |segs| == 1 then segs else [segs[0] + segs[1]] + segs[2..] + [[]]
  }

  /** The concatenation of a list of lists. */
  function Flatten<T>(groups: seq<seq<T>>): seq<T>
    decreases |groups|
  {
    if groups == [] then [] else groups[0] + Flatten(groups[1..])
  }

  lemma {:induction false} FlattenAppend<T>(a: seq<seq<T>>, b: seq<seq<T>>)
    ensures Flatten(a + b) == Flatten(a) + Flatten(b)
    decreases |a|
  {
    if a == [] {
      assert a + b == b;
    } else {
      FlattenAppend(a[1..], b);
      assert (a + b)[1..] == a[1..] + b;
    }
  }

  lemma FlattenOne<T>(s: seq<T>)
    ensures Flatten([s]) == s
  {
    assert [s][1..] == [];
  }

  /** The non-empty lines, in order. */
  function NonEmpty(lines: seq<string>): seq<string>
    decreases |lines|
  {
    if lines == [] then []
    else
      var line := lines[|lines| - 1];
      NonEmpty(lines[..|lines| - 1]) + (if |line| == 0 then [] else [line])
  }

  lemma {:induction false} SegmentsKeepLines(lines: seq<string>)
    ensures Flatten(Segments(lines)) == NonEmpty(lines)
    decreases |lines|
  {
    if lines != [] {
      var init := lines[..|lines| - 1];
      var line := lines[|lines| - 1];
      var segs := Segments(init);
      SegmentsKeepLines(init);
      var front, last := segs[..|segs| - 1], segs[|segs| - 1];
      if |line| == 0 {
        FlattenAppend(segs, [[]]);
        FlattenOne<string>([]);
      } else {
        assert segs == front + [last];
        FlattenAppend(front, [last]);
        FlattenAppend(front, [last + [line]]);
        FlattenOne(last);
        FlattenOne(last + [line]);
      }
    }
  }

  lemma FlattenMerged<T>(segs: seq<seq<T>>)
    requires |segs| > 1
    ensures Flatten(Merge(segs)) == (segs[0] + segs[1]) + Flatten(segs[2..])
  {
    var rest := segs[2..];
    var merged := Merge(segs);
    assert merged[1..] == rest + [[]];
    FlattenAppend(rest, [[]]);
    assert Flatten<T>([[]]) == [];
  }

  lemma FlattenFirstTwo<T>(segs: seq<seq<T>>)
    requires |segs| > 1
    ensures Flatten(segs) == segs[0] + (segs[1] + Flatten(segs[2..]))
  {
    assert segs[1..][1..] == segs[2..];
  }

  /** Merging keeps every element in order. */
  lemma MergeKeeps<T>(segs: seq<seq<T>>)
    requires |segs| >= 1
    ensures Flatten(Merge(segs)) == Flatten(segs)
  {
    if |segs| > 1 {
      FlattenMerged(segs);
      FlattenFirstTwo(segs);
    }
  }

  /** The grouping loses no line and invents none: read in order, the groups
      hold exactly the non-empty lines. */
  lemma GroupedKeepsLines(lines: seq<string>)
    ensures Flatten(Grouped(lines)) == NonEmpty(lines)
  {
    SegmentsKeepLines(lines);
    MergeKeeps(Segments(lines));
  }

  /** A new empty segment adds an empty group. */
  lemma MergeOpen<T>(segs: seq<seq<T>>)
    requires |segs| >= 1
    ensures Merge(segs + [[]]) == Merge(segs) + [[]]
  {
    var longer := segs + [[]];
    assert longer[0] == segs[0];
    if |segs| > 1 {
      assert longer[1] == segs[1];
      assert longer[2..] == segs[2..] + [[]];
    } else {
      assert longer == [segs[0], []];
      assert segs[0] + [] == segs[0];
    }
  }

  /** Growing the last segment grows group 0 while there are at most two
      segments, and the group before the last one after that. */
  lemma MergeGrow<T>(segs: seq<seq<T>>, x: T)
    requires |segs| >= 1
    ensures var k := |segs| - 1;
      var idx := if k == 0 then 0 else k - 1;
      Merge(segs[..k] + [segs[k] + [x]]) == Merge(segs)[idx := Merge(segs)[idx] + [x]]
  {
    var k := |segs| - 1;
    var grown := segs[..k] + [segs[k] + [x]];
    if k == 1 {
      assert grown == [segs[0], segs[1] + [x]];
      assert segs[0] + (segs[1] + [x]) == (segs[0] + segs[1]) + [x];
    } else if k > 1 {
      assert grown[2..] == segs[2..k] + [segs[k] + [x]];
      assert segs[2..] == segs[2..k] + [segs[k]];
    }
  }

  /** One step of the grouping loop. */
  lemma GroupedStep(lines: seq<string>, line: string)
    ensures |Grouped(lines)| == |Segments(lines)|
    ensures |line| == 0 ==> Grouped(lines + [line]) == Grouped(lines) + [[]]
    ensures |line| > 0 ==>
      var k := |Segments(lines)| - 1;
      var idx := if k == 0 then 0 else k - 1;
      Grouped(lines + [line]) == Grouped(lines)[idx := Grouped(lines)[idx] + [line]]
  {
    var all := lines + [line];
    assert all[..|all| - 1] == lines;
    var segs := Segments(lines);
    if |line| == 0 {
      assert Segments(all) == segs + [[]];
      MergeOpen(segs);
    } else {
      assert Segments(all) == segs[..|segs| - 1] + [segs[|segs| - 1] + [line]];
      MergeGrow(segs, line);
    }
  }

  /** The grouping loop of `main`, with Python's `grouped_lines[-1]` for the
      initial `current_idx` of -1. */
  method GroupLines(lines: seq<string>) returns (groupedLines: seq<seq<string>>)
    ensures groupedLines == Grouped(lines)
  {
    groupedLines := [[]];
    var currentIdx := -1;
    for i := 0 to |lines|
      invariant groupedLines == Grouped(lines[..i])
      invariant currentIdx == |Segments(lines[..i])| - 2
    {
      var line := lines[i];
      GroupedStep(lines[..i], line);
      assert lines[..i + 1] == lines[..i] + [line];
      if |line| == 0 {
        currentIdx := currentIdx + 1;
        groupedLines := groupedLines + [[]];
      } else {
        var idx := if currentIdx < 0 then |groupedLines| + currentIdx else currentIdx;
        groupedLines := groupedLines[idx := groupedLines[idx] + [line]];
      }
    }
    assert lines[..|lines|] == lines;
  }

  /** The maps `main` parses: one per non-empty group, in order; the first
      group that fails to parse fails the run. */
  function MapsOf(groups: seq<seq<string>>): (r: Result<seq<NumberMap>>)
    ensures r.Err? ==> r.failure == AssertionError
    decreases |groups|
  {
    if groups == [] then Ok([])
    else
      var maps :- MapsOf(groups[..|groups| - 1]);
      var group := groups[|groups| - 1];
      if |group| == 0 then Ok(maps)
      else
        var m :- NumberMapOf(group);
        Ok(maps + [m])
  }

  /** Once a prefix of the groups fails, so do all the groups. */
  lemma {:induction false} MapsOfStops(groups: seq<seq<string>>, n: nat)
    requires n <= |groups| && MapsOf(groups[..n]).Err?
    ensures MapsOf(groups).Err?
    decreases |groups| - n
  {
    if n < |groups| {
      var longer := groups[..n + 1];
      assert longer[..n] == groups[..n];
      MapsOfStops(groups, n + 1);
    } else {
      assert groups[..n] == groups;
    }
  }

  /** The loop of `main` that parses the non-empty groups. */
  method ParseMaps(groups: seq<seq<string>>) returns (r: Result<seq<NumberMap>>)
    ensures r == MapsOf(groups)
  {
    var maps: seq<NumberMap> := [];
    for i := 0 to |groups|
      invariant MapsOf(groups[..i]) == Ok(maps)
    {
      assert groups[..i + 1][..i] == groups[..i];
      var group := groups[i];
      if |group| == 0 {
        continue;
      }
      var m := ParseNumberMap(group);
      if m.Err? {
        MapsOfStops(groups, i + 1);
        return Err(AssertionError);
      }
      maps := maps + [m.value];
    }
    assert groups[..|groups|] == groups;
    r := Ok(maps);
  }

  // ================================================================ seeds

  /** Python's `range(start, stop)`: the integers `start <= x < stop`. */
  datatype SeedRange = SeedRange(start: int, stop: int)

  /** `parse_seeds`: the numbers of the line taken in pairs (start, length);
      a trailing unpaired number is dropped by `zip`. */
  function SeedRanges(line: string): (ranges: seq<SeedRange>)
    ensures |ranges| == |Numbers(line)| / 2
  {
    RangesOf(Numbers(line))
  }

  function RangesOf(seeds: seq<nat>): (ranges: seq<SeedRange>)
    ensures |ranges| == |seeds| / 2
  {
    seq(|seeds| / 2, i requires 0 <= i < |seeds| / 2 => SeedRange(seeds[2 * i], seeds[2 * i] + seeds[2 * i + 1]))
  }

  /** The loop of `parse_seeds`. */
  method ParseSeeds(line: string) returns (seedRanges: seq<SeedRange>)
    ensures seedRanges == SeedRanges(line)
  {
    var seeds := Numbers(line);
    seedRanges := [];
    for i := 0 to |seeds| / 2
      invariant seedRanges == SeedRanges(line)[..i]
    {
      var start, length := seeds[2 * i], seeds[2 * i + 1];
      seedRanges := seedRanges + [SeedRange(start, start + length)];
    }
  }

  /** Each range starts at the first number of its pair and holds as many
      seeds as the second says. */
  lemma SeedRangePairs(line: string, i: nat)
    requires i < |SeedRanges(line)|
    ensures SeedRanges(line)[i].start == Numbers(line)[2 * i]
    ensures SeedRanges(line)[i].stop - SeedRanges(line)[i].start == Numbers(line)[2 * i + 1]
  {
  }

  /** A trailing unpaired number changes nothing. */
  lemma TrailingSeedDropped(pairs: seq<nat>, extra: nat)
    requires |pairs| % 2 == 0
    ensures SeedRanges(SpacedNumbers(pairs + [extra])) == SeedRanges(SpacedNumbers(pairs))
  {
    NumbersOfSpaced(pairs + [extra]);
    NumbersOfSpaced(pairs);
    RangesOfTrailing(pairs, extra);
  }

  lemma RangesOfTrailing(pairs: seq<nat>, extra: nat)
    requires |pairs| % 2 == 0
    ensures RangesOf(pairs + [extra]) == RangesOf(pairs)
  {
    var longer := pairs + [extra];
    forall i | 0 <= i < |pairs| / 2 ensures RangesOf(longer)[i] == RangesOf(pairs)[i] {
      assert longer[2 * i] == pairs[2 * i] && longer[2 * i + 1] == pairs[2 * i + 1];
    }
  }

  /** `seed` lies in one of the ranges. */
  predicate InRanges(ranges: seq<SeedRange>, seed: int) {
    exists i :: 0 <= i < |ranges| && ranges[i].start <= seed < ranges[i].stop
  }

  // ================================================================ locations

  /** The inner loop of `main`: `seed` sent through the maps in order. */
  function Location(maps: seq<NumberMap>, seed: int): int
    decreases |maps|
  {
    if maps == [] then seed else Mapped(maps[|maps| - 1], Location(maps[..|maps| - 1], seed))
  }

  /** Sending a seed through `a` and then `b` is sending it through `a + b`. */
  lemma {:induction false} LocationCompose(a: seq<NumberMap>, b: seq<NumberMap>, seed: int)
    ensures Location(a + b, seed) == Location(b, Location(a, seed))
    decreases |b|
  {
    if b == [] {
      assert a + b == a;
    } else {
      var init := b[..|b| - 1];
      LocationCompose(a, init, seed);
      assert (a + b)[..|a + b| - 1] == a + init;
    }
  }

  method ApplyMaps(maps: seq<NumberMap>, seed: int) returns (seedOut: int)
    ensures seedOut == Location(maps, seed)
  {
    seedOut := seed;
    for idx := 0 to |maps|
      invariant seedOut == Location(maps[..idx], seed)
    {
      assert maps[..idx + 1][..idx] == maps[..idx];
      seedOut := MapNumber(maps[idx], seedOut);
    }
    assert maps[..|maps|] == maps;
  }

  function Size(r: SeedRange): nat {
    if r.stop > r.start then r.stop - r.start else 0
  }

  /** The locations of the seeds of one range, in seed order. */
  function RangeLocations(r: SeedRange, maps: seq<NumberMap>): (locs: seq<int>)
    ensures |locs| == Size(r)
  {
    seq(Size(r), j requires 0 <= j < Size(r) => Location(maps, r.start + j))
  }

  /** `seeds_out` once the seeds of `ranges` have been sent through the maps. */
  function Locations(ranges: seq<SeedRange>, maps: seq<NumberMap>): seq<int>
    decreases |ranges|
  {
    if ranges == [] then []
    else Locations(ranges[..|ranges| - 1], maps) + RangeLocations(ranges[|ranges| - 1], maps)
  }

  /** Every seed of every range has its location among `seeds_out`. */
  lemma {:induction false} LocationOfSeed(ranges: seq<SeedRange>, maps: seq<NumberMap>, i: nat, seed: int)
    requires i < |ranges| && ranges[i].start <= seed < ranges[i].stop
    ensures Location(maps, seed) in Locations(ranges, maps)
    decreases |ranges|
  {
    var init := ranges[..|ranges| - 1];
    if i == |ranges| - 1 {
      var locs := RangeLocations(ranges[i], maps);
      assert locs[seed - ranges[i].start] == Location(maps, seed);
    } else {
      assert init[i] == ranges[i];
      LocationOfSeed(init, maps, i, seed);
      assert Locations(ranges, maps) == Locations(init, maps) + RangeLocations(ranges[|ranges| - 1], maps);
    }
  }

  /** Every entry of `seeds_out` is the location of a seed of the ranges. */
  lemma {:induction false} SeedOfLocation(ranges: seq<SeedRange>, maps: seq<NumberMap>, k: nat)
    requires k < |Locations(ranges, maps)|
    ensures exists seed :: InRanges(ranges, seed) && Locations(ranges, maps)[k] == Location(maps, seed)
    decreases |ranges|
  {
    var init := ranges[..|ranges| - 1];
    var last := ranges[|ranges| - 1];
    var before := Locations(init, maps);
    if k < |before| {
      SeedOfLocation(init, maps, k);
      var seed :| InRanges(init, seed) && before[k] == Location(maps, seed);
      var i :| 0 <= i < |init| && init[i].start <= seed < init[i].stop;
      assert ranges[i] == init[i];
    } else {
      var seed := last.start + (k - |before|);
      assert Locations(ranges, maps) == before + RangeLocations(last, maps);
      assert ranges[|ranges| - 1].start <= seed < ranges[|ranges| - 1].stop;
      assert InRanges(ranges, seed);
    }
  }

  lemma RangeLocationsStep(r: SeedRange, maps: seq<NumberMap>, seed: int)
    requires r.start <= seed
    ensures RangeLocations(SeedRange(r.start, seed + 1), maps)
      == RangeLocations(SeedRange(r.start, seed), maps) + [Location(maps, seed)]
  {
  }

  /** The seed loops of `main`: every seed of every range, in order, sent
      through the maps and appended to `seeds_out`. */
  method SeedLocations(ranges: seq<SeedRange>, maps: seq<NumberMap>) returns (seedsOut: seq<int>)
    ensures seedsOut == Locations(ranges, maps)
  {
    seedsOut := [];
    for i := 0 to |ranges|
      invariant seedsOut == Locations(ranges[..i], maps)
    {
      var r := ranges[i];
      assert ranges[..i + 1][..i] == ranges[..i];
      if r.start < r.stop {
        ghost var before := seedsOut;
        for seed := r.start to r.stop
          invariant seedsOut == before + RangeLocations(SeedRange(r.start, seed), maps)
        {
          var seedOut := ApplyMaps(maps, seed);
          RangeLocationsStep(r, maps, seed);
          seedsOut := seedsOut + [seedOut];
        }
        assert SeedRange(r.start, r.stop) == r;
      }
    }
    assert ranges[..|ranges|] == ranges;
  }

  /** Python's `min` on a non-empty list. */
  function Min(s: seq<int>): (m: int)
    requires |s| > 0
    ensures m in s && forall i :: 0 <= i < |s| ==> m <= s[i]
    decreases |s|
  {
    if |s| == 1 then s[0]
    else
      var rest := Min(s[1..]);
      if s[0] <= rest then s[0] else rest
  }

  // ================================================================ main

  /** The maps `main` builds from the lines after the seed line. */
  function ParsedMaps(lines: seq<string>): Result<seq<NumberMap>>
    requires |lines| > 0
  {
    MapsOf(Grouped(lines[1..]))
  }

  /** `main` without the printing: IndexError without a seed line,
      AssertionError when a map fails to parse or there are not exactly
      seven maps, ValueError (from `min`) when the ranges hold no seed, and
      otherwise the lowest location reached by any seed. */
  method LowestLocation(lines: seq<string>) returns (r: Result<int>)
    ensures |lines| == 0 ==> r == Err(IndexError)
    ensures |lines| > 0 && ParsedMaps(lines).Err? ==> r == Err(AssertionError)
    ensures |lines| > 0 && ParsedMaps(lines).Ok? && |ParsedMaps(lines).value| != 7 ==> r == Err(AssertionError)
    ensures |lines| > 0 && ParsedMaps(lines).Ok? && |ParsedMaps(lines).value| == 7 ==>
      (r.Ok? <==> exists seed :: InRanges(SeedRanges(lines[0]), seed))
    ensures |lines| > 0 && ParsedMaps(lines).Ok? && |ParsedMaps(lines).value| == 7
            && !(exists seed :: InRanges(SeedRanges(lines[0]), seed))
            ==> r == Err(ValueError)
    ensures r.Err? ==> r.failure in {IndexError, AssertionError, ValueError}
    ensures r.Ok? ==> |lines| > 0 && ParsedMaps(lines).Ok?
    ensures r.Ok? ==> exists seed ::
      InRanges(SeedRanges(lines[0]), seed) && r.value == Location(ParsedMaps(lines).value, seed)
    ensures r.Ok? ==> forall seed ::
      InRanges(SeedRanges(lines[0]), seed) ==> r.value <= Location(ParsedMaps(lines).value, seed)
  {
    if |lines| == 0 {
      return Err(IndexError);
    }
    var seedsRanges := ParseSeeds(lines[0]);
    var groupedLines := GroupLines(lines[1..]);
    var parsed := ParseMaps(groupedLines);
    if parsed.Err? {
      return Err(AssertionError);
    }
    var maps := parsed.value;
    if |maps| != 7 {
      return Err(AssertionError);
    }
    var seedsOut := SeedLocations(seedsRanges, maps);
    if |seedsOut| == 0 {
      forall seed | InRanges(seedsRanges, seed) ensures false {
        var i :| 0 <= i < |seedsRanges| && seedsRanges[i].start <= seed < seedsRanges[i].stop;
        LocationOfSeed(seedsRanges, maps, i, seed);
      }
      return Err(ValueError);
    }
    var lowest := Min(seedsOut);
    var k :| 0 <= k < |seedsOut| && seedsOut[k] == lowest;
    SeedOfLocation(seedsRanges, maps, k);
    forall seed | InRanges(seedsRanges, seed) ensures lowest <= Location(maps, seed) {
      var i :| 0 <= i < |seedsRanges| && seedsRanges[i].start <= seed < seedsRanges[i].stop;
      LocationOfSeed(seedsRanges, maps, i, seed);
    }
    r := Ok(lowest);
  }
}
