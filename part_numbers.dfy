/** The engine-schematic solver (03/main.py): a digit counts when it, a
    digit to its right in the same run, or the digit scanned just before it
    counts by being next to a symbol; each counted digit adds its place
    value, so a counted run adds its number. */
module PartNumbers {
  import opened PyText

  // ================================================================ cells

  /** `is_special_char`: neither a digit nor '.'. */
  predicate IsSpecial(c: char) {
    !IsDigit(c) && c != '.'
  }

  /** `adjacent_char_offets`: the eight surrounding cells, row by row. */
  function Offset(k: nat): (int, int) {
    match k
    case 0 => (-1, -1)
    case 1 => (-1, 0)
    case 2 => (-1, 1)
    case 3 => (0, -1)
    case 4 => (0, 1)
    case 5 => (1, -1)
    case 6 => (1, 0)
    case _ => (1, 1)
  }

  /** Inside the bounds `has_adjacent_special_char` checks: `len(lines)`
      rows and `len(lines[0])` columns. */
  predicate InGrid(lines: seq<string>, row: int, col: int) {
    |lines| > 0 && 0 <= row < |lines| && 0 <= col < |lines[0]|
  }

  /** Every row as long as the first. */
  predicate Rectangular(lines: seq<string>) {
    forall i :: 0 <= i < |lines| ==> |lines[i]| == |lines[0]|
  }

  /** A symbol stands at `(row, col)`, inside the checked bounds. */
  predicate SpecialAt(lines: seq<string>, row: int, col: int) {
    InGrid(lines, row, col) && col < |lines[row]| && IsSpecial(lines[row][col])
  }

  predicate OffsetSpecial(lines: seq<string>, row: int, col: int, k: nat)
    requires k < 8
  {
    SpecialAt(lines, row + Offset(k).0, col + Offset(k).1)
  }

  /** A symbol stands at one of the offsets `k..8` from `(row, col)`. */
  predicate NearFrom(lines: seq<string>, row: int, col: int, k: nat)
    decreases 8 - k
  {
    k < 8 && (OffsetSpecial(lines, row, col, k) || NearFrom(lines, row, col, k + 1))
  }

  /** A symbol stands in one of the eight cells around `(row, col)`. */
  predicate NearSpecial(lines: seq<string>, row: int, col: int) {
    NearFrom(lines, row, col, 0)
  }

  lemma {:induction false} NearFromSpec(lines: seq<string>, row: int, col: int, k: nat)
    ensures NearFrom(lines, row, col, k) <==> exists j :: k <= j < 8 && OffsetSpecial(lines, row, col, j)
    decreases 8 - k
  {
    if k < 8 {
      NearFromSpec(lines, row, col, k + 1);
      assert (exists j :: k <= j < 8 && OffsetSpecial(lines, row, col, j)) <==>
        OffsetSpecial(lines, row, col, k) || exists j :: k + 1 <= j < 8 && OffsetSpecial(lines, row, col, j);
    }
  }

  /** Where a neighbour's offset stands in the offsets list. */
  function OffsetIndex(dr: int, dc: int): nat
    requires -1 <= dr <= 1 && -1 <= dc <= 1 && (dr != 0 || dc != 0)
  {
    var m := (dr + 1) * 3 + (dc + 1);
    if m < 4 then m else m - 1
  }

  lemma OffsetIndexes(dr: int, dc: int)
    requires -1 <= dr <= 1 && -1 <= dc <= 1 && (dr != 0 || dc != 0)
    ensures OffsetIndex(dr, dc) < 8 && Offset(OffsetIndex(dr, dc)) == (dr, dc)
  {
    if dr == -1 {
      assert OffsetIndex(dr, dc) == dc + 1;
    } else if dr == 0 {
      assert OffsetIndex(dr, dc) == if dc == -1 then 3 else 4;
    } else {
      assert OffsetIndex(dr, dc) == dc + 6;
    }
  }

  /** The offsets list names exactly the cells other than `(row, col)` that
      differ from it by at most one in row and in column. */
  lemma NearSpecialSpec(lines: seq<string>, row: int, col: int)
    ensures NearSpecial(lines, row, col) <==>
      exists r, c :: -1 <= r - row <= 1 && -1 <= c - col <= 1 && (r != row || c != col) && SpecialAt(lines, r, c)
  {
    NearFromSpec(lines, row, col, 0);
    if exists r, c :: -1 <= r - row <= 1 && -1 <= c - col <= 1 && (r != row || c != col) && SpecialAt(lines, r, c) {
      var r, c :| -1 <= r - row <= 1 && -1 <= c - col <= 1 && (r != row || c != col) && SpecialAt(lines, r, c);
      NeighbourIsOffset(lines, row, col, r, c);
    }
    if NearSpecial(lines, row, col) {
      var j :| 0 <= j < 8 && OffsetSpecial(lines, row, col, j);
      OffsetIsNeighbour(j);
      var r, c := row + Offset(j).0, col + Offset(j).1;
      assert -1 <= r - row <= 1 && -1 <= c - col <= 1 && (r != row || c != col) && SpecialAt(lines, r, c);
    }
  }

  lemma NeighbourIsOffset(lines: seq<string>, row: int, col: int, r: int, c: int)
    requires -1 <= r - row <= 1 && -1 <= c - col <= 1 && (r != row || c != col) && SpecialAt(lines, r, c)
    ensures exists j :: 0 <= j < 8 && OffsetSpecial(lines, row, col, j)
  {
    OffsetIndexes(r - row, c - col);
    assert OffsetSpecial(lines, row, col, OffsetIndex(r - row, c - col));
  }

  lemma OffsetIsNeighbour(j: nat)
    requires j < 8
    ensures -1 <= Offset(j).0 <= 1 && -1 <= Offset(j).1 <= 1 && Offset(j) != (0, 0)
  {
  }

  // ================================================================ has_adjacent_special_char

  /** The loop of `has_adjacent_special_char` from offset `k` on: offsets
      outside the bounds are skipped, a cell inside the bounds but past the
      end of its (shorter) row raises IndexError, and the first symbol
      found returns True. */
  function AdjacentFrom(lines: seq<string>, row: int, col: int, k: nat): (r: Result<bool>)
    requires |lines| > 0 && k <= 8
    ensures r.Err? ==> r.failure == IndexError
    decreases 8 - k
  {
    if k == 8 then Ok(false)
    else
      var r, c := row + Offset(k).0, col + Offset(k).1;
      if !InGrid(lines, r, c) then AdjacentFrom(lines, row, col, k + 1)
      else if c >= |lines[r]| then Err(IndexError)
      else if IsSpecial(lines[r][c]) then Ok(true)
      else AdjacentFrom(lines, row, col, k + 1)
  }

  function Adjacent(lines: seq<string>, row: int, col: int): Result<bool>
    requires |lines| > 0
  {
    AdjacentFrom(lines, row, col, 0)
  }

  lemma {:induction false} AdjacentFromSpec(lines: seq<string>, row: int, col: int, k: nat)
    requires |lines| > 0 && k <= 8
    ensures Rectangular(lines) ==> AdjacentFrom(lines, row, col, k).Ok?
    ensures AdjacentFrom(lines, row, col, k).Ok? ==> AdjacentFrom(lines, row, col, k).value == NearFrom(lines, row, col, k)
    decreases 8 - k
  {
    if k < 8 {
      AdjacentFromSpec(lines, row, col, k + 1);
    }
  }

  /** `has_adjacent_special_char` answers whether a symbol is among the
      eight neighbours (the cell itself is never looked at) whenever it
      answers; on a rectangular grid it always answers. */
  lemma AdjacentSpec(lines: seq<string>, row: int, col: int)
    requires |lines| > 0
    ensures Rectangular(lines) ==> Adjacent(lines, row, col).Ok?
    ensures Adjacent(lines, row, col).Ok? ==> Adjacent(lines, row, col).value == NearSpecial(lines, row, col)
  {
    AdjacentFromSpec(lines, row, col, 0);
  }

  lemma AdjacentTotal(lines: seq<string>, row: int, col: int)
    requires |lines| > 0 && Rectangular(lines)
    ensures Adjacent(lines, row, col).Ok?
  {
    AdjacentFromSpec(lines, row, col, 0);
  }

  lemma AdjacentValue(lines: seq<string>, row: int, col: int)
    requires |lines| > 0 && Adjacent(lines, row, col).Ok?
    ensures Adjacent(lines, row, col).value == NearSpecial(lines, row, col)
  {
    AdjacentSpec(lines, row, col);
  }

  method HasAdjacentSpecialChar(lines: seq<string>, row: int, col: int) returns (r: Result<bool>)
    requires |lines| > 0
    ensures r == Adjacent(lines, row, col)
  {
    var lineLimit, charLimit := |lines|, |lines[0]|;
    for k := 0 to 8
      invariant AdjacentFrom(lines, row, col, k) == Adjacent(lines, row, col)
    {
      var newRow, newCol := row + Offset(k).0, col + Offset(k).1;
      if newRow < 0 || newRow >= lineLimit || newCol < 0 || newCol >= charLimit {
        continue;
      }
      if newCol >= |lines[newRow]| {
        return Err(IndexError);
      }
      if IsSpecial(lines[newRow][newCol]) {
        return Ok(true);
      }
    }
    return Ok(false);
  }

  // ================================================================ get_decimal_place

  /** How many digits stand in `line` from `from` on, up to the first
      non-digit or the end. */
  function RunLength(line: string, from: nat): (n: nat)
    ensures n == 0 || from + n <= |line|
    decreases |line| - from
  {
    if from < |line| && IsDigit(line[from]) then 1 + RunLength(line, from + 1) else 0
  }

  /** `get_decimal_place`: the digits at the start of `line[col + 1:]`, that
      is, right after `col`. */
  function DecimalPlace(line: string, col: nat): nat {
    RunLength(line, col + 1)
  }

  /** Every character of `line[from..to]` is a digit. */
  predicate DigitsBetween(line: string, from: nat, to: nat) {
    to <= |line| && forall i :: from <= i < to ==> IsDigit(line[i])
  }

  /** The run length measures the maximal run of digits: digits up to it,
      then a non-digit or the end of the line. */
  lemma {:induction false} RunLengthSpec(line: string, from: nat)
    requires from <= |line|
    ensures DigitsBetween(line, from, from + RunLength(line, from))
    ensures from + RunLength(line, from) < |line| ==> !IsDigit(line[from + RunLength(line, from)])
    decreases |line| - from
  {
    if from < |line| && IsDigit(line[from]) {
      RunLengthSpec(line, from + 1);
    }
  }

  /** Conversely, a maximal run has that length. */
  lemma {:induction false} RunLengthOfRun(line: string, from: nat, to: nat)
    requires from <= to && DigitsBetween(line, from, to) && (to == |line| || !IsDigit(line[to]))
    ensures RunLength(line, from) == to - from
    decreases (to as int) - from
  {
    if from < to {
      RunLengthOfRun(line, from + 1, to);
    }
  }

  method GetDecimalPlace(line: string, col: nat) returns (places: nat)
    ensures places == DecimalPlace(line, col)
  {
    places := 0;
    while col + 1 + places < |line| && IsDigit(line[col + 1 + places])
      invariant DecimalPlace(line, col) == places + RunLength(line, col + 1 + places)
      decreases |line| - places
    {
      places := places + 1;
    }
  }

  // ================================================================ has_right_neighbor_digit_with_adjacent_special_char

  /** A symbol is next to one of the cells `from <= col < to` of `row`. */
  predicate NearRun(lines: seq<string>, row: int, from: int, to: int)
    decreases to - from
  {
    from < to && (NearSpecial(lines, row, from) || NearRun(lines, row, from + 1, to))
  }

  /** The loop of `has_right_neighbor_digit_with_adjacent_special_char`
      from cell `col` on: it stops at the first non-digit, and returns True
      at the first digit next to a symbol. */
  function RightFrom(lines: seq<string>, row: nat, col: nat): Result<bool>
    requires row < |lines|
    decreases |lines[row]| - col
  {
    var line := lines[row];
    if col >= |line| || !IsDigit(line[col]) then Ok(false)
    else
      var adjacent :- Adjacent(lines, row, col);
      if adjacent then Ok(true) else RightFrom(lines, row, col + 1)
  }

  /** `has_right_neighbor_digit_with_adjacent_special_char`, which scans
      `line[col + 1:]`. */
  function RightNear(lines: seq<string>, row: nat, col: nat): Result<bool>
    requires row < |lines|
  {
    RightFrom(lines, row, col + 1)
  }

  lemma {:induction false} RightFromTotal(lines: seq<string>, row: nat, col: nat)
    requires Rectangular(lines) && row < |lines|
    ensures RightFrom(lines, row, col).Ok?
    decreases |lines[row]| - col
  {
    if col < |lines[row]| && IsDigit(lines[row][col]) {
      AdjacentTotal(lines, row, col);
      RightFromTotal(lines, row, col + 1);
    }
  }

  lemma {:induction false} RightFromTrue(lines: seq<string>, row: nat, col: nat)
    requires row < |lines| && RightFrom(lines, row, col) == Ok(true)
    ensures NearRun(lines, row, col, col + RunLength(lines[row], col))
    decreases |lines[row]| - col
  {
    var line := lines[row];
    var end := col + RunLength(line, col);
    assert end == col + 1 + RunLength(line, col + 1);
    AdjacentValue(lines, row, col);
    if Adjacent(lines, row, col).value {
      assert NearSpecial(lines, row, col);
    } else {
      RightFromTrue(lines, row, col + 1);
      assert NearRun(lines, row, col + 1, end);
    }
  }

  lemma {:induction false} RightFromFalse(lines: seq<string>, row: nat, col: nat)
    requires row < |lines| && RightFrom(lines, row, col) == Ok(false)
    ensures !NearRun(lines, row, col, col + RunLength(lines[row], col))
    decreases |lines[row]| - col
  {
    var line := lines[row];
    if col < |line| && IsDigit(line[col]) {
      var end := col + RunLength(line, col);
      assert end == col + 1 + RunLength(line, col + 1);
      AdjacentValue(lines, row, col);
      RightFromFalse(lines, row, col + 1);
    } else {
      assert RunLength(line, col) == 0;
    }
  }

  /** `has_right_neighbor_digit_with_adjacent_special_char` answers whether
      a symbol is next to one of the digits of the run right after `col`
      whenever it answers. */
  lemma RightNearSpec(lines: seq<string>, row: nat, col: nat)
    requires row < |lines| && RightNear(lines, row, col).Ok?
    ensures RightNear(lines, row, col).value <==> NearRun(lines, row, col + 1, col + 1 + DecimalPlace(lines[row], col))
  {
    if RightNear(lines, row, col).value {
      RightFromTrue(lines, row, col + 1);
    } else {
      RightFromFalse(lines, row, col + 1);
    }
  }

  /** On a rectangular grid it always answers. */
  lemma RightNearTotal(lines: seq<string>, row: nat, col: nat)
    requires Rectangular(lines) && row < |lines|
    ensures RightNear(lines, row, col).Ok?
  {
    RightFromTotal(lines, row, col + 1);
  }

  method HasRightNeighbourNearSpecial(lines: seq<string>, row: nat, col: nat) returns (r: Result<bool>)
    requires row < |lines|
    ensures r == RightNear(lines, row, col)
  {
    var line := lines[row];
    var next := col + 1;
    while next < |line|
      invariant RightFrom(lines, row, next) == RightNear(lines, row, col)
      decreases |line| - next
    {
      if !IsDigit(line[next]) {
        return Ok(false);
      }
      var adjacent := HasAdjacentSpecialChar(lines, row, next);
      if adjacent.Err? {
        return Err(adjacent.failure);
      }
      if adjacent.value {
        return Ok(true);
      }
      next := next + 1;
    }
    return Ok(false);
  }

  // ================================================================ the scan of main

  /** `10 ** n`. */
  function Pow10(n: nat): (p: nat)
    ensures p >= 1
  {
    if n == 0 then 1 else 10 * Pow10(n - 1)
  }

  /** What `main` learns about one character before it looks at the flag:
      not a digit, or a digit together with whether `has_adjacent_special_char`
      or the right-neighbour check holds and what the digit is worth at its
      place. */
  datatype Cell = Other | Digit(near: bool, value: int)

  /** The debug print of `main` calls `has_adjacent_special_char`,
      `get_decimal_place` and the right-neighbour check on every character
      before the condition is tested, so either check may raise on any
      character, digit or not. Once both have answered, the `or` of the
      condition asks them again and gets the same answers. */
  function CellAt(lines: seq<string>, row: nat, col: nat): Result<Cell>
    requires row < |lines| && col < |lines[row]|
  {
    var line := lines[row];
    var adjacent :- Adjacent(lines, row, col);
    var right :- RightNear(lines, row, col);
    if !IsDigit(line[col]) then Ok(Other)
    else Ok(Digit(adjacent || right, DigitValue(line[col]) * Pow10(DecimalPlace(line, col))))
  }

  /** The cells of `row` from `col` on. */
  function CellsFrom(lines: seq<string>, row: nat, col: nat): (cells: seq<Result<Cell>>)
    requires row < |lines| && col <= |lines[row]|
    ensures |cells| == |lines[row]| - col
    decreases |lines[row]| - col
  {
    if col == |lines[row]| then [] else [CellAt(lines, row, col)] + CellsFrom(lines, row, col + 1)
  }

  function RowCells(lines: seq<string>, row: nat): (cells: seq<Result<Cell>>)
    requires row < |lines|
    ensures |cells| == |lines[row]|
  {
    CellsFrom(lines, row, 0)
  }

  lemma {:induction false} CellsFromAt(lines: seq<string>, row: nat, col: nat, i: nat)
    requires row < |lines| && col <= i < |lines[row]|
    ensures CellsFrom(lines, row, col)[i - col] == CellAt(lines, row, i)
    decreases i - col
  {
    if col < i {
      CellsFromAt(lines, row, col + 1, i);
    }
  }

  lemma RowCellAt(lines: seq<string>, row: nat, col: nat)
    requires row < |lines| && col < |lines[row]|
    ensures RowCells(lines, row)[col] == CellAt(lines, row, col)
  {
    CellsFromAt(lines, row, 0, col);
  }

  /** One character with `previous_char_relevant == previous`: the new flag
      and what is added to `sum_`. */
  function Step(cell: Cell, previous: bool): (bool, int) {
    match cell
    case Other => (false, 0)
    case Digit(near, value) => if near || previous then (true, value) else (false, 0)
  }

  /** The scan over `cells[from..to]`, starting with
      `previous_char_relevant == previous` and `sum_ == sum`. */
  function ScanCells(cells: seq<Result<Cell>>, from: nat, to: nat, previous: bool, sum: int): Result<(bool, int)>
    requires from <= to <= |cells|
    decreases (to as int) - from
  {
    if from == to then Ok((previous, sum))
    else
      var cell :- cells[from];
      var step := Step(cell, previous);
      ScanCells(cells, from + 1, to, step.0, sum + step.1)
  }

  /** The scan over the rows from `row` on; the flag is carried from the
      end of one row to the start of the next. */
  function ScanRows(lines: seq<string>, row: nat, previous: bool, sum: int): Result<int>
    requires row <= |lines|
    decreases |lines| - row
  {
    if row == |lines| then Ok(sum)
    else
      var after :- ScanCells(RowCells(lines, row), 0, |lines[row]|, previous, sum);
      ScanRows(lines, row + 1, after.0, after.1)
  }

  /** The scan resumed at cell `col` of `row`. */
  function ScanFrom(lines: seq<string>, row: nat, col: nat, previous: bool, sum: int): Result<int>
    requires row < |lines| && col <= |lines[row]|
  {
    var after :- ScanCells(RowCells(lines, row), col, |lines[row]|, previous, sum);
    ScanRows(lines, row + 1, after.0, after.1)
  }

  /** The scan resumed at one cell, stepped over that cell. */
  lemma ScanFromStep(lines: seq<string>, row: nat, col: nat, previous: bool, sum: int)
    requires row < |lines| && col < |lines[row]|
    ensures CellAt(lines, row, col).Err? ==> ScanFrom(lines, row, col, previous, sum) == Err(CellAt(lines, row, col).failure)
    ensures CellAt(lines, row, col).Ok? ==>
      var step := Step(CellAt(lines, row, col).value, previous);
      ScanFrom(lines, row, col, previous, sum) == ScanFrom(lines, row, col + 1, step.0, sum + step.1)
  {
    RowCellAt(lines, row, col);
  }

  /** The sum `main` prints. */
  function PartNumberTotal(lines: seq<string>): Result<int> {
    ScanRows(lines, 0, false, 0)
  }

  /** One character of `main`: the debug print's three calls, then the
      condition `c.isnumeric() and (adjacent or right neighbour or
      previous)`, whose `or` gets the answers the print already had. */
  method IsRelevant(lines: seq<string>, row: nat, col: nat, previous: bool) returns (r: Result<bool>)
    requires row < |lines| && col < |lines[row]|
    ensures CellAt(lines, row, col).Err? ==> r == Err(CellAt(lines, row, col).failure)
    ensures CellAt(lines, row, col).Ok? ==> r == Ok(Step(CellAt(lines, row, col).value, previous).0)
  {
    var adjacent := HasAdjacentSpecialChar(lines, row, col);
    if adjacent.Err? {
      return Err(adjacent.failure);
    }
    var _ := GetDecimalPlace(lines[row], col);
    var right := HasRightNeighbourNearSpecial(lines, row, col);
    if right.Err? {
      return Err(right.failure);
    }
    r := Ok(IsDigit(lines[row][col]) && (adjacent.value || right.value || previous));
  }

  /** `main`, with the debug print reduced to the calls it makes. */
  method PartNumberSum(lines: seq<string>) returns (r: Result<int>)
    ensures r == PartNumberTotal(lines)
  {
    var sum := 0;
    var previousCharRelevant := false;
    for row := 0 to |lines|
      invariant ScanRows(lines, row, previousCharRelevant, sum) == PartNumberTotal(lines)
    {
      var line := lines[row];
      for col := 0 to |line|
        invariant ScanFrom(lines, row, col, previousCharRelevant, sum) == PartNumberTotal(lines)
      {
        ScanFromStep(lines, row, col, previousCharRelevant, sum);
        var c := line[col];
        var relevant := IsRelevant(lines, row, col, previousCharRelevant);
        if relevant.Err? {
          return Err(relevant.failure);
        }
        if relevant.value {
          var decimalPlace := GetDecimalPlace(line, col);
          sum := sum + DigitValue(c) * Pow10(decimalPlace);
          previousCharRelevant := true;
        } else {
          previousCharRelevant := false;
        }
      }
    }
    r := Ok(sum);
  }

  // ================================================================ runs

  /** Reading a digit in front of a number shifts the digit by the
      number's length. */
  lemma {:induction false} DecimalValueCons(c: char, rest: string)
    requires IsDigit(c) && AllDigits(rest)
    ensures AllDigits([c] + rest)
    ensures DecimalValue([c] + rest) == DigitValue(c) * Pow10(|rest|) + DecimalValue(rest)
    decreases |rest|
  {
    var s := [c] + rest;
    ConsDigits(c, rest);
    if rest == [] {
      assert s[..0] == [];
    } else {
      var init := rest[..|rest| - 1];
      ConsDigits(c, init);
      DecimalValueCons(c, init);
      assert s[..|s| - 1] == [c] + init;
      Distribute(DigitValue(c), Pow10(|init|), DecimalValue(init), DigitValue(rest[|rest| - 1]));
    }
  }

  /** The arithmetic step of `DecimalValueCons`: appending a digit to a
      number that has a digit in front multiplies both parts by ten. */
  lemma Distribute(d: int, p: int, v: int, l: int)
    ensures 10 * (d * p + v) + l == d * (10 * p) + (10 * v + l)
  {
  }

  lemma ConsDigits(c: char, rest: string)
    requires IsDigit(c) && AllDigits(rest)
    ensures AllDigits([c] + rest)
  {
    assert forall i :: 1 <= i < |[c] + rest| ==> ([c] + rest)[i] == rest[i - 1];
  }

  /** Every cell of `cells[from..to]` is a digit. */
  predicate DigitCells(cells: seq<Result<Cell>>, from: nat, to: nat)
    requires from <= to <= |cells|
  {
    forall i :: from <= i < to ==> cells[i].Ok? && cells[i].value.Digit?
  }

  /** What the digit cells of `cells[from..to]` are worth together. */
  function Worth(cells: seq<Result<Cell>>, from: nat, to: nat): int
    requires from <= to <= |cells| && DigitCells(cells, from, to)
    decreases (to as int) - from
  {
    if from == to then 0 else cells[from].value.value + Worth(cells, from + 1, to)
  }

  /** Over digit cells whose `near` can only switch off from left to right,
      the scan counts all of them or none: all exactly when the flag enters
      set or the first one is near a symbol. */
  lemma {:induction false} AllOrNothing(cells: seq<Result<Cell>>, from: nat, to: nat, previous: bool, sum: int)
    requires from <= to <= |cells| && DigitCells(cells, from, to)
    requires forall i :: from < i < to ==> cells[i].value.near ==> cells[i - 1].value.near
    ensures var counted := previous || (from < to && cells[from].value.near);
      ScanCells(cells, from, to, previous, sum) == Ok((counted, sum + if counted then Worth(cells, from, to) else 0))
    decreases (to as int) - from
  {
    if from < to {
      var step := Step(cells[from].value, previous);
      AllOrNothing(cells, from + 1, to, step.0, sum + step.1);
      if from + 1 < to && !step.0 {
        assert !cells[from + 1].value.near;
      }
    }
  }

  /** A maximal run of digits `line[from..to]`: digits, then a non-digit or
      the end of the line. */
  predicate MaximalRun(line: string, from: nat, to: nat) {
    from <= to && DigitsBetween(line, from, to) && (to == |line| || !IsDigit(line[to]))
  }

  lemma SliceDigits(line: string, from: nat, to: nat)
    requires from <= to <= |line|
    ensures AllDigits(line[from..to]) <==> DigitsBetween(line, from, to)
  {
    if DigitsBetween(line, from, to) {
      assert forall i :: 0 <= i < to - from ==> line[from..to][i] == line[from + i];
    }
    if AllDigits(line[from..to]) {
      assert forall i :: from <= i < to ==> line[i] == line[from..to][i - from];
    }
  }

  /** In a maximal run on a rectangular grid, the cell at `col` is a digit
      that is near exactly when a symbol is next to one of the run's digits
      from `col` on, worth its digit shifted by the number of digits after
      it. */
  lemma RunCell(lines: seq<string>, row: nat, col: nat, to: nat)
    requires Rectangular(lines) && row < |lines|
    requires col < to && MaximalRun(lines[row], col, to)
    ensures CellAt(lines, row, col)
      == Ok(Digit(NearRun(lines, row, col, to), DigitValue(lines[row][col]) * Pow10(to - col - 1)))
  {
    RunLengthOfRun(lines[row], col + 1, to);
    AdjacentTotal(lines, row, col);
    AdjacentValue(lines, row, col);
    RightNearTotal(lines, row, col);
    RightNearSpec(lines, row, col);
  }

  lemma RunRowCell(lines: seq<string>, row: nat, col: nat, to: nat)
    requires Rectangular(lines) && row < |lines|
    requires col < to && MaximalRun(lines[row], col, to)
    ensures RowCells(lines, row)[col]
      == Ok(Digit(NearRun(lines, row, col, to), DigitValue(lines[row][col]) * Pow10(to - col - 1)))
  {
    RowCellAt(lines, row, col);
    RunCell(lines, row, col, to);
  }

  /** The cells of a maximal run are digits, and `near` can only switch off
      from left to right. */
  lemma RunCells(lines: seq<string>, row: nat, from: nat, to: nat)
    requires Rectangular(lines) && row < |lines| && MaximalRun(lines[row], from, to)
    ensures DigitCells(RowCells(lines, row), from, to)
    ensures forall i :: from < i < to ==> RowCells(lines, row)[i].value.near ==> RowCells(lines, row)[i - 1].value.near
  {
    var cells := RowCells(lines, row);
    forall i | from <= i < to
      ensures cells[i].Ok? && cells[i].value.Digit?
    {
      RunRowCell(lines, row, i, to);
    }
    forall i | from < i < to
      ensures cells[i].value.near ==> cells[i - 1].value.near
    {
      RunRowCell(lines, row, i, to);
      RunRowCell(lines, row, i - 1, to);
    }
  }

  /** The digit cells of a maximal run are worth the run's number. */
  lemma {:induction false} RunWorth(lines: seq<string>, row: nat, from: nat, to: nat)
    requires Rectangular(lines) && row < |lines| && MaximalRun(lines[row], from, to)
    ensures AllDigits(lines[row][from..to]) && DigitCells(RowCells(lines, row), from, to)
    ensures Worth(RowCells(lines, row), from, to) == DecimalValue(lines[row][from..to])
    decreases (to as int) - from
  {
    var line := lines[row];
    SliceDigits(line, from, to);
    RunCells(lines, row, from, to);
    if from < to {
      RunRowCell(lines, row, from, to);
      RunWorth(lines, row, from + 1, to);
      assert line[from..to] == [line[from]] + line[from + 1..to];
      DecimalValueCons(line[from], line[from + 1..to]);
    } else {
      assert line[from..to] == [];
    }
  }

  /** A maximal run of digits `line[from..to]` is counted as a whole or not
      at all: it adds its number exactly when a symbol is next to one of its
      digits or the flag enters it set, and the flag leaves it in that
      state.  (Rectangular grid, so that no IndexError is raised.) */
  lemma RunCounted(lines: seq<string>, row: nat, from: nat, to: nat, previous: bool, sum: int)
    requires Rectangular(lines) && row < |lines|
    requires from <= to <= |lines[row]| && AllDigits(lines[row][from..to])
    requires to == |lines[row]| || !IsDigit(lines[row][to])
    ensures var counted := previous || NearRun(lines, row, from, to);
      ScanCells(RowCells(lines, row), from, to, previous, sum)
      == Ok((counted, sum + if counted then DecimalValue(lines[row][from..to]) else 0))
  {
    SliceDigits(lines[row], from, to);
    RunCells(lines, row, from, to);
    RunWorth(lines, row, from, to);
    AllOrNothing(RowCells(lines, row), from, to, previous, sum);
    if from < to {
      RunRowCell(lines, row, from, to);
    }
  }

  /** A run at the start of a row right after a counted digit at the end of
      the row above is counted in full, symbol or not: a row start does not
      reset `previous_char_relevant`. */
  lemma CarriedIntoNextRow(lines: seq<string>, row: nat, to: nat, sum: int)
    requires Rectangular(lines) && row < |lines|
    requires 0 < to <= |lines[row]| && AllDigits(lines[row][..to])
    requires to == |lines[row]| || !IsDigit(lines[row][to])
    ensures ScanCells(RowCells(lines, row), 0, to, true, sum) == Ok((true, sum + DecimalValue(lines[row][..to])))
  {
    assert lines[row][0..to] == lines[row][..to];
    RunCounted(lines, row, 0, to, true, sum);
  }

  /** Any other character adds nothing and clears the flag, once the
      debug print's checks on it have answered; on a rectangular grid they
      always do, while on a ragged one they may raise even here. */
  lemma NonDigitResets(lines: seq<string>, row: nat, col: nat, previous: bool)
    requires row < |lines| && col < |lines[row]| && !IsDigit(lines[row][col])
    ensures RowCells(lines, row)[col].Ok? ==> RowCells(lines, row)[col] == Ok(Other)
    ensures Rectangular(lines) ==> RowCells(lines, row)[col].Ok?
    ensures Step(Other, previous) == (false, 0)
  {
    RowCellAt(lines, row, col);
    if Rectangular(lines) {
      AdjacentTotal(lines, row, col);
      RightNearTotal(lines, row, col);
    }
  }

  /** On a ragged grid the debug print raises `IndexError` on a character
      that is not a digit: in `["...", "."]` the first character's
      neighbour check reads past the end of the short second row. */
  lemma RaggedGridRaises()
    ensures PartNumberTotal(["...", "."]) == Err(IndexError)
  {
    var lines := ["...", "."];
    assert RowCells(lines, 0)[0] == Err(IndexError) by {
      RowCellAt(lines, 0, 0);
    }
  }
}
