/**
 * Day 4: a square word search of the letters X, M, A and S. Part 1 counts
 * every "XMAS" written along one of the eight directions; part 2 counts every
 * A at the centre of two crossing diagonal "MAS"es.
 */
module Day4 {
  import opened Wrappers
  import opened Text
  import opened Arith

  // ---------------------------------------------------------------------
  // Directions
  // ---------------------------------------------------------------------

  datatype Direction = North | South | East | West | NorthEast | NorthWest | SouthEast | SouthWest

  /** `usize::checked_sub(1)`. */
  function Dec(x: nat): Option<nat>
  {
    if x >= 1 then Some(x - 1) else None
  }

  /** `usize::checked_add(1)`; the overflow at `usize::MAX` is out of reach of an unbounded model. */
  function Inc(x: nat): Option<nat>
  {
    Some(x + 1)
  }

  /** `Option::zip`. */
  function Zip(a: Option<nat>, b: Option<nat>): Option<(nat, nat)>
  {
    if a.Some? && b.Some? then Some((a.value, b.value)) else None
  }

  /**
   * `Direction::transform`: one step in direction `d` from (row, col), kept
   * only when both coordinates stay below `bounds`.
   */
  function Transform(d: Direction, row: nat, col: nat, bounds: nat): Option<(nat, nat)>
  {
    var transformed: Option<(nat, nat)> :=
      match d
      case North => if Dec(row).Some? then Some((Dec(row).value, col)) else None
      case South => if Inc(row).Some? then Some((Inc(row).value, col)) else None
      case East => if Inc(col).Some? then Some((row, Inc(col).value)) else None
      case West => if Dec(col).Some? then Some((row, Dec(col).value)) else None
      case NorthEast => Zip(Dec(row), Dec(col))
      case NorthWest => Zip(Dec(row), Inc(col))
      case SouthEast => Zip(Inc(row), Dec(col))
      case SouthWest => Zip(Inc(row), Inc(col));
    match transformed
    case Some((r, c)) => if r < bounds && c < bounds then Some((r, c)) else None
    case None => None
  }

  /** The step each direction takes, as (row offset, column offset). */
  function Delta(d: Direction): (int, int)
  {
    match d
    case North => (-1, 0)
    case South => (1, 0)
    case East => (0, 1)
    case West => (0, -1)
    case NorthEast => (-1, -1)
    case NorthWest => (-1, 1)
    case SouthEast => (1, -1)
    case SouthWest => (1, 1)
  }

  /** `transform` moves by the direction's offset, and fails exactly when that leaves the square. */
  lemma TransformStep(d: Direction, row: nat, col: nat, bounds: nat)
    ensures var (r, c) := (row + Delta(d).0, col + Delta(d).1);
      Transform(d, row, col, bounds) == if 0 <= r < bounds && 0 <= c < bounds then Some((r as nat, c as nat)) else None
  {
  }

  lemma TransformExamples()
    ensures Transform(South, 3, 9, 10) == Some((4, 9))
    ensures Transform(East, 0, 5, 10) == Some((0, 6))
  {
  }

  const AllDirections: seq<Direction> := [North, South, East, West, NorthEast, NorthWest, SouthEast, SouthWest]

  lemma AllDirectionsComplete(d: Direction)
    ensures d in AllDirections && |AllDirections| == 8
  {
  }

  // ---------------------------------------------------------------------
  // The grid
  // ---------------------------------------------------------------------

  /** The letters row after row, and the length of a row (the grid is square). */
  datatype Grid = Grid(letters: seq<char>, size: nat)

  /** `index_to_coordinate`: (row, column) of a position in the letters. */
  function IndexToCoordinate(g: Grid, index: nat): (nat, nat)
    requires g.size > 0
  {
    (index / g.size, index % g.size)
  }

  /** `coordinate_to_index`. */
  function CoordinateToIndex(g: Grid, row: nat, col: nat): nat
  {
    row * g.size + col
  }

  lemma IndexRoundTrip(g: Grid, index: nat)
    requires g.size > 0
    ensures var (r, c) := IndexToCoordinate(g, index); c < g.size && CoordinateToIndex(g, r, c) == index
  {
  }

  lemma CoordinateRoundTrip(g: Grid, row: nat, col: nat)
    requires g.size > 0 && col < g.size
    ensures IndexToCoordinate(g, CoordinateToIndex(g, row, col)) == (row, col)
  {
    var i := CoordinateToIndex(g, row, col);
    DivModUnique(i, g.size, row, col);
  }

  lemma CoordinateExamples()
    ensures IndexToCoordinate(Grid([], 10), 0) == (0, 0) && IndexToCoordinate(Grid([], 10), 1) == (0, 1)
    ensures IndexToCoordinate(Grid([], 10), 10) == (1, 0) && IndexToCoordinate(Grid([], 10), 11) == (1, 1)
    ensures IndexToCoordinate(Grid([], 10), 20) == (2, 0)
    ensures CoordinateToIndex(Grid([], 10), 2, 0) == 20 && CoordinateToIndex(Grid([], 10), 1, 1) == 11
    ensures CoordinateToIndex(Grid([], 10), 0, 5) == 5
  {
  }

  /** `at_index`. */
  function AtIndex(g: Grid, index: nat): (r: Option<char>)
    ensures r.Some? <==> index < |g.letters|
    ensures r.Some? ==> r.value == g.letters[index]
  {
    if index < |g.letters| then Some(g.letters[index]) else None
  }

  /** `at_direction`: the neighbouring cell in direction `d`, its position, and `d` again. */
  function AtDirection(g: Grid, index: nat, d: Direction): (r: Option<(char, nat, Direction)>)
    requires g.size > 0
    ensures r.Some? ==> r.value.1 < |g.letters| && r.value.0 == g.letters[r.value.1] && r.value.2 == d
  {
    var (row, col) := IndexToCoordinate(g, index);
    match Transform(d, row, col, g.size)
    case None => None
    case Some((r, c)) =>
      var i := CoordinateToIndex(g, r, c);
      match AtIndex(g, i)
      case None => None
      case Some(cell) => Some((cell, i, d))
  }

  /**
   * In a complete square grid, the neighbour exists exactly when the step
   * stays inside the square, and it sits at the stepped coordinates.
   */
  lemma AtDirectionStep(g: Grid, index: nat, d: Direction)
    requires g.size > 0 && |g.letters| == g.size * g.size && index < |g.letters|
    ensures var (row, col) := IndexToCoordinate(g, index);
      var (r, c) := (row + Delta(d).0, col + Delta(d).1);
      && (AtDirection(g, index, d).Some? <==> 0 <= r < g.size && 0 <= c < g.size)
      && (AtDirection(g, index, d).Some? ==> AtDirection(g, index, d).value.1 == r * g.size + c)
  {
    var (row, col) := IndexToCoordinate(g, index);
    TransformStep(d, row, col, g.size);
    var (r, c) := (row + Delta(d).0, col + Delta(d).1);
    if 0 <= r < g.size && 0 <= c < g.size {
      IndexInSquare(r, c, g.size);
    }
  }

  lemma IndexInSquare(r: nat, c: nat, n: nat)
    requires r < n && c < n
    ensures r * n + c < n * n
  {
    MulLess(r, n, n);
  }

  // ---------------------------------------------------------------------
  // Parsing and display
  // ---------------------------------------------------------------------

  predicate IsLetter(c: char) { c == 'X' || c == 'M' || c == 'A' || c == 'S' }

  /** Every byte of the input is one of the four letters or a newline, as the byte-to-letter view requires. */
  predicate LettersAndNewlines(s: string)
  {
    forall k :: 0 <= k < |s| ==> IsLetter(s[k]) || s[k] == '\n'
  }

  /** The input with its newlines dropped. */
  function WithoutNewlines(s: string): (r: string)
    ensures NoChar(r, '\n') && |r| <= |s|
  {
    if s == [] then []
    else WithoutNewlines(s[..|s| - 1]) + (if s[|s| - 1] == '\n' then [] else [s[|s| - 1]])
  }

  /** `Grid::parse`: the row length is the position of the first newline, and the newlines are dropped. */
  method Parse(input: string) returns (grid: Grid)
    requires '\n' in input && LettersAndNewlines(input)
    ensures grid.size == LineEnd(input) && grid.letters == WithoutNewlines(input)
  {
    var letters := input;
    var size := 0;
    while letters[size] != '\n'
      invariant size < |letters| && forall j :: 0 <= j < size ==> letters[j] != '\n'
      decreases |letters| - size
    {
      size := size + 1;
    }
    LineEndFirst(input, size);
    var kept: seq<char> := [];
    for j := 0 to |letters|
      invariant kept == WithoutNewlines(letters[..j])
    {
      assert letters[..j + 1][..j] == letters[..j];
      if letters[j] != '\n' {
        kept := kept + [letters[j]];
      }
    }
    assert letters[..|letters|] == letters;
    letters := kept;
    grid := Grid(letters, size);
  }

  /** `Display for Grid`: the letters in chunks of `size`, each chunk followed by a newline. */
  function Render(letters: seq<char>, size: nat): string
    requires size > 0
    decreases |letters|
  {
    if letters == [] then []
    else
      var n := if |letters| < size then |letters| else size;
      letters[..n] + "\n" + Render(letters[n..], size)
  }

  function Concat(rows: seq<string>): string
  {
    if rows == [] then [] else rows[0] + Concat(rows[1..])
  }

  lemma {:induction false} WithoutNewlinesAppend(a: string, b: string)
    ensures WithoutNewlines(a + b) == WithoutNewlines(a) + WithoutNewlines(b)
    decreases |b|
  {
    if b != [] {
      assert (a + b)[..|a + b| - 1] == a + b[..|b| - 1];
      WithoutNewlinesAppend(a, b[..|b| - 1]);
    } else {
      assert a + b == a;
    }
  }

  lemma {:induction false} WithoutNewlinesNone(s: string)
    requires NoChar(s, '\n')
    ensures WithoutNewlines(s) == s
  {
    if s != [] {
      WithoutNewlinesNone(s[..|s| - 1]);
    }
  }

  lemma {:induction false} WithoutNewlinesUnlines(rows: seq<string>)
    requires forall k :: 0 <= k < |rows| ==> NoChar(rows[k], '\n')
    ensures WithoutNewlines(Unlines(rows)) == Concat(rows)
  {
    if rows != [] {
      var row, rest := rows[0], Unlines(rows[1..]);
      WithoutNewlinesUnlines(rows[1..]);
      assert Unlines(rows) == (row + "\n") + rest;
      WithoutNewlinesAppend(row + "\n", rest);
      WithoutNewlinesAppend(row, "\n");
      WithoutNewlinesNone(row);
      assert WithoutNewlines("\n") == WithoutNewlines([]) == [];
      assert WithoutNewlines(row + "\n") == row;
    }
  }

  lemma {:induction false} RenderConcat(rows: seq<string>, size: nat)
    requires size > 0 && forall k :: 0 <= k < |rows| ==> |rows[k]| == size
    ensures Render(Concat(rows), size) == Unlines(rows)
  {
    if rows != [] {
      var s := Concat(rows);
      assert s == rows[0] + Concat(rows[1..]);
      assert s[..size] == rows[0] && s[size..] == Concat(rows[1..]);
      RenderConcat(rows[1..], size);
    }
  }

  /**
   * Display reproduces the text a grid was parsed from: for rows of `size`
   * letters each followed by a newline, parsing finds that row length and
   * rendering the letters gives the text back.
   */
  lemma DisplayRoundTrip(rows: seq<string>, size: nat)
    requires size > 0 && |rows| > 0
    requires forall k :: 0 <= k < |rows| ==> |rows[k]| == size && NoChar(rows[k], '\n')
    ensures LineEnd(Unlines(rows)) == size
    ensures Render(WithoutNewlines(Unlines(rows)), size) == Unlines(rows)
  {
    LineEndOf(rows[0], Unlines(rows[1..]));
    WithoutNewlinesUnlines(rows);
    RenderConcat(rows, size);
  }

  // ---------------------------------------------------------------------
  // Part 1
  // ---------------------------------------------------------------------

  /** Whether `word` is written from position `i` on, one step in direction `d` per letter. */
  function Reads(g: Grid, i: nat, d: Direction, word: string): bool
    requires g.size > 0
    decreases |word|
  {
    if word == [] then true
    else
      AtIndex(g, i) == Some(word[0]) &&
      (|word| == 1 ||
        match AtDirection(g, i, d)
        case None => false
        case Some((_, j, _)) => Reads(g, j, d, word[1..]))
  }

  /** How many of the first `n` directions spell "XMAS" from position `i`. */
  function XmasFrom(g: Grid, i: nat, n: nat): nat
    requires g.size > 0 && n <= |AllDirections|
  {
    if n == 0 then 0 else XmasFrom(g, i, n - 1) + (if Reads(g, i, AllDirections[n - 1], "XMAS") then 1 else 0)
  }

  /** The "XMAS"es that start among the first `n` cells. */
  function XmasUpTo(g: Grid, n: nat): nat
    requires g.size > 0 && n <= |g.letters|
  {
    if n == 0 then 0 else XmasUpTo(g, n - 1) + XmasFrom(g, n - 1, |AllDirections|)
  }

  function XmasCount(g: Grid): nat
    requires g.size > 0
  {
    XmasUpTo(g, |g.letters|)
  }

  /** The inner loop of part 1: the directions in which M, A and S follow the X at `xIndex`. */
  method XmasAt(grid: Grid, xIndex: nat) returns (found: nat)
    requires grid.size > 0 && AtIndex(grid, xIndex) == Some('X')
    ensures found == XmasFrom(grid, xIndex, |AllDirections|)
  {
    found := 0;
    for k := 0 to |AllDirections|
      invariant found == XmasFrom(grid, xIndex, k)
    {
      var d := AllDirections[k];
      assert "XMAS"[1..] == "MAS" && "MAS"[1..] == "AS" && "AS"[1..] == "S";
      var m := AtDirection(grid, xIndex, d);
      if m.Some? && m.value.0 == 'M' {
        var (_, mIndex, direction) := m.value;
        var a := AtDirection(grid, mIndex, direction);
        if a.Some? && a.value.0 == 'A' {
          var s := AtDirection(grid, a.value.1, direction);
          if s.Some? && s.value.0 == 'S' {
            found := found + 1;
          }
        }
      }
    }
  }

  method Part1(grid: Grid) returns (validXs: nat)
    requires grid.size > 0
    ensures validXs == XmasCount(grid)
  {
    validXs := 0;
    for xIndex := 0 to |grid.letters|
      invariant validXs == XmasUpTo(grid, xIndex)
    {
      var cell := AtIndex(grid, xIndex);
      if cell != Some('X') {
        XmasFromNotX(grid, xIndex, |AllDirections|);
        continue;
      }
      var found := XmasAt(grid, xIndex);
      validXs := validXs + found;
    }
  }

  lemma {:induction false} XmasFromNotX(g: Grid, i: nat, n: nat)
    requires g.size > 0 && n <= |AllDirections| && AtIndex(g, i) != Some('X')
    ensures XmasFrom(g, i, n) == 0
  {
    if n > 0 {
      XmasFromNotX(g, i, n - 1);
    }
  }

  lemma {:induction false} XmasFromAtMost(g: Grid, i: nat, n: nat)
    requires g.size > 0 && n <= |AllDirections|
    ensures XmasFrom(g, i, n) <= n
  {
    if n > 0 {
      XmasFromAtMost(g, i, n - 1);
    }
  }

  /** The number of X cells among the first `n`. */
  function XCount(letters: seq<char>, n: nat): nat
    requires n <= |letters|
  {
    if n == 0 then 0 else XCount(letters, n - 1) + (if letters[n - 1] == 'X' then 1 else 0)
  }

  /** Every "XMAS" starts at an X and each X starts at most eight of them. */
  lemma {:induction false} XmasAtMostEightPerX(g: Grid, n: nat)
    requires g.size > 0 && n <= |g.letters|
    ensures XmasUpTo(g, n) <= 8 * XCount(g.letters, n)
  {
    if n > 0 {
      XmasAtMostEightPerX(g, n - 1);
      if g.letters[n - 1] == 'X' {
        XmasFromAtMost(g, n - 1, |AllDirections|);
      } else {
        XmasFromNotX(g, n - 1, |AllDirections|);
      }
    }
  }

  // ---------------------------------------------------------------------
  // Part 2
  // ---------------------------------------------------------------------

  /** The cells on either side of `i` along `d1` and `d2` are M and S, in either order. */
  predicate MasAcross(g: Grid, i: nat, d1: Direction, d2: Direction)
    requires g.size > 0
  {
    var (a, b) := (AtDirection(g, i, d1), AtDirection(g, i, d2));
    a.Some? && b.Some? && ((a.value.0 == 'M' && b.value.0 == 'S') || (a.value.0 == 'S' && b.value.0 == 'M'))
  }

  /** An A at the centre of two diagonal "MAS"es, each read either way. */
  predicate CrossAt(g: Grid, i: nat)
    requires g.size > 0
  {
    AtIndex(g, i) == Some('A') && MasAcross(g, i, NorthEast, SouthWest) && MasAcross(g, i, NorthWest, SouthEast)
  }

  function CrossUpTo(g: Grid, n: nat): nat
    requires g.size > 0 && n <= |g.letters|
  {
    if n == 0 then 0 else CrossUpTo(g, n - 1) + (if CrossAt(g, n - 1) then 1 else 0)
  }

  function CrossCount(g: Grid): nat
    requires g.size > 0
  {
    CrossUpTo(g, |g.letters|)
  }

  /** Whether the cell `d` of `aIndex` exists and holds `letter` (`Option::is_some_and`). */
  function CellIs(g: Grid, aIndex: nat, d: Direction, letter: char): bool
    requires g.size > 0
  {
    var r := AtDirection(g, aIndex, d);
    r.Some? && r.value.0 == letter
  }

  /** The body of part 2's loop, check by check, for one cell. */
  method CrossCheck(grid: Grid, aIndex: nat) returns (ok: bool)
    requires grid.size > 0
    ensures ok == CrossAt(grid, aIndex)
  {
    var cell := AtIndex(grid, aIndex);
    if cell != Some('A') {
      return false;
    }
    var ne := AtDirection(grid, aIndex, NorthEast);
    if ne.None? {
      return false;
    }
    var letter := ne.value.0;
    if letter != 'M' && letter != 'S' {
      return false;
    }
    if letter == 'M' && !CellIs(grid, aIndex, SouthWest, 'S') {
      return false;
    } else if letter == 'S' && !CellIs(grid, aIndex, SouthWest, 'M') {
      return false;
    }
    var nw := AtDirection(grid, aIndex, NorthWest);
    if nw.None? {
      return false;
    }
    letter := nw.value.0;
    if letter != 'M' && letter != 'S' {
      return false;
    } else if letter == 'M' && !CellIs(grid, aIndex, SouthEast, 'S') {
      return false;
    }
    if letter == 'S' && !CellIs(grid, aIndex, SouthEast, 'M') {
      return false;
    }
    return true;
  }

  method Part2(grid: Grid) returns (validAs: nat)
    requires grid.size > 0
    ensures validAs == CrossCount(grid)
  {
    validAs := 0;
    for aIndex := 0 to |grid.letters|
      invariant validAs == CrossUpTo(grid, aIndex)
    {
      var ok := CrossCheck(grid, aIndex);
      if ok {
        validAs := validAs + 1;
      }
    }
  }
}
