/**
 * Day 8: antennas on a grid. Every cell that is not `.` holds an antenna of
 * the frequency written there. Two antennas of one frequency create
 * antinodes: part 1 takes the two points that reflect each antenna over the
 * other, part 2 every grid point on the line through them, in whole steps of
 * their distance. Each part counts the distinct antinode cells.
 */
module Day8 {
  import opened Text
  import opened Arith

  // ---------------------------------------------------------------------
  // Coordinates
  // ---------------------------------------------------------------------

  /** A (row, column) position; signed, because antinodes may fall outside the grid. */
  type Point = (int, int)

  /** `index_to_coordinate` as written: the row is the index divided by the height. */
  function IndexToCoordinateAsWritten(index: nat, width: nat, height: nat): (p: Point)
    requires width > 0 && height > 0
    ensures 0 <= p.0 && 0 <= p.1 < width
  {
    (index / height, index % width)
  }

  /** `index_to_coordinate` as intended: the row is the index divided by the width. */
  function IndexToCoordinate(index: nat, width: nat): (p: Point)
    requires width > 0
    ensures 0 <= p.0 && 0 <= p.1 < width
  {
    (index / width, index % width)
  }

  /** `coordinate_to_index` and `coordinate_to_index_width`: rows of `width` cells, one after another. */
  function CoordinateToIndex(row: nat, column: nat, width: nat): nat
  {
    row * width + column
  }

  lemma IndexRoundTrip(index: nat, width: nat)
    requires width > 0
    ensures var p := IndexToCoordinate(index, width); CoordinateToIndex(p.0, p.1, width) == index
  {
  }

  lemma CoordinateRoundTrip(row: nat, column: nat, width: nat)
    requires column < width
    ensures IndexToCoordinate(CoordinateToIndex(row, column, width), width) == (row, column)
  {
    var i := CoordinateToIndex(row, column, width);
    DivModUnique(i, width, row, column);
  }

  /** Distinct indices are distinct positions. */
  lemma IndexToCoordinateInjective(i: nat, j: nat, width: nat)
    requires width > 0 && i != j
    ensures IndexToCoordinate(i, width) != IndexToCoordinate(j, width)
  {
    IndexRoundTrip(i, width);
    IndexRoundTrip(j, width);
  }

  /** On a square grid the conversion as written is the intended one. */
  lemma AsWrittenOnSquare(index: nat, size: nat)
    requires size > 0
    ensures IndexToCoordinateAsWritten(index, size, size) == IndexToCoordinate(index, size)
  {
  }

  /**
   * On a grid two wide and three tall, the cell (1, 0) has index 2, which
   * the conversion as written sends to (0, 0), the position of index 0. Two
   * antennas of one frequency there are zero apart, so the part 2 walk from
   * them never leaves the grid.
   */
  lemma AsWrittenCollides()
    ensures CoordinateToIndex(1, 0, 2) == 2
    ensures IndexToCoordinateAsWritten(2, 2, 3) == (0, 0) == IndexToCoordinateAsWritten(0, 2, 3)
    ensures IndexToCoordinate(2, 2) == (1, 0) != IndexToCoordinate(0, 2)
  {
  }

  predicate InBounds(p: Point, width: nat, height: nat)
  {
    0 <= p.0 < height && 0 <= p.1 < width
  }

  /** The index of a position inside the grid. */
  function IndexOf(p: Point, width: nat, height: nat): (i: nat)
    requires InBounds(p, width, height)
    ensures i < width * height
  {
    MulLess(p.0, height, width);
    CoordinateToIndex(p.0, p.1, width)
  }

  // ---------------------------------------------------------------------
  // Antinodes of one pair
  // ---------------------------------------------------------------------

  function Sub(p: Point, q: Point): Point { (p.0 - q.0, p.1 - q.1) }
  function Add(p: Point, q: Point): Point { (p.0 + q.0, p.1 + q.1) }

  /** Part 1: the reflections `p1 - d` and `p2 + d` of a pair, `d = p2 - p1`, that lie in the grid. */
  function PairAntinodes1(p1: Point, p2: Point, width: nat, height: nat): set<nat>
  {
    var d := Sub(p2, p1);
    var a1, a2 := Sub(p1, d), Add(p2, d);
    (if InBounds(a1, width, height) then {IndexOf(a1, width, height)} else {}) +
    (if InBounds(a2, width, height) then {IndexOf(a2, width, height)} else {})
  }

  /** An upper bound on the steps a walk from `p` in direction `d` stays in the grid. */
  function Room(p: Point, d: Point, width: nat, height: nat): nat
  {
    if !InBounds(p, width, height) then 0
    else if d.0 > 0 then height - p.0
    else if d.0 < 0 then p.0 + 1
    else if d.1 > 0 then width - p.1
    else p.1 + 1
  }

  /**
   * The grid points `p`, `p + d`, `p + 2d`, ... up to the first one outside
   * the grid. With a zero step the walk never leaves the grid; the methods
   * rule that out, and here it is taken as empty.
   */
  function Walk(p: Point, d: Point, width: nat, height: nat): set<nat>
    decreases Room(p, d, width, height)
  {
    if d != (0, 0) && InBounds(p, width, height) then
      assert Room(Add(p, d), d, width, height) < Room(p, d, width, height);
      {IndexOf(p, width, height)} + Walk(Add(p, d), d, width, height)
    else {}
  }

  /** Part 2: the walks outward from both antennas of a pair, `d = p2 - p1` apart. */
  function PairAntinodes2(p1: Point, p2: Point, width: nat, height: nat): set<nat>
  {
    var d := Sub(p2, p1);
    Walk(Sub(p1, d), Sub((0, 0), d), width, height) + Walk(Add(p2, d), d, width, height)
  }

  /** Each part 1 antinode is the first step of a part 2 walk. */
  lemma PairAntinodes1In2(p1: Point, p2: Point, width: nat, height: nat)
    requires p1 != p2
    ensures PairAntinodes1(p1, p2, width, height) <= PairAntinodes2(p1, p2, width, height)
  {
  }

  /** Every point of a walk is a grid index. */
  lemma {:induction false} WalkBounded(p: Point, d: Point, width: nat, height: nat)
    ensures forall i :: i in Walk(p, d, width, height) ==> i < width * height
    decreases Room(p, d, width, height)
  {
    if d != (0, 0) && InBounds(p, width, height) {
      WalkBounded(Add(p, d), d, width, height);
    }
  }

  /** The point `k` steps of `d` away from `p`. */
  function Step(p: Point, d: Point, k: nat): Point
  {
    (p.0 + k * d.0, p.1 + k * d.1)
  }

  lemma StepNext(p: Point, d: Point, k: nat)
    ensures Step(Add(p, d), d, k) == Step(p, d, k + 1)
  {
    assert (k + 1) * d.0 == k * d.0 + d.0;
    assert (k + 1) * d.1 == k * d.1 + d.1;
  }

  /** The first `k + 1` points of the walk from `p` are in the grid. */
  predicate StaysIn(p: Point, d: Point, k: nat, width: nat, height: nat)
  {
    forall j: nat :: j <= k ==> InBounds(Step(p, d, j), width, height)
  }

  lemma StaysInNext(p: Point, d: Point, k: nat, width: nat, height: nat)
    ensures StaysIn(p, d, k + 1, width, height) <==> InBounds(p, width, height) && StaysIn(Add(p, d), d, k, width, height)
  {
    assert Step(p, d, 0) == p;
    forall j: nat | j <= k {
      StepNext(p, d, j);
    }
    if InBounds(p, width, height) && StaysIn(Add(p, d), d, k, width, height) {
      forall j: nat | j <= k + 1
        ensures InBounds(Step(p, d, j), width, height)
      {
        if j > 0 {
          StepNext(p, d, j - 1);
        }
      }
    }
  }

  /** A walk holds every in-grid point `p + k d` whose predecessors `p + j d` are all in the grid. */
  lemma {:induction false} WalkMembers(p: Point, d: Point, width: nat, height: nat, k: nat)
    requires d != (0, 0) && StaysIn(p, d, k, width, height)
    ensures IndexOf(Step(p, d, k), width, height) in Walk(p, d, width, height)
    decreases k
  {
    assert Step(p, d, 0) == p;
    if k > 0 {
      StaysInNext(p, d, k - 1, width, height);
      WalkMembers(Add(p, d), d, width, height, k - 1);
      StepNext(p, d, k - 1);
    }
  }

  /** ... and nothing else. */
  lemma {:induction false} WalkOnly(p: Point, d: Point, width: nat, height: nat, i: nat)
    requires i in Walk(p, d, width, height)
    ensures exists k: nat :: StaysIn(p, d, k, width, height) && i == IndexOf(Step(p, d, k), width, height)
    decreases Room(p, d, width, height)
  {
    assert Step(p, d, 0) == p;
    if i == IndexOf(p, width, height) {
      assert StaysIn(p, d, 0, width, height);
    } else {
      var q := Add(p, d);
      WalkOnly(q, d, width, height, i);
      var k: nat :| StaysIn(q, d, k, width, height) && i == IndexOf(Step(q, d, k), width, height);
      StaysInNext(p, d, k, width, height);
      StepNext(p, d, k);
    }
  }

  // ---------------------------------------------------------------------
  // Unions over the pairs of a list
  // ---------------------------------------------------------------------

  /** The union of `sets(a, b)` over a < b < bEnd: the pairs `combinations(2)` yields starting with `a`. */
  function UnionFrom(sets: (nat, nat) -> set<nat>, a: nat, bEnd: nat): set<nat>
  {
    if bEnd <= a + 1 then {} else UnionFrom(sets, a, bEnd - 1) + sets(a, bEnd - 1)
  }

  /** The union of `sets(a, b)` over a < aEnd and a < b < n. */
  function UnionPairs(sets: (nat, nat) -> set<nat>, n: nat, aEnd: nat): set<nat>
  {
    if aEnd == 0 then {} else UnionPairs(sets, n, aEnd - 1) + UnionFrom(sets, aEnd - 1, n)
  }

  lemma {:induction false} UnionFromMembers(sets: (nat, nat) -> set<nat>, a: nat, bEnd: nat, i: nat)
    ensures i in UnionFrom(sets, a, bEnd) <==> exists b: nat :: a < b < bEnd && i in sets(a, b)
  {
    if bEnd > a + 1 {
      UnionFromMembers(sets, a, bEnd - 1, i);
    }
  }

  /** The loops over the pairs visit every pair (a, b) with a < b < n exactly when a is below `aEnd`. */
  lemma {:induction false} UnionPairsMembers(sets: (nat, nat) -> set<nat>, n: nat, aEnd: nat, i: nat)
    ensures i in UnionPairs(sets, n, aEnd) <==> exists a: nat, b: nat :: a < aEnd && a < b < n && i in sets(a, b)
  {
    if aEnd > 0 {
      UnionPairsMembers(sets, n, aEnd - 1, i);
      UnionFromMembers(sets, aEnd - 1, n, i);
    }
  }

  // ---------------------------------------------------------------------
  // Antinodes of one frequency and of the whole map
  // ---------------------------------------------------------------------

  /** No index is listed twice. */
  predicate Distinct(indices: seq<nat>)
  {
    forall a, b :: 0 <= a < b < |indices| ==> indices[a] != indices[b]
  }

  /** The antinodes of the pair (a, b) of a frequency's antenna list. */
  function PairAntinodes(indices: seq<nat>, a: nat, b: nat, width: nat, height: nat, harmonics: bool): set<nat>
    requires a < b < |indices| && width > 0
  {
    var p1, p2 := IndexToCoordinate(indices[a], width), IndexToCoordinate(indices[b], width);
    if harmonics then PairAntinodes2(p1, p2, width, height) else PairAntinodes1(p1, p2, width, height)
  }

  /** The antinodes of every pair of a frequency, as a function of the pair's positions in the list. */
  function PairSets(indices: seq<nat>, width: nat, height: nat, harmonics: bool): (nat, nat) -> set<nat>
  {
    (a: nat, b: nat) => if a < b < |indices| && width > 0 then PairAntinodes(indices, a, b, width, height, harmonics) else {}
  }

  /** One more second antenna `b` for the first antenna `a`. */
  lemma UnionFromStep(acc: set<nat>, indices: seq<nat>, a: nat, b: nat, width: nat, height: nat, harmonics: bool)
    requires a < b < |indices| && width > 0
    ensures acc + UnionFrom(PairSets(indices, width, height, harmonics), a, b) + PairAntinodes(indices, a, b, width, height, harmonics)
      == acc + UnionFrom(PairSets(indices, width, height, harmonics), a, b + 1)
  {
  }

  /** The antinodes of one frequency; part 2 also counts the antennas themselves. */
  function FrequencyAntinodes(indices: seq<nat>, width: nat, height: nat, harmonics: bool): set<nat>
  {
    if |indices| == 1 then {}
    else (if harmonics then set i | i in indices else {}) +
         UnionPairs(PairSets(indices, width, height, harmonics), |indices|, |indices|)
  }

  /** Every frequency with two or more antennas needs a nonzero width to place them. */
  predicate Divisible(towerIndex: map<char, seq<nat>>, width: nat)
  {
    forall f :: f in towerIndex && |towerIndex[f]| >= 2 ==> width > 0
  }

  predicate Separated(towerIndex: map<char, seq<nat>>)
  {
    forall f :: f in towerIndex ==> Distinct(towerIndex[f])
  }

  /** The antinodes of the frequencies in `among`. */
  function AntinodesAmong(towerIndex: map<char, seq<nat>>, among: set<char>, width: nat, height: nat, harmonics: bool): set<nat>
  {
    set f, i | f in among && f in towerIndex && i in FrequencyAntinodes(towerIndex[f], width, height, harmonics) :: i
  }

  /** The antinodes of the whole map: part 1 without harmonics, part 2 with. */
  function Antinodes(towerIndex: map<char, seq<nat>>, width: nat, height: nat, harmonics: bool): set<nat>
  {
    AntinodesAmong(towerIndex, towerIndex.Keys, width, height, harmonics)
  }

  /** Taking one more frequency adds its antinodes. */
  lemma AntinodesAmongStep(towerIndex: map<char, seq<nat>>, among: set<char>, f: char, width: nat, height: nat, harmonics: bool)
    requires f in towerIndex
    ensures AntinodesAmong(towerIndex, among + {f}, width, height, harmonics)
         == AntinodesAmong(towerIndex, among, width, height, harmonics) + FrequencyAntinodes(towerIndex[f], width, height, harmonics)
  {
  }

  // ---------------------------------------------------------------------
  // The antinodes under the conversion as written
  // ---------------------------------------------------------------------

  /** The antinodes of the pair (a, b) when positions come from the conversion as written. */
  function PairAntinodesAsWritten(indices: seq<nat>, a: nat, b: nat, width: nat, height: nat, harmonics: bool): set<nat>
    requires a < b < |indices| && width > 0 && height > 0
  {
    var p1, p2 := IndexToCoordinateAsWritten(indices[a], width, height), IndexToCoordinateAsWritten(indices[b], width, height);
    if harmonics then PairAntinodes2(p1, p2, width, height) else PairAntinodes1(p1, p2, width, height)
  }

  function PairSetsAsWritten(indices: seq<nat>, width: nat, height: nat, harmonics: bool): (nat, nat) -> set<nat>
  {
    (a: nat, b: nat) => if a < b < |indices| && width > 0 && height > 0 then PairAntinodesAsWritten(indices, a, b, width, height, harmonics) else {}
  }

  function FrequencyAntinodesAsWritten(indices: seq<nat>, width: nat, height: nat, harmonics: bool): set<nat>
  {
    if |indices| == 1 then {}
    else (if harmonics then set i | i in indices else {}) +
         UnionPairs(PairSetsAsWritten(indices, width, height, harmonics), |indices|, |indices|)
  }

  /** The antinodes of the whole map as the source computes them, where its loops end. */
  function AntinodesAsWritten(towerIndex: map<char, seq<nat>>, width: nat, height: nat, harmonics: bool): set<nat>
  {
    set f, i | f in towerIndex && i in FrequencyAntinodesAsWritten(towerIndex[f], width, height, harmonics) :: i
  }

  lemma {:induction false} UnionFromAgree(f: (nat, nat) -> set<nat>, g: (nat, nat) -> set<nat>, a: nat, bEnd: nat)
    requires forall b: nat :: f(a, b) == g(a, b)
    ensures UnionFrom(f, a, bEnd) == UnionFrom(g, a, bEnd)
  {
    if bEnd > a + 1 {
      UnionFromAgree(f, g, a, bEnd - 1);
    }
  }

  /** Unions over the pairs depend only on the sets of the pairs. */
  lemma {:induction false} UnionPairsAgree(f: (nat, nat) -> set<nat>, g: (nat, nat) -> set<nat>, n: nat, aEnd: nat)
    requires forall a: nat, b: nat :: f(a, b) == g(a, b)
    ensures UnionPairs(f, n, aEnd) == UnionPairs(g, n, aEnd)
  {
    if aEnd > 0 {
      UnionPairsAgree(f, g, n, aEnd - 1);
      UnionFromAgree(f, g, aEnd - 1, n);
    }
  }

  lemma FrequencyAsWrittenOnSquare(indices: seq<nat>, size: nat, harmonics: bool)
    requires size > 0
    ensures FrequencyAntinodesAsWritten(indices, size, size, harmonics) == FrequencyAntinodes(indices, size, size, harmonics)
  {
    var f, g := PairSetsAsWritten(indices, size, size, harmonics), PairSets(indices, size, size, harmonics);
    forall a: nat, b: nat
      ensures f(a, b) == g(a, b)
    {
      if a < b < |indices| {
        AsWrittenOnSquare(indices[a], size);
        AsWrittenOnSquare(indices[b], size);
      }
    }
    UnionPairsAgree(f, g, |indices|, |indices|);
  }

  /** On a square grid the source's antinodes are the ones the model computes. */
  lemma AsWrittenAntinodesOnSquare(towerIndex: map<char, seq<nat>>, size: nat, harmonics: bool)
    requires size > 0
    ensures AntinodesAsWritten(towerIndex, size, size, harmonics) == Antinodes(towerIndex, size, size, harmonics)
  {
    forall f | f in towerIndex
      ensures FrequencyAntinodesAsWritten(towerIndex[f], size, size, harmonics) == FrequencyAntinodes(towerIndex[f], size, size, harmonics)
    {
      FrequencyAsWrittenOnSquare(towerIndex[f], size, harmonics);
    }
  }

  /**
   * On the one-row grid `aa..` the conversion as written puts the second
   * antenna at (1, 1), outside the row, and finds no antinode ...
   */
  lemma AsWrittenMissesOnWideGrid(indices: seq<nat>)
    requires indices == [0, 1]
    ensures FrequencyAntinodesAsWritten(indices, 4, 1, false) == {}
  {
    PairOfTwo(indices, 4, 1);
    assert indices[0] == 0 && indices[1] == 1;
    OneRowCoordinates();
    OneRowPairs();
    var p1, p2 := IndexToCoordinateAsWritten(indices[0], 4, 1), IndexToCoordinateAsWritten(indices[1], 4, 1);
    assert PairAntinodesAsWritten(indices, 0, 1, 4, 1, false) == PairAntinodes1(p1, p2, 4, 1);
  }

  /** ... while with the row taken as `index / width` it finds the antinode at index 2. */
  lemma AntinodeOnWideGrid(indices: seq<nat>)
    requires indices == [0, 1]
    ensures FrequencyAntinodes(indices, 4, 1, false) == {2}
  {
    PairOfTwo(indices, 4, 1);
    assert indices[0] == 0 && indices[1] == 1;
    OneRowCoordinates();
    OneRowPairs();
    var q1, q2 := IndexToCoordinate(indices[0], 4), IndexToCoordinate(indices[1], 4);
    assert PairAntinodes(indices, 0, 1, 4, 1, false) == PairAntinodes1(q1, q2, 4, 1);
  }

  /** A frequency with two antennas has the antinodes of its one pair. */
  lemma PairOfTwo(indices: seq<nat>, width: nat, height: nat)
    requires |indices| == 2 && width > 0 && height > 0
    ensures FrequencyAntinodesAsWritten(indices, width, height, false) == PairAntinodesAsWritten(indices, 0, 1, width, height, false)
    ensures FrequencyAntinodes(indices, width, height, false) == PairAntinodes(indices, 0, 1, width, height, false)
  {
    UnionPairsOfTwo(PairSetsAsWritten(indices, width, height, false));
    UnionPairsOfTwo(PairSets(indices, width, height, false));
    assert PairSetsAsWritten(indices, width, height, false)(0, 1) == PairAntinodesAsWritten(indices, 0, 1, width, height, false);
    assert PairSets(indices, width, height, false)(0, 1) == PairAntinodes(indices, 0, 1, width, height, false);
  }

  /** Where the two conversions put the antennas of the example. */
  lemma OneRowCoordinates()
    ensures IndexToCoordinateAsWritten(0, 4, 1) == (0, 0) && IndexToCoordinateAsWritten(1, 4, 1) == (1, 1)
    ensures IndexToCoordinate(0, 4) == (0, 0) && IndexToCoordinate(1, 4) == (0, 1)
  {
  }

  /** The two pairs of the example: one diagonal, leaving the row; one along the row. */
  lemma OneRowPairs()
    ensures PairAntinodes1((0, 0), (1, 1), 4, 1) == {}
    ensures PairAntinodes1((0, 0), (0, 1), 4, 1) == {2}
  {
    forall i
      ensures i !in PairAntinodes1((0, 0), (1, 1), 4, 1)
      ensures i in PairAntinodes1((0, 0), (0, 1), 4, 1) <==> i == 2
    {
    }
  }

  /** A list of two antennas has the one pair (0, 1). */
  lemma UnionPairsOfTwo(sets: (nat, nat) -> set<nat>)
    ensures UnionPairs(sets, 2, 2) == sets(0, 1)
  {
    assert UnionFrom(sets, 0, 2) == sets(0, 1);
    assert UnionPairs(sets, 2, 1) == sets(0, 1);
  }

  // ---------------------------------------------------------------------
  // Parsing: the scan over the grid
  // ---------------------------------------------------------------------

  /** The antennas seen so far: by index, and for each frequency its indices in scan order. */
  datatype Scan = Scan(towers: map<nat, char>, towerIndex: map<char, seq<nat>>)

  /** One cell of the scan: a cell other than `.` is an antenna at `index`. */
  function Record(s: Scan, index: nat, cell: char): Scan
  {
    if cell == '.' then s
    else
      var listed: seq<nat> := if cell in s.towerIndex then s.towerIndex[cell] else [];
      Scan(s.towers[index := cell], s.towerIndex[cell := listed + [index]])
  }

  /** The first `n` cells of row `r`. */
  function ScanRow(s: Scan, row: string, r: nat, width: nat, n: nat): Scan
    requires n <= |row|
  {
    if n == 0 then s
    else Record(ScanRow(s, row, r, width, n - 1), CoordinateToIndex(r, n - 1, width), row[n - 1])
  }

  /** The first `n` rows. */
  function ScanRows(rows: seq<string>, width: nat, n: nat): Scan
    requires n <= |rows|
  {
    if n == 0 then Scan(map[], map[])
    else ScanRow(ScanRows(rows, width, n - 1), rows[n - 1], n - 1, width, |rows[n - 1]|)
  }

  /** The lines of the input, each trimmed. */
  function TrimAll(lines: seq<string>): (rows: seq<string>)
    ensures |rows| == |lines|
  {
    seq(|lines|, r requires 0 <= r < |lines| => Trim(lines[r]))
  }

  function Grid(input: string): seq<string>
  {
    TrimAll(Lines(input))
  }

  /** The width is the length of the first trimmed line. */
  function GridWidth(input: string): nat
    requires Lines(input) != []
  {
    |Grid(input)[0]|
  }

  function Parsed(input: string): Scan
    requires Lines(input) != []
  {
    ScanRows(Grid(input), GridWidth(input), |Grid(input)|)
  }

  /** No row is longer than the first, so no two cells share an index. */
  predicate Fits(rows: seq<string>, width: nat)
  {
    forall r :: 0 <= r < |rows| ==> |rows[r]| <= width
  }

  predicate Increasing(indices: seq<nat>)
  {
    forall a, b :: 0 <= a < b < |indices| ==> indices[a] < indices[b]
  }

  /**
   * The two maps of a scan agree, every frequency's list is nonempty and in
   * increasing order, and every index is below `bound`.
   */
  predicate Indexed(s: Scan, bound: nat)
  {
    (forall i :: i in s.towers ==> i < bound && s.towers[i] in s.towerIndex && i in s.towerIndex[s.towers[i]]) &&
    (forall f :: f in s.towerIndex ==>
      |s.towerIndex[f]| > 0 && Increasing(s.towerIndex[f]) &&
      forall k :: 0 <= k < |s.towerIndex[f]| ==> s.towerIndex[f][k] in s.towers && s.towers[s.towerIndex[f][k]] == f)
  }

  lemma RecordIndexed(s: Scan, index: nat, cell: char)
    requires Indexed(s, index)
    ensures Indexed(Record(s, index, cell), index + 1)
  {
    if cell != '.' {
      var t := Record(s, index, cell);
      var listed: seq<nat> := if cell in s.towerIndex then s.towerIndex[cell] else [];
      assert t.towerIndex[cell] == listed + [index];
      forall k | 0 <= k < |listed|
        ensures listed[k] < index && listed[k] in t.towers && t.towers[listed[k]] == cell
      {
      }
    }
  }

  lemma {:induction false} ScanRowIndexed(s: Scan, row: string, r: nat, width: nat, n: nat)
    requires n <= |row| <= width
    requires Indexed(s, CoordinateToIndex(r, 0, width))
    ensures Indexed(ScanRow(s, row, r, width, n), CoordinateToIndex(r, n, width))
  {
    if n > 0 {
      ScanRowIndexed(s, row, r, width, n - 1);
      RecordIndexed(ScanRow(s, row, r, width, n - 1), CoordinateToIndex(r, n - 1, width), row[n - 1]);
    }
  }

  lemma IndexedWeaken(s: Scan, bound: nat, bound': nat)
    requires Indexed(s, bound) && bound <= bound'
    ensures Indexed(s, bound')
  {
  }

  /** Scanning rows that fit gives agreeing maps whose lists are in increasing order. */
  lemma {:induction false} ScanIndexed(rows: seq<string>, width: nat, n: nat)
    requires n <= |rows| && Fits(rows, width)
    ensures Indexed(ScanRows(rows, width, n), n * width)
  {
    if n > 0 {
      ScanIndexed(rows, width, n - 1);
      assert CoordinateToIndex(n - 1, 0, width) == (n - 1) * width;
      ScanRowIndexed(ScanRows(rows, width, n - 1), rows[n - 1], n - 1, width, |rows[n - 1]|);
      assert CoordinateToIndex(n - 1, |rows[n - 1]|, width) <= n * width by {
        assert (n - 1) * width + width == n * width;
      }
      IndexedWeaken(ScanRows(rows, width, n), CoordinateToIndex(n - 1, |rows[n - 1]|, width), n * width);
    }
  }

  /** The cells of a row after scanning its first `n` cells, and nothing before the row disturbed. */
  lemma {:induction false} ScanRowCells(s: Scan, row: string, r: nat, width: nat, n: nat)
    requires n <= |row| <= width
    requires forall i :: i in s.towers ==> i < CoordinateToIndex(r, 0, width)
    ensures var t := ScanRow(s, row, r, width, n).towers;
      (forall i :: i < CoordinateToIndex(r, 0, width) ==> (i in t <==> i in s.towers) && (i in t ==> t[i] == s.towers[i])) &&
      (forall i :: i in t ==> i < CoordinateToIndex(r, n, width)) &&
      (forall c :: 0 <= c < n ==>
        (CoordinateToIndex(r, c, width) in t <==> row[c] != '.') &&
        (row[c] != '.' ==> t[CoordinateToIndex(r, c, width)] == row[c]))
  {
    if n > 0 {
      ScanRowCells(s, row, r, width, n - 1);
    }
  }

  /** Every cell of the scanned rows: an antenna exactly where the cell is not `.`, holding that cell's frequency. */
  predicate Cells(t: map<nat, char>, rows: seq<string>, width: nat, n: nat)
    requires n <= |rows|
  {
    forall r, c :: 0 <= r < n && 0 <= c < |rows[r]| ==>
      (CoordinateToIndex(r, c, width) in t <==> rows[r][c] != '.') &&
      (rows[r][c] != '.' ==> t[CoordinateToIndex(r, c, width)] == rows[r][c])
  }

  /** `parse` puts each antenna of rows that fit under its row-major index, and nothing else. */
  lemma {:induction false} ScanCells(rows: seq<string>, width: nat, n: nat)
    requires n <= |rows| && Fits(rows, width)
    ensures Cells(ScanRows(rows, width, n).towers, rows, width, n)
    ensures forall i :: i in ScanRows(rows, width, n).towers ==> i < n * width
  {
    if n > 0 {
      var s := ScanRows(rows, width, n - 1);
      var t := ScanRows(rows, width, n).towers;
      ScanCells(rows, width, n - 1);
      assert CoordinateToIndex(n - 1, 0, width) == (n - 1) * width;
      ScanRowCells(s, rows[n - 1], n - 1, width, |rows[n - 1]|);
      forall r, c | 0 <= r < n - 1 && 0 <= c < |rows[r]|
        ensures CoordinateToIndex(r, c, width) < CoordinateToIndex(n - 1, 0, width)
      {
        MulLess(r, n - 1, width);
      }
      assert CoordinateToIndex(n - 1, |rows[n - 1]|, width) <= n * width by {
        assert (n - 1) * width + width == n * width;
      }
    }
  }

  /** After scanning rows that fit, the antinode calculations can run. */
  lemma ScanValid(rows: seq<string>, width: nat)
    requires Fits(rows, width)
    ensures Divisible(ScanRows(rows, width, |rows|).towerIndex, width)
    ensures Separated(ScanRows(rows, width, |rows|).towerIndex)
  {
    var s := ScanRows(rows, width, |rows|);
    ScanIndexed(rows, width, |rows|);
    forall f | f in s.towerIndex
      ensures width > 0 && Distinct(s.towerIndex[f])
    {
      assert s.towerIndex[f][0] in s.towers;
    }
  }

  // ---------------------------------------------------------------------
  // Properties of the antinode sets
  // ---------------------------------------------------------------------

  lemma PairAntinodesBounded(indices: seq<nat>, a: nat, b: nat, width: nat, height: nat, harmonics: bool)
    requires a < b < |indices| && width > 0
    ensures forall i :: i in PairAntinodes(indices, a, b, width, height, harmonics) ==> i < width * height
  {
    if harmonics {
      var p1, p2 := IndexToCoordinate(indices[a], width), IndexToCoordinate(indices[b], width);
      var d := Sub(p2, p1);
      WalkBounded(Sub(p1, d), Sub((0, 0), d), width, height);
      WalkBounded(Add(p2, d), d, width, height);
    }
  }

  /** Every antenna of the map is a grid cell. */
  predicate OnGrid(towerIndex: map<char, seq<nat>>, width: nat, height: nat)
  {
    forall f, k :: f in towerIndex && 0 <= k < |towerIndex[f]| ==> towerIndex[f][k] < width * height
  }

  /**
   * Every antinode is the index of a grid cell. Part 2 also counts the
   * antennas, so there they must lie on the grid too.
   */
  lemma AntinodesBounded(towerIndex: map<char, seq<nat>>, width: nat, height: nat, harmonics: bool)
    requires harmonics ==> OnGrid(towerIndex, width, height)
    ensures forall i :: i in Antinodes(towerIndex, width, height, harmonics) ==> i < width * height
  {
    forall f, i | f in towerIndex && i in FrequencyAntinodes(towerIndex[f], width, height, harmonics)
      ensures i < width * height
    {
      var indices := towerIndex[f];
      var sets := PairSets(indices, width, height, harmonics);
      if i in UnionPairs(sets, |indices|, |indices|) {
        UnionPairsMembers(sets, |indices|, |indices|, i);
        var a: nat, b: nat :| a < |indices| && a < b < |indices| && i in sets(a, b);
        PairAntinodesBounded(indices, a, b, width, height, harmonics);
      }
    }
  }

  lemma FrequencyPart1InPart2(indices: seq<nat>, width: nat, height: nat, i: nat)
    requires Distinct(indices)
    ensures i in FrequencyAntinodes(indices, width, height, false) ==> i in FrequencyAntinodes(indices, width, height, true)
  {
    var n := |indices|;
    var reflections, harmonics := PairSets(indices, width, height, false), PairSets(indices, width, height, true);
    if i in FrequencyAntinodes(indices, width, height, false) {
      UnionPairsMembers(reflections, n, n, i);
      var a: nat, b: nat :| a < n && a < b < n && i in reflections(a, b);
      IndexToCoordinateInjective(indices[a], indices[b], width);
      PairAntinodes1In2(IndexToCoordinate(indices[a], width), IndexToCoordinate(indices[b], width), width, height);
      assert i in harmonics(a, b);
      UnionPairsMembers(harmonics, n, n, i);
    }
  }

  /** Every part 1 antinode is also a part 2 antinode. */
  lemma Part1InPart2(towerIndex: map<char, seq<nat>>, width: nat, height: nat)
    requires Separated(towerIndex)
    ensures Antinodes(towerIndex, width, height, false) <= Antinodes(towerIndex, width, height, true)
  {
    forall i | i in Antinodes(towerIndex, width, height, false)
      ensures i in Antinodes(towerIndex, width, height, true)
    {
      var f :| f in towerIndex && i in FrequencyAntinodes(towerIndex[f], width, height, false);
      FrequencyPart1InPart2(towerIndex[f], width, height, i);
    }
  }

  /** A frequency with a single antenna adds nothing, in either part. */
  lemma LoneAntenna(towerIndex: map<char, seq<nat>>, f: char, index: nat, width: nat, height: nat, harmonics: bool)
    ensures Antinodes(towerIndex[f := [index]], width, height, harmonics) == Antinodes(towerIndex - {f}, width, height, harmonics)
  {
    var with, without := towerIndex[f := [index]], towerIndex - {f};
    assert FrequencyAntinodes(with[f], width, height, harmonics) == {};
    forall i | i in Antinodes(with, width, height, harmonics)
      ensures i in Antinodes(without, width, height, harmonics)
    {
      var g :| g in with && i in FrequencyAntinodes(with[g], width, height, harmonics);
      assert g in without && without[g] == with[g];
    }
    forall i | i in Antinodes(without, width, height, harmonics)
      ensures i in Antinodes(with, width, height, harmonics)
    {
      var g :| g in without && i in FrequencyAntinodes(without[g], width, height, harmonics);
      assert g in with && with[g] == without[g];
    }
  }

  /**
   * Two antennas of one frequency at (3, 4) and (5, 5) on a 10 by 10 grid:
   * part 1 places antinodes at (1, 3) and (7, 6); part 2 adds the antennas
   * and (9, 7), the next step past (7, 6).
   */
  lemma TwoAntennas()
    ensures FrequencyAntinodes([34, 55], 10, 10, false) == {13, 76}
    ensures FrequencyAntinodes([34, 55], 10, 10, true) == {13, 34, 55, 76, 97}
  {
    assert IndexToCoordinate(34, 10) == (3, 4) && IndexToCoordinate(55, 10) == (5, 5);
    assert PairAntinodes1((3, 4), (5, 5), 10, 10) == {13, 76};
    assert Walk((1, 3), (-2, -1), 10, 10) == {13};
    assert Walk((7, 6), (2, 1), 10, 10) == {76, 97};
    UnionPairsMembersOne(PairSets([34, 55], 10, 10, false));
    UnionPairsMembersOne(PairSets([34, 55], 10, 10, true));
  }

  /** With two elements the only pair is (0, 1). */
  lemma UnionPairsMembersOne(sets: (nat, nat) -> set<nat>)
    ensures UnionPairs(sets, 2, 2) == sets(0, 1)
  {
  }

  // ---------------------------------------------------------------------
  // The map
  // ---------------------------------------------------------------------

  /** The antennas of a grid, by index and by frequency, and the antinodes found so far. */
  class Map {
    var towers: map<nat, char>
    var towerIndex: map<char, seq<nat>>
    const width: nat
    const height: nat
    var antinodes: set<nat>

    /** `parse`: scans the trimmed lines; the width is that of the first line. */
    constructor Parse(input: string)
      requires Lines(input) != []
      ensures width == GridWidth(input) && height == |Lines(input)|
      ensures Scan(towers, towerIndex) == Parsed(input)
      ensures antinodes == {}
    {
      var lines := Lines(input);
      var w := |Trim(lines[0])|;
      var ts, ti := ScanLines(lines, w);
      width, height := w, |lines|;
      towers, towerIndex, antinodes := ts, ti, {};
    }

    /** `Display` for `Map`: each row's antennas, `.` elsewhere, a newline after each row. */
    function Display(): string
      reads this
    {
      Render(towers, {}, width, height)
    }

    /** `Display` for `AntinodeMap`: antennas first, then `#` for antinodes, `.` elsewhere. */
    function DisplayAntinodes(): string
      reads this
    {
      Render(towers, antinodes, width, height)
    }

    /** What the antinode calculations need: a width to divide by, and no antenna listed twice. */
    predicate Valid()
      reads this
    {
      Divisible(towerIndex, width) && Separated(towerIndex)
    }

    /** `calculate_antinodes_part1`: adds the reflections of every pair of every frequency. */
    method CalculateAntinodesPart1()
      requires Divisible(towerIndex, width)
      modifies this`antinodes
      ensures antinodes == old(antinodes) + Antinodes(towerIndex, width, height, false)
    {
      var frequencies := towerIndex.Keys;
      while frequencies != {}
        invariant frequencies <= towerIndex.Keys
        invariant antinodes == old(antinodes) + AntinodesAmong(towerIndex, towerIndex.Keys - frequencies, width, height, false)
        decreases frequencies
      {
        var f :| f in frequencies;
        AntinodesAmongStep(towerIndex, towerIndex.Keys - frequencies, f, width, height, false);
        AddFrequency(towerIndex[f], false);
        assert towerIndex.Keys - (frequencies - {f}) == (towerIndex.Keys - frequencies) + {f};
        frequencies := frequencies - {f};
      }
    }

    /** `calculate_antinodes_part2`: adds the antennas and the whole lines through every pair. */
    method CalculateAntinodesPart2()
      requires Valid()
      modifies this`antinodes
      ensures antinodes == old(antinodes) + Antinodes(towerIndex, width, height, true)
    {
      var frequencies := towerIndex.Keys;
      while frequencies != {}
        invariant frequencies <= towerIndex.Keys
        invariant antinodes == old(antinodes) + AntinodesAmong(towerIndex, towerIndex.Keys - frequencies, width, height, true)
        decreases frequencies
      {
        var f :| f in frequencies;
        AntinodesAmongStep(towerIndex, towerIndex.Keys - frequencies, f, width, height, true);
        AddFrequency(towerIndex[f], true);
        assert towerIndex.Keys - (frequencies - {f}) == (towerIndex.Keys - frequencies) + {f};
        frequencies := frequencies - {f};
      }
    }

    /** The body of either calculation for one frequency's antennas. */
    method AddFrequency(indices: seq<nat>, harmonics: bool)
      requires |indices| >= 2 ==> width > 0
      requires harmonics ==> Distinct(indices)
      modifies this`antinodes
      ensures antinodes == old(antinodes) + FrequencyAntinodes(indices, width, height, harmonics)
    {
      if |indices| == 1 {
        return;
      }
      if harmonics {
        antinodes := antinodes + set i | i in indices;
      }
      AddPairs(indices, harmonics);
    }

    /** Every pair of antennas, in the order `combinations(2)` yields them. */
    method AddPairs(indices: seq<nat>, harmonics: bool)
      requires |indices| >= 2 ==> width > 0
      requires harmonics ==> Distinct(indices)
      modifies this`antinodes
      ensures antinodes == old(antinodes) + UnionPairs(PairSets(indices, width, height, harmonics), |indices|, |indices|)
    {
      for a := 0 to |indices|
        invariant antinodes == old(antinodes) + UnionPairs(PairSets(indices, width, height, harmonics), |indices|, a)
      {
        AddPairsFrom(indices, a, harmonics);
      }
    }

    /** The pairs `combinations(2)` yields whose first antenna is `indices[a]`. */
    method AddPairsFrom(indices: seq<nat>, a: nat, harmonics: bool)
      requires a < |indices| && (|indices| >= 2 ==> width > 0)
      requires harmonics ==> Distinct(indices)
      modifies this`antinodes
      ensures antinodes == old(antinodes) + UnionFrom(PairSets(indices, width, height, harmonics), a, |indices|)
    {
      for b := a + 1 to |indices|
        invariant antinodes == old(antinodes) + UnionFrom(PairSets(indices, width, height, harmonics), a, b)
      {
        AddNextPair(indices, a, b, harmonics, old(antinodes));
      }
    }

    /** One iteration of the inner loop of `AddPairsFrom`. */
    method AddNextPair(indices: seq<nat>, a: nat, b: nat, harmonics: bool, ghost start: set<nat>)
      requires a < b < |indices| && width > 0
      requires harmonics ==> Distinct(indices)
      requires antinodes == start + UnionFrom(PairSets(indices, width, height, harmonics), a, b)
      modifies this`antinodes
      ensures antinodes == start + UnionFrom(PairSets(indices, width, height, harmonics), a, b + 1)
    {
      UnionFromStep(start, indices, a, b, width, height, harmonics);
      AddPair(indices, a, b, harmonics);
      assert antinodes == start + UnionFrom(PairSets(indices, width, height, harmonics), a, b) + PairAntinodes(indices, a, b, width, height, harmonics);
    }

    method AddPair(indices: seq<nat>, a: nat, b: nat, harmonics: bool)
      requires a < b < |indices| && width > 0
      requires harmonics ==> Distinct(indices)
      modifies this`antinodes
      ensures antinodes == old(antinodes) + PairAntinodes(indices, a, b, width, height, harmonics)
    {
      var p1, p2 := IndexToCoordinate(indices[a], width), IndexToCoordinate(indices[b], width);
      if harmonics {
        IndexToCoordinateInjective(indices[a], indices[b], width);
        AddHarmonics(p1, p2);
      } else {
        AddReflections(p1, p2);
      }
    }

    /** Part 1 for one pair: the two reflections that fall inside the grid. */
    method AddReflections(p1: Point, p2: Point)
      modifies this`antinodes
      ensures antinodes == old(antinodes) + PairAntinodes1(p1, p2, width, height)
    {
      var d := Sub(p2, p1);
      var antinode1, antinode2 := Sub(p1, d), Add(p2, d);
      if InBounds(antinode1, width, height) {
        antinodes := antinodes + {IndexOf(antinode1, width, height)};
      }
      if InBounds(antinode2, width, height) {
        antinodes := antinodes + {IndexOf(antinode2, width, height)};
      }
    }

    /** Part 2 for one pair: walk outward from each antenna until leaving the grid. */
    method AddHarmonics(p1: Point, p2: Point)
      requires p1 != p2
      modifies this`antinodes
      ensures antinodes == old(antinodes) + PairAntinodes2(p1, p2, width, height)
    {
      var d := Sub(p2, p1);
      AddWalk(Sub(p1, d), Sub((0, 0), d));
      AddWalk(Add(p2, d), d);
    }

    method AddWalk(start: Point, step: Point)
      requires step != (0, 0)
      modifies this`antinodes
      ensures antinodes == old(antinodes) + Walk(start, step, width, height)
    {
      var p := start;
      while InBounds(p, width, height)
        invariant antinodes + Walk(p, step, width, height) == old(antinodes) + Walk(start, step, width, height)
        decreases Room(p, step, width, height)
      {
        antinodes := antinodes + {IndexOf(p, width, height)};
        p := Add(p, step);
      }
    }
  }

  /** One more trimmed line scanned. */
  lemma ScanRowsStep(lines: seq<string>, width: nat, row: nat)
    requires row < |lines|
    ensures ScanRows(TrimAll(lines), width, row + 1)
      == ScanRow(ScanRows(TrimAll(lines), width, row), Trim(lines[row]), row, width, |Trim(lines[row])|)
  {
  }

  /** The loop of `parse` over the lines, each trimmed. */
  method ScanLines(lines: seq<string>, width: nat) returns (towers: map<nat, char>, towerIndex: map<char, seq<nat>>)
    ensures Scan(towers, towerIndex) == ScanRows(TrimAll(lines), width, |lines|)
  {
    towers, towerIndex := map[], map[];
    for row := 0 to |lines|
      invariant Scan(towers, towerIndex) == ScanRows(TrimAll(lines), width, row)
    {
      var line := Trim(lines[row]);
      ScanRowsStep(lines, width, row);
      towers, towerIndex := ScanLine(towers, towerIndex, line, row, width);
    }
  }

  /** The body of `parse` for one trimmed line: records each cell other than `.`. */
  method ScanLine(towers: map<nat, char>, towerIndex: map<char, seq<nat>>, line: string, row: nat, width: nat)
    returns (towers': map<nat, char>, towerIndex': map<char, seq<nat>>)
    ensures Scan(towers', towerIndex') == ScanRow(Scan(towers, towerIndex), line, row, width, |line|)
  {
    towers', towerIndex' := towers, towerIndex;
    for col := 0 to |line|
      invariant Scan(towers', towerIndex') == ScanRow(Scan(towers, towerIndex), line, row, width, col)
    {
      ghost var before := Scan(towers', towerIndex');
      var cell := line[col];
      if cell != '.' {
        var index := CoordinateToIndex(row, col, width);
        towers' := towers'[index := cell];
        if cell in towerIndex' {
          towerIndex' := towerIndex'[cell := towerIndex'[cell] + [index]];
        } else {
          assert [] + [index] == [index];
          towerIndex' := towerIndex'[cell := [index]];
        }
      }
      assert Scan(towers', towerIndex') == Record(before, CoordinateToIndex(row, col, width), cell);
    }
  }

  // ---------------------------------------------------------------------
  // Display
  // ---------------------------------------------------------------------

  /** What a cell shows: its antenna, else `#` where it is marked, else `.`. */
  function Cell(towers: map<nat, char>, marks: set<nat>, index: nat): char
  {
    if index in towers then towers[index] else if index in marks then '#' else '.'
  }

  /** The first `n` cells of row `r`. */
  function RenderRow(towers: map<nat, char>, marks: set<nat>, r: nat, width: nat, n: nat): (line: string)
    ensures |line| == n
  {
    if n == 0 then [] else RenderRow(towers, marks, r, width, n - 1) + [Cell(towers, marks, CoordinateToIndex(r, n - 1, width))]
  }

  /** The first `n` rows, each followed by a newline. */
  function Render(towers: map<nat, char>, marks: set<nat>, width: nat, n: nat): string
  {
    if n == 0 then [] else Render(towers, marks, width, n - 1) + RenderRow(towers, marks, n - 1, width, width) + "\n"
  }

  lemma {:induction false} RenderRowScanned(t: map<nat, char>, rows: seq<string>, width: nat, r: nat, n: nat)
    requires r < |rows| && n <= |rows[r]| && Cells(t, rows, width, |rows|)
    ensures RenderRow(t, {}, r, width, n) == rows[r][..n]
  {
    if n > 0 {
      RenderRowScanned(t, rows, width, r, n - 1);
      assert rows[r][..n] == rows[r][..n - 1] + [rows[r][n - 1]];
    }
  }

  lemma {:induction false} RenderScanned(t: map<nat, char>, rows: seq<string>, width: nat, n: nat)
    requires n <= |rows| && Cells(t, rows, width, |rows|)
    requires forall r :: 0 <= r < |rows| ==> |rows[r]| == width
    ensures Render(t, {}, width, n) == Unlines(rows[..n])
  {
    if n > 0 {
      RenderScanned(t, rows, width, n - 1);
      RenderRowScanned(t, rows, width, n - 1, width);
      assert rows[n - 1][..width] == rows[n - 1];
      assert rows[..n] == rows[..n - 1] + [rows[n - 1]];
      UnlinesSnoc(rows[..n - 1], rows[n - 1]);
    }
  }

  /** Displaying a parsed rectangular grid writes its rows back out, one per line. */
  lemma DisplayParsed(rows: seq<string>, width: nat)
    requires forall r :: 0 <= r < |rows| ==> |rows[r]| == width
    ensures Render(ScanRows(rows, width, |rows|).towers, {}, width, |rows|) == Unlines(rows)
  {
    ScanCells(rows, width, |rows|);
    RenderScanned(ScanRows(rows, width, |rows|).towers, rows, width, |rows|);
    assert rows[..|rows|] == rows;
  }

  /** A row of grid cells: no whitespace, so neither `lines` nor `trim` changes it. */
  predicate GridRow(row: string)
  {
    forall k :: 0 <= k < |row| ==> !IsWhitespace(row[k])
  }

  lemma TrimAllRows(rows: seq<string>)
    requires forall r :: 0 <= r < |rows| ==> GridRow(rows[r])
    ensures TrimAll(rows) == rows
  {
    forall r | 0 <= r < |rows|
      ensures TrimAll(rows)[r] == rows[r]
    {
      var row := rows[r];
      assert GridRow(row);
      assert row == [] || (!IsWhitespace(row[0]) && !IsWhitespace(row[|row| - 1]));
      TrimNoop(row);
    }
  }

  lemma RowsOneLine(rows: seq<string>)
    requires forall r :: 0 <= r < |rows| ==> GridRow(rows[r])
    ensures forall r :: r in rows ==> NoChar(r, '\n')
  {
    forall r | r in rows
      ensures NoChar(r, '\n')
    {
      var j :| 0 <= j < |rows| && rows[j] == r;
      assert GridRow(rows[j]);
    }
  }

  /** The input of a grid written out one row per line reads back as those rows. */
  lemma GridOfRows(rows: seq<string>)
    requires forall r :: 0 <= r < |rows| ==> GridRow(rows[r])
    ensures Lines(Unlines(rows)) == rows && Grid(Unlines(rows)) == rows
  {
    RowsOneLine(rows);
    LinesUnlines(rows);
    TrimAllRows(rows);
  }

  /**
   * `parse` then `Display` gives back the grid written out: the input of a
   * rectangular grid, one row per line.
   */
  lemma ParseDisplay(rows: seq<string>)
    requires rows != [] && forall r :: 0 <= r < |rows| ==> |rows[r]| == |rows[0]| && GridRow(rows[r])
    ensures Lines(Unlines(rows)) == rows && GridWidth(Unlines(rows)) == |rows[0]|
    ensures Render(Parsed(Unlines(rows)).towers, {}, |rows[0]|, |rows|) == Unlines(rows)
  {
    GridOfRows(rows);
    DisplayParsed(rows, |rows[0]|);
  }

  lemma {:induction false} RenderRowAt(t: map<nat, char>, marks: set<nat>, r: nat, width: nat, n: nat, c: nat)
    requires c < n
    ensures RenderRow(t, marks, r, width, n)[c] == Cell(t, marks, CoordinateToIndex(r, c, width))
  {
    if c < n - 1 {
      RenderRowAt(t, marks, r, width, n - 1, c);
    }
  }

  lemma {:induction false} RenderLength(t: map<nat, char>, marks: set<nat>, width: nat, n: nat)
    ensures |Render(t, marks, width, n)| == n * (width + 1)
  {
    if n > 0 {
      RenderLength(t, marks, width, n - 1);
      assert (n - 1) * (width + 1) + width + 1 == n * (width + 1);
    }
  }

  /**
   * Each grid cell appears at its place in the display, one line of
   * `width` cells and a newline per row: the antenna, else `#` where
   * marked, else `.`.
   */
  lemma {:induction false} RenderAt(t: map<nat, char>, marks: set<nat>, width: nat, n: nat, r: nat, c: nat)
    requires r < n && c < width
    ensures CoordinateToIndex(r, c, width + 1) < |Render(t, marks, width, n)|
    ensures Render(t, marks, width, n)[CoordinateToIndex(r, c, width + 1)] == Cell(t, marks, CoordinateToIndex(r, c, width))
  {
    RenderLength(t, marks, width, n);
    RenderLength(t, marks, width, n - 1);
    MulLess(r, n, width + 1);
    if r == n - 1 {
      RenderRowAt(t, marks, r, width, width, c);
    } else {
      RenderAt(t, marks, width, n - 1, r, c);
    }
  }

  // ---------------------------------------------------------------------
  // The puzzle answers
  // ---------------------------------------------------------------------

  /** `part1`: the number of distinct part 1 antinodes. */
  method Part1(input: string) returns (count: nat)
    requires Lines(input) != []
    requires Divisible(Parsed(input).towerIndex, GridWidth(input))
    ensures count == |Antinodes(Parsed(input).towerIndex, GridWidth(input), |Lines(input)|, false)|
  {
    var map8 := new Map.Parse(input);
    map8.CalculateAntinodesPart1();
    count := |map8.antinodes|;
  }

  /** `part2`: the number of distinct part 2 antinodes. */
  method Part2(input: string) returns (count: nat)
    requires Lines(input) != []
    requires Divisible(Parsed(input).towerIndex, GridWidth(input)) && Separated(Parsed(input).towerIndex)
    ensures count == |Antinodes(Parsed(input).towerIndex, GridWidth(input), |Lines(input)|, true)|
  {
    var map8 := new Map.Parse(input);
    map8.CalculateAntinodesPart2();
    count := |map8.antinodes|;
  }
}
