/**
 * The worked examples of day 2's tests, on the parsed reports: the six
 * reports of the puzzle statement, ten reports that need a level removed,
 * and one report with a jump of four.
 */
module Day2Examples {
  import opened Wrappers
  import opened Day2

  const Example: seq<seq<int>> := [[7, 6, 4, 2, 1], [1, 2, 7, 8, 9], [9, 7, 6, 2, 1], [1, 3, 2, 4, 5], [8, 6, 4, 4, 1], [1, 3, 6, 7, 9]]

  const Edge: seq<seq<int>> := [
    [48, 46, 47, 49, 51, 54, 56], [1, 1, 2, 3, 4, 5], [1, 2, 3, 4, 5, 5], [5, 1, 2, 3, 4, 5], [1, 4, 3, 2, 1],
    [1, 6, 7, 8, 9], [1, 2, 3, 4, 3], [9, 8, 7, 6, 7], [7, 10, 8, 10, 11], [29, 28, 27, 25, 26, 25, 22, 20]]

  // ---------------------------------------------------------------------
  // Counting one report at a time
  // ---------------------------------------------------------------------

  /** One for a safe report, zero otherwise. */
  function SafeIndicator(report: seq<int>): nat
  {
    if Safe(report) then 1 else 0
  }

  lemma SafeCountLast(reports: seq<seq<int>>)
    requires |reports| > 0
    ensures SafeCount(reports) == SafeCount(reports[..|reports| - 1]) + SafeIndicator(reports[|reports| - 1])
  {
  }

  lemma SafeCountSix(reports: seq<seq<int>>)
    requires |reports| == 6
    ensures SafeCount(reports) == SafeIndicator(reports[0]) + SafeIndicator(reports[1]) + SafeIndicator(reports[2]) +
                                  SafeIndicator(reports[3]) + SafeIndicator(reports[4]) + SafeIndicator(reports[5])
  {
    var r5 := reports[..5];
    var r4 := r5[..4];
    var r3 := r4[..3];
    var r2 := r3[..2];
    var r1 := r2[..1];
    SafeCountLast(reports);
    SafeCountLast(r5);
    SafeCountLast(r4);
    SafeCountLast(r3);
    SafeCountLast(r2);
    SafeCountLast(r1);
    assert r1[..0] == [];
  }

  /** One for a report part 2 accepts, zero otherwise. */
  function ToleratedIndicator(report: seq<int>): nat
  {
    if Tolerated(report) then 1 else 0
  }

  lemma ToleratedCountLast(reports: seq<seq<int>>)
    requires |reports| > 0
    ensures ToleratedCount(reports) == ToleratedCount(reports[..|reports| - 1]) + ToleratedIndicator(reports[|reports| - 1])
  {
  }

  lemma ToleratedCountSix(reports: seq<seq<int>>)
    requires |reports| == 6
    ensures ToleratedCount(reports) == ToleratedIndicator(reports[0]) + ToleratedIndicator(reports[1]) +
                                       ToleratedIndicator(reports[2]) + ToleratedIndicator(reports[3]) +
                                       ToleratedIndicator(reports[4]) + ToleratedIndicator(reports[5])
  {
    var r5 := reports[..5];
    var r4 := r5[..4];
    var r3 := r4[..3];
    var r2 := r3[..2];
    var r1 := r2[..1];
    ToleratedCountLast(reports);
    ToleratedCountLast(r5);
    ToleratedCountLast(r4);
    ToleratedCountLast(r3);
    ToleratedCountLast(r2);
    ToleratedCountLast(r1);
    assert r1[..0] == [];
  }

  lemma ToleratedCountTen(reports: seq<seq<int>>)
    requires |reports| == 10
    ensures ToleratedCount(reports) == ToleratedIndicator(reports[0]) + ToleratedIndicator(reports[1]) +
                                       ToleratedIndicator(reports[2]) + ToleratedIndicator(reports[3]) +
                                       ToleratedIndicator(reports[4]) + ToleratedIndicator(reports[5]) +
                                       ToleratedIndicator(reports[6]) + ToleratedIndicator(reports[7]) +
                                       ToleratedIndicator(reports[8]) + ToleratedIndicator(reports[9])
  {
    var r9 := reports[..9];
    var r8 := r9[..8];
    var r7 := r8[..7];
    var r6 := r7[..6];
    ToleratedCountLast(reports);
    ToleratedCountLast(r9);
    ToleratedCountLast(r8);
    ToleratedCountLast(r7);
    ToleratedCountSix(r6);
  }

  // ---------------------------------------------------------------------
  // Ways part 2 accepts or rejects a report
  // ---------------------------------------------------------------------

  lemma ToleratedDroppingFirst(x: int, rest: seq<int>)
    requires FirstBreak(rest).None?
    ensures Tolerated([x] + rest)
  {
    assert ([x] + rest)[1..] == rest;
  }

  /** A report whose only break is at its last level is accepted by dropping that level. */
  lemma ToleratedLastBreak(v: seq<int>)
    requires FirstBreak(v) == Some(|v| - 1)
    ensures Tolerated(v)
  {
    LastBreakPrefixSafe(v);
  }

  lemma ToleratedRemoving(v: seq<int>, i: nat, k: nat)
    requires FirstBreak(v) == Some(i) && (k == i || k + 1 == i) && FirstBreak(RemoveAt(v, k)).None?
    ensures Tolerated(v)
  {
  }

  lemma NotTolerated(v: seq<int>, i: nat)
    requires FirstBreak(v) == Some(i)
    requires FirstBreak(v[1..]).Some? && FirstBreak(v[..|v| - 1]).Some?
    requires FirstBreak(RemoveAt(v, i)).Some? && FirstBreak(RemoveAt(v, i - 1)).Some?
    ensures !Tolerated(v)
  {
    ToleratedTrials(v, i);
  }

  // ---------------------------------------------------------------------
  // The reports one by one
  // ---------------------------------------------------------------------

  /** The rest of the verdicts of part 1 on the example, and the report with a jump of four. */
  lemma MoreSafeExamples()
    ensures !Safe([9, 7, 6, 2, 1]) && !Safe([8, 6, 4, 4, 1]) && Safe([1, 3, 6, 7, 9])
    ensures !Safe([1, 2, 4, 6, 8, 9, 13])
  {
    var a, b, c := [9, 7, 6, 2, 1], [8, 6, 4, 4, 1], [1, 2, 4, 6, 8, 9, 13];
    assert !DiffInRange(a[2] - a[3]);
    assert !DiffInRange(b[2] - b[3]);
    assert !DiffInRange(c[5] - c[6]);
  }

  /** `1 2 7 8 9`: the jump from 2 to 7 survives every trial. */
  lemma JumpRejected(v: seq<int>)
    requires v == [1, 2, 7, 8, 9]
    ensures !Tolerated(v)
  {
    assert FirstBreak(v) == Some(2) by {
      assert !BreaksAt(v, 1) && BreaksAt(v, 2);
      FirstBreakAt(v, 2);
    }
    assert v[1..] == [2, 7, 8, 9] && v[..4] == [1, 2, 7, 8] && RemoveAt(v, 2) == [1, 2, 8, 9] && RemoveAt(v, 1) == [1, 7, 8, 9];
    JumpTrials();
    NotTolerated(v, 2);
  }

  lemma JumpTrials()
    ensures FirstBreak([2, 7, 8, 9]).Some? && FirstBreak([1, 2, 7, 8]).Some?
    ensures FirstBreak([1, 2, 8, 9]).Some? && FirstBreak([1, 7, 8, 9]).Some?
  {
  }

  /** `9 7 6 2 1`: the drop from 6 to 2 survives every trial. */
  lemma DropRejected(v: seq<int>)
    requires v == [9, 7, 6, 2, 1]
    ensures !Tolerated(v)
  {
    assert FirstBreak(v) == Some(3) by {
      assert !BreaksAt(v, 1) && !BreaksAt(v, 2) && BreaksAt(v, 3);
      FirstBreakAt(v, 3);
    }
    assert v[1..] == [7, 6, 2, 1] && v[..4] == [9, 7, 6, 2] && RemoveAt(v, 3) == [9, 7, 6, 1] && RemoveAt(v, 2) == [9, 7, 2, 1];
    DropTrials();
    NotTolerated(v, 3);
  }

  lemma DropTrials()
    ensures FirstBreak([7, 6, 2, 1]).Some? && FirstBreak([9, 7, 6, 2]).Some?
    ensures FirstBreak([9, 7, 6, 1]).Some? && FirstBreak([9, 7, 2, 1]).Some?
  {
  }

  /** `8 6 4 4 1`: removing one of the repeated fours makes it safe. */
  lemma RepeatAccepted(v: seq<int>)
    requires v == [8, 6, 4, 4, 1]
    ensures Tolerated(v)
  {
    assert FirstBreak(v) == Some(3) by {
      assert !BreaksAt(v, 1) && !BreaksAt(v, 2) && BreaksAt(v, 3);
      FirstBreakAt(v, 3);
    }
    assert RemoveAt(v, 3) == [8, 6, 4, 1];
    assert FirstBreak([8, 6, 4, 1]).None?;
    ToleratedRemoving(v, 3, 3);
  }

  /** The edge reports that become safe without their first level. */
  lemma EdgeDroppingFirst(a: seq<int>, b: seq<int>, c: seq<int>)
    requires a == [48, 46, 47, 49, 51, 54, 56] && b == [1, 1, 2, 3, 4, 5] && c == [5, 1, 2, 3, 4, 5]
    ensures Tolerated(a) && Tolerated(b) && Tolerated(c)
  {
    ToleratedDroppingFirst(48, [46, 47, 49, 51, 54, 56]);
    ToleratedDroppingFirst(1, [1, 2, 3, 4, 5]);
    ToleratedDroppingFirst(5, [1, 2, 3, 4, 5]);
  }

  /** More edge reports that become safe without their first level. */
  lemma EdgeDroppingFirstShort(a: seq<int>, b: seq<int>)
    requires a == [1, 4, 3, 2, 1] && b == [1, 6, 7, 8, 9]
    ensures Tolerated(a) && Tolerated(b)
  {
    ToleratedDroppingFirst(1, [4, 3, 2, 1]);
    ToleratedDroppingFirst(1, [6, 7, 8, 9]);
  }

  /** `1 2 3 4 5 5` breaks only at its last level. */
  lemma EdgeLastLevel(u: seq<int>)
    requires u == [1, 2, 3, 4, 5, 5]
    ensures Tolerated(u)
  {
    assert FirstBreak(u) == Some(5) by {
      assert !BreaksAt(u, 1) && !BreaksAt(u, 2) && !BreaksAt(u, 3) && !BreaksAt(u, 4) && BreaksAt(u, 5);
      FirstBreakAt(u, 5);
    }
    ToleratedLastBreak(u);
  }

  /** `1 2 3 4 3` and `9 8 7 6 7` break only at their last level. */
  lemma EdgeLastLevelShort(v: seq<int>, w: seq<int>)
    requires v == [1, 2, 3, 4, 3] && w == [9, 8, 7, 6, 7]
    ensures Tolerated(v) && Tolerated(w)
  {
    assert FirstBreak(v) == Some(4) by {
      assert !BreaksAt(v, 1) && !BreaksAt(v, 2) && !BreaksAt(v, 3) && BreaksAt(v, 4);
      FirstBreakAt(v, 4);
    }
    assert FirstBreak(w) == Some(4) by {
      assert !BreaksAt(w, 1) && !BreaksAt(w, 2) && !BreaksAt(w, 3) && BreaksAt(w, 4);
      FirstBreakAt(w, 4);
    }
    ToleratedLastBreak(v);
    ToleratedLastBreak(w);
  }

  /** `7 10 8 10 11`: removing the level before the first break. */
  lemma EdgeTurnAccepted(v: seq<int>)
    requires v == [7, 10, 8, 10, 11]
    ensures Tolerated(v)
  {
    assert FirstBreak(v) == Some(2) by {
      assert !BreaksAt(v, 1) && BreaksAt(v, 2);
      FirstBreakAt(v, 2);
    }
    assert RemoveAt(v, 1) == [7, 8, 10, 11];
    assert FirstBreak([7, 8, 10, 11]).None?;
    ToleratedRemoving(v, 2, 1);
  }

  /** `29 28 27 25 26 25 22 20`: removing the level before the first break. */
  lemma EdgeLongAccepted(v: seq<int>)
    requires v == [29, 28, 27, 25, 26, 25, 22, 20]
    ensures Tolerated(v)
  {
    assert FirstBreak(v) == Some(4) by {
      assert !BreaksAt(v, 1) && !BreaksAt(v, 2) && !BreaksAt(v, 3) && BreaksAt(v, 4);
      FirstBreakAt(v, 4);
    }
    assert RemoveAt(v, 3) == [29, 28, 27, 26, 25, 22, 20];
    EdgeLongFixed();
    ToleratedRemoving(v, 4, 3);
  }

  lemma EdgeLongFixed()
    ensures FirstBreak([29, 28, 27, 26, 25, 22, 20]).None?
  {
  }

  // ---------------------------------------------------------------------
  // The counts the tests expect
  // ---------------------------------------------------------------------

  /** Part 1 on the example: two safe reports. */
  lemma Part1Example(reports: seq<seq<int>>)
    requires reports == Example
    ensures SafeCount(reports) == 2
  {
    SafeExamples();
    MoreSafeExamples();
    assert Safe(reports[0]) && !Safe(reports[1]) && !Safe(reports[2]);
    assert !Safe(reports[3]) && !Safe(reports[4]) && Safe(reports[5]);
    SafeCountSix(reports);
  }

  /** Part 2 on the example: the two safe reports, plus `1 3 2 4 5` and `8 6 4 4 1` with one level removed. */
  lemma Part2Example(reports: seq<seq<int>>)
    requires reports == Example
    ensures ToleratedCount(reports) == 4
  {
    SafeExamples();
    MoreSafeExamples();
    SafeTolerated(reports[0]);
    SafeTolerated(reports[5]);
    JumpRejected(reports[1]);
    DropRejected(reports[2]);
    ToleratedExample();
    RepeatAccepted(reports[4]);
    ToleratedCountSix(reports);
  }

  /** The first four edge reports are accepted by part 2. */
  lemma EdgeFirstFour(reports: seq<seq<int>>)
    requires reports == Edge
    ensures ToleratedIndicator(reports[0]) == 1 && ToleratedIndicator(reports[1]) == 1
    ensures ToleratedIndicator(reports[2]) == 1 && ToleratedIndicator(reports[3]) == 1
  {
    EdgeDroppingFirst(reports[0], reports[1], reports[3]);
    EdgeLastLevel(reports[2]);
  }

  /** The next four edge reports are accepted by part 2. */
  lemma EdgeNextFour(reports: seq<seq<int>>)
    requires reports == Edge
    ensures ToleratedIndicator(reports[4]) == 1 && ToleratedIndicator(reports[5]) == 1
    ensures ToleratedIndicator(reports[6]) == 1 && ToleratedIndicator(reports[7]) == 1
  {
    EdgeDroppingFirstShort(reports[4], reports[5]);
    EdgeLastLevelShort(reports[6], reports[7]);
  }

  /** The last two edge reports are accepted by part 2. */
  lemma EdgeLastTwo(reports: seq<seq<int>>)
    requires reports == Edge
    ensures ToleratedIndicator(reports[8]) == 1 && ToleratedIndicator(reports[9]) == 1
  {
    EdgeTurnAccepted(reports[8]);
    EdgeLongAccepted(reports[9]);
  }

  /** Part 2 on the edge cases: every one of the ten reports is accepted. */
  lemma EdgeExample(reports: seq<seq<int>>)
    requires reports == Edge
    ensures ToleratedCount(reports) == 10
  {
    EdgeFirstFour(reports);
    EdgeNextFour(reports);
    EdgeLastTwo(reports);
    ToleratedCountTen(reports);
  }

  /** Part 1 on the single report `1 2 4 6 8 9 13`, whose jump from 9 to 13 is too large. */
  lemma BadExample(reports: seq<seq<int>>)
    requires reports == [[1, 2, 4, 6, 8, 9, 13]]
    ensures SafeCount(reports) == 0
  {
    MoreSafeExamples();
    SafeCountLast(reports);
    assert reports[..0] == [];
  }
}
