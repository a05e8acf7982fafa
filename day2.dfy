/**
 * Day 2: reports of levels. A report is safe when every step between
 * neighbouring levels changes the level by one to three and all steps go
 * the same way. Part 1 counts the safe reports; part 2 also counts a report
 * that one of a handful of single-level removals makes safe.
 */
module Day2 {
  import opened Wrappers
  import opened Text

  // ---------------------------------------------------------------------
  // The two step rules
  // ---------------------------------------------------------------------

  function Abs(x: int): nat
  {
    if x < 0 then -x else x
  }

  /** `diff_in_range`: a step of one to three in either direction. */
  predicate DiffInRange(diff: int)
  {
    1 <= Abs(diff) && Abs(diff) <= 3
  }

  lemma DiffInRangeValues(diff: int)
    ensures DiffInRange(diff) <==> diff in {-3, -2, -1, 1, 2, 3}
  {
  }

  /** `i32::signum`. */
  function Signum(x: int): (s: int)
    ensures s == -1 || s == 0 || s == 1
  {
    if x > 0 then 1 else if x < 0 then -1 else 0
  }

  /** `diff_same_monotonicity`: both steps go down, both go up, or both stay. */
  predicate SameMonotonicity(a: int, b: int)
  {
    Signum(a) == Signum(b)
  }

  lemma SameMonotonicityMeaning(a: int, b: int)
    ensures SameMonotonicity(a, b) <==> (a > 0 && b > 0) || (a < 0 && b < 0) || (a == 0 && b == 0)
  {
  }

  // ---------------------------------------------------------------------
  // Safety
  // ---------------------------------------------------------------------

  /** The puzzle's rule: every step is in range and goes the same way as the first. */
  predicate Safe(s: seq<int>)
  {
    forall i :: 1 <= i < |s| ==> DiffInRange(s[i - 1] - s[i]) && SameMonotonicity(s[0] - s[1], s[i - 1] - s[i])
  }

  /**
   * The check the solvers make on arriving at level `i`: the step into it is
   * out of range, or (from the second step on) goes another way than the step before.
   */
  predicate BreaksAt(s: seq<int>, i: nat)
    requires 1 <= i < |s|
  {
    !DiffInRange(s[i - 1] - s[i]) || (i >= 2 && !SameMonotonicity(s[i - 2] - s[i - 1], s[i - 1] - s[i]))
  }

  /** Comparing each step with the one before is the same as comparing it with the first. */
  lemma {:induction false} NoBreakSameAsFirst(s: seq<int>, i: nat)
    requires 1 <= i < |s|
    requires forall j :: 1 <= j <= i ==> !BreaksAt(s, j)
    ensures SameMonotonicity(s[0] - s[1], s[i - 1] - s[i])
  {
    if i >= 2 {
      NoBreakSameAsFirst(s, i - 1);
      assert !BreaksAt(s, i);
    }
  }

  /** No level breaks the check exactly when the report is safe. */
  lemma NoBreakIffSafe(s: seq<int>)
    ensures (forall j :: 1 <= j < |s| ==> !BreaksAt(s, j)) <==> Safe(s)
  {
    if forall j :: 1 <= j < |s| ==> !BreaksAt(s, j) {
      forall i | 1 <= i < |s|
        ensures DiffInRange(s[i - 1] - s[i]) && SameMonotonicity(s[0] - s[1], s[i - 1] - s[i])
      {
        assert !BreaksAt(s, i);
        NoBreakSameAsFirst(s, i);
      }
    }
    if Safe(s) {
      forall j | 1 <= j < |s|
        ensures !BreaksAt(s, j)
      {
        assert DiffInRange(s[j - 1] - s[j]) && SameMonotonicity(s[0] - s[1], s[j - 1] - s[j]);
        if j >= 2 {
          assert SameMonotonicity(s[0] - s[1], s[j - 2] - s[j - 1]);
        }
      }
    }
  }

  /** The first level at or after `from` that breaks the check. */
  function FirstBreakFrom(s: seq<int>, from: nat): (r: Option<nat>)
    requires 1 <= from
    ensures r.Some? ==> from <= r.value < |s| && BreaksAt(s, r.value)
    ensures r.Some? ==> forall j :: from <= j < r.value ==> !BreaksAt(s, j)
    ensures r.None? ==> forall j :: from <= j < |s| ==> !BreaksAt(s, j)
    decreases |s| - from
  {
    if from >= |s| then None
    else if BreaksAt(s, from) then Some(from)
    else FirstBreakFrom(s, from + 1)
  }

  /**
   * What `subset_is_good_until` answers: nothing for a safe report (in
   * particular one of at most one level), otherwise the first level, from
   * position 1 on, whose incoming step breaks the rule.
   */
  function FirstBreak(s: seq<int>): (r: Option<nat>)
    ensures r.None? <==> Safe(s)
    ensures r.Some? ==> 1 <= r.value < |s| && BreaksAt(s, r.value)
    ensures r.Some? ==> forall j :: 1 <= j < r.value ==> !BreaksAt(s, j)
  {
    NoBreakIffSafe(s);
    if |s| <= 1 then None else FirstBreakFrom(s, 1)
  }

  /** A level that breaks the check with none before it is the first break. */
  lemma FirstBreakAt(s: seq<int>, i: nat)
    requires 1 <= i < |s| && BreaksAt(s, i)
    requires forall j :: 1 <= j < i ==> !BreaksAt(s, j)
    ensures FirstBreak(s) == Some(i)
  {
  }

  lemma FirstBreakNone(s: seq<int>)
    requires forall j :: 1 <= j < |s| ==> !BreaksAt(s, j)
    ensures FirstBreak(s) == None
  {
  }

  /** `subset_is_good_until`, walking the slice with the previous step in hand. */
  method SubsetIsGoodUntil(subset: seq<int>) returns (r: Option<nat>)
    ensures r == FirstBreak(subset)
  {
    if |subset| <= 1 {
      return None;
    }
    var p1, p2 := subset[0], subset[1];
    var currentDiff := p1 - p2;
    if !DiffInRange(currentDiff) {
      FirstBreakAt(subset, 1);
      return Some(1);
    }
    var current := p2;
    for index := 0 to |subset| - 2
      invariant current == subset[index + 1] && currentDiff == subset[index] - subset[index + 1]
      invariant forall j :: 1 <= j < index + 2 ==> !BreaksAt(subset, j)
    {
      var level := subset[index + 2];
      var newDiff := current - level;
      if !DiffInRange(newDiff) || !SameMonotonicity(currentDiff, newDiff) {
        FirstBreakAt(subset, index + 2);
        return Some(index + 2);
      }
      currentDiff := newDiff;
      current := level;
    }
    FirstBreakNone(subset);
    return None;
  }

  /** The per-report loop of part 1, for a report of at least two levels. */
  method ReportSafe(levels: seq<int>) returns (safe: bool)
    requires |levels| >= 2
    ensures safe == Safe(levels)
  {
    NoBreakIffSafe(levels);
    var p1, p2 := levels[0], levels[1];
    var currentDiff := p1 - p2;
    if !DiffInRange(currentDiff) {
      assert BreaksAt(levels, 1);
      return false;
    }
    var current := p2;
    for index := 2 to |levels|
      invariant current == levels[index - 1] && currentDiff == levels[index - 2] - levels[index - 1]
      invariant forall j :: 1 <= j < index ==> !BreaksAt(levels, j)
    {
      var level := levels[index];
      var newDiff := current - level;
      if !DiffInRange(newDiff) || !SameMonotonicity(currentDiff, newDiff) {
        assert BreaksAt(levels, index);
        return false;
      }
      currentDiff := newDiff;
      current := level;
    }
    return true;
  }

  // ---------------------------------------------------------------------
  // Parsing
  // ---------------------------------------------------------------------

  function ParseLevels(pieces: seq<string>): (r: Option<seq<int>>)
    ensures r.Some? ==> |r.value| == |pieces|
  {
    if pieces == [] then Some([])
    else
      match (ParseInt(pieces[0]), ParseLevels(pieces[1..]))
      case (Some(x), Some(rest)) => Some([x] + rest)
      case _ => None
  }

  /** A report line: levels separated by single spaces. */
  function Levels(line: string): Option<seq<int>>
  {
    ParseLevels(Split(line, " "))
  }

  function Render(levels: seq<int>): (pieces: seq<string>)
    ensures |pieces| == |levels|
    ensures forall k :: 0 <= k < |pieces| ==> pieces[k] == IntToString(levels[k])
  {
    if levels == [] then [] else [IntToString(levels[0])] + Render(levels[1..])
  }

  lemma {:induction false} ParseRender(levels: seq<int>)
    ensures ParseLevels(Render(levels)) == Some(levels)
  {
    if levels != [] {
      ParseIntToString(levels[0]);
      ParseRender(levels[1..]);
      assert levels == [levels[0]] + levels[1..];
    }
  }

  /** A report written with single spaces between its levels reads back as that report. */
  lemma LevelsRoundTrip(levels: seq<int>)
    requires |levels| >= 1
    ensures Levels(Join(Render(levels), " ")) == Some(levels)
  {
    var pieces := Render(levels);
    forall k | 0 <= k < |pieces|
      ensures NoChar(pieces[k], ' ')
    {
      IntToStringNoChar(levels[k], ' ');
    }
    SplitJoin(pieces, " ");
    ParseRender(levels);
  }

  predicate WellFormed(lines: seq<string>)
  {
    forall k :: 0 <= k < |lines| ==> Levels(lines[k]).Some?
  }

  /** The report of every line, in input order. */
  function Reports(lines: seq<string>): (reports: seq<seq<int>>)
    requires WellFormed(lines)
    ensures |reports| == |lines|
  {
    if lines == [] then [] else Reports(lines[..|lines| - 1]) + [Levels(lines[|lines| - 1]).value]
  }

  // ---------------------------------------------------------------------
  // Part 1
  // ---------------------------------------------------------------------

  /** The number of safe reports. */
  function SafeCount(reports: seq<seq<int>>): nat
  {
    if reports == [] then 0
    else SafeCount(reports[..|reports| - 1]) + (if Safe(reports[|reports| - 1]) then 1 else 0)
  }

  /** Every report holds at least the two levels part 1 reads before its loop. */
  predicate TwoLevelsEach(lines: seq<string>)
    requires WellFormed(lines)
  {
    forall k :: 0 <= k < |lines| ==> |Levels(lines[k]).value| >= 2
  }

  method CountSafe(lines: seq<string>) returns (safeCount: nat)
    requires WellFormed(lines) && TwoLevelsEach(lines)
    ensures safeCount == SafeCount(Reports(lines))
  {
    safeCount := 0;
    for k := 0 to |lines|
      invariant safeCount == SafeCount(Reports(lines[..k]))
    {
      var levels := Levels(lines[k]).value;
      var safe := ReportSafe(levels);
      assert lines[..k + 1][..k] == lines[..k];
      if safe {
        safeCount := safeCount + 1;
      }
    }
    assert lines[..|lines|] == lines;
  }

  method Part1(input: string) returns (safeCount: nat)
    requires WellFormed(Lines(input)) && TwoLevelsEach(Lines(input))
    ensures safeCount == SafeCount(Reports(Lines(input)))
  {
    safeCount := CountSafe(Lines(input));
  }

  // ---------------------------------------------------------------------
  // Part 2
  // ---------------------------------------------------------------------

  /** `ArrayVec<i32, 12>`: a report longer than this makes part 2 panic. */
  const Capacity: nat := 12

  /** `Vec::remove`'s effect on the contents. */
  function RemoveAt(s: seq<int>, i: nat): (r: seq<int>)
    requires i < |s|
    ensures |r| == |s| - 1
    ensures forall j :: 0 <= j < |r| ==> r[j] == if j < i then s[j] else s[j + 1]
  {
    s[..i] + s[i + 1..]
  }

  /** `Vec::insert`'s effect on the contents. */
  function InsertAt(s: seq<int>, i: nat, x: int): (r: seq<int>)
    requires i <= |s|
    ensures |r| == |s| + 1 && r[i] == x
    ensures forall j :: 0 <= j < i ==> r[j] == s[j]
    ensures forall j :: i < j < |r| ==> r[j] == s[j - 1]
  {
    s[..i] + [x] + s[i..]
  }

  /** Putting a removed level back where it was restores the report. */
  lemma InsertRemove(s: seq<int>, i: nat)
    requires i < |s|
    ensures InsertAt(RemoveAt(s, i), i, s[i]) == s
  {
  }

  /** Only the levels up to `n` decide whether a level before `n` breaks the check. */
  lemma BreaksAtPrefix(s: seq<int>, n: nat, j: nat)
    requires 1 <= j < n <= |s|
    ensures BreaksAt(s[..n], j) == BreaksAt(s, j)
  {
  }

  /** When the first break is at the last level, the report without its last level is safe. */
  lemma LastBreakPrefixSafe(s: seq<int>)
    requires FirstBreak(s) == Some(|s| - 1)
    ensures FirstBreak(s[..|s| - 1]).None?
  {
    var p := s[..|s| - 1];
    forall j | 1 <= j < |p|
      ensures !BreaksAt(p, j)
    {
      BreaksAtPrefix(s, |s| - 1, j);
    }
  }

  /**
   * Part 2's verdict on one report, trial by trial: safe as it is; or safe
   * without its first level; or without its last; or without the level at
   * the first break, the one before it, or the one after it.
   */
  function Tolerated(v: seq<int>): bool
  {
    match FirstBreak(v)
    case None => true
    case Some(index) =>
      if FirstBreak(v[1..]).None? || FirstBreak(v[..|v| - 1]).None? then true
      else if FirstBreak(RemoveAt(v, index)).None? || FirstBreak(RemoveAt(v, index - 1)).None? then true
      else if index + 1 < |v| then FirstBreak(RemoveAt(v, index + 1)).None?
      else
        LastBreakPrefixSafe(v);
        assert false;
        false
  }

  /** One trial of part 2: remove a level, check the rest, and put the level back. */
  method TryWithout(vec: seq<int>, i: nat) returns (ok: bool, restored: seq<int>)
    requires i < |vec|
    ensures ok == FirstBreak(RemoveAt(vec, i)).None?
    ensures restored == vec
  {
    var value := vec[i];
    restored := RemoveAt(vec, i);
    var trial := SubsetIsGoodUntil(restored);
    ok := trial.None?;
    InsertRemove(vec, i);
    restored := InsertAt(restored, i, value);
  }

  /** The per-report body of part 2, editing its copy of the report and undoing each edit. */
  method Tolerate(levels: seq<int>) returns (ok: bool)
    requires |levels| <= Capacity
    ensures ok == Tolerated(levels)
  {
    var vec := levels;
    var first := SubsetIsGoodUntil(vec);
    if first.None? {
      return true;
    }
    var index := first.value;
    var trial := SubsetIsGoodUntil(vec[1..]);
    if trial.None? {
      return true;
    }
    trial := SubsetIsGoodUntil(vec[..|vec| - 1]);
    if trial.None? {
      return true;
    }
    ok, vec := TryWithout(vec, index);
    if ok {
      return true;
    }
    ok, vec := TryWithout(vec, index - 1);
    if ok {
      return true;
    }
    if index + 1 == |vec| {
      LastBreakPrefixSafe(levels);
      assert false;
    }
    vec := RemoveAt(vec, index + 1);
    trial := SubsetIsGoodUntil(vec);
    return trial.None?;
  }

  /** A safe report needs no removal. */
  lemma SafeTolerated(v: seq<int>)
    ensures Safe(v) ==> Tolerated(v)
  {
  }

  /** Part 2 only ever accepts a report that is safe or made safe by removing a single level. */
  lemma ToleratedSound(v: seq<int>)
    requires Tolerated(v)
    ensures Safe(v) || exists k :: 0 <= k < |v| && Safe(RemoveAt(v, k))
  {
    if !Safe(v) {
      var index := FirstBreak(v).value;
      if FirstBreak(v[1..]).None? {
        DropFirstWitness(v);
      } else if FirstBreak(v[..|v| - 1]).None? {
        DropLastWitness(v);
      } else if FirstBreak(RemoveAt(v, index)).None? {
        RemovalWitness(v, index);
      } else if FirstBreak(RemoveAt(v, index - 1)).None? {
        RemovalWitness(v, index - 1);
      } else {
        if index + 1 < |v| {
          NextRemovalKeepsBreak(v, index);
        }
        assert false;
      }
    }
  }

  /** Part 2 accepts a report that breaks the check exactly when one of its first four trials succeeds. */
  lemma ToleratedTrials(v: seq<int>, i: nat)
    requires FirstBreak(v) == Some(i)
    ensures Tolerated(v) <==> FirstBreak(v[1..]).None? || FirstBreak(v[..|v| - 1]).None? ||
                              FirstBreak(RemoveAt(v, i)).None? || FirstBreak(RemoveAt(v, i - 1)).None?
  {
    if i + 1 < |v| {
      NextRemovalKeepsBreak(v, i);
    } else {
      LastBreakPrefixSafe(v);
    }
  }

  /**
   * Removing the level after a break leaves the break and the levels before
   * it in place, so the last trial of part 2 never accepts a report.
   */
  lemma NextRemovalKeepsBreak(v: seq<int>, i: nat)
    requires 1 <= i && i + 1 < |v| && BreaksAt(v, i)
    ensures FirstBreak(RemoveAt(v, i + 1)).Some?
  {
    var s := RemoveAt(v, i + 1);
    assert s[i] == v[i] && s[i - 1] == v[i - 1];
    assert i >= 2 ==> s[i - 2] == v[i - 2];
    assert BreaksAt(s, i);
  }

  lemma DropFirstWitness(v: seq<int>)
    requires v != [] && FirstBreak(v[1..]).None?
    ensures exists k :: 0 <= k < |v| && Safe(RemoveAt(v, k))
  {
    assert RemoveAt(v, 0) == v[1..];
  }

  lemma DropLastWitness(v: seq<int>)
    requires v != [] && FirstBreak(v[..|v| - 1]).None?
    ensures exists k :: 0 <= k < |v| && Safe(RemoveAt(v, k))
  {
    assert RemoveAt(v, |v| - 1) == v[..|v| - 1];
  }

  lemma RemovalWitness(v: seq<int>, k: nat)
    requires k < |v| && FirstBreak(RemoveAt(v, k)).None?
    ensures exists k :: 0 <= k < |v| && Safe(RemoveAt(v, k))
  {
  }

  /** Worked examples of part 1: a decreasing report, a jump of five, a change of direction. */
  lemma SafeExamples()
    ensures Safe([7, 6, 4, 2, 1]) && !Safe([1, 2, 7, 8, 9]) && !Safe([1, 3, 2, 4, 5])
  {
    var jump, turn := [1, 2, 7, 8, 9], [1, 3, 2, 4, 5];
    assert !DiffInRange(jump[1] - jump[2]);
    assert !SameMonotonicity(turn[0] - turn[1], turn[1] - turn[2]);
  }

  /** The report `1 3 2 4 5` is accepted by part 2, through removing the level at its first break. */
  lemma ToleratedExample()
    ensures Tolerated([1, 3, 2, 4, 5])
  {
    var v := [1, 3, 2, 4, 5];
    assert BreaksAt(v, 2) && !BreaksAt(v, 1);
    FirstBreakAt(v, 2);
    var w := RemoveAt(v, 2);
    assert w[0] == 1 && w[1] == 3 && w[2] == 4 && w[3] == 5;
    assert !BreaksAt(w, 1) && !BreaksAt(w, 2) && !BreaksAt(w, 3);
    FirstBreakNone(w);
  }

  /** The number of reports part 2 accepts. */
  function ToleratedCount(reports: seq<seq<int>>): nat
  {
    if reports == [] then 0
    else ToleratedCount(reports[..|reports| - 1]) + (if Tolerated(reports[|reports| - 1]) then 1 else 0)
  }

  /** Part 2 accepts every report part 1 accepts, so its count is never smaller. */
  lemma {:induction false} SafeCountAtMostTolerated(reports: seq<seq<int>>)
    ensures SafeCount(reports) <= ToleratedCount(reports)
  {
    if reports != [] {
      SafeCountAtMostTolerated(reports[..|reports| - 1]);
      SafeTolerated(reports[|reports| - 1]);
    }
  }

  predicate WithinCapacity(lines: seq<string>)
    requires WellFormed(lines)
  {
    forall k :: 0 <= k < |lines| ==> |Levels(lines[k]).value| <= Capacity
  }

  method CountTolerated(lines: seq<string>) returns (safeCount: nat)
    requires WellFormed(lines) && WithinCapacity(lines)
    ensures safeCount == ToleratedCount(Reports(lines))
  {
    safeCount := 0;
    for k := 0 to |lines|
      invariant safeCount == ToleratedCount(Reports(lines[..k]))
    {
      var levels := Levels(lines[k]).value;
      var ok := Tolerate(levels);
      assert lines[..k + 1][..k] == lines[..k];
      if ok {
        safeCount := safeCount + 1;
      }
    }
    assert lines[..|lines|] == lines;
  }

  method Part2(input: string) returns (safeCount: nat)
    requires WellFormed(Lines(input)) && WithinCapacity(Lines(input))
    ensures safeCount == ToleratedCount(Reports(Lines(input)))
  {
    safeCount := CountTolerated(Lines(input));
  }
}
