/**
 * Day 1: two columns of location ids. Part 1 pairs the columns up smallest
 * with smallest and adds the distances; part 2 weighs each left id by how
 * often it occurs in the right column.
 */
module Day1 {
  import opened Wrappers
  import opened Text

  // ---------------------------------------------------------------------
  // Parsing
  // ---------------------------------------------------------------------

  /** A line holds two numbers separated by three spaces; pieces after the second are ignored. */
  function ParseLine(line: string): Option<(nat, nat)>
  {
    var parts := Split(line, "   ");
    if |parts| < 2 then None
    else
      match (ParseNat(parts[0]), ParseNat(parts[1]))
      case (Some(a), Some(b)) => Some((a, b))
      case _ => None
  }

  /** The canonical line for a pair of ids parses back to that pair. */
  lemma ParseLineRoundTrip(a: nat, b: nat)
    ensures ParseLine(NatToString(a) + "   " + NatToString(b)) == Some((a, b))
  {
    SplitFirst(NatToString(a), "   ", NatToString(b));
    SplitNone(NatToString(b), "   ");
    ParseNatToString(a);
    ParseNatToString(b);
  }

  predicate WellFormed(lines: seq<string>)
  {
    forall k :: 0 <= k < |lines| ==> ParseLine(lines[k]).Some?
  }

  /** The (left, right) pair of every line, in input order. */
  function Pairs(lines: seq<string>): (pairs: seq<(nat, nat)>)
    requires WellFormed(lines)
    ensures |pairs| == |lines|
  {
    if lines == [] then [] else Pairs(lines[..|lines| - 1]) + [ParseLine(lines[|lines| - 1]).value]
  }

  /** One more line read: its pair is appended to both columns. */
  lemma ColumnsStep(lines: seq<string>, k: nat)
    requires WellFormed(lines) && k < |lines|
    ensures WellFormed(lines[..k]) && WellFormed(lines[..k + 1])
    ensures LeftColumn(Pairs(lines[..k + 1])) == LeftColumn(Pairs(lines[..k])) + [ParseLine(lines[k]).value.0]
    ensures RightColumn(Pairs(lines[..k + 1])) == RightColumn(Pairs(lines[..k])) + [ParseLine(lines[k]).value.1]
  {
    assert lines[..k + 1][..k] == lines[..k];
    var pairs := Pairs(lines[..k + 1]);
    assert pairs[..|pairs| - 1] == Pairs(lines[..k]);
  }

  function LeftColumn(pairs: seq<(nat, nat)>): (col: seq<nat>)
    ensures |col| == |pairs|
  {
    if pairs == [] then [] else LeftColumn(pairs[..|pairs| - 1]) + [pairs[|pairs| - 1].0]
  }

  function RightColumn(pairs: seq<(nat, nat)>): (col: seq<nat>)
    ensures |col| == |pairs|
  {
    if pairs == [] then [] else RightColumn(pairs[..|pairs| - 1]) + [pairs[|pairs| - 1].1]
  }

  // ---------------------------------------------------------------------
  // Sorting (the model of `Vec::sort` on ids)
  // ---------------------------------------------------------------------

  predicate SortedAsc(s: seq<nat>)
  {
    forall i, j :: 0 <= i < j < |s| ==> s[i] <= s[j]
  }

  /** `x` placed before the first element not smaller than it. */
  function Insert(x: nat, s: seq<nat>): (r: seq<nat>)
    ensures multiset(r) == multiset(s) + multiset{x}
  {
    if s == [] || x <= s[0] then [x] + s
    else
      assert s == [s[0]] + s[1..];
      [s[0]] + Insert(x, s[1..])
  }

  lemma {:induction false} InsertSorted(x: nat, s: seq<nat>)
    requires SortedAsc(s)
    ensures SortedAsc(Insert(x, s))
  {
    if s != [] && x > s[0] {
      InsertSorted(x, s[1..]);
      var tail := Insert(x, s[1..]);
      forall k | 0 <= k < |tail|
        ensures s[0] <= tail[k]
      {
        assert tail[k] in multiset(tail);
        if tail[k] != x {
          var j :| 0 <= j < |s[1..]| && s[1..][j] == tail[k];
          assert s[j + 1] == tail[k];
        }
      }
    }
  }

  /** The model of `Vec::sort`: the same ids in ascending order (insertion sort). */
  function Sort(s: seq<nat>): (r: seq<nat>)
    ensures multiset(r) == multiset(s) && |r| == |s|
  {
    if s == [] then []
    else
      assert s == s[..|s| - 1] + [s[|s| - 1]];
      var r := Insert(s[|s| - 1], Sort(s[..|s| - 1]));
      assert |r| == |multiset(r)|;
      r
  }

  lemma {:induction false} SortSorted(s: seq<nat>)
    ensures SortedAsc(Sort(s))
  {
    if s != [] {
      SortSorted(s[..|s| - 1]);
      InsertSorted(s[|s| - 1], Sort(s[..|s| - 1]));
    }
  }

  /** Sorting yields the unique ascending arrangement of the ids. */
  lemma SortCharacterized(s: seq<nat>, t: seq<nat>)
    requires SortedAsc(t) && multiset(t) == multiset(s)
    ensures Sort(s) == t
  {
    SortSorted(s);
    SortedUnique(Sort(s), t);
  }

  lemma HeadIsLeast(s: seq<nat>, x: nat)
    requires SortedAsc(s) && x in multiset(s)
    ensures s[0] <= x
  {
    var j :| 0 <= j < |s| && s[j] == x;
  }

  lemma SortedTail(s: seq<nat>)
    requires s != [] && SortedAsc(s)
    ensures SortedAsc(s[1..])
  {
  }

  /** Removing the head of a sequence removes one occurrence of it from its elements. */
  lemma MultisetTail(s: seq<nat>)
    requires s != []
    ensures s[0] in multiset(s) && multiset(s[1..]) == multiset(s) - multiset{s[0]}
  {
    assert s == [s[0]] + s[1..];
  }

  /** The first step of `SortedUnique`: equal heads, and tails that are again sorted permutations of each other. */
  lemma SortedHeads(a: seq<nat>, b: seq<nat>)
    requires a != [] && SortedAsc(a) && SortedAsc(b) && multiset(a) == multiset(b)
    ensures b != [] && a[0] == b[0]
    ensures SortedAsc(a[1..]) && SortedAsc(b[1..]) && multiset(a[1..]) == multiset(b[1..])
  {
    assert |b| == |multiset(b)| == |a|;
    MultisetTail(a);
    MultisetTail(b);
    HeadIsLeast(b, a[0]);
    HeadIsLeast(a, b[0]);
    SortedTail(a);
    SortedTail(b);
  }

  /** Two ascending sequences with the same elements are equal: sorting forgets only the order. */
  lemma {:induction false} SortedUnique(a: seq<nat>, b: seq<nat>)
    requires SortedAsc(a) && SortedAsc(b) && multiset(a) == multiset(b)
    ensures a == b
  {
    if a != [] {
      SortedHeads(a, b);
      SortedUnique(a[1..], b[1..]);
      assert a == [a[0]] + a[1..] && b == [b[0]] + b[1..];
    } else {
      assert |b| == |multiset(b)| == 0;
    }
  }

  // ---------------------------------------------------------------------
  // Part 1
  // ---------------------------------------------------------------------

  /** `u32::abs_diff`. */
  function AbsDiff(a: nat, b: nat): nat
  {
    if a >= b then a - b else b - a
  }

  /** The sum of the distances between the first `n` elements of two lists, position by position. */
  function DistanceUpTo(a: seq<nat>, b: seq<nat>, n: nat): nat
    requires n <= |a| && n <= |b|
  {
    if n == 0 then 0 else DistanceUpTo(a, b, n - 1) + AbsDiff(a[n - 1], b[n - 1])
  }

  /** The sum of the distances between two lists of equal length, position by position. */
  function TotalDistance(a: seq<nat>, b: seq<nat>): nat
    requires |a| == |b|
  {
    DistanceUpTo(a, b, |a|)
  }

  /** The puzzle's answer: both columns sorted, then paired up. */
  function Distance(pairs: seq<(nat, nat)>): nat
  {
    TotalDistance(Sort(LeftColumn(pairs)), Sort(RightColumn(pairs)))
  }

  /** The parsing loop of part 1: the two columns, in input order. */
  method ReadColumns(lines: seq<string>) returns (list1: seq<nat>, list2: seq<nat>)
    requires WellFormed(lines)
    ensures list1 == LeftColumn(Pairs(lines)) && list2 == RightColumn(Pairs(lines))
  {
    list1, list2 := [], [];
    for k := 0 to |lines|
      invariant list1 == LeftColumn(Pairs(lines[..k]))
      invariant list2 == RightColumn(Pairs(lines[..k]))
    {
      var pair := ParseLine(lines[k]).value;
      var num1, num2 := pair.0, pair.1;
      ColumnsStep(lines, k);
      list1 := list1 + [num1];
      list2 := list2 + [num2];
    }
    assert lines[..|lines|] == lines;
  }

  /** The summing loop of part 1: the distances between the lists, position by position. */
  method SumDistances(list1: seq<nat>, list2: seq<nat>) returns (totalDistance: nat)
    requires |list1| == |list2|
    ensures totalDistance == TotalDistance(list1, list2)
  {
    totalDistance := 0;
    for i := 0 to |list1|
      invariant totalDistance == DistanceUpTo(list1, list2, i)
    {
      totalDistance := totalDistance + AbsDiff(list1[i], list2[i]);
    }
  }

  method Part1(input: string) returns (totalDistance: nat)
    requires WellFormed(Lines(input))
    ensures totalDistance == Distance(Pairs(Lines(input)))
  {
    var list1, list2 := ReadColumns(Lines(input));
    list1 := Sort(list1);
    list2 := Sort(list2);
    totalDistance := SumDistances(list1, list2);
  }

  lemma {:induction false} DistanceUpToSymmetric(a: seq<nat>, b: seq<nat>, n: nat)
    requires n <= |a| && n <= |b|
    ensures DistanceUpTo(a, b, n) == DistanceUpTo(b, a, n)
  {
    if n > 0 {
      DistanceUpToSymmetric(a, b, n - 1);
    }
  }

  lemma {:induction false} DistanceUpToZero(a: seq<nat>, b: seq<nat>, n: nat)
    requires n <= |a| && n <= |b|
    ensures DistanceUpTo(a, b, n) == 0 <==> a[..n] == b[..n]
  {
    if n > 0 {
      DistanceUpToZero(a, b, n - 1);
      assert a[..n] == a[..n - 1] + [a[n - 1]] && b[..n] == b[..n - 1] + [b[n - 1]];
      if a[..n] == b[..n] {
        assert a[..n][..n - 1] == a[..n - 1] && b[..n][..n - 1] == b[..n - 1];
      }
    }
  }

  lemma TotalDistanceZero(a: seq<nat>, b: seq<nat>)
    requires |a| == |b|
    ensures TotalDistance(a, b) == 0 <==> a == b
  {
    DistanceUpToZero(a, b, |a|);
    assert a[..|a|] == a && b[..|b|] == b;
  }

  /** Part 1 depends on the columns only through their multisets: reordering the lines changes nothing. */
  lemma DistanceOrderFree(p: seq<(nat, nat)>, q: seq<(nat, nat)>)
    requires multiset(LeftColumn(p)) == multiset(LeftColumn(q))
    requires multiset(RightColumn(p)) == multiset(RightColumn(q))
    ensures Distance(p) == Distance(q)
  {
    SortSorted(LeftColumn(q));
    SortSorted(RightColumn(q));
    SortCharacterized(LeftColumn(p), Sort(LeftColumn(q)));
    SortCharacterized(RightColumn(p), Sort(RightColumn(q)));
  }

  /** The pairs with their two ids exchanged. */
  function SwapColumns(pairs: seq<(nat, nat)>): (swapped: seq<(nat, nat)>)
    ensures LeftColumn(swapped) == RightColumn(pairs) && RightColumn(swapped) == LeftColumn(pairs)
  {
    if pairs == [] then []
    else
      var last := pairs[|pairs| - 1];
      var swapped := SwapColumns(pairs[..|pairs| - 1]) + [(last.1, last.0)];
      assert swapped[..|swapped| - 1] == SwapColumns(pairs[..|pairs| - 1]);
      swapped
  }

  /** Exchanging the columns leaves the distance unchanged. */
  lemma DistanceSwap(pairs: seq<(nat, nat)>)
    ensures Distance(SwapColumns(pairs)) == Distance(pairs)
  {
    DistanceUpToSymmetric(Sort(LeftColumn(pairs)), Sort(RightColumn(pairs)), |pairs|);
  }

  /** The distance is zero exactly when the two columns hold the same ids, counted with multiplicity. */
  lemma DistanceZero(pairs: seq<(nat, nat)>)
    ensures Distance(pairs) == 0 <==> multiset(LeftColumn(pairs)) == multiset(RightColumn(pairs))
  {
    var a, b := Sort(LeftColumn(pairs)), Sort(RightColumn(pairs));
    TotalDistanceZero(a, b);
    if multiset(LeftColumn(pairs)) == multiset(RightColumn(pairs)) {
      SortSorted(RightColumn(pairs));
      SortCharacterized(LeftColumn(pairs), b);
    }
  }

  // ---------------------------------------------------------------------
  // Part 2
  // ---------------------------------------------------------------------

  /** The first `n` left ids, each times the number of times it occurs on the right (zero when it does not occur). */
  function SimilarityUpTo(left: seq<nat>, right: seq<nat>, n: nat): nat
    requires n <= |left|
  {
    if n == 0 then 0 else SimilarityUpTo(left, right, n - 1) + left[n - 1] * multiset(right)[left[n - 1]]
  }

  /** Each left id times the number of times it occurs on the right, summed. */
  function Similarity(left: seq<nat>, right: seq<nat>): nat
  {
    SimilarityUpTo(left, right, |left|)
  }

  /** `counts` maps each id to the number of times it occurs in `ids`, and holds no other id. */
  ghost predicate CountsOf(counts: map<nat, nat>, ids: seq<nat>)
  {
    forall v :: (if v in counts then counts[v] else 0) == multiset(ids)[v] && (v in counts ==> counts[v] > 0)
  }

  /** One more occurrence of `x`: the entry-or-insert step of part 2 keeps the counts right. */
  lemma CountOneMore(counts: map<nat, nat>, ids: seq<nat>, x: nat)
    requires CountsOf(counts, ids)
    ensures CountsOf(counts[x := if x in counts then counts[x] + 1 else 1], ids + [x])
  {
    assert multiset(ids + [x]) == multiset(ids) + multiset{x};
  }

  /** The parsing loop of part 2: the left column, and how often each id occurs in the right column. */
  method ReadCounts(lines: seq<string>) returns (list1: seq<nat>, list2: map<nat, nat>)
    requires WellFormed(lines)
    ensures list1 == LeftColumn(Pairs(lines))
    ensures CountsOf(list2, RightColumn(Pairs(lines)))
  {
    list1, list2 := [], map[];
    for k := 0 to |lines|
      invariant list1 == LeftColumn(Pairs(lines[..k]))
      invariant CountsOf(list2, RightColumn(Pairs(lines[..k])))
    {
      var pair := ParseLine(lines[k]).value;
      var num1, num2 := pair.0, pair.1;
      ColumnsStep(lines, k);
      list1 := list1 + [num1];
      CountOneMore(list2, RightColumn(Pairs(lines[..k])), num2);
      if num2 in list2 {
        list2 := list2[num2 := list2[num2] + 1];
      } else {
        list2 := list2[num2 := 1];
      }
    }
    assert lines[..|lines|] == lines;
  }

  /** The summing loop of part 2, reading the occurrence counts from the map. */
  method SumSimilarity(list1: seq<nat>, list2: map<nat, nat>, ghost right: seq<nat>) returns (totalSimilarity: nat)
    requires CountsOf(list2, right)
    ensures totalSimilarity == Similarity(list1, right)
  {
    totalSimilarity := 0;
    for i := 0 to |list1|
      invariant totalSimilarity == SimilarityUpTo(list1, right, i)
    {
      var id := list1[i];
      totalSimilarity := totalSimilarity + id * (if id in list2 then list2[id] else 0);
    }
  }

  method Part2(input: string) returns (totalSimilarity: nat)
    requires WellFormed(Lines(input))
    ensures totalSimilarity == Similarity(LeftColumn(Pairs(Lines(input))), RightColumn(Pairs(Lines(input))))
  {
    var list1, list2 := ReadCounts(Lines(input));
    totalSimilarity := SumSimilarity(list1, list2, RightColumn(Pairs(Lines(input))));
  }
}
