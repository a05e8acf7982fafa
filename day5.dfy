/**
 * Day 5: page-ordering rules `a|b` (page a goes before page b) and updates,
 * lists of pages. Part 1 sums the middle page of every update whose
 * neighbouring pages never break a rule; part 2 re-sorts the other updates by
 * the rules and sums their middle pages.
 */
module Day5 {
  import opened Wrappers
  import opened Text

  // ---------------------------------------------------------------------
  // Parsing
  // ---------------------------------------------------------------------

  /** A rule line `before|after`; pieces after the second are ignored. */
  function RuleOf(line: string): Option<(nat, nat)>
  {
    var parts := Split(line, "|");
    if |parts| < 2 then None
    else
      match (ParseNat(parts[0]), ParseNat(parts[1]))
      case (Some(before), Some(after)) => Some((before, after))
      case _ => None
  }

  lemma RuleRoundTrip(before: nat, after: nat)
    ensures RuleOf(NatToString(before) + "|" + NatToString(after)) == Some((before, after))
  {
    DigitsNoChar(NatToString(before), '|');
    DigitsNoChar(NatToString(after), '|');
    SplitFirst(NatToString(before), "|", NatToString(after));
    SplitNone(NatToString(after), "|");
    ParseNatToString(before);
    ParseNatToString(after);
  }

  predicate RulesWellFormed(lines: seq<string>)
  {
    forall k :: 0 <= k < |lines| ==> RuleOf(lines[k]).Some?
  }

  /** The (before, after) rule of every line, in input order. */
  function Rules(lines: seq<string>): (rules: seq<(nat, nat)>)
    requires RulesWellFormed(lines)
    ensures |rules| == |lines|
  {
    if lines == [] then [] else Rules(lines[..|lines| - 1]) + [RuleOf(lines[|lines| - 1]).value]
  }

  function ParseNats(pieces: seq<string>): (r: Option<seq<nat>>)
    ensures r.Some? ==> |r.value| == |pieces|
  {
    if pieces == [] then Some([])
    else
      match (ParseNat(pieces[0]), ParseNats(pieces[1..]))
      case (Some(x), Some(rest)) => Some([x] + rest)
      case _ => None
  }

  /** An update line: pages separated by commas. */
  function UpdateOf(line: string): (r: Option<seq<nat>>)
    ensures r.Some? ==> |r.value| >= 1
  {
    ParseNats(Split(line, ","))
  }

  function Render(pages: seq<nat>): (pieces: seq<string>)
    ensures |pieces| == |pages|
    ensures forall k :: 0 <= k < |pieces| ==> pieces[k] == NatToString(pages[k])
  {
    if pages == [] then [] else [NatToString(pages[0])] + Render(pages[1..])
  }

  lemma {:induction false} ParseRender(pages: seq<nat>)
    ensures ParseNats(Render(pages)) == Some(pages)
  {
    if pages != [] {
      ParseNatToString(pages[0]);
      ParseRender(pages[1..]);
      assert pages == [pages[0]] + pages[1..];
    }
  }

  /** An update written with commas between its pages reads back as that update. */
  lemma UpdateRoundTrip(pages: seq<nat>)
    requires |pages| >= 1
    ensures UpdateOf(Join(Render(pages), ",")) == Some(pages)
  {
    var pieces := Render(pages);
    forall k | 0 <= k < |pieces|
      ensures NoChar(pieces[k], ',')
    {
      DigitsNoChar(pieces[k], ',');
    }
    SplitJoin(pieces, ",");
    ParseRender(pages);
  }

  predicate UpdatesWellFormed(lines: seq<string>)
  {
    forall k :: 0 <= k < |lines| ==> UpdateOf(lines[k]).Some?
  }

  function Updates(lines: seq<string>): (updates: seq<seq<nat>>)
    requires UpdatesWellFormed(lines)
    ensures |updates| == |lines|
    ensures forall k :: 0 <= k < |updates| ==> |updates[k]| >= 1
  {
    if lines == [] then [] else Updates(lines[..|lines| - 1]) + [UpdateOf(lines[|lines| - 1]).value]
  }

  /** The input is the rule lines, a blank line, then the update lines; `find("\n\n")` splits it. */
  function RuleLines(input: string): seq<string>
    requires Find(input, "\n\n").Some?
  {
    Lines(input[..Find(input, "\n\n").value])
  }

  function UpdateLines(input: string): seq<string>
    requires Find(input, "\n\n").Some?
  {
    Lines(Trim(input[Find(input, "\n\n").value..]))
  }

  predicate WellFormed(input: string)
  {
    Find(input, "\n\n").Some? && RulesWellFormed(RuleLines(input)) && UpdatesWellFormed(UpdateLines(input))
  }

  // ---------------------------------------------------------------------
  // The ordering
  // ---------------------------------------------------------------------

  /** `orders`: each page mapped to the set of pages that must come after it. */
  type Orders = map<nat, set<nat>>

  /** The map the rules build up, one `entry` insertion per rule. */
  function OrdersOf(rules: seq<(nat, nat)>): Orders
  {
    if rules == [] then map[] else AddRule(OrdersOf(rules[..|rules| - 1]), rules[|rules| - 1])
  }

  /** One `entry` insertion: `after` joins the set of `before`, which is created if missing. */
  function AddRule(orders: Orders, rule: (nat, nat)): Orders
  {
    var (before, after) := rule;
    if before in orders then orders[before := orders[before] + {after}] else orders[before := {after}]
  }

  lemma RulesStep(lines: seq<string>, k: nat)
    requires RulesWellFormed(lines) && k < |lines|
    ensures RulesWellFormed(lines[..k]) && RulesWellFormed(lines[..k + 1])
    ensures OrdersOf(Rules(lines[..k + 1])) == AddRule(OrdersOf(Rules(lines[..k])), RuleOf(lines[k]).value)
  {
    assert lines[..k + 1][..k] == lines[..k];
    var rules := Rules(lines[..k + 1]);
    assert rules[..|rules| - 1] == Rules(lines[..k]);
  }

  /** The map holds exactly the rules: `after` is in `orders[before]` iff `before|after` is a rule. */
  ghost predicate Represents(orders: Orders, rules: seq<(nat, nat)>)
  {
    (forall before, after :: before in orders && after in orders[before] <==> (before, after) in rules) &&
    (forall before :: before in orders ==> orders[before] != {})
  }

  lemma {:induction false} OrdersOfRepresents(rules: seq<(nat, nat)>)
    ensures Represents(OrdersOf(rules), rules)
  {
    if rules != [] {
      var prefix := rules[..|rules| - 1];
      var (b, a) := rules[|rules| - 1];
      OrdersOfRepresents(prefix);
      assert rules == prefix + [(b, a)];
      var orders := OrdersOf(rules);
      var earlier := OrdersOf(prefix);
      forall before, after
        ensures before in orders && after in orders[before] <==> (before, after) in rules
      {
        if before == b {
          assert orders[b] == (if b in earlier then earlier[b] else {}) + {a};
        } else {
          assert (before in orders) == (before in earlier);
        }
      }
    }
  }

  /** `PageOrdering::parse`. */
  method ParseOrdering(lines: seq<string>) returns (orders: Orders)
    requires RulesWellFormed(lines)
    ensures orders == OrdersOf(Rules(lines))
  {
    orders := map[];
    for k := 0 to |lines|
      invariant orders == OrdersOf(Rules(lines[..k]))
    {
      var (before, after) := RuleOf(lines[k]).value;
      RulesStep(lines, k);
      if before in orders {
        orders := orders[before := orders[before] + {after}];
      } else {
        orders := orders[before := {after}];
      }
    }
    assert lines[..|lines|] == lines;
  }

  /** `PageOrdering::sorted`: `a` may stand before `b` unless `b` must come before `a`. */
  predicate Sorted(orders: Orders, a: nat, b: nat)
  {
    if b !in orders then true
    else if a in orders[b] then false
    else true
  }

  datatype Ordering = Less | Equal | Greater

  /** `PageOrdering::sort`, the comparator part 2 sorts with. */
  function Cmp(orders: Orders, a: nat, b: nat): Ordering
  {
    if a !in orders && b !in orders then Equal
    else if b in orders && a in orders[b] then Greater
    else if a in orders && b in orders[a] then Less
    else Equal
  }

  /** In terms of the rules: `a` may precede `b` unless there is a rule `b|a`. */
  lemma SortedMeaning(orders: Orders, rules: seq<(nat, nat)>, a: nat, b: nat)
    requires Represents(orders, rules)
    ensures Sorted(orders, a, b) <==> (b, a) !in rules
  {
  }

  /** In terms of the rules: greater when `b|a` is a rule, else less when `a|b` is, else equal. */
  lemma CmpMeaning(orders: Orders, rules: seq<(nat, nat)>, a: nat, b: nat)
    requires Represents(orders, rules)
    ensures Cmp(orders, a, b) == Greater <==> (b, a) in rules
    ensures Cmp(orders, a, b) == Less <==> (b, a) !in rules && (a, b) in rules
    ensures Cmp(orders, a, b) == Equal <==> (b, a) !in rules && (a, b) !in rules
  {
  }

  /** The comparator calls a pair out of order exactly when `sorted` rejects it. */
  lemma CmpGreaterIffNotSorted(orders: Orders, a: nat, b: nat)
    ensures Cmp(orders, a, b) == Greater <==> !Sorted(orders, a, b)
  {
  }

  /** No two rules put the same two pages in opposite orders. */
  ghost predicate NoConflict(orders: Orders)
  {
    forall a, b :: a in orders && b in orders[a] ==> !(b in orders && a in orders[b])
  }

  /** Without conflicting rules the comparator is antisymmetric. */
  lemma CmpAntisymmetric(orders: Orders, a: nat, b: nat)
    requires NoConflict(orders)
    ensures Cmp(orders, a, b) == Greater <==> Cmp(orders, b, a) == Less
  {
  }

  /** With conflicting rules `1|2` and `2|1` both orders of the pair are called greater. */
  lemma CmpConflictExample()
    ensures Cmp(map[1 := {2}, 2 := {1}], 1, 2) == Greater && Cmp(map[1 := {2}, 2 := {1}], 2, 1) == Greater
  {
  }

  /** The rules of the worked example. */
  const ExampleRules: seq<(nat, nat)> := [
    (47, 53), (97, 13), (97, 61), (97, 47), (75, 29), (61, 13), (75, 53), (29, 13), (97, 29), (53, 29), (61, 53),
    (97, 53), (61, 29), (47, 13), (75, 47), (97, 75), (47, 61), (75, 61), (47, 29), (75, 13), (53, 13)]

  // ---------------------------------------------------------------------
  // Sortedness and sorting
  // ---------------------------------------------------------------------

  /** `is_sorted_by(sorted)`: every neighbouring pair is allowed. */
  predicate IsSortedBy(orders: Orders, update: seq<nat>)
  {
    forall i :: 0 <= i < |update| - 1 ==> Sorted(orders, update[i], update[i + 1])
  }

  /** `75,47,61,53,29` is in order under any rules that forbid none of its neighbouring pairs. */
  lemma SortedUnder(orders: Orders, rules: seq<(nat, nat)>)
    requires Represents(orders, rules)
    requires (47, 75) !in rules && (61, 47) !in rules && (53, 61) !in rules && (29, 53) !in rules
    ensures IsSortedBy(orders, [75, 47, 61, 53, 29])
  {
    var u := [75, 47, 61, 53, 29];
    assert Sorted(orders, u[0], u[1]) && Sorted(orders, u[1], u[2]);
    assert Sorted(orders, u[2], u[3]) && Sorted(orders, u[3], u[4]);
  }

  /** `75,97,47,61,53` is out of order under any rules holding `97|75`, and `61,13,29` under any holding `29|13`. */
  lemma NotSortedUnder(orders: Orders, rules: seq<(nat, nat)>)
    requires Represents(orders, rules)
    requires (97, 75) in rules && (29, 13) in rules
    ensures !IsSortedBy(orders, [75, 97, 47, 61, 53]) && !IsSortedBy(orders, [61, 13, 29])
  {
    var u, v := [75, 97, 47, 61, 53], [61, 13, 29];
    assert !Sorted(orders, u[0], u[1]);
    assert !Sorted(orders, v[1], v[2]);
  }

  /**
   * The worked example's rules meet the conditions of `SortedUnder` and
   * `NotSortedUnder`: `75,47,61,53,29` is in order, `75,97,47,61,53` and
   * `61,13,29` are not.
   */
  lemma ExampleRulesDecide()
    ensures (47, 75) !in ExampleRules && (61, 47) !in ExampleRules && (53, 61) !in ExampleRules && (29, 53) !in ExampleRules
    ensures (97, 75) in ExampleRules && (29, 13) in ExampleRules
  {
    forall k | 0 <= k < |ExampleRules|
      ensures ExampleRules[k] != (47, 75) && ExampleRules[k] != (61, 47)
      ensures ExampleRules[k] != (53, 61) && ExampleRules[k] != (29, 53)
    {
    }
    assert ExampleRules[15] == (97, 75) && ExampleRules[7] == (29, 13);
  }

  /** One step of a stable insertion sort: `x` moves left past every page the comparator puts after it. */
  function InsertBy(orders: Orders, x: nat, s: seq<nat>): (r: seq<nat>)
    ensures multiset(r) == multiset(s) + multiset{x} && |r| == |s| + 1
    ensures r[|r| - 1] == x || (s != [] && r[|r| - 1] == s[|s| - 1])
  {
    if s == [] || Cmp(orders, s[|s| - 1], x) != Greater then s + [x]
    else
      var r := InsertBy(orders, x, s[..|s| - 1]) + [s[|s| - 1]];
      assert s == s[..|s| - 1] + [s[|s| - 1]];
      r
  }

  /** `sort_by(sort)`, as a stable insertion sort. */
  function SortBy(orders: Orders, s: seq<nat>): (r: seq<nat>)
    ensures multiset(r) == multiset(s) && |r| == |s|
  {
    if s == [] then []
    else
      assert s == s[..|s| - 1] + [s[|s| - 1]];
      InsertBy(orders, s[|s| - 1], SortBy(orders, s[..|s| - 1]))
  }

  lemma {:induction false} InsertBySorted(orders: Orders, x: nat, s: seq<nat>)
    requires NoConflict(orders) && IsSortedBy(orders, s)
    ensures IsSortedBy(orders, InsertBy(orders, x, s))
  {
    if s != [] && Cmp(orders, s[|s| - 1], x) == Greater {
      var prefix := s[..|s| - 1];
      var last := s[|s| - 1];
      InsertBySorted(orders, x, prefix);
      var r := InsertBy(orders, x, prefix);
      var full := r + [last];
      forall i | 0 <= i < |full| - 1
        ensures Sorted(orders, full[i], full[i + 1])
      {
        if i < |r| - 1 {
          assert full[i] == r[i] && full[i + 1] == r[i + 1];
        } else if r[|r| - 1] == x {
          CmpAntisymmetric(orders, last, x);
          CmpGreaterIffNotSorted(orders, x, last);
        } else {
          assert Sorted(orders, s[|s| - 2], s[|s| - 1]);
        }
      }
    } else if s != [] {
      CmpGreaterIffNotSorted(orders, s[|s| - 1], x);
    }
  }

  /** Without conflicting rules, a re-sorted update passes the part 1 check. */
  lemma {:induction false} SortBySorted(orders: Orders, s: seq<nat>)
    requires NoConflict(orders)
    ensures IsSortedBy(orders, SortBy(orders, s))
  {
    if s != [] {
      SortBySorted(orders, s[..|s| - 1]);
      InsertBySorted(orders, s[|s| - 1], SortBy(orders, s[..|s| - 1]));
    }
  }

  lemma SortedSplit(orders: Orders, s: seq<nat>)
    requires s != [] && IsSortedBy(orders, s)
    ensures IsSortedBy(orders, s[..|s| - 1])
    ensures |s| >= 2 ==> Sorted(orders, s[|s| - 2], s[|s| - 1])
  {
    var prefix := s[..|s| - 1];
    forall i | 0 <= i < |prefix| - 1
      ensures Sorted(orders, prefix[i], prefix[i + 1])
    {
      assert prefix[i] == s[i] && prefix[i + 1] == s[i + 1];
    }
  }

  lemma InsertByAfter(orders: Orders, x: nat, s: seq<nat>)
    requires s != [] ==> Sorted(orders, s[|s| - 1], x)
    ensures InsertBy(orders, x, s) == s + [x]
  {
    if s != [] {
      CmpGreaterIffNotSorted(orders, s[|s| - 1], x);
    }
  }

  lemma SortByKeepsStep(orders: Orders, s: seq<nat>)
    requires s != [] && SortBy(orders, s[..|s| - 1]) == s[..|s| - 1]
    requires |s| >= 2 ==> Sorted(orders, s[|s| - 2], s[|s| - 1])
    ensures SortBy(orders, s) == s
  {
    var prefix := s[..|s| - 1];
    if |s| >= 2 {
      assert prefix[|prefix| - 1] == s[|s| - 2];
    }
    InsertByAfter(orders, s[|s| - 1], prefix);
    assert s == prefix + [s[|s| - 1]];
  }

  /** An update that is already in order comes out of the sort unchanged. */
  lemma {:induction false} SortByKeepsSorted(orders: Orders, s: seq<nat>)
    requires IsSortedBy(orders, s)
    ensures SortBy(orders, s) == s
  {
    if s != [] {
      SortedSplit(orders, s);
      SortByKeepsSorted(orders, s[..|s| - 1]);
      SortByKeepsStep(orders, s);
    }
  }

  // ---------------------------------------------------------------------
  // The two parts
  // ---------------------------------------------------------------------

  /** The middle page of an update (for an even length, the later of the two middle pages). */
  function Middle(update: seq<nat>): nat
    requires |update| >= 1
  {
    update[|update| / 2]
  }

  /** The middle pages of the updates that are already in order. */
  function SortedMiddleSum(orders: Orders, updates: seq<seq<nat>>): nat
    requires forall k :: 0 <= k < |updates| ==> |updates[k]| >= 1
  {
    if updates == [] then 0
    else
      var u := updates[|updates| - 1];
      SortedMiddleSum(orders, updates[..|updates| - 1]) + (if IsSortedBy(orders, u) then Middle(u) else 0)
  }

  /** The middle pages of the updates that are out of order, once re-sorted. */
  function ResortedMiddleSum(orders: Orders, updates: seq<seq<nat>>): nat
    requires forall k :: 0 <= k < |updates| ==> |updates[k]| >= 1
  {
    if updates == [] then 0
    else
      var u := updates[|updates| - 1];
      ResortedMiddleSum(orders, updates[..|updates| - 1]) + (if IsSortedBy(orders, u) then 0 else Middle(SortBy(orders, u)))
  }

  method SumSorted(orders: Orders, updates: seq<seq<nat>>) returns (middleSum: nat)
    requires forall k :: 0 <= k < |updates| ==> |updates[k]| >= 1
    ensures middleSum == SortedMiddleSum(orders, updates)
  {
    middleSum := 0;
    for k := 0 to |updates|
      invariant middleSum == SortedMiddleSum(orders, updates[..k])
    {
      var update := updates[k];
      assert updates[..k + 1][..k] == updates[..k];
      if IsSortedBy(orders, update) {
        var midpoint := |update| / 2;
        middleSum := middleSum + update[midpoint];
      }
    }
    assert updates[..|updates|] == updates;
  }

  method SumResorted(orders: Orders, updates: seq<seq<nat>>) returns (middleSum: nat)
    requires forall k :: 0 <= k < |updates| ==> |updates[k]| >= 1
    ensures middleSum == ResortedMiddleSum(orders, updates)
  {
    middleSum := 0;
    for k := 0 to |updates|
      invariant middleSum == ResortedMiddleSum(orders, updates[..k])
    {
      var update := updates[k];
      assert updates[..k + 1][..k] == updates[..k];
      if !IsSortedBy(orders, update) {
        update := SortBy(orders, update);
        var midpoint := |update| / 2;
        middleSum := middleSum + update[midpoint];
      }
    }
    assert updates[..|updates|] == updates;
  }

  method Part1(input: string) returns (middleSum: nat)
    requires WellFormed(input)
    ensures middleSum == SortedMiddleSum(OrdersOf(Rules(RuleLines(input))), Updates(UpdateLines(input)))
  {
    var orders := ParseOrdering(RuleLines(input));
    middleSum := SumSorted(orders, Updates(UpdateLines(input)));
  }

  method Part2(input: string) returns (middleSum: nat)
    requires WellFormed(input)
    ensures middleSum == ResortedMiddleSum(OrdersOf(Rules(RuleLines(input))), Updates(UpdateLines(input)))
  {
    var orders := ParseOrdering(RuleLines(input));
    middleSum := SumResorted(orders, Updates(UpdateLines(input)));
  }

  /** Every update counts in exactly one part: the two sums together cover the middles of all updates, part 2's after sorting. */
  lemma {:induction false} PartsPartition(orders: Orders, updates: seq<seq<nat>>)
    requires forall k :: 0 <= k < |updates| ==> |updates[k]| >= 1
    ensures SortedMiddleSum(orders, updates) + ResortedMiddleSum(orders, updates) == AllMiddleSum(orders, updates)
  {
    if updates != [] {
      PartsPartition(orders, updates[..|updates| - 1]);
      var u := updates[|updates| - 1];
      if IsSortedBy(orders, u) {
        SortByKeepsSorted(orders, u);
      }
    }
  }

  /** The middle page of every update, after sorting it by the rules. */
  function AllMiddleSum(orders: Orders, updates: seq<seq<nat>>): nat
    requires forall k :: 0 <= k < |updates| ==> |updates[k]| >= 1
  {
    if updates == [] then 0
    else AllMiddleSum(orders, updates[..|updates| - 1]) + Middle(SortBy(orders, updates[|updates| - 1]))
  }
}
