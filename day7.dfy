/**
 * Day 7: calibration equations `test: a b c ...`. An equation is valid when
 * some choice of operators between the operands, evaluated strictly left to
 * right, gives `test`. Part 1 allows `+` and `*`; part 2 also allows decimal
 * concatenation and prunes every intermediate value above `test`. Each part
 * sums the test values of the valid equations.
 */
module Day7 {
  import opened Wrappers
  import opened Text

  datatype Equation = Equation(test: nat, operands: seq<nat>)

  // ---------------------------------------------------------------------
  // Parsing
  // ---------------------------------------------------------------------

  /** Every word parsed as an unsigned integer, or nothing when one does not parse. */
  function ParseOperands(words: seq<string>): (r: Option<seq<nat>>)
    ensures r.Some? ==> |r.value| == |words|
  {
    if words == [] then Some([])
    else
      match (ParseOperands(words[..|words| - 1]), ParseNat(words[|words| - 1]))
      case (Some(ops), Some(n)) => Some(ops + [n])
      case _ => None
  }

  /**
   * `parse_line`: the test value before the first `:`, then the operands
   * after it, separated by whitespace.
   */
  function ParseLine(line: string): Option<Equation>
  {
    match Find(line, ":")
    case None => None
    case Some(k) =>
      match ParseNat(line[..k])
      case None => None
      case Some(test) =>
        match ParseOperands(SplitWhitespace(Trim(TrimStartMatches(line[k..], ':'))))
        case None => None
        case Some(operands) => Some(Equation(test, operands))
  }

  function RenderOperands(ops: seq<nat>): (words: seq<string>)
    ensures |words| == |ops|
    ensures forall k :: 0 <= k < |ops| ==> words[k] == NatToString(ops[k])
  {
    if ops == [] then [] else RenderOperands(ops[..|ops| - 1]) + [NatToString(ops[|ops| - 1])]
  }

  /** The line of the puzzle input that states an equation. */
  function Render(e: Equation): string
  {
    NatToString(e.test) + ": " + Join(RenderOperands(e.operands), " ")
  }

  lemma {:induction false} ParseOperandsRender(ops: seq<nat>)
    ensures ParseOperands(RenderOperands(ops)) == Some(ops)
  {
    if ops != [] {
      ParseOperandsRender(ops[..|ops| - 1]);
      ParseOperandsStep(ops);
    }
  }

  /** Parsing the rendering of one more operand. */
  lemma ParseOperandsStep(ops: seq<nat>)
    requires ops != [] && ParseOperands(RenderOperands(ops[..|ops| - 1])) == Some(ops[..|ops| - 1])
    ensures ParseOperands(RenderOperands(ops)) == Some(ops)
  {
    var init := ops[..|ops| - 1];
    var words := RenderOperands(ops);
    assert words[..|words| - 1] == RenderOperands(init);
    ParseNatToString(ops[|ops| - 1]);
    InitLast(ops);
  }

  lemma InitLast(s: seq<nat>)
    requires s != []
    ensures s[..|s| - 1] + [s[|s| - 1]] == s
  {
  }

  /** Digits are never whitespace, so a rendered number is a word. */
  lemma NumberIsWord(n: nat)
    ensures IsWord(NatToString(n))
  {
    var s := NatToString(n);
    assert forall i :: 0 <= i < |s| ==> IsDigit(s[i]);
  }

  /** The last character of a non-empty joined list is the last character of its last word. */
  lemma {:induction false} JoinEnd(words: seq<string>, sep: string)
    requires |words| >= 1 && words[|words| - 1] != []
    ensures |Join(words, sep)| >= 1
    ensures Join(words, sep)[|Join(words, sep)| - 1] == words[|words| - 1][|words[|words| - 1]| - 1]
  {
    if |words| > 1 {
      JoinEnd(words[1..], sep);
      assert Join(words, sep) == words[0] + sep + Join(words[1..], sep);
    }
  }

  /** The rendering has no whitespace at either end, so trimming keeps it. */
  lemma TrimJoinedNumbers(ops: seq<nat>)
    ensures Trim(" " + Join(RenderOperands(ops), " ")) == Join(RenderOperands(ops), " ")
  {
    var body := Join(RenderOperands(ops), " ");
    TrimStartSpace(' ', body);
    assert " " + body == [' '] + body;
    if ops != [] {
      JoinedNumbersEnds(ops);
    }
    TrimNoop(body);
  }

  /** A non-empty rendering of operands starts and ends with a digit. */
  lemma JoinedNumbersEnds(ops: seq<nat>)
    requires ops != []
    ensures Join(RenderOperands(ops), " ") != []
    ensures !IsWhitespace(Join(RenderOperands(ops), " ")[0])
    ensures !IsWhitespace(Join(RenderOperands(ops), " ")[|Join(RenderOperands(ops), " ")| - 1])
  {
    var words := RenderOperands(ops);
    var body := Join(words, " ");
    NumberIsWord(ops[0]);
    JoinStart(words, " ");
    assert body[0] == words[0][0];
    NumberIsWord(ops[|ops| - 1]);
    JoinEnd(words, " ");
  }

  /** The first `:` after a run of digits is the one right after them. */
  lemma FindAfterDigits(t: string, rest: string)
    requires AllDigits(t) && rest != [] && rest[0] == ':'
    ensures Find(t + rest, ":") == Some(|t|)
  {
    var line := t + rest;
    assert OccursAt(line, ":", |t|) by {
      assert line[|t|..|t| + 1] == [rest[0]];
    }
    forall k | 0 <= k < |t|
      ensures !OccursAt(line, ":", k)
    {
      assert line[k..k + 1] == [t[k]];
    }
  }

  /** What follows the test value parses back to the operands. */
  lemma ParseOperandsPart(ops: seq<nat>)
    ensures ParseOperands(SplitWhitespace(Trim(TrimStartMatches(": " + Join(RenderOperands(ops), " "), ':')))) == Some(ops)
  {
    var words := RenderOperands(ops);
    var body := Join(words, " ");
    assert TrimStartMatches(": " + body, ':') == " " + body by {
      assert (": " + body)[1..] == " " + body;
    }
    TrimJoinedNumbers(ops);
    forall k | 0 <= k < |words|
      ensures IsWord(words[k])
    {
      NumberIsWord(ops[k]);
    }
    SplitWhitespaceJoin(words);
    ParseOperandsRender(ops);
  }

  /** A rendered equation parses back to itself. */
  lemma ParseRender(e: Equation)
    ensures ParseLine(Render(e)) == Some(e)
  {
    var t := NatToString(e.test);
    var after := ": " + Join(RenderOperands(e.operands), " ");
    var line := Render(e);
    assert line == t + after;
    FindAfterDigits(t, after);
    assert line[..|t|] == t;
    assert line[|t|..] == after;
    ParseNatToString(e.test);
    ParseOperandsPart(e.operands);
  }

  // ---------------------------------------------------------------------
  // Operators
  // ---------------------------------------------------------------------

  function Pow10(k: nat): (p: nat)
    ensures p >= 1
  {
    if k == 0 then 1 else 10 * Pow10(k - 1)
  }

  /** `checked_ilog10().unwrap_or_default() + 1`: the number of decimal digits, one for zero. */
  function NumDigits(b: nat): (k: nat)
    ensures k >= 1
  {
    if b < 10 then 1 else 1 + NumDigits(b / 10)
  }

  /** `concat`: the digits of `b` written after those of `a`. */
  function Concat(a: nat, b: nat): nat
  {
    a * Pow10(NumDigits(b)) + b
  }

  lemma {:induction false} NumDigitsLength(b: nat)
    ensures |NatToString(b)| == NumDigits(b)
  {
    if b >= 10 {
      NumDigitsLength(b / 10);
    }
  }

  /** One more digit at the end of `b` is one more digit at the end of the concatenation. */
  lemma ConcatShift(a: nat, b: nat)
    requires b >= 10
    ensures Concat(a, b) == 10 * Concat(a, b / 10) + b % 10
  {
    var p := Pow10(NumDigits(b / 10));
    assert Pow10(NumDigits(b)) == 10 * p;
    calc {
      Concat(a, b);
      a * (10 * p) + b;
      { assert a * (10 * p) == 10 * (a * p); }
      10 * (a * p) + 10 * (b / 10) + b % 10;
      10 * Concat(a, b / 10) + b % 10;
    }
  }

  /** For a non-zero `a`, concatenating numbers concatenates their decimal renderings. */
  lemma {:induction false} ConcatDigits(a: nat, b: nat)
    requires a > 0
    ensures NatToString(Concat(a, b)) == NatToString(a) + NatToString(b)
  {
    if b < 10 {
      assert Concat(a, b) == 10 * a + b;
      assert (10 * a + b) / 10 == a && (10 * a + b) % 10 == b;
    } else {
      ConcatDigits(a, b / 10);
      ConcatShift(a, b);
      var c := Concat(a, b);
      assert c / 10 == Concat(a, b / 10) && c % 10 == b % 10;
      assert c >= 10;
    }
  }

  lemma ConcatExamples()
    ensures Concat(11, 11) == 1111 && Concat(12, 345) == 12345
    ensures Concat(7, 0) == 70
  {
    assert NumDigits(11) == 2 && NumDigits(345) == 3;
  }

  lemma MulAtLeast(a: nat, b: nat)
    requires b >= 1
    ensures a * b >= a
  {
    assert a * b == a * (b - 1) + a;
  }

  /** Concatenation never gives less than its left operand. */
  lemma ConcatAtLeast(a: nat, b: nat)
    ensures Concat(a, b) >= a
  {
    MulAtLeast(a, Pow10(NumDigits(b)));
  }

  datatype Operator = Add | Multiply | Concatenate

  function Apply(op: Operator, v: nat, y: nat): nat
  {
    match op
    case Add => v + y
    case Multiply => v * y
    case Concatenate => Concat(v, y)
  }

  predicate Allowed(op: Operator, withConcat: bool)
  {
    op != Concatenate || withConcat
  }

  // ---------------------------------------------------------------------
  // What a valid equation is
  // ---------------------------------------------------------------------

  /** Evaluation strictly left to right: start from `v`, then apply `opers[k]` with `rest[k]`. */
  function EvalFrom(v: nat, rest: seq<nat>, opers: seq<Operator>): nat
    requires |opers| == |rest|
    decreases |rest|
  {
    if rest == [] then v else EvalFrom(Apply(opers[0], v, rest[0]), rest[1..], opers[1..])
  }

  /** Some choice of allowed operators turns `v` followed by `rest` into `test`. */
  ghost predicate Reaches(test: nat, v: nat, rest: seq<nat>, withConcat: bool)
  {
    exists opers: seq<Operator> ::
      |opers| == |rest| && (forall k :: 0 <= k < |opers| ==> Allowed(opers[k], withConcat)) &&
      EvalFrom(v, rest, opers) == test
  }

  /** The search tree below an intermediate value `v` with `rest` still to apply: does a leaf equal `test`? */
  function Completes(test: nat, v: nat, rest: seq<nat>, withConcat: bool): bool
    decreases |rest|
  {
    if rest == [] then v == test
    else
      Completes(test, Apply(Add, v, rest[0]), rest[1..], withConcat) ||
      Completes(test, Apply(Multiply, v, rest[0]), rest[1..], withConcat) ||
      (withConcat && Completes(test, Apply(Concatenate, v, rest[0]), rest[1..], withConcat))
  }

  /**
   * The tree the concatenation search walks: below the leaves, a child is
   * only explored when its value does not exceed `test`.
   */
  function CompletesPruned(test: nat, v: nat, rest: seq<nat>): bool
    decreases |rest|
  {
    if rest == [] then v == test
    else
      var y := rest[0];
      (v + y <= test && CompletesPruned(test, v + y, rest[1..])) ||
      (v * y <= test && CompletesPruned(test, v * y, rest[1..])) ||
      (Concat(v, y) <= test && CompletesPruned(test, Concat(v, y), rest[1..]))
  }

  /** Every leaf equal to `test` comes from a choice of operators... */
  lemma {:induction false} CompletesReaches(test: nat, v: nat, rest: seq<nat>, withConcat: bool)
    requires Completes(test, v, rest, withConcat)
    ensures Reaches(test, v, rest, withConcat)
    decreases |rest|
  {
    if rest == [] {
      assert EvalFrom(v, rest, []) == test;
    } else {
      var y, tail := rest[0], rest[1..];
      var op :| Allowed(op, withConcat) && Completes(test, Apply(op, v, y), tail, withConcat);
      CompletesReaches(test, Apply(op, v, y), tail, withConcat);
      var more: seq<Operator> :| |more| == |tail| && (forall k :: 0 <= k < |more| ==> Allowed(more[k], withConcat)) &&
        EvalFrom(Apply(op, v, y), tail, more) == test;
      var opers := [op] + more;
      assert opers[1..] == more;
      assert EvalFrom(v, rest, opers) == test;
    }
  }

  /** ...and every choice of operators that gives `test` is a leaf of the search tree. */
  lemma {:induction false} ReachesCompletes(test: nat, v: nat, rest: seq<nat>, withConcat: bool)
    requires Reaches(test, v, rest, withConcat)
    ensures Completes(test, v, rest, withConcat)
    decreases |rest|
  {
    var opers: seq<Operator> :| |opers| == |rest| && (forall k :: 0 <= k < |opers| ==> Allowed(opers[k], withConcat)) &&
      EvalFrom(v, rest, opers) == test;
    if rest != [] {
      var op, more := opers[0], opers[1..];
      assert forall k :: 0 <= k < |more| ==> Allowed(more[k], withConcat);
      assert EvalFrom(Apply(op, v, rest[0]), rest[1..], more) == test;
      ReachesCompletes(test, Apply(op, v, rest[0]), rest[1..], withConcat);
    }
  }

  /** The search tree holds a leaf equal to `test` exactly when some operator choice evaluates to `test`. */
  lemma CompletesIffReaches(test: nat, v: nat, rest: seq<nat>, withConcat: bool)
    ensures Completes(test, v, rest, withConcat) <==> Reaches(test, v, rest, withConcat)
  {
    if Completes(test, v, rest, withConcat) {
      CompletesReaches(test, v, rest, withConcat);
    }
    if Reaches(test, v, rest, withConcat) {
      ReachesCompletes(test, v, rest, withConcat);
    }
  }

  /** An equation valid with `+` and `*` stays valid once concatenation is allowed too. */
  lemma {:induction false} CompletesWithConcat(test: nat, v: nat, rest: seq<nat>)
    requires Completes(test, v, rest, false)
    ensures Completes(test, v, rest, true)
    decreases |rest|
  {
    if rest != [] {
      var y := rest[0];
      if Completes(test, v + y, rest[1..], false) {
        CompletesWithConcat(test, v + y, rest[1..]);
      } else {
        CompletesWithConcat(test, v * y, rest[1..]);
      }
    }
  }

  /** Every leaf the pruned search finds is a leaf of the full tree. */
  lemma {:induction false} PrunedSound(test: nat, v: nat, rest: seq<nat>)
    requires CompletesPruned(test, v, rest)
    ensures Completes(test, v, rest, true)
    decreases |rest|
  {
    if rest != [] {
      var y := rest[0];
      PrunedChild(test, v, rest);
      if CompletesPruned(test, v + y, rest[1..]) {
        PrunedSound(test, v + y, rest[1..]);
      } else if CompletesPruned(test, v * y, rest[1..]) {
        PrunedSound(test, v * y, rest[1..]);
      } else {
        PrunedSound(test, Concat(v, y), rest[1..]);
      }
      CompletesByChild(test, v, rest);
    }
  }

  /** A node of the pruned tree with a leaf equal to `test` below it has a child with one. */
  lemma PrunedChild(test: nat, v: nat, rest: seq<nat>)
    requires rest != [] && CompletesPruned(test, v, rest)
    ensures CompletesPruned(test, v + rest[0], rest[1..]) || CompletesPruned(test, v * rest[0], rest[1..])
      || CompletesPruned(test, Concat(v, rest[0]), rest[1..])
  {
  }

  /** A node of the full tree has a leaf equal to `test` below it when one of its children has. */
  lemma CompletesByChild(test: nat, v: nat, rest: seq<nat>)
    requires rest != []
    requires Completes(test, v + rest[0], rest[1..], true) || Completes(test, v * rest[0], rest[1..], true)
      || Completes(test, Concat(v, rest[0]), rest[1..], true)
    ensures Completes(test, v, rest, true)
  {
  }

  predicate AllPositive(s: seq<nat>)
  {
    forall k :: 0 <= k < |s| ==> s[k] >= 1
  }

  /** With operands of at least one no operator lowers the value, so a value above `test` never reaches it. */
  lemma {:induction false} CompletesBounded(test: nat, v: nat, rest: seq<nat>)
    requires AllPositive(rest) && Completes(test, v, rest, true)
    ensures v <= test
    decreases |rest|
  {
    if rest != [] {
      var y, tail := rest[0], rest[1..];
      assert AllPositive(tail) by {
        assert forall k :: 0 <= k < |tail| ==> tail[k] == rest[k + 1];
      }
      MulAtLeast(v, y);
      ConcatAtLeast(v, y);
      if Completes(test, v + y, tail, true) {
        CompletesBounded(test, v + y, tail);
      } else if Completes(test, v * y, tail, true) {
        CompletesBounded(test, v * y, tail);
      } else {
        CompletesBounded(test, Concat(v, y), tail);
      }
    }
  }

  /** With operands of at least one, the pruning loses no solution. */
  lemma {:induction false} PrunedComplete(test: nat, v: nat, rest: seq<nat>)
    requires AllPositive(rest) && Completes(test, v, rest, true)
    ensures CompletesPruned(test, v, rest)
    decreases |rest|
  {
    if rest != [] {
      var y, tail := rest[0], rest[1..];
      assert AllPositive(tail) by {
        assert forall k :: 0 <= k < |tail| ==> tail[k] == rest[k + 1];
      }
      if Completes(test, v + y, tail, true) {
        CompletesBounded(test, v + y, tail);
        PrunedComplete(test, v + y, tail);
      } else if Completes(test, v * y, tail, true) {
        CompletesBounded(test, v * y, tail);
        PrunedComplete(test, v * y, tail);
      } else {
        CompletesBounded(test, Concat(v, y), tail);
        PrunedComplete(test, Concat(v, y), tail);
      }
    }
  }

  /**
   * A zero operand can bring a value above `test` back down, and then the
   * pruning drops a solution: `1: 2 3 0 1` holds as `(2 + 3) * 0 + 1`.
   */
  lemma PruningNeedsPositive()
    ensures Completes(1, 2, [3, 0, 1], false)
    ensures !CompletesPruned(1, 2, [3, 0, 1])
  {
    assert Completes(1, 5, [0, 1], false);
    assert NumDigits(3) == 1;
    assert Concat(2, 3) == 23;
  }

  // ---------------------------------------------------------------------
  // The two searches
  // ---------------------------------------------------------------------

  /** Every stack entry names an operand still to apply. */
  predicate InRange(stack: seq<(nat, nat)>, n: nat)
  {
    forall j :: 0 <= j < |stack| ==> 1 <= stack[j].1 < n
  }

  /** Whether some entry of the stack leads to a leaf equal to `test`. */
  function AnyCompletes(test: nat, operands: seq<nat>, stack: seq<(nat, nat)>, withConcat: bool): bool
  {
    if stack == [] then false
    else
      var (v, i) := stack[|stack| - 1];
      AnyCompletes(test, operands, stack[..|stack| - 1], withConcat) || (i <= |operands| && Completes(test, v, operands[i..], withConcat))
  }

  /** The same for the pruned tree. */
  function AnyCompletesPruned(test: nat, operands: seq<nat>, stack: seq<(nat, nat)>): bool
  {
    if stack == [] then false
    else
      var (v, i) := stack[|stack| - 1];
      AnyCompletesPruned(test, operands, stack[..|stack| - 1]) || (i <= |operands| && CompletesPruned(test, v, operands[i..]))
  }

  /** The number of nodes in the subtree below an entry at operand `i`, with `branching` children each. */
  function Subtree(branching: nat, i: nat, n: nat): nat
    decreases n - i
  {
    if i + 1 >= n then 1 else 1 + branching * Subtree(branching, i + 1, n)
  }

  /** The nodes the search may still visit. */
  function Work(branching: nat, stack: seq<(nat, nat)>, n: nat): nat
  {
    if stack == [] then 0
    else Work(branching, stack[..|stack| - 1], n) + Subtree(branching, stack[|stack| - 1].1, n)
  }

  /** Pushing an entry adds its subtree to the open decision and to the remaining work. */
  lemma Push(test: nat, operands: seq<nat>, stack: seq<(nat, nat)>, e: (nat, nat), withConcat: bool)
    requires InRange(stack, |operands|) && 1 <= e.1 < |operands|
    ensures InRange(stack + [e], |operands|)
    ensures AnyCompletes(test, operands, stack + [e], withConcat) ==
      (AnyCompletes(test, operands, stack, withConcat) || Completes(test, e.0, operands[e.1..], withConcat))
    ensures Work(2, stack + [e], |operands|) == Work(2, stack, |operands|) + Subtree(2, e.1, |operands|)
  {
    assert (stack + [e])[..|stack|] == stack;
  }

  /** The same for the pruned search, whose nodes have three children. */
  lemma PushPruned(test: nat, operands: seq<nat>, stack: seq<(nat, nat)>, e: (nat, nat))
    requires InRange(stack, |operands|) && 1 <= e.1 < |operands|
    ensures InRange(stack + [e], |operands|)
    ensures AnyCompletesPruned(test, operands, stack + [e]) ==
      (AnyCompletesPruned(test, operands, stack) || CompletesPruned(test, e.0, operands[e.1..]))
    ensures Work(3, stack + [e], |operands|) == Work(3, stack, |operands|) + Subtree(3, e.1, |operands|)
  {
    assert (stack + [e])[..|stack|] == stack;
  }

  /** One level of the tree: the operand at `i` is applied to `v` with each operator. */
  lemma CompletesStep(test: nat, v: nat, operands: seq<nat>, i: nat, withConcat: bool)
    requires i < |operands|
    ensures Completes(test, v, operands[i..], withConcat) ==
      Completes(test, v + operands[i], operands[i + 1..], withConcat) ||
      Completes(test, v * operands[i], operands[i + 1..], withConcat) ||
      (withConcat && Completes(test, Concat(v, operands[i]), operands[i + 1..], withConcat))
  {
    assert operands[i..][1..] == operands[i + 1..];
  }

  /** One level of the pruned tree. */
  lemma CompletesPrunedStep(test: nat, v: nat, operands: seq<nat>, i: nat)
    requires i < |operands|
    ensures CompletesPruned(test, v, operands[i..]) ==
      (v + operands[i] <= test && CompletesPruned(test, v + operands[i], operands[i + 1..])) ||
      (v * operands[i] <= test && CompletesPruned(test, v * operands[i], operands[i + 1..])) ||
      (Concat(v, operands[i]) <= test && CompletesPruned(test, Concat(v, operands[i]), operands[i + 1..]))
  {
    assert operands[i..][1..] == operands[i + 1..];
  }

  /** Popping an entry at the last operand decides its subtree on the spot. */
  lemma PopLeaf(test: nat, operands: seq<nat>, queue: seq<(nat, nat)>)
    requires InRange(queue, |operands|) && queue != [] && queue[|queue| - 1].1 + 1 == |operands|
    ensures InRange(queue[..|queue| - 1], |operands|)
    ensures var (v, i) := queue[|queue| - 1];
      AnyCompletes(test, operands, queue, false) ==
        (AnyCompletes(test, operands, queue[..|queue| - 1], false) || v + operands[i] == test || v * operands[i] == test)
    ensures Work(2, queue[..|queue| - 1], |operands|) < Work(2, queue, |operands|)
  {
    var (v, i) := queue[|queue| - 1];
    CompletesStep(test, v, operands, i, false);
    assert operands[i + 1..] == [];
  }

  /** Popping an inner entry leaves its two children to decide. */
  lemma PopInner(test: nat, operands: seq<nat>, queue: seq<(nat, nat)>)
    requires InRange(queue, |operands|) && queue != [] && queue[|queue| - 1].1 + 1 < |operands|
    ensures InRange(queue[..|queue| - 1], |operands|)
    ensures var (v, i) := queue[|queue| - 1];
      AnyCompletes(test, operands, queue, false) ==
        (AnyCompletes(test, operands, queue[..|queue| - 1], false) ||
         Completes(test, v + operands[i], operands[i + 1..], false) ||
         Completes(test, v * operands[i], operands[i + 1..], false))
    ensures var i := queue[|queue| - 1].1;
      Work(2, queue, |operands|) == Work(2, queue[..|queue| - 1], |operands|) + 1 + 2 * Subtree(2, i + 1, |operands|)
  {
    var (v, i) := queue[|queue| - 1];
    CompletesStep(test, v, operands, i, false);
  }

  /**
   * The body of the search loop of `has_valid_permutation`: pop an entry;
   * at the last operand, report whether the sum or the product is `test`;
   * otherwise push both.
   */
  method Expand(test: nat, operands: seq<nat>, queue: seq<(nat, nat)>) returns (found: bool, rest: seq<(nat, nat)>)
    requires InRange(queue, |operands|) && queue != []
    ensures InRange(rest, |operands|)
    ensures found ==> AnyCompletes(test, operands, queue, false)
    ensures !found ==> AnyCompletes(test, operands, rest, false) == AnyCompletes(test, operands, queue, false)
    ensures Work(2, rest, |operands|) < Work(2, queue, |operands|)
  {
    var (operand, neighbour) := queue[|queue| - 1];
    rest := queue[..|queue| - 1];
    var sum: nat := operand + operands[neighbour];
    var product: nat := operand * operands[neighbour];
    var next := neighbour + 1;
    found := false;
    if next == |operands| {
      PopLeaf(test, operands, queue);
      if sum == test || product == test {
        found := true;
      }
    } else {
      PopInner(test, operands, queue);
      Push(test, operands, rest, (sum, next), false);
      rest := rest + [(sum, next)];
      Push(test, operands, rest, (product, next), false);
      rest := rest + [(product, next)];
    }
  }

  /**
   * `has_valid_permutation`: a depth-first search over `+` and `*` with an
   * explicit stack of (value so far, next operand) entries.
   */
  method HasValidPermutation(test: nat, operands: seq<nat>) returns (found: bool)
    requires |operands| >= 1
    ensures found == Completes(test, operands[0], operands[1..], false)
  {
    if |operands| == 1 {
      return test == operands[0];
    }
    var queue: seq<(nat, nat)> := [(operands[0], 1)];
    Push(test, operands, [], (operands[0], 1), false);
    while queue != []
      invariant InRange(queue, |operands|)
      invariant AnyCompletes(test, operands, queue, false) == Completes(test, operands[0], operands[1..], false)
      decreases Work(2, queue, |operands|)
    {
      found, queue := Expand(test, operands, queue);
      if found {
        return true;
      }
    }
    return false;
  }

  /** Popping an entry at the last operand decides its subtree on the spot. */
  lemma PopLeafPruned(test: nat, operands: seq<nat>, queue: seq<(nat, nat)>)
    requires InRange(queue, |operands|) && queue != [] && queue[|queue| - 1].1 + 1 == |operands|
    ensures InRange(queue[..|queue| - 1], |operands|)
    ensures var (v, i) := queue[|queue| - 1];
      AnyCompletesPruned(test, operands, queue) ==
        (AnyCompletesPruned(test, operands, queue[..|queue| - 1]) ||
         v + operands[i] == test || v * operands[i] == test || Concat(v, operands[i]) == test)
    ensures Work(3, queue[..|queue| - 1], |operands|) < Work(3, queue, |operands|)
  {
    var (v, i) := queue[|queue| - 1];
    CompletesPrunedStep(test, v, operands, i);
    assert operands[i + 1..] == [];
  }

  /** Popping an inner entry leaves its children up to `test` to decide. */
  lemma PopInnerPruned(test: nat, operands: seq<nat>, queue: seq<(nat, nat)>)
    requires InRange(queue, |operands|) && queue != [] && queue[|queue| - 1].1 + 1 < |operands|
    ensures InRange(queue[..|queue| - 1], |operands|)
    ensures var (v, i) := queue[|queue| - 1];
      AnyCompletesPruned(test, operands, queue) ==
        (AnyCompletesPruned(test, operands, queue[..|queue| - 1]) ||
         (v + operands[i] <= test && CompletesPruned(test, v + operands[i], operands[i + 1..])) ||
         (v * operands[i] <= test && CompletesPruned(test, v * operands[i], operands[i + 1..])) ||
         (Concat(v, operands[i]) <= test && CompletesPruned(test, Concat(v, operands[i]), operands[i + 1..])))
    ensures var i := queue[|queue| - 1].1;
      Work(3, queue, |operands|) == Work(3, queue[..|queue| - 1], |operands|) + 1 + 3 * Subtree(3, i + 1, |operands|)
  {
    var (v, i) := queue[|queue| - 1];
    CompletesPrunedStep(test, v, operands, i);
  }

  /** One guarded push of the concatenation search: `value` is pushed only when it is at most `test`. */
  method PushIfAtMost(test: nat, operands: seq<nat>, queue: seq<(nat, nat)>, value: nat, next: nat)
    returns (rest: seq<(nat, nat)>)
    requires InRange(queue, |operands|) && 1 <= next < |operands|
    ensures InRange(rest, |operands|)
    ensures AnyCompletesPruned(test, operands, rest) ==
      (AnyCompletesPruned(test, operands, queue) || (value <= test && CompletesPruned(test, value, operands[next..])))
    ensures Work(3, rest, |operands|) <= Work(3, queue, |operands|) + Subtree(3, next, |operands|)
  {
    rest := queue;
    if value <= test {
      PushPruned(test, operands, queue, (value, next));
      rest := queue + [(value, next)];
    }
  }

  /**
   * The body of the search loop of `has_valid_permutation_concat`: pop an
   * entry; at the last operand, report whether the sum, the product or the
   * concatenation is `test`; otherwise push each of them that is at most `test`.
   */
  method ExpandPruned(test: nat, operands: seq<nat>, queue: seq<(nat, nat)>) returns (found: bool, rest: seq<(nat, nat)>)
    requires InRange(queue, |operands|) && queue != []
    ensures InRange(rest, |operands|)
    ensures found ==> AnyCompletesPruned(test, operands, queue)
    ensures !found ==> AnyCompletesPruned(test, operands, rest) == AnyCompletesPruned(test, operands, queue)
    ensures Work(3, rest, |operands|) < Work(3, queue, |operands|)
  {
    var (operand, neighbour) := queue[|queue| - 1];
    rest := queue[..|queue| - 1];
    var sum: nat := operand + operands[neighbour];
    var product: nat := operand * operands[neighbour];
    var concat := Concat(operand, operands[neighbour]);
    var next := neighbour + 1;
    found := false;
    if next == |operands| {
      PopLeafPruned(test, operands, queue);
      if sum == test || product == test || concat == test {
        found := true;
      }
    } else {
      PopInnerPruned(test, operands, queue);
      rest := PushIfAtMost(test, operands, rest, sum, next);
      rest := PushIfAtMost(test, operands, rest, product, next);
      rest := PushIfAtMost(test, operands, rest, concat, next);
    }
  }

  /**
   * `has_valid_permutation_concat`: the same search with concatenation as
   * a third operator; below the leaves only values up to `test` are pushed.
   */
  method HasValidPermutationConcat(test: nat, operands: seq<nat>) returns (found: bool)
    requires |operands| >= 1
    ensures found == CompletesPruned(test, operands[0], operands[1..])
  {
    if |operands| == 1 {
      return test == operands[0];
    }
    var queue: seq<(nat, nat)> := [(operands[0], 1)];
    PushPruned(test, operands, [], (operands[0], 1));
    while queue != []
      invariant InRange(queue, |operands|)
      invariant AnyCompletesPruned(test, operands, queue) == CompletesPruned(test, operands[0], operands[1..])
      decreases Work(3, queue, |operands|)
    {
      found, queue := ExpandPruned(test, operands, queue);
      if found {
        return true;
      }
    }
    return false;
  }

  // ---------------------------------------------------------------------
  // The two parts
  // ---------------------------------------------------------------------

  /** Every line parses, with at least one operand (`operands[0]` is read unconditionally). */
  predicate WellFormed(lines: seq<string>)
  {
    forall k :: 0 <= k < |lines| ==> ParseLine(lines[k]).Some? && |ParseLine(lines[k]).value.operands| >= 1
  }

  predicate HasOperands(eqs: seq<Equation>)
  {
    forall k :: 0 <= k < |eqs| ==> |eqs[k].operands| >= 1
  }

  function Equations(lines: seq<string>): (eqs: seq<Equation>)
    requires WellFormed(lines)
    ensures |eqs| == |lines| && HasOperands(eqs)
  {
    if lines == [] then [] else Equations(lines[..|lines| - 1]) + [ParseLine(lines[|lines| - 1]).value]
  }

  predicate Valid(e: Equation, withConcat: bool)
    requires |e.operands| >= 1
  {
    Completes(e.test, e.operands[0], e.operands[1..], withConcat)
  }

  predicate ValidPruned(e: Equation)
    requires |e.operands| >= 1
  {
    CompletesPruned(e.test, e.operands[0], e.operands[1..])
  }

  /** The sum of the test values of the equations valid with the given operators. */
  function Calibration(eqs: seq<Equation>, withConcat: bool): nat
    requires HasOperands(eqs)
  {
    if eqs == [] then 0
    else
      var e := eqs[|eqs| - 1];
      Calibration(eqs[..|eqs| - 1], withConcat) + (if Valid(e, withConcat) then e.test else 0)
  }

  /** The same sum when validity is decided by the pruned search. */
  function PrunedCalibration(eqs: seq<Equation>): nat
    requires HasOperands(eqs)
  {
    if eqs == [] then 0
    else
      var e := eqs[|eqs| - 1];
      PrunedCalibration(eqs[..|eqs| - 1]) + (if ValidPruned(e) then e.test else 0)
  }

  /** The filter and sum of part 1 over the parsed equations. */
  method SumValid(eqs: seq<Equation>) returns (total: nat)
    requires HasOperands(eqs)
    ensures total == Calibration(eqs, false)
  {
    total := 0;
    for k := 0 to |eqs|
      invariant total == Calibration(eqs[..k], false)
    {
      var ok := HasValidPermutation(eqs[k].test, eqs[k].operands);
      assert eqs[..k + 1][..k] == eqs[..k];
      if ok {
        total := total + eqs[k].test;
      }
    }
    assert eqs[..|eqs|] == eqs;
  }

  /** The filter and sum of part 2 over the parsed equations. */
  method SumValidConcat(eqs: seq<Equation>) returns (total: nat)
    requires HasOperands(eqs)
    ensures total == PrunedCalibration(eqs)
  {
    total := 0;
    for k := 0 to |eqs|
      invariant total == PrunedCalibration(eqs[..k])
    {
      var ok := HasValidPermutationConcat(eqs[k].test, eqs[k].operands);
      assert eqs[..k + 1][..k] == eqs[..k];
      if ok {
        total := total + eqs[k].test;
      }
    }
    assert eqs[..|eqs|] == eqs;
  }

  method Part1(input: string) returns (total: nat)
    requires WellFormed(Lines(input))
    ensures total == Calibration(Equations(Lines(input)), false)
  {
    total := SumValid(Equations(Lines(input)));
  }

  method Part2(input: string) returns (total: nat)
    requires WellFormed(Lines(input))
    ensures total == PrunedCalibration(Equations(Lines(input)))
  {
    total := SumValidConcat(Equations(Lines(input)));
  }

  // ---------------------------------------------------------------------
  // Properties of the totals
  // ---------------------------------------------------------------------

  predicate PositiveOperands(eqs: seq<Equation>)
  {
    forall k :: 0 <= k < |eqs| ==> AllPositive(eqs[k].operands)
  }

  /** With operands of at least one, the pruned part 2 total is the total over all operator choices. */
  lemma {:induction false} PrunedCalibrationExact(eqs: seq<Equation>)
    requires HasOperands(eqs) && PositiveOperands(eqs)
    ensures PrunedCalibration(eqs) == Calibration(eqs, true)
  {
    if eqs != [] {
      var e := eqs[|eqs| - 1];
      PrunedCalibrationExact(eqs[..|eqs| - 1]);
      var rest := e.operands[1..];
      assert AllPositive(rest) by {
        assert forall k :: 0 <= k < |rest| ==> rest[k] == e.operands[k + 1];
      }
      if ValidPruned(e) {
        PrunedSound(e.test, e.operands[0], rest);
      }
      if Valid(e, true) {
        PrunedComplete(e.test, e.operands[0], rest);
      }
    }
  }

  /** Allowing concatenation only adds valid equations. */
  lemma {:induction false} CalibrationGrows(eqs: seq<Equation>)
    requires HasOperands(eqs)
    ensures Calibration(eqs, false) <= Calibration(eqs, true)
  {
    if eqs != [] {
      var e := eqs[|eqs| - 1];
      CalibrationGrows(eqs[..|eqs| - 1]);
      if Valid(e, false) {
        CompletesWithConcat(e.test, e.operands[0], e.operands[1..]);
      }
    }
  }

  /** With operands of at least one, part 2 never reports less than part 1. */
  lemma PartsOrdered(eqs: seq<Equation>)
    requires HasOperands(eqs) && PositiveOperands(eqs)
    ensures Calibration(eqs, false) <= PrunedCalibration(eqs)
  {
    CalibrationGrows(eqs);
    PrunedCalibrationExact(eqs);
  }

  /** A single operand is valid exactly when it is the test value. */
  lemma SingleOperand(test: nat, x: nat, withConcat: bool)
    ensures Valid(Equation(test, [x]), withConcat) <==> test == x
    ensures ValidPruned(Equation(test, [x])) <==> test == x
  {
  }

  /** The worked example. */
  const Example: seq<Equation> := [
    Equation(190, [10, 19]), Equation(3267, [81, 40, 27]), Equation(83, [17, 5]),
    Equation(156, [15, 6]), Equation(7290, [6, 8, 6, 15]), Equation(161011, [16, 10, 13]),
    Equation(192, [17, 8, 14]), Equation(21037, [9, 7, 18, 13]), Equation(292, [11, 6, 16, 20])]

  /** Every example equation has an operand. */
  lemma ExampleShape()
    ensures |Example| == 9 && HasOperands(Example)
  {
    forall k | 0 <= k < |Example|
      ensures |Example[k].operands| >= 1
    {
    }
  }

  /** The example equations that hold with `+` and `*` alone... */
  lemma ExampleValid()
    ensures Valid(Example[0], false) && Valid(Example[1], false) && Valid(Example[8], false)
  {
  }

  /** ...and those that do not. */
  lemma ExampleInvalid()
    ensures !Valid(Example[2], false) && !Valid(Example[3], false) && !Valid(Example[4], false)
    ensures !Valid(Example[5], false) && !Valid(Example[6], false) && !Valid(Example[7], false)
  {
  }

  /** The three equations of part 1 hold in the pruned search too... */
  lemma ExampleValidPruned()
    ensures ValidPruned(Example[0]) && ValidPruned(Example[1]) && ValidPruned(Example[8])
  {
    assert CompletesPruned(3267, 121, [27]);
    assert CompletesPruned(292, 272, [20]) && CompletesPruned(292, 17, [16, 20]);
  }

  /** ...and with concatenation `156: 15 6`, `7290: 6 8 6 15` and `192: 17 8 14` hold as well. */
  lemma ExampleConcatenated()
    ensures ValidPruned(Example[3]) && ValidPruned(Example[4]) && ValidPruned(Example[6])
  {
    assert NumDigits(6) == 1 && NumDigits(8) == 1;
    assert Concat(15, 6) == 156 && Concat(48, 6) == 486 && Concat(17, 8) == 178;
    assert CompletesPruned(7290, 486, [15]) && CompletesPruned(7290, 48, [6, 15]);
    assert CompletesPruned(192, 178, [14]);
  }

  lemma ExampleInvalidPruned()
    ensures !ValidPruned(Example[2]) && !ValidPruned(Example[5]) && !ValidPruned(Example[7])
  {
    assert Concat(17, 5) == 175;
    NoPruned161011();
    NoPruned21037();
  }

  lemma NoPruned161011()
    ensures !CompletesPruned(161011, 16, [10, 13])
  {
    assert Concat(16, 10) == 1610;
    assert !CompletesPruned(161011, 26, [13]) && !CompletesPruned(161011, 160, [13]);
    assert !CompletesPruned(161011, 1610, [13]);
  }

  lemma NoPruned21037()
    ensures !CompletesPruned(21037, 9, [7, 18, 13])
  {
    assert Concat(9, 7) == 97;
    assert !CompletesPruned(21037, 16, [18, 13]);
    assert !CompletesPruned(21037, 63, [18, 13]);
    assert !CompletesPruned(21037, 97, [18, 13]);
  }

  /** The totals grow one equation at a time. */
  lemma CalibrationStep(eqs: seq<Equation>, k: nat)
    requires HasOperands(eqs) && k < |eqs|
    ensures HasOperands(eqs[..k]) && HasOperands(eqs[..k + 1])
    ensures Calibration(eqs[..k + 1], false) == Calibration(eqs[..k], false) + (if Valid(eqs[k], false) then eqs[k].test else 0)
  {
    assert eqs[..k + 1][..k] == eqs[..k];
  }

  /** Nine equations of which the first, second and last hold, with these test values, total 3749. */
  lemma Part1Sum(eqs: seq<Equation>)
    requires |eqs| == 9 && HasOperands(eqs)
    requires Valid(eqs[0], false) && Valid(eqs[1], false) && !Valid(eqs[2], false)
    requires !Valid(eqs[3], false) && !Valid(eqs[4], false) && !Valid(eqs[5], false)
    requires !Valid(eqs[6], false) && !Valid(eqs[7], false) && Valid(eqs[8], false)
    requires eqs[0].test == 190 && eqs[1].test == 3267 && eqs[8].test == 292
    ensures Calibration(eqs, false) == 3749
  {
    assert eqs[..0] == [];
    CalibrationStep(eqs, 0);
    CalibrationStep(eqs, 1);
    CalibrationStep(eqs, 2);
    CalibrationStep(eqs, 3);
    CalibrationStep(eqs, 4);
    CalibrationStep(eqs, 5);
    CalibrationStep(eqs, 6);
    CalibrationStep(eqs, 7);
    CalibrationStep(eqs, 8);
    assert eqs[..9] == eqs;
  }

  /** Part 1 of the worked example: 190 + 3267 + 292. */
  lemma Part1Example()
    ensures Calibration(Example, false) == 3749
  {
    ExampleShape();
    ExampleValid();
    ExampleInvalid();
    Part1Sum(Example);
  }

  lemma PrunedCalibrationStep(eqs: seq<Equation>, k: nat)
    requires HasOperands(eqs) && k < |eqs|
    ensures HasOperands(eqs[..k]) && HasOperands(eqs[..k + 1])
    ensures PrunedCalibration(eqs[..k + 1]) == PrunedCalibration(eqs[..k]) + (if ValidPruned(eqs[k]) then eqs[k].test else 0)
  {
    assert eqs[..k + 1][..k] == eqs[..k];
  }

  /** Nine equations of which all but the third, sixth and eighth hold, with these test values, total 11387. */
  lemma Part2Sum(eqs: seq<Equation>)
    requires |eqs| == 9 && HasOperands(eqs)
    requires ValidPruned(eqs[0]) && ValidPruned(eqs[1]) && !ValidPruned(eqs[2])
    requires ValidPruned(eqs[3]) && ValidPruned(eqs[4]) && !ValidPruned(eqs[5])
    requires ValidPruned(eqs[6]) && !ValidPruned(eqs[7]) && ValidPruned(eqs[8])
    requires eqs[0].test == 190 && eqs[1].test == 3267 && eqs[3].test == 156
    requires eqs[4].test == 7290 && eqs[6].test == 192 && eqs[8].test == 292
    ensures PrunedCalibration(eqs) == 11387
  {
    assert eqs[..0] == [];
    PrunedCalibrationStep(eqs, 0);
    PrunedCalibrationStep(eqs, 1);
    PrunedCalibrationStep(eqs, 2);
    PrunedCalibrationStep(eqs, 3);
    PrunedCalibrationStep(eqs, 4);
    PrunedCalibrationStep(eqs, 5);
    PrunedCalibrationStep(eqs, 6);
    PrunedCalibrationStep(eqs, 7);
    PrunedCalibrationStep(eqs, 8);
    assert eqs[..9] == eqs;
  }

  /**
   * Part 2 of the worked example: 3749 + 156 + 7290 + 192. The repository's
   * own part 2 test expects 3749 for this input, which the code does not compute.
   */
  lemma Part2Example()
    ensures PrunedCalibration(Example) == 11387
  {
    ExampleShape();
    ExampleValidPruned();
    ExampleConcatenated();
    ExampleInvalidPruned();
    Part2Sum(Example);
  }
}
