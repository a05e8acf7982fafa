/**
 * Day 3: corrupted memory holding `mul(a,b)`, `do()` and `don't()`
 * instructions among other characters. Part 1 adds up every product; part 2
 * adds up only the products met while multiplication is enabled.
 */
module Day3 {
  import opened Wrappers
  import opened Text

  datatype Instr = Enable | Disable | Mul(a: int, b: int)

  /** `Instr::product`: the product of a multiplication, nothing for the switches. */
  function Product(instr: Instr): int
  {
    match instr
    case Mul(a, b) => a * b
    case _ => 0
  }

  /** What is left of `s` after a parser consumed a non-empty prefix of it. */
  predicate ProperSuffix(rest: string, s: string)
  {
    |rest| < |s| && rest == s[|s| - |rest|..]
  }

  lemma ProperSuffixTrans(r: string, t: string, s: string)
    requires ProperSuffix(r, t) && ProperSuffix(t, s)
    ensures ProperSuffix(r, s)
  {
  }

  lemma ProperSuffixOfTail(r: string, s: string)
    requires s != [] && ProperSuffix(r, s[1..])
    ensures ProperSuffix(r, s)
  {
    assert s[1..][|s[1..]| - |r|..] == s[|s| - |r|..];
  }

  // ---------------------------------------------------------------------
  // Parsers
  // ---------------------------------------------------------------------

  /** nom's `tag`: the input after `p`, when the input starts with `p`. */
  function Tag(p: string, s: string): (r: Option<string>)
    ensures r.Some? <==> p <= s
    ensures r.Some? ==> s == p + r.value
  {
    if p <= s then Some(s[|p|..]) else None
  }

  /** A signed integer (nom's `i32`) followed by the tag `close`. */
  function IntThen(s: string, close: string): (r: Option<(int, string)>)
    ensures r.Some? ==> ProperSuffix(r.value.1, s)
  {
    match ParseIntPrefix(s)
    case None => None
    case Some((v, t)) =>
      match Tag(close, t)
      case None => None
      case Some(u) => Some((v, u))
  }

  /** `parse_mul`: `mul(`, a signed integer, `,`, a signed integer, `)`. */
  function ParseMul(s: string): (r: Option<(Instr, string)>)
    ensures r.Some? ==> r.value.0.Mul? && ProperSuffix(r.value.1, s) && "mul(" <= s
  {
    match Tag("mul(", s)
    case None => None
    case Some(s1) =>
      match IntThen(s1, ",")
      case None => None
      case Some((a, s2)) =>
        match IntThen(s2, ")")
        case None => None
        case Some((b, s3)) => Some((Mul(a, b), s3))
  }

  /** What `IntThen` consumed is a whole integer and then `close`. */
  lemma IntThenToken(s: string, close: string, v: int, u: string)
    requires IntThen(s, close) == Some((v, u))
    ensures |close| + |u| <= |s|
    ensures s == s[..|s| - |close| - |u|] + close + u && ParseIntPrefix(s[..|s| - |close| - |u|]) == Some((v, []))
  {
    var t := ParseIntPrefix(s).value.1;
    assert t == close + u;
    ParseIntPrefixToken(s, v, t);
  }

  /** A whole integer and then `close` is what `IntThen` consumes. */
  lemma IntThenOfToken(token: string, v: int, close: string, rest: string)
    requires ParseIntPrefix(token) == Some((v, [])) && close != [] && !IsDigit(close[0])
    ensures IntThen(token + close + rest, close) == Some((v, rest))
  {
    ParseIntPrefixExtend(token, v, close + rest);
    assert token + close + rest == token + (close + rest);
  }

  /** A parsed multiplication is `mul(`, a whole integer, `,`, a whole integer, `)`. */
  lemma ParseMulShape(s: string, a: int, b: int, rest: string)
    requires ParseMul(s) == Some((Mul(a, b), rest))
    ensures exists ta, tb ::
              s == "mul(" + ta + "," + tb + ")" + rest && ParseIntPrefix(ta) == Some((a, [])) && ParseIntPrefix(tb) == Some((b, []))
  {
    var s1, s2 := ParseMulParts(s, a, b, rest);
    MulShapeOfParts(s, s1, s2, a, b, rest);
  }

  lemma MulShapeOfParts(s: string, s1: string, s2: string, a: int, b: int, rest: string)
    requires s == "mul(" + s1 && IntThen(s1, ",") == Some((a, s2)) && IntThen(s2, ")") == Some((b, rest))
    ensures exists ta, tb ::
              s == "mul(" + ta + "," + tb + ")" + rest && ParseIntPrefix(ta) == Some((a, [])) && ParseIntPrefix(tb) == Some((b, []))
  {
    IntThenToken(s1, ",", a, s2);
    IntThenToken(s2, ")", b, rest);
    var ta, tb := s1[..|s1| - 1 - |s2|], s2[..|s2| - 1 - |rest|];
    MulText(s, s1, s2, ta, tb, rest);
    assert s == "mul(" + ta + "," + tb + ")" + rest && ParseIntPrefix(ta) == Some((a, [])) && ParseIntPrefix(tb) == Some((b, []));
  }

  /** The three steps of a successful `parse_mul`. */
  lemma ParseMulParts(s: string, a: int, b: int, rest: string) returns (s1: string, s2: string)
    requires ParseMul(s) == Some((Mul(a, b), rest))
    ensures s == "mul(" + s1 && IntThen(s1, ",") == Some((a, s2)) && IntThen(s2, ")") == Some((b, rest))
  {
    s1 := Tag("mul(", s).value;
    s2 := IntThen(s1, ",").value.1;
  }

  lemma MulText(s: string, s1: string, s2: string, ta: string, tb: string, rest: string)
    requires s == "mul(" + s1 && s1 == ta + "," + s2 && s2 == tb + ")" + rest
    ensures s == "mul(" + ta + "," + tb + ")" + rest
  {
    assert s1 == ta + "," + tb + ")" + rest;
  }

  /** ... and every such text parses as that multiplication. */
  lemma ParseMulOfShape(ta: string, tb: string, a: int, b: int, rest: string)
    requires ParseIntPrefix(ta) == Some((a, [])) && ParseIntPrefix(tb) == Some((b, []))
    ensures ParseMul("mul(" + ta + "," + tb + ")" + rest) == Some((Mul(a, b), rest))
  {
    var s2 := tb + ")" + rest;
    var s1 := ta + "," + s2;
    var s := "mul(" + ta + "," + tb + ")" + rest;
    assert s == "mul(" + s1;
    assert Tag("mul(", s) == Some(s1);
    IntThenOfToken(ta, a, ",", s2);
    IntThenOfToken(tb, b, ")", rest);
  }

  /** `parse_dont`. */
  function ParseDont(s: string): (r: Option<(Instr, string)>)
    ensures r.Some? ==> r.value.0 == Disable && s == "don't()" + r.value.1
  {
    match Tag("don't()", s)
    case None => None
    case Some(rest) => Some((Disable, rest))
  }

  /** `parse_do`. */
  function ParseDo(s: string): (r: Option<(Instr, string)>)
    ensures r.Some? ==> r.value.0 == Enable && s == "do()" + r.value.1
  {
    match Tag("do()", s)
    case None => None
    case Some(rest) => Some((Enable, rest))
  }

  /** `parse_instr`: a multiplication, else `do()`, else `don't()`. */
  function ParseInstr(s: string): (r: Option<(Instr, string)>)
    ensures r.Some? ==> ProperSuffix(r.value.1, s)
  {
    match ParseMul(s)
    case Some(m) => Some(m)
    case None =>
      match ParseDo(s)
      case Some(d) => Some(d)
      case None => ParseDont(s)
  }

  /**
   * `parse_until_next_instr`: try an instruction here; failing that, drop
   * one character and try again; fail once nothing is left.
   */
  function ParseUntilNextInstr(s: string): (r: Option<(Instr, string)>)
    ensures r.Some? ==> ProperSuffix(r.value.1, s)
    decreases |s|
  {
    match ParseInstr(s)
    case Some(found) => Some(found)
    case None =>
      if s == [] then None
      else
        var r := ParseUntilNextInstr(s[1..]);
        if r.Some? then
          ProperSuffixOfTail(r.value.1, s);
          r
        else r
  }

  /** The scan skips the fewest characters: it stops at the first position where an instruction parses. */
  lemma {:induction false} ParseUntilNextInstrFirst(s: string)
    ensures ParseUntilNextInstr(s).Some? ==>
      exists k :: 0 <= k < |s| && ParseInstr(s[k..]) == ParseUntilNextInstr(s) &&
        forall j :: 0 <= j < k ==> ParseInstr(s[j..]).None?
    ensures ParseUntilNextInstr(s).None? ==> forall k :: 0 <= k <= |s| ==> ParseInstr(s[k..]).None?
    decreases |s|
  {
    if ParseInstr(s).Some? {
      assert s[0..] == s;
    } else if s != [] {
      ParseUntilNextInstrFirst(s[1..]);
      if ParseUntilNextInstr(s).Some? {
        var k :| 0 <= k < |s[1..]| && ParseInstr(s[1..][k..]) == ParseUntilNextInstr(s) &&
          forall j :: 0 <= j < k ==> ParseInstr(s[1..][j..]).None?;
        assert s[1..][k..] == s[k + 1..];
        forall j | 0 <= j < k + 1
          ensures ParseInstr(s[j..]).None?
        {
          if j > 0 {
            assert s[1..][j - 1..] == s[j..];
          } else {
            assert s[0..] == s;
          }
        }
      } else {
        forall k | 0 <= k <= |s|
          ensures ParseInstr(s[k..]).None?
        {
          if k > 0 {
            assert s[1..][k - 1..] == s[k..];
          } else {
            assert s[0..] == s;
          }
        }
      }
    } else {
      forall k | 0 <= k <= |s|
        ensures ParseInstr(s[k..]).None?
      {
        assert s[k..] == s;
      }
    }
  }

  // ---------------------------------------------------------------------
  // Round trips and examples
  // ---------------------------------------------------------------------

  lemma IntThenRoundTrip(i: int, close: string, rest: string)
    requires close != [] && !IsDigit(close[0])
    ensures IntThen(IntToString(i) + close + rest, close) == Some((i, rest))
  {
    ParseIntPrefixToString(i, close + rest);
    assert IntToString(i) + close + rest == IntToString(i) + (close + rest);
  }

  /** A written-out multiplication parses back to itself, leaving what follows untouched. */
  lemma ParseMulRoundTrip(a: int, b: int, rest: string)
    ensures ParseMul("mul(" + IntToString(a) + "," + IntToString(b) + ")" + rest) == Some((Mul(a, b), rest))
  {
    var ta, tb := IntToString(a), IntToString(b);
    var s2 := tb + ")" + rest;
    var s1 := ta + "," + s2;
    var s := "mul(" + ta + "," + tb + ")" + rest;
    assert s == "mul(" + s1;
    assert Tag("mul(", s) == Some(s1);
    IntThenRoundTrip(a, ",", s2);
    IntThenRoundTrip(b, ")", rest);
  }

  lemma ParseInstrSwitches(rest: string)
    ensures ParseInstr("do()" + rest) == Some((Enable, rest))
    ensures ParseInstr("don't()" + rest) == Some((Disable, rest))
  {
    assert ("do()" + rest)[0] == 'd';
    assert ("don't()" + rest)[0] == 'd';
    assert ("don't()" + rest)[2] == 'n';
  }

  /** The worked example of `parse_mul`. */
  lemma ParseMulExample()
    ensures ParseMul("mul(2,4)") == Some((Mul(2, 4), ""))
  {
    assert IntToString(2) == "2" && IntToString(4) == "4";
    ParseMulRoundTrip(2, 4, "");
    assert "mul(" + "2" + "," + "4" + ")" + "" == "mul(2,4)";
  }

  /** The worked example of `parse_until_next_instr`: one stray character is skipped. */
  lemma ParseUntilNextInstrExample()
    ensures ParseUntilNextInstr("xmul(2,4)") == Some((Mul(2, 4), ""))
  {
    var s := "xmul(2,4)";
    assert s[..4][0] == 'x' && s[..7][0] == 'x';
    assert ParseInstr(s) == None;
    assert s[1..] == "mul(2,4)";
    ParseMulExample();
  }

  // ---------------------------------------------------------------------
  // The scan
  // ---------------------------------------------------------------------

  /** The instructions the scan finds, in order: each search resumes where the previous instruction ended. */
  function Instructions(s: string): seq<Instr>
    decreases |s|
  {
    if s == [] then []
    else
      match ParseUntilNextInstr(s)
      case None => []
      case Some((instr, rest)) => [instr] + Instructions(rest)
  }

  /** The sum of the products of all instructions. */
  function ProductSum(instrs: seq<Instr>): int
  {
    if instrs == [] then 0 else Product(instrs[0]) + ProductSum(instrs[1..])
  }

  /** The sum of the products met while enabled, starting from the flag `enabled`. */
  function EnabledSum(instrs: seq<Instr>, enabled: bool): int
  {
    if instrs == [] then 0
    else
      match instrs[0]
      case Enable => EnabledSum(instrs[1..], true)
      case Disable => EnabledSum(instrs[1..], false)
      case Mul(a, b) => (if enabled then a * b else 0) + EnabledSum(instrs[1..], enabled)
  }

  method Part1(input: string) returns (totals: int)
    ensures totals == ProductSum(Instructions(input))
  {
    totals := 0;
    var rest := input;
    while |rest| != 0
      invariant totals + ProductSum(Instructions(rest)) == ProductSum(Instructions(input))
      decreases |rest|
    {
      var next := ParseUntilNextInstr(rest);
      if next.None? {
        break;
      }
      var (instr, newInput) := next.value;
      totals := totals + Product(instr);
      rest := newInput;
    }
  }

  method Part2(input: string) returns (totals: int)
    ensures totals == EnabledSum(Instructions(input), true)
  {
    totals := 0;
    var enabledFlag := true;
    var rest := input;
    while |rest| != 0
      invariant totals + EnabledSum(Instructions(rest), enabledFlag) == EnabledSum(Instructions(input), true)
      decreases |rest|
    {
      var next := ParseUntilNextInstr(rest);
      if next.None? {
        break;
      }
      var (instr, newInput) := next.value;
      match instr {
        case Enable => enabledFlag := true;
        case Disable => enabledFlag := false;
        case Mul(a, b) =>
          if enabledFlag {
            totals := totals + a * b;
          }
      }
      rest := newInput;
    }
  }

  // ---------------------------------------------------------------------
  // Properties of the two sums
  // ---------------------------------------------------------------------

  /** Without a `don't()`, part 2 adds up everything part 1 does. */
  lemma {:induction false} EnabledSumNoDisable(instrs: seq<Instr>)
    requires forall k :: 0 <= k < |instrs| ==> instrs[k] != Disable
    ensures EnabledSum(instrs, true) == ProductSum(instrs)
  {
    if instrs != [] {
      EnabledSumNoDisable(instrs[1..]);
    }
  }

  /** Once disabled, nothing counts until the next `do()`. */
  lemma {:induction false} EnabledSumDisabled(instrs: seq<Instr>)
    requires forall k :: 0 <= k < |instrs| ==> instrs[k] != Enable
    ensures EnabledSum(instrs, false) == 0
  {
    if instrs != [] {
      EnabledSumDisabled(instrs[1..]);
    }
  }
}
