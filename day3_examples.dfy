/**
 * The worked examples of day 3's tests: the corrupted memory of part 1,
 * whose products add up to 161, and that of part 2, where a `don't()` and
 * a `do()` leave 48. The scan is followed one stretch of the memory at a
 * time: runs of characters that cannot start an instruction, false starts
 * that only look like one, and the instructions themselves.
 */
module Day3Examples {
  import opened Wrappers
  import opened Text
  import opened Day3

  // ---------------------------------------------------------------------
  // What parses at the head of a text
  // ---------------------------------------------------------------------

  /** No instruction starts with a character other than `m` or `d`. */
  lemma NoInstrAt(s: string)
    requires s != [] && s[0] != 'm' && s[0] != 'd'
    ensures ParseInstr(s).None?
  {
    assert !("mul(" <= s) && !("do()" <= s) && !("don't()" <= s);
  }

  /** A text starting `m` whose fourth character is not `(` holds no multiplication (`mul[` for one). */
  lemma BracketNone(s: string)
    requires |s| > 3 && s[0] == 'm' && s[3] != '('
    ensures ParseInstr(s).None?
  {
    assert !("mul(" <= s) && !("do()" <= s) && !("don't()" <= s);
  }

  /** A text starting `d` whose third character is neither `(` nor `n` is neither `do()` nor `don't()` (`do_` for one). */
  lemma DoUnderscoreNone(s: string)
    requires |s| > 2 && s[0] == 'd' && s[2] != '(' && s[2] != 'n'
    ensures ParseInstr(s).None?
  {
    assert !("mul(" <= s) && !("do()" <= s) && !("don't()" <= s);
  }

  /** A text starting `m` is neither `do()` nor `don't()`. */
  lemma NoSwitchAtM(s: string)
    requires s != [] && s[0] == 'm'
    ensures ParseDo(s).None? && ParseDont(s).None?
  {
    assert !("do()" <= s) && !("don't()" <= s);
  }

  /** A multiplication whose second integer is followed by anything but a digit or `)` is no product. */
  lemma UnclosedMulNone(a: int, b: int, c: char, rest: string)
    requires !IsDigit(c) && c != ')'
    ensures ParseMul("mul(" + IntToString(a) + "," + IntToString(b) + [c] + rest).None?
  {
    var ta, tb := IntToString(a), IntToString(b);
    var s3 := [c] + rest;
    var s2 := tb + s3;
    var s1 := ta + ("," + s2);
    var s := "mul(" + ta + "," + tb + [c] + rest;
    assert s == "mul(" + s1;
    assert Tag("mul(", s) == Some(s1);
    ParseIntPrefixToString(a, "," + s2);
    assert Tag(",", "," + s2) == Some(s2);
    assert IntThen(s1, ",") == Some((a, s2));
    ParseIntPrefixToString(b, s3);
    assert Tag(")", s3).None?;
    assert IntThen(s2, ")").None?;
  }

  /** A multiplication whose second integer is followed by anything but a digit or `)` does not parse. */
  lemma UnclosedNone(a: int, b: int, c: char, rest: string)
    requires !IsDigit(c) && c != ')'
    ensures ParseInstr("mul(" + IntToString(a) + "," + IntToString(b) + [c] + rest).None?
  {
    UnclosedMulNone(a, b, c, rest);
    NoSwitchAtM("mul(" + IntToString(a) + "," + IntToString(b) + [c] + rest);
  }

  // ---------------------------------------------------------------------
  // What the scan makes of a stretch of the memory
  // ---------------------------------------------------------------------

  lemma PrependOne(x: Instr, xs: seq<Instr>, rest: seq<Instr>)
    ensures [x] + (xs + rest) == ([x] + xs) + rest
  {
  }

  lemma JoinPairs(x1: Instr, x2: Instr, x3: Instr, x4: Instr, x5: Instr, x6: Instr)
    ensures [x1, x2] + ([x3, x4] + ([x5, x6] + [])) == [x1, x2, x3, x4, x5, x6]
  {
  }

  lemma JoinParts(x1: Instr, x2: Instr, x3: Instr, x4: Instr)
    ensures [x1] + ([x2, x3] + ([x4] + [])) == [x1, x2, x3, x4]
  {
  }

  /** Where no instruction parses, the scan finds what it finds one character later. */
  lemma InstructionsSkipOne(s: string)
    requires s != [] && ParseInstr(s).None?
    ensures Instructions(s) == Instructions(s[1..])
  {
  }

  /** No character of `p` from position `k` on can start an instruction. */
  predicate NoStart(p: string, k: nat)
    decreases |p| - k
  {
    k >= |p| || (p[k] != 'm' && p[k] != 'd' && NoStart(p, k + 1))
  }

  lemma {:induction false} InstructionsSkipJunkFrom(p: string, k: nat, rest: string)
    requires k <= |p| && NoStart(p, k)
    ensures Instructions(p[k..] + rest) == Instructions(rest)
    decreases |p| - k
  {
    if k == |p| {
      assert p[k..] + rest == rest;
    } else {
      JunkStep(p, k, rest);
      InstructionsSkipJunkFrom(p, k + 1, rest);
    }
  }

  /** A character other than `m` or `d` starts no instruction. */
  lemma JunkStep(p: string, k: nat, rest: string)
    requires k < |p| && p[k] != 'm' && p[k] != 'd'
    ensures Instructions(p[k..] + rest) == Instructions(p[k + 1..] + rest)
  {
    var s := p[k..] + rest;
    DropFirst(p, k, rest);
    NoInstrAt(s);
    InstructionsSkipOne(s);
  }

  lemma DropFirst(p: string, k: nat, rest: string)
    requires k < |p|
    ensures (p[k..] + rest)[0] == p[k] && (p[k..] + rest)[1..] == p[k + 1..] + rest
  {
  }

  /** A stretch without `m` or `d` contributes no instruction. */
  lemma InstructionsSkipJunk(p: string, rest: string)
    requires NoStart(p, 0)
    ensures Instructions(p + rest) == Instructions(rest)
  {
    InstructionsSkipJunkFrom(p, 0, rest);
    assert p[0..] == p;
  }

  /**
   * A false start: no instruction parses at the head of `p + rest`, and
   * nothing after the first character of `p` can start one.
   */
  lemma InstructionsFalseStart(p: string, rest: string)
    requires p != [] && ParseInstr(p + rest).None? && NoStart(p, 1)
    ensures Instructions(p + rest) == Instructions(rest)
  {
    InstructionsSkipOne(p + rest);
    DropHead(p, rest);
    InstructionsSkipJunkFrom(p, 1, rest);
  }

  lemma DropHead(p: string, rest: string)
    requires p != []
    ensures (p + rest)[1..] == p[1..] + rest
  {
  }

  /** A written-out multiplication is found where it stands. */
  lemma InstructionsMul(a: int, b: int, p: string, rest: string)
    requires p == "mul(" + IntToString(a) + "," + IntToString(b) + ")"
    ensures Instructions(p + rest) == [Mul(a, b)] + Instructions(rest)
  {
    ParseMulRoundTrip(a, b, rest);
  }

  /** `do()` and `don't()` are found where they stand. */
  lemma InstructionsSwitch(rest: string)
    ensures Instructions("do()" + rest) == [Enable] + Instructions(rest)
    ensures Instructions("don't()" + rest) == [Disable] + Instructions(rest)
  {
    ParseInstrSwitches(rest);
  }

  /** `mul(32,64]` is closed by the wrong bracket: a false start. */
  lemma InstructionsUnclosed(rest: string)
    ensures Instructions("mul(32,64]" + rest) == Instructions(rest)
  {
    UnclosedText();
    JunkTexts();
    UnclosedNone(32, 64, ']', rest);
    InstructionsFalseStart("mul(32,64]", rest);
  }

  /** The memories end with a `)` that starts nothing. */
  lemma InstructionsCloseOnly()
    ensures Instructions(")") == []
  {
    InstructionsSkipJunk(")", "");
    assert ")" + "" == ")";
  }

  /** The four well-formed multiplications of the two memories, each found where it stands. */
  lemma Mul24(rest: string)
    ensures Instructions("mul(2,4)" + rest) == [Mul(2, 4)] + Instructions(rest)
  {
    assert "mul(2,4)" == "mul(" + IntToString(2) + "," + IntToString(4) + ")";
    InstructionsMul(2, 4, "mul(2,4)", rest);
  }

  lemma Mul55(rest: string)
    ensures Instructions("mul(5,5)" + rest) == [Mul(5, 5)] + Instructions(rest)
  {
    assert "mul(5,5)" == "mul(" + IntToString(5) + "," + IntToString(5) + ")";
    InstructionsMul(5, 5, "mul(5,5)", rest);
  }

  lemma Mul118(rest: string)
    ensures Instructions("mul(11,8)" + rest) == [Mul(11, 8)] + Instructions(rest)
  {
    assert "mul(11,8)" == "mul(" + IntToString(11) + "," + IntToString(8) + ")";
    InstructionsMul(11, 8, "mul(11,8)", rest);
  }

  lemma Mul85(rest: string)
    ensures Instructions("mul(8,5)" + rest) == [Mul(8, 5)] + Instructions(rest)
  {
    assert "mul(8,5)" == "mul(" + IntToString(8) + "," + IntToString(5) + ")";
    InstructionsMul(8, 5, "mul(8,5)", rest);
  }

  lemma UnclosedText()
    ensures "mul(32,64]" == "mul(" + IntToString(32) + "," + IntToString(64) + "]"
  {
  }

  /** The stretches of the two memories that cannot start an instruction. */
  lemma JunkTexts()
    ensures NoStart("x", 0) && NoStart("%&", 0) && NoStart("+", 0) && NoStart("then(", 0)
    ensures NoStart("&", 0) && NoStart("_", 0) && NoStart("(", 0) && NoStart("un", 0) && NoStart("?", 0)
    ensures NoStart("mul[3,7]!@^", 1) && NoStart("mul[3,7]!^", 1) && NoStart("do_not_", 1) && NoStart("mul(32,64]", 1)
  {
  }

  // ---------------------------------------------------------------------
  // Part 1
  // ---------------------------------------------------------------------

  /**
   * The memory of part 1's test, `xmul(2,4)%&mul[3,7]!@^do_not_mul(5,5)+mul(32,64]then(mul(11,8)mul(8,5))`,
   * cut where the scan's verdict changes.
   */
  const Memory1: string :=
    "x" + ("mul(2,4)" + ("%&" + ("mul[3,7]!@^" + ("do_not_" + ("mul(5,5)" + ("+" + ("mul(32,64]" +
    ("then(" + ("mul(11,8)" + ("mul(8,5)" + ")"))))))))))

  lemma Memory1Unclosed(rest: string)
    ensures Instructions("mul(32,64]" + ("then(" + rest)) == Instructions(rest)
  {
    JunkTexts();
    InstructionsSkipJunk("then(", rest);
    InstructionsUnclosed("then(" + rest);
  }

  /** Between `mul(5,5)` and `mul(11,8)` in part 1's memory: a false start and nothing found. */
  lemma Memory1Gap(rest: string)
    ensures Instructions("+" + ("mul(32,64]" + ("then(" + rest))) == Instructions(rest)
  {
    JunkTexts();
    Memory1Unclosed(rest);
    InstructionsSkipJunk("+", "mul(32,64]" + ("then(" + rest));
  }

  /** Part 1's memory from `mul(5,5)` on, before `mul(8,5)`: two products with a false start between. */
  lemma Memory1Tail(rest: string)
    ensures Instructions("mul(5,5)" + ("+" + ("mul(32,64]" + ("then(" + ("mul(11,8)" + rest))))) ==
            [Mul(5, 5), Mul(11, 8)] + Instructions(rest)
  {
    var r := "mul(11,8)" + rest;
    Mul118(rest);
    Memory1Gap(r);
    Mul55("+" + ("mul(32,64]" + ("then(" + r)));
  }

  /** The false starts `mul[3,7]!@^` and `do_not_` of part 1's memory. */
  lemma Memory1FalseStarts(rest: string)
    ensures Instructions("mul[3,7]!@^" + ("do_not_" + rest)) == Instructions(rest)
  {
    JunkTexts();
    var u := "do_not_" + rest;
    assert u[0] == 'd' && u[2] == '_';
    DoUnderscoreNone(u);
    InstructionsFalseStart("do_not_", rest);
    var v := "mul[3,7]!@^" + u;
    assert v[0] == 'm' && v[3] == '[';
    BracketNone(v);
    InstructionsFalseStart("mul[3,7]!@^", u);
  }

  /** Part 1's memory up to `mul(5,5)`: one product and two false starts. */
  lemma Memory1Head(rest: string)
    ensures Instructions("x" + ("mul(2,4)" + ("%&" + ("mul[3,7]!@^" + ("do_not_" + rest))))) ==
            [Mul(2, 4)] + Instructions(rest)
  {
    var v := "mul[3,7]!@^" + ("do_not_" + rest);
    Memory1FalseStarts(rest);
    JunkTexts();
    InstructionsSkipJunk("%&", v);
    Mul24("%&" + v);
    InstructionsSkipJunk("x", "mul(2,4)" + ("%&" + v));
  }

  /** The scan finds exactly the four well-formed multiplications of part 1's memory. */
  lemma Part1Instructions()
    ensures Instructions(Memory1) == [Mul(2, 4), Mul(5, 5), Mul(11, 8), Mul(8, 5)]
  {
    InstructionsCloseOnly();
    Mul85(")");
    Memory1Tail("mul(8,5)" + ")");
    Memory1Head("mul(5,5)" + ("+" + ("mul(32,64]" + ("then(" + ("mul(11,8)" + ("mul(8,5)" + ")"))))));
    JoinParts(Mul(2, 4), Mul(5, 5), Mul(11, 8), Mul(8, 5));
  }

  /** Part 1 on the test's memory: 2*4 + 5*5 + 11*8 + 8*5 = 161. */
  lemma Part1Example()
    ensures ProductSum(Instructions(Memory1)) == 161
  {
    Part1Instructions();
    Sum1(Instructions(Memory1));
  }

  lemma Sum1(instrs: seq<Instr>)
    requires instrs == [Mul(2, 4), Mul(5, 5), Mul(11, 8), Mul(8, 5)]
    ensures ProductSum(instrs) == 161
  {
    var r1 := instrs[1..];
    var r2 := r1[1..];
    var r3 := r2[1..];
    assert r3[1..] == [];
    assert ProductSum(r3) == 40;
    assert ProductSum(r2) == 128;
    assert ProductSum(r1) == 153;
  }

  // ---------------------------------------------------------------------
  // Part 2
  // ---------------------------------------------------------------------

  /**
   * The memory of part 2's test, `xmul(2,4)&mul[3,7]!^don't()_mul(5,5)+mul(32,64](mul(11,8)undo()?mul(8,5))`,
   * cut where the scan's verdict changes.
   */
  const Memory2: string :=
    "x" + ("mul(2,4)" + ("&" + ("mul[3,7]!^" + ("don't()" + ("_" + ("mul(5,5)" + ("+" + ("mul(32,64]" +
    ("(" + ("mul(11,8)" + ("un" + ("do()" + ("?" + ("mul(8,5)" + ")"))))))))))))))

  /** Part 2's memory after `mul(11,8)`, before its closing `)`: a `do()` and the last product. */
  lemma Memory2Last(rest: string)
    ensures Instructions("un" + ("do()" + ("?" + ("mul(8,5)" + rest)))) == [Enable, Mul(8, 5)] + Instructions(rest)
  {
    JunkTexts();
    Mul85(rest);
    InstructionsSkipJunk("?", "mul(8,5)" + rest);
    InstructionsSwitch("?" + ("mul(8,5)" + rest));
    InstructionsSkipJunk("un", "do()" + ("?" + ("mul(8,5)" + rest)));
  }

  lemma Memory2Unclosed(rest: string)
    ensures Instructions("mul(32,64]" + ("(" + rest)) == Instructions(rest)
  {
    JunkTexts();
    InstructionsSkipJunk("(", rest);
    InstructionsUnclosed("(" + rest);
  }

  /** Part 2's memory from `mul(5,5)` on, before `un`: two products with a false start between. */
  lemma Memory2Middle(rest: string)
    ensures Instructions("mul(5,5)" + ("+" + ("mul(32,64]" + ("(" + ("mul(11,8)" + rest))))) ==
            [Mul(5, 5), Mul(11, 8)] + Instructions(rest)
  {
    var r := "mul(11,8)" + rest;
    Mul118(rest);
    Memory2Unclosed(r);
    JunkTexts();
    InstructionsSkipJunk("+", "mul(32,64]" + ("(" + r));
    Mul55("+" + ("mul(32,64]" + ("(" + r)));
  }

  /** Part 2's false start `mul[3,7]!^`, then a `don't()`. */
  lemma Memory2Disable(rest: string)
    ensures Instructions("mul[3,7]!^" + ("don't()" + ("_" + rest))) == [Disable] + Instructions(rest)
  {
    JunkTexts();
    InstructionsSkipJunk("_", rest);
    InstructionsSwitch("_" + rest);
    var t := "don't()" + ("_" + rest);
    var v := "mul[3,7]!^" + t;
    assert v[0] == 'm' && v[3] == '[';
    BracketNone(v);
    InstructionsFalseStart("mul[3,7]!^", t);
  }

  /** Part 2's memory up to `mul(5,5)`: one product, a false start and a `don't()`. */
  lemma Memory2Head(rest: string)
    ensures Instructions("x" + ("mul(2,4)" + ("&" + ("mul[3,7]!^" + ("don't()" + ("_" + rest)))))) ==
            [Mul(2, 4), Disable] + Instructions(rest)
  {
    var v := "mul[3,7]!^" + ("don't()" + ("_" + rest));
    Memory2Disable(rest);
    JunkTexts();
    InstructionsSkipJunk("&", v);
    Mul24("&" + v);
    InstructionsSkipJunk("x", "mul(2,4)" + ("&" + v));
    PrependOne(Mul(2, 4), [Disable], Instructions(rest));
  }

  /** The scan finds the four well-formed multiplications of part 2's memory, a `don't()` and a `do()`. */
  lemma Part2Instructions()
    ensures Instructions(Memory2) == [Mul(2, 4), Disable, Mul(5, 5), Mul(11, 8), Enable, Mul(8, 5)]
  {
    var last := "un" + ("do()" + ("?" + ("mul(8,5)" + ")")));
    InstructionsCloseOnly();
    Memory2Last(")");
    Memory2Middle(last);
    Memory2Head("mul(5,5)" + ("+" + ("mul(32,64]" + ("(" + ("mul(11,8)" + last)))));
    JoinPairs(Mul(2, 4), Disable, Mul(5, 5), Mul(11, 8), Enable, Mul(8, 5));
  }

  /** Part 2 on the test's memory: only 2*4 and 8*5 are enabled, 48 in all. */
  lemma Part2Example()
    ensures EnabledSum(Instructions(Memory2), true) == 48
  {
    Part2Instructions();
    Sum2(Instructions(Memory2));
  }

  lemma Sum2(instrs: seq<Instr>)
    requires instrs == [Mul(2, 4), Disable, Mul(5, 5), Mul(11, 8), Enable, Mul(8, 5)]
    ensures EnabledSum(instrs, true) == 48
  {
    var r1 := instrs[1..];
    var r2 := r1[1..];
    var r3 := r2[1..];
    var r4 := r3[1..];
    var r5 := r4[1..];
    assert r5[1..] == [];
    assert EnabledSum(r5, true) == 40;
    assert EnabledSum(r4, false) == 40;
    assert EnabledSum(r3, false) == 40;
    assert EnabledSum(r2, false) == 40;
    assert EnabledSum(r1, true) == 40;
  }
}
