/**
 * The pieces of Rust's `str` API that the puzzle solvers rely on: decimal
 * numbers (`str::parse` and nom's signed-integer parser), `find`, `split`,
 * `lines`, `trim`, `trim_start_matches` and `split_whitespace`.
 * Characters stand for bytes: the inputs are ASCII.
 */
module Text {
  import opened Wrappers

  // ---------------------------------------------------------------------
  // Decimal digits
  // ---------------------------------------------------------------------

  predicate IsDigit(c: char) { '0' <= c <= '9' }

  predicate AllDigits(s: string) { forall i :: 0 <= i < |s| ==> IsDigit(s[i]) }

  function DigitValue(c: char): (d: nat)
    requires IsDigit(c)
    ensures d < 10
  {
    c as int - '0' as int
  }

  function DigitChar(d: nat): (c: char)
    requires d < 10
    ensures IsDigit(c) && DigitValue(c) == d
  {
    ('0' as int + d) as char
  }

  /** The number a run of decimal digits denotes, most significant digit first. */
  function DigitsValue(s: string): nat
    requires AllDigits(s)
  {
    if s == [] then 0 else 10 * DigitsValue(s[..|s| - 1]) + DigitValue(s[|s| - 1])
  }

  /** The canonical decimal rendering of `n`: no sign and no leading zero. */
  function NatToString(n: nat): (s: string)
    ensures |s| > 0 && AllDigits(s)
    ensures s[0] == '0' ==> n == 0
  {
    if n < 10 then [DigitChar(n)] else NatToString(n / 10) + [DigitChar(n % 10)]
  }

  lemma {:induction false} NatToStringValue(n: nat)
    ensures DigitsValue(NatToString(n)) == n
  {
    if n >= 10 {
      var s := NatToString(n);
      assert s[..|s| - 1] == NatToString(n / 10);
      NatToStringValue(n / 10);
    }
  }

  /** The decimal rendering of an integer, with a leading `-` when negative. */
  function IntToString(i: int): string
  {
    if i < 0 then "-" + NatToString(-i) else NatToString(i)
  }

  lemma DigitsNoChar(s: string, c: char)
    requires AllDigits(s) && !IsDigit(c)
    ensures NoChar(s, c)
  {
  }

  /** A rendered integer holds only digits and perhaps a leading `-`. */
  lemma IntToStringNoChar(i: int, c: char)
    requires !IsDigit(c) && c != '-'
    ensures NoChar(IntToString(i), c)
  {
    DigitsNoChar(NatToString(if i < 0 then -i else i), c);
  }

  /** Rust's `str::parse` for an unsigned integer: an optional `+`, then one or more digits and nothing else. */
  function ParseNat(s: string): Option<nat>
  {
    var digits := if |s| > 0 && s[0] == '+' then s[1..] else s;
    if digits != [] && AllDigits(digits) then Some(DigitsValue(digits)) else None
  }

  /** Rust's `str::parse` for a signed integer: an optional `+` or `-`, then one or more digits and nothing else. */
  function ParseInt(s: string): Option<int>
  {
    if |s| > 0 && s[0] == '-' then
      var digits := s[1..];
      if digits != [] && AllDigits(digits) then Some(0 - DigitsValue(digits)) else None
    else
      match ParseNat(s)
      case Some(n) => Some(n)
      case None => None
  }

  lemma ParseNatToString(n: nat)
    ensures ParseNat(NatToString(n)) == Some(n)
  {
    NatToStringValue(n);
  }

  lemma ParseIntToString(i: int)
    ensures ParseInt(IntToString(i)) == Some(i)
  {
    if i < 0 {
      var d := NatToString(-i);
      NatToStringValue(-i);
      var s := "-" + d;
      assert s[0] == '-' && s[1..] == d;
      assert ParseInt(s) == Some(0 - DigitsValue(d));
    } else {
      ParseNatToString(i);
      var d := NatToString(i);
      assert d[0] != '-';
    }
  }

  /** The length of the run of digits that starts `s`. */
  function DigitRun(s: string): (n: nat)
    ensures n <= |s| && AllDigits(s[..n])
    ensures n < |s| ==> !IsDigit(s[n])
  {
    if s == [] || !IsDigit(s[0]) then 0
    else
      var n := 1 + DigitRun(s[1..]);
      assert s[..n] == [s[0]] + s[1..][..n - 1];
      n
  }

  /**
   * nom's `character::complete::i32` without its overflow check: an optional
   * `+` or `-`, then the longest run of digits, which must not be empty.
   * Yields the number and the input that follows it.
   */
  function ParseIntPrefix(s: string): (r: Option<(int, string)>)
    ensures r.Some? ==> |r.value.1| < |s| && r.value.1 == s[|s| - |r.value.1|..]
  {
    var negative := |s| > 0 && s[0] == '-';
    var body := if |s| > 0 && (s[0] == '-' || s[0] == '+') then s[1..] else s;
    var n := DigitRun(body);
    if n == 0 then None
    else
      var v: int := DigitsValue(body[..n]);
      Some((if negative then -v else v, body[n..]))
  }

  lemma {:induction false} DigitRunOfDigits(d: string, t: string)
    requires AllDigits(d)
    requires t == [] || !IsDigit(t[0])
    ensures DigitRun(d + t) == |d|
  {
    if d != [] {
      assert (d + t)[1..] == d[1..] + t;
      DigitRunOfDigits(d[1..], t);
    }
  }

  /** Unsigned digits followed by anything that does not begin with a digit parse back. */
  lemma DigitsPrefix(n: nat, t: string)
    requires t == [] || !IsDigit(t[0])
    ensures DigitRun(NatToString(n) + t) == |NatToString(n)|
    ensures (NatToString(n) + t)[..|NatToString(n)|] == NatToString(n)
    ensures (NatToString(n) + t)[|NatToString(n)|..] == t
    ensures DigitsValue(NatToString(n)) == n
  {
    NatToStringValue(n);
    DigitRunOfDigits(NatToString(n), t);
  }

  lemma ParseIntPrefixOf(s: string, body: string, negative: bool, n: nat, v: int, t: string)
    requires |s| > 0 && (negative <==> s[0] == '-')
    requires body == if s[0] == '-' || s[0] == '+' then s[1..] else s
    requires 0 < n <= |body| && DigitRun(body) == n
    requires DigitsValue(body[..n]) == v && body[n..] == t
    ensures ParseIntPrefix(s) == Some((if negative then -v else v, t))
  {
  }

  lemma ParseNegativePrefix(m: nat, t: string)
    requires m > 0 && (t == [] || !IsDigit(t[0]))
    ensures ParseIntPrefix("-" + NatToString(m) + t) == Some((0 - m as int, t))
  {
    var d := NatToString(m);
    DigitsPrefix(m, t);
    var s := "-" + d + t;
    assert s[0] == '-' && s[1..] == d + t;
    ParseIntPrefixOf(s, d + t, true, |d|, m, t);
  }

  lemma ParseNaturalPrefix(m: nat, t: string)
    requires t == [] || !IsDigit(t[0])
    ensures ParseIntPrefix(NatToString(m) + t) == Some((m, t))
  {
    var d := NatToString(m);
    DigitsPrefix(m, t);
    assert (d + t)[0] == d[0] && IsDigit(d[0]);
    ParseIntPrefixOf(d + t, d + t, false, |d|, m, t);
  }

  /** A rendered integer followed by anything that does not begin with a digit parses back. */
  lemma ParseIntPrefixToString(i: int, t: string)
    requires t == [] || !IsDigit(t[0])
    ensures ParseIntPrefix(IntToString(i) + t) == Some((i, t))
  {
    if i < 0 {
      ParseNegativePrefix(-i, t);
    } else {
      ParseNaturalPrefix(i, t);
    }
  }

  /** The text an integer parse consumed is a whole integer on its own. */
  lemma ParseIntPrefixToken(s: string, v: int, t: string)
    requires ParseIntPrefix(s) == Some((v, t))
    ensures s == s[..|s| - |t|] + t
    ensures ParseIntPrefix(s[..|s| - |t|]) == Some((v, []))
  {
    var signed := |s| > 0 && (s[0] == '-' || s[0] == '+');
    var body := if signed then s[1..] else s;
    var n := DigitRun(body);
    var d := body[..n];
    var token := s[..|s| - |t|];
    assert t == body[n..];
    DigitRunOfDigits(d, []);
    assert d + [] == d;
    if signed {
      assert token == [s[0]] + d;
      assert token[1..] == d;
    } else {
      assert token == d;
    }
    ParseIntPrefixOf(token, d, s[0] == '-', n, DigitsValue(d), []);
  }

  /** A whole integer followed by anything that does not begin with a digit parses to the same value. */
  lemma ParseIntPrefixExtend(token: string, v: int, t: string)
    requires ParseIntPrefix(token) == Some((v, []))
    requires t == [] || !IsDigit(t[0])
    ensures ParseIntPrefix(token + t) == Some((v, t))
  {
    var signed := |token| > 0 && (token[0] == '-' || token[0] == '+');
    var body := if signed then token[1..] else token;
    var n := DigitRun(body);
    assert body[n..] == [] && body[..n] == body;
    DigitRunOfDigits(body, t);
    var s := token + t;
    assert s[0] == token[0];
    if signed {
      assert s[1..] == body + t;
    }
    assert (body + t)[..n] == body && (body + t)[n..] == t;
    ParseIntPrefixOf(s, body + t, token[0] == '-', n, DigitsValue(body), t);
  }

  // ---------------------------------------------------------------------
  // Searching and splitting
  // ---------------------------------------------------------------------

  /** Whether `pat` occurs in `s` starting at position `k`. */
  predicate OccursAt(s: string, pat: string, k: nat)
  {
    k + |pat| <= |s| && s[k..k + |pat|] == pat
  }

  /** The first occurrence of `pat` in `s` at or after `from`. */
  function FindFrom(s: string, pat: string, from: nat): (r: Option<nat>)
    ensures r.Some? ==> from <= r.value && OccursAt(s, pat, r.value)
    ensures r.Some? ==> forall k :: from <= k < r.value ==> !OccursAt(s, pat, k)
    ensures r.None? ==> forall k :: from <= k ==> !OccursAt(s, pat, k)
    decreases |s| - from
  {
    if from + |pat| > |s| then None
    else if OccursAt(s, pat, from) then Some(from)
    else FindFrom(s, pat, from + 1)
  }

  /** Rust's `str::find`: the position of the first occurrence of `pat`. */
  function Find(s: string, pat: string): (r: Option<nat>)
    ensures r.Some? ==> OccursAt(s, pat, r.value) && forall k :: 0 <= k < r.value ==> !OccursAt(s, pat, k)
    ensures r.None? ==> forall k :: 0 <= k ==> !OccursAt(s, pat, k)
  {
    FindFrom(s, pat, 0)
  }

  /** Rust's `str::split` with a non-empty separator: the pieces between the occurrences of `sep`, left to right. */
  function Split(s: string, sep: string): (parts: seq<string>)
    requires |sep| > 0
    ensures |parts| >= 1
    decreases |s|
  {
    match Find(s, sep)
    case None => [s]
    case Some(k) => [s[..k]] + Split(s[k + |sep|..], sep)
  }

  /** The pieces put back together with `sep` between them. */
  function Join(parts: seq<string>, sep: string): string
  {
    if parts == [] then []
    else if |parts| == 1 then parts[0]
    else parts[0] + sep + Join(parts[1..], sep)
  }

  lemma JoinCons(p: string, parts: seq<string>, sep: string)
    requires |parts| >= 1
    ensures Join([p] + parts, sep) == p + sep + Join(parts, sep)
  {
    assert ([p] + parts)[1..] == parts;
  }

  lemma OccursSplit(s: string, pat: string, k: nat)
    requires OccursAt(s, pat, k)
    ensures s == s[..k] + pat + s[k + |pat|..]
  {
    assert s == s[..k] + s[k..k + |pat|] + s[k + |pat|..];
  }

  lemma SplitAt(s: string, sep: string, k: nat)
    requires |sep| > 0 && Find(s, sep) == Some(k)
    ensures k + |sep| <= |s|
    ensures Split(s, sep) == [s[..k]] + Split(s[k + |sep|..], sep)
    ensures s == s[..k] + sep + s[k + |sep|..]
  {
    OccursSplit(s, sep, k);
  }

  lemma {:induction false} JoinSplit(s: string, sep: string)
    requires |sep| > 0
    ensures Join(Split(s, sep), sep) == s
    decreases |s|
  {
    match Find(s, sep)
    case None =>
    case Some(k) =>
      SplitAt(s, sep, k);
      JoinSplit(s[k + |sep|..], sep);
      JoinCons(s[..k], Split(s[k + |sep|..], sep), sep);
  }

  predicate NoChar(s: string, c: char) { forall i :: 0 <= i < |s| ==> s[i] != c }

  /** A piece free of the separator's first character is split off whole. */
  lemma SplitFirst(p: string, sep: string, rest: string)
    requires |sep| > 0 && NoChar(p, sep[0])
    ensures Split(p + sep + rest, sep) == [p] + Split(rest, sep)
  {
    var s := p + sep + rest;
    assert s[|p|..|p| + |sep|] == sep;
    assert OccursAt(s, sep, |p|);
    var k := Find(s, sep).value;
    assert k <= |p|;
    assert s[k..k + |sep|][0] == s[k];
    assert s[k] == sep[0];
    assert k == |p|;
    assert s[..k] == p;
    assert s[k + |sep|..] == rest;
  }

  /** A string free of the separator's first character is not split at all. */
  lemma SplitNone(p: string, sep: string)
    requires |sep| > 0 && NoChar(p, sep[0])
    ensures Split(p, sep) == [p]
  {
  }

  /** Splitting undoes joining, as long as no piece holds the separator's first character. */
  lemma {:induction false} SplitJoin(parts: seq<string>, sep: string)
    requires |sep| > 0 && |parts| >= 1
    requires forall k :: 0 <= k < |parts| ==> NoChar(parts[k], sep[0])
    ensures Split(Join(parts, sep), sep) == parts
  {
    if |parts| == 1 {
      SplitNone(parts[0], sep);
    } else {
      SplitJoin(parts[1..], sep);
      SplitFirst(parts[0], sep, Join(parts[1..], sep));
    }
  }

  /** The position of the first newline in `s`, or `|s|` when there is none. */
  function LineEnd(s: string): (k: nat)
    ensures k <= |s| && (k < |s| ==> s[k] == '\n')
  {
    if s == [] || s[0] == '\n' then 0 else 1 + LineEnd(s[1..])
  }

  /** A newline with none before it is where the first line ends. */
  lemma {:induction false} LineEndFirst(s: string, k: nat)
    requires k < |s| && s[k] == '\n'
    requires forall j :: 0 <= j < k ==> s[j] != '\n'
    ensures LineEnd(s) == k
  {
    if k > 0 {
      LineEndFirst(s[1..], k - 1);
    }
  }

  /**
   * Rust's `str::lines` on `\n`-terminated text: the lines without their
   * terminators, where a final terminator adds no empty line.
   */
  function Lines(s: string): seq<string>
    decreases |s|
  {
    if s == [] then []
    else
      var k := LineEnd(s);
      [s[..k]] + (if k < |s| then Lines(s[k + 1..]) else [])
  }

  /** Rows, each followed by a newline. */
  function Unlines(rows: seq<string>): string
  {
    if rows == [] then [] else rows[0] + "\n" + Unlines(rows[1..])
  }

  lemma {:induction false} LineEndOf(row: string, rest: string)
    requires NoChar(row, '\n')
    ensures LineEnd(row + "\n" + rest) == |row|
  {
    if row != [] {
      assert (row + "\n" + rest)[1..] == row[1..] + "\n" + rest;
      LineEndOf(row[1..], rest);
    }
  }

  /** Writing out one more row appends it and a newline. */
  lemma {:induction false} UnlinesSnoc(rows: seq<string>, row: string)
    ensures Unlines(rows + [row]) == Unlines(rows) + row + "\n"
  {
    if rows != [] {
      assert (rows + [row])[1..] == rows[1..] + [row];
      UnlinesSnoc(rows[1..], row);
    }
  }

  /** `lines` undoes writing rows out one per line. */
  lemma {:induction false} LinesUnlines(rows: seq<string>)
    requires forall r :: r in rows ==> NoChar(r, '\n')
    ensures Lines(Unlines(rows)) == rows
  {
    if rows != [] {
      var s := Unlines(rows);
      LineEndOf(rows[0], Unlines(rows[1..]));
      assert s[..|rows[0]|] == rows[0];
      assert s[|rows[0]| + 1..] == Unlines(rows[1..]);
      LinesUnlines(rows[1..]);
      assert rows == [rows[0]] + rows[1..];
    }
  }

  // ---------------------------------------------------------------------
  // Whitespace
  // ---------------------------------------------------------------------

  /** ASCII whitespace: space, tab, line feed, vertical tab, form feed, carriage return. */
  predicate IsWhitespace(c: char) { c == ' ' || '\t' <= c <= '\r' }

  function TrimStart(s: string): (r: string)
    ensures |r| <= |s| && r == s[|s| - |r|..]
    ensures r == [] || !IsWhitespace(r[0])
  {
    if s != [] && IsWhitespace(s[0]) then TrimStart(s[1..]) else s
  }

  function TrimEnd(s: string): (r: string)
    ensures |r| <= |s| && r == s[..|r|]
    ensures r == [] || !IsWhitespace(r[|r| - 1])
  {
    if s != [] && IsWhitespace(s[|s| - 1]) then TrimEnd(s[..|s| - 1]) else s
  }

  /** Rust's `str::trim`. */
  function Trim(s: string): string
  {
    TrimEnd(TrimStart(s))
  }

  /** Rust's `str::trim_start_matches` with a single character. */
  function TrimStartMatches(s: string, c: char): (r: string)
    ensures r == [] || r[0] != c
  {
    if s != [] && s[0] == c then TrimStartMatches(s[1..], c) else s
  }

  /** The length of the run of non-whitespace characters that starts `s`. */
  function WordRun(s: string): (n: nat)
    ensures n <= |s|
    ensures forall i :: 0 <= i < n ==> !IsWhitespace(s[i])
    ensures n < |s| ==> IsWhitespace(s[n])
  {
    if s == [] || IsWhitespace(s[0]) then 0 else 1 + WordRun(s[1..])
  }

  /** A non-empty run of non-whitespace characters. */
  predicate IsWord(w: string)
  {
    w != [] && forall i :: 0 <= i < |w| ==> !IsWhitespace(w[i])
  }

  /** Rust's `str::split_whitespace`: the maximal runs of non-whitespace characters, left to right. */
  function SplitWhitespace(s: string): (words: seq<string>)
    ensures forall k :: 0 <= k < |words| ==> IsWord(words[k])
    decreases |s|
  {
    var t := TrimStart(s);
    if t == [] then []
    else
      var n := WordRun(t);
      var rest := SplitWhitespace(t[n..]);
      WordsCons(t, n, rest);
      [t[..n]] + rest
  }

  lemma WordsCons(t: string, n: nat, rest: seq<string>)
    requires t != [] && !IsWhitespace(t[0]) && n == WordRun(t)
    requires forall k :: 0 <= k < |rest| ==> IsWord(rest[k])
    ensures forall k :: 0 <= k < |[t[..n]] + rest| ==> IsWord(([t[..n]] + rest)[k])
  {
    assert IsWord(t[..n]);
    forall k | 0 <= k < |[t[..n]] + rest|
      ensures IsWord(([t[..n]] + rest)[k])
    {
      if k > 0 {
        assert ([t[..n]] + rest)[k] == rest[k - 1];
      }
    }
  }

  /** A word followed by whitespace or nothing is one run. */
  lemma WordRunOfWord(w: string, rest: string)
    requires IsWord(w) && (rest == [] || IsWhitespace(rest[0]))
    ensures WordRun(w + rest) == |w|
  {
    var s := w + rest;
    assert forall i :: 0 <= i < |w| ==> s[i] == w[i];
    if rest != [] {
      assert s[|w|] == rest[0];
    }
  }

  /** Words joined by a separator start with the first word. */
  lemma JoinStart(words: seq<string>, sep: string)
    requires |words| >= 1
    ensures |Join(words, sep)| >= |words[0]| && Join(words, sep)[..|words[0]|] == words[0]
  {
  }

  /** Splitting the input after a leading space or at its first word. */
  lemma SplitWhitespaceStep(w: string, rest: string)
    requires IsWord(w) && (rest == [] || IsWhitespace(rest[0]))
    ensures SplitWhitespace(w + rest) == [w] + SplitWhitespace(rest)
  {
    var s := w + rest;
    assert TrimStart(s) == s;
    WordRunOfWord(w, rest);
    assert s[..|w|] == w;
    assert s[|w|..] == rest;
  }

  /** Leading whitespace separates nothing. */
  lemma SplitWhitespaceSpace(c: char, rest: string)
    requires IsWhitespace(c)
    ensures SplitWhitespace([c] + rest) == SplitWhitespace(rest)
  {
    assert ([c] + rest)[1..] == rest;
    assert TrimStart([c] + rest) == TrimStart(rest);
  }

  /** Leading whitespace is all `TrimStart` removes. */
  lemma TrimStartSpace(c: char, rest: string)
    requires IsWhitespace(c)
    ensures TrimStart([c] + rest) == TrimStart(rest)
  {
    assert ([c] + rest)[1..] == rest;
  }

  /** A string with no whitespace at either end is its own trim. */
  lemma TrimNoop(s: string)
    requires s == [] || (!IsWhitespace(s[0]) && !IsWhitespace(s[|s| - 1]))
    ensures Trim(s) == s
  {
  }

  /** A joined list of at least two words splits off its first word. */
  lemma SplitWhitespaceJoinStep(words: seq<string>)
    requires |words| >= 2 && IsWord(words[0]) && IsWord(words[1])
    ensures SplitWhitespace(Join(words, " ")) == [words[0]] + SplitWhitespace(Join(words[1..], " "))
  {
    var w, rest := words[0], Join(words[1..], " ");
    var spaced := [' '] + rest;
    assert Join(words, " ") == w + spaced by {
      assert Join(words, " ") == w + " " + rest;
    }
    SplitWhitespaceStep(w, spaced);
    SplitWhitespaceSpace(' ', rest);
  }

  /** Words joined by single spaces are split back into the same words. */
  lemma {:induction false} SplitWhitespaceJoin(words: seq<string>)
    requires forall k :: 0 <= k < |words| ==> IsWord(words[k])
    ensures SplitWhitespace(Join(words, " ")) == words
  {
    if words == [] {
      assert Join(words, " ") == [];
    } else if |words| == 1 {
      assert Join(words, " ") == words[0] + [];
      SplitWhitespaceStep(words[0], []);
    } else {
      assert IsWord(words[0]) && IsWord(words[1]);
      WordsTail(words);
      calc {
        SplitWhitespace(Join(words, " "));
        { SplitWhitespaceJoinStep(words); }
        [words[0]] + SplitWhitespace(Join(words[1..], " "));
        { SplitWhitespaceJoin(words[1..]); }
        [words[0]] + words[1..];
        words;
      }
    }
  }

  lemma WordsTail(words: seq<string>)
    requires |words| >= 1 && forall k :: 0 <= k < |words| ==> IsWord(words[k])
    ensures forall k :: 0 <= k < |words| - 1 ==> IsWord(words[1..][k])
  {
    forall k | 0 <= k < |words| - 1
      ensures IsWord(words[1..][k])
    {
      assert words[1..][k] == words[k + 1];
    }
  }
}
