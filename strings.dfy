/** Text operations the generator relies on: Python's `str.join`, `str.replace`,
    `"%d"` formatting of integers and string repetition, each with the facts the
    rest of the model needs about it. */
module Strings {

  /** `sep.join(xs)`, written so that appending one more element is one step. */
  function Join(sep: string, xs: seq<string>): (r: string)
    ensures xs == [] ==> r == ""
    ensures |xs| == 1 ==> r == xs[0]
  {
    if |xs| == 0 then ""
    else if |xs| == 1 then xs[0]
    else Join(sep, xs[..|xs| - 1]) + sep + xs[|xs| - 1]
  }

  /** Appending an element to a joined list: what the generator's
      `if len(acc) > 0: acc += ", "` loops do. */
  lemma JoinSnoc(sep: string, xs: seq<string>, x: string)
    ensures Join(sep, xs + [x]) == if xs == [] then x else Join(sep, xs) + sep + x
  {
    var ys := xs + [x];
    if xs != [] {
      assert ys[..|ys| - 1] == xs;
    }
  }

  /** The `if len(acc) > 0: acc += sep` step followed by `acc += x`, on a text
      that joins non-empty elements, joins one element more. */
  lemma JoinAppend(sep: string, xs: seq<string>, x: string, before: string)
    requires before == Join(sep, xs) && forall k :: 0 <= k < |xs| ==> xs[k] != ""
    ensures (if |before| > 0 then before + sep else before) + x == Join(sep, xs + [x])
  {
    JoinSnoc(sep, xs, x);
    if xs != [] {
      JoinNonEmpty(sep, xs);
    }
  }

  /** A joined list whose last element is not empty is not empty. */
  lemma JoinNonEmpty(sep: string, xs: seq<string>)
    requires xs != [] && xs[|xs| - 1] != ""
    ensures Join(sep, xs) != ""
  {
  }

  /** The elements of a joined list and the separators between them, in order:
      joining a list of length n gives back n elements and n - 1 separators. */
  lemma {:induction false} JoinLength(sep: string, xs: seq<string>)
    ensures |Join(sep, xs)| == Total(xs) + (if xs == [] then 0 else (|xs| - 1) * |sep|)
  {
    if |xs| > 1 {
      JoinLength(sep, xs[..|xs| - 1]);
      TotalSnoc(xs[..|xs| - 1], xs[|xs| - 1]);
      assert xs[..|xs| - 1] + [xs[|xs| - 1]] == xs;
    }
  }

  /** The sum of the lengths of the strings in xs. */
  function Total(xs: seq<string>): nat
  {
    if xs == [] then 0 else |xs[0]| + Total(xs[1..])
  }

  lemma {:induction false} TotalSnoc(xs: seq<string>, x: string)
    ensures Total(xs + [x]) == Total(xs) + |x|
  {
    if xs != [] {
      assert (xs + [x])[1..] == xs[1..] + [x];
      TotalSnoc(xs[1..], x);
    }
  }

  /** The concatenation of a sequence of strings (Python's `"".join(xs)`). */
  function Concat(xs: seq<string>): string
  {
    if xs == [] then "" else xs[0] + Concat(xs[1..])
  }

  lemma {:induction false} ConcatAppend(xs: seq<string>, ys: seq<string>)
    ensures Concat(xs + ys) == Concat(xs) + Concat(ys)
  {
    if xs == [] {
      assert xs + ys == ys;
    } else {
      assert (xs + ys)[1..] == xs[1..] + ys;
      ConcatAppend(xs[1..], ys);
    }
  }

  /** Concatenation is associative; stated once so that proofs need not
      compare the two sides element by element. */
  lemma AppendAssoc<T>(a: seq<T>, b: seq<T>, c: seq<T>)
    ensures (a + b) + c == a + (b + c)
  {
  }

  /** Taking one more element of a sequence appends that element. */
  lemma TakeSnoc<T>(s: seq<T>, k: nat)
    requires k < |s|
    ensures s[..k + 1] == s[..k] + [s[k]]
  {
  }

  /** Each line with a prefix in front: what `writeLine(line, level)` does to a list. */
  function Prefixed(p: string, xs: seq<string>): (r: seq<string>)
  {
    seq(|xs|, k requires 0 <= k < |xs| => p + xs[k])
  }

  lemma PrefixedSnoc(p: string, xs: seq<string>, x: string)
    ensures Prefixed(p, xs + [x]) == Prefixed(p, xs) + [p + x]
  {
    assert (xs + [x])[..|xs|] == xs;
  }

  lemma PrefixedOne(p: string, x: string)
    ensures Prefixed(p, [x]) == [p + x]
  {
    PrefixedSnoc(p, [], x);
  }

  /** The lines of a text, each followed by a newline: what
      `for line in lines: text += "%s\n" % line` builds. */
  function Unlines(xs: seq<string>): string
  {
    if xs == [] then "" else Unlines(xs[..|xs| - 1]) + (xs[|xs| - 1] + "\n")
  }

  lemma UnlinesSnoc(xs: seq<string>, x: string)
    ensures Unlines(xs + [x]) == Unlines(xs) + (x + "\n")
  {
    assert (xs + [x])[..|xs|] == xs;
  }

  /** Three lines, each followed by a newline. */
  lemma UnlinesThree(a: string, b: string, c: string)
    ensures Unlines([a, b, c]) == a + "\n" + b + "\n" + c + "\n"
  {
    UnlinesSnoc([], a);
    assert [] + [a] == [a];
    UnlinesSnoc([a], b);
    assert [a] + [b] == [a, b];
    UnlinesSnoc([a, b], c);
    assert [a, b] + [c] == [a, b, c];
    assert Unlines([a, b, c]) == a + "\n" + (b + "\n") + (c + "\n");
  }

  /** The text of two runs of lines is the text of the first, then of the second. */
  lemma {:induction false} UnlinesAppend(xs: seq<string>, ys: seq<string>)
    ensures Unlines(xs + ys) == Unlines(xs) + Unlines(ys)
    decreases |ys|
  {
    if ys == [] {
      assert xs + ys == xs;
    } else {
      var init := ys[..|ys| - 1];
      var y := ys[|ys| - 1];
      UnlinesAppend(xs, init);
      assert xs + ys == (xs + init) + [y];
      UnlinesSnoc(xs + init, y);
    }
  }

  /** The text of a line, some lines, a line and some more lines, piece by piece. */
  lemma UnlinesLayout(h: string, e: seq<string>, g: string, c: seq<string>)
    ensures Unlines([h] + e + [g] + c) == h + "\n" + Unlines(e) + (g + "\n") + Unlines(c)
  {
    UnlinesAppend([h] + e + [g], c);
    UnlinesSnoc([h] + e, g);
    UnlinesAppend([h], e);
    UnlinesSnoc([], h);
    assert [] + [h] == [h];
  }

  /** A text of lines ends with its last line and a newline. */
  lemma UnlinesLast(xs: seq<string>)
    requires xs != []
    ensures var t := Unlines(xs); var l := xs[|xs| - 1] + "\n";
      |l| <= |t| && t[|t| - |l|..] == l
  {
  }

  /** A text of lines starts with its first line and a newline. */
  lemma {:induction false} UnlinesFirst(xs: seq<string>)
    requires xs != []
    ensures var t := Unlines(xs); var l := xs[0] + "\n";
      |l| <= |t| && t[..|l|] == l
  {
    if |xs| > 1 {
      var ys := xs[..|xs| - 1];
      UnlinesFirst(ys);
      assert ys[0] == xs[0];
    }
  }

  predicate StartsWith(s: string, p: string)
  {
    |p| <= |s| && s[..|p|] == p
  }

  predicate EndsWith(s: string, p: string)
  {
    |p| <= |s| && s[|s| - |p|..] == p
  }

  /** `unit * n` in Python: n copies of unit. */
  function Repeat(unit: string, n: nat): string
  {
    if n == 0 then "" else Repeat(unit, n - 1) + unit
  }

  lemma {:induction false} RepeatAdd(unit: string, a: nat, b: nat)
    ensures Repeat(unit, a) + Repeat(unit, b) == Repeat(unit, a + b)
  {
    if b > 0 {
      RepeatAdd(unit, a, b - 1);
    }
  }

  lemma {:induction false} RepeatLength(unit: string, n: nat)
    ensures |Repeat(unit, n)| == n * |unit|
  {
    if n > 0 {
      RepeatLength(unit, n - 1);
    }
  }

  /** Python's `s.replace(pat, repl)` for a non-empty `pat`: occurrences are
      replaced left to right, never overlapping. */
  function Replace(s: string, pat: string, repl: string): string
    requires pat != []
    decreases |s|
  {
    if |s| < |pat| then s
    else if s[..|pat|] == pat then repl + Replace(s[|pat|..], pat, repl)
    else [s[0]] + Replace(s[1..], pat, repl)
  }

  /** Whether `pat` occurs in s starting at position k. */
  predicate OccursAt(s: string, pat: string, k: int)
  {
    0 <= k && k + |pat| <= |s| && s[k..k + |pat|] == pat
  }

  /** Replacing a string that does not occur leaves the text unchanged. */
  lemma {:induction false} ReplaceAbsent(s: string, pat: string, repl: string)
    requires pat != []
    requires forall k :: 0 <= k <= |s| - |pat| ==> !OccursAt(s, pat, k)
    ensures Replace(s, pat, repl) == s
    decreases |s|
  {
    if |s| >= |pat| {
      assert !OccursAt(s, pat, 0);
      forall k | 0 <= k <= |s[1..]| - |pat|
        ensures !OccursAt(s[1..], pat, k)
      {
        assert !OccursAt(s, pat, k + 1);
        assert s[1..][k..k + |pat|] == s[k + 1..k + 1 + |pat|];
      }
      ReplaceAbsent(s[1..], pat, repl);
    }
  }

  /** Replacing a single character repl a text that does not contain it removes
      every occurrence of that character. */
  lemma {:induction false} ReplaceCharRemoves(s: string, c: char, repl: string)
    requires c !in repl
    ensures c !in Replace(s, [c], repl)
    decreases |s|
  {
    if |s| >= 1 {
      ReplaceCharRemoves(s[1..], c, repl);
    }
  }

  /** Replacing a single character keeps every other character and its order:
      with `repl` of length n each occurrence grows the text by n - 1. */
  lemma {:induction false} ReplaceCharLength(s: string, c: char, repl: string)
    ensures |Replace(s, [c], repl)| == |s| + Count(s, c) * (|repl| - 1)
    decreases |s|
  {
    if |s| >= 1 {
      ReplaceCharLength(s[1..], c, repl);
      var n, k := Count(s[1..], c), |repl| - 1;
      assert s[..1] == [s[0]];
      if s[0] == c {
        assert (n + 1) * k == n * k + k;
      }
    }
  }

  /** The number of occurrences of c in s. */
  function Count(s: string, c: char): nat
  {
    if s == [] then 0 else (if s[0] == c then 1 else 0) + Count(s[1..], c)
  }

  function DigitChar(d: nat): (c: char)
    requires d < 10
    ensures IsDigit(c)
  {
    "0123456789"[d]
  }

  predicate IsDigit(c: char)
  {
    '0' <= c <= '9'
  }

  /** The decimal numeral of n, as Python's `"%d" % n` writes it. */
  function NatText(n: nat): string
    decreases n
  {
    if n < 10 then [DigitChar(n)] else NatText(n / 10) + [DigitChar(n % 10)]
  }

  /** Python's `"%d" % i`: a minus sign for negative numbers, then the digits. */
  function IntText(i: int): string
  {
    if i < 0 then "-" + NatText(-i) else NatText(i)
  }

  /** A numeral is a non-empty run of digits. */
  lemma {:induction false} NatTextDigits(n: nat)
    ensures NatText(n) != []
    ensures forall k :: 0 <= k < |NatText(n)| ==> IsDigit(NatText(n)[k])
    decreases n
  {
    if n >= 10 {
      NatTextDigits(n / 10);
      assert NatText(n) == NatText(n / 10) + [DigitChar(n % 10)];
    }
  }

  /** Different numbers have different numerals (so `a1`, `a2`, ... are distinct). */
  lemma {:induction false} NatTextInjective(m: nat, n: nat)
    requires NatText(m) == NatText(n)
    ensures m == n
    decreases m
  {
    NatTextDigits(m / 10);
    NatTextDigits(n / 10);
    if m >= 10 && n >= 10 {
      var a, b := NatText(m), NatText(n);
      assert a[..|a| - 1] == NatText(m / 10);
      assert b[..|b| - 1] == NatText(n / 10);
      NatTextInjective(m / 10, n / 10);
      assert a[|a| - 1] == DigitChar(m % 10);
      assert b[|b| - 1] == DigitChar(n % 10);
    }
  }

  /** An integer is written without a decimal point. */
  lemma IntTextHasNoPoint(i: int)
    ensures '.' !in IntText(i)
  {
    var n := if i < 0 then -i else i;
    NatTextDigits(n);
    assert forall k :: 0 <= k < |NatText(n)| ==> NatText(n)[k] != '.';
  }

  /** Every line starts with p. */
  ghost predicate AllStartWith(xs: seq<string>, p: string)
  {
    forall k :: 0 <= k < |xs| ==> StartsWith(xs[k], p)
  }

  lemma AllStartWithAppend(xs: seq<string>, ys: seq<string>, p: string)
    requires AllStartWith(xs, p) && AllStartWith(ys, p)
    ensures AllStartWith(xs + ys, p)
  {
    forall k | 0 <= k < |xs + ys|
      ensures StartsWith((xs + ys)[k], p)
    {
      if k >= |xs| {
        assert (xs + ys)[k] == ys[k - |xs|];
      }
    }
  }

  /** Lines put behind a prefix that starts with p start with p. */
  lemma PrefixedStartWith(p: string, q: string, xs: seq<string>)
    requires StartsWith(q, p)
    ensures AllStartWith(Prefixed(q, xs), p)
  {
    forall k | 0 <= k < |xs|
      ensures StartsWith(Prefixed(q, xs)[k], p)
    {
      assert (q + xs[k])[..|p|] == q[..|p|];
    }
  }
}
