/** The printf-style template compiler of the first generator
    (`CodeClass.createMethodDefinition`): a template such as
    `tab_bar_click_%d{numberOfClicks}_times` is split by the pattern
    `(%[sfd][^\{])|(%[sfd]{[^}]+})`, every fragment holding a `%` becomes a typed
    parameter, and the fragments are put back together as an interpolated string. */
module FormatString {
  import opened Strings
  import opened PyErrors
  import opened Target

  // ---------------------------------------------------------------------------
  // The split pattern, as an explicit scanner
  // ---------------------------------------------------------------------------

  predicate IsTypeChar(c: char)
  {
    c == 's' || c == 'f' || c == 'd'
  }

  /** Alternative 1, `%[sfd][^\{]`, matches at position i: a type character and
      then one more character that is not `{`. A `%s` at the very end has no
      such character and is not matched. */
  predicate BareAt(s: string, i: nat)
  {
    i + 2 < |s| && s[i] == '%' && IsTypeChar(s[i + 1]) && s[i + 2] != '{'
  }

  /** The first position at or after i holding c. */
  function IndexOf(s: string, c: char, i: nat): (r: Option<nat>)
    ensures r.Some? ==> i <= r.value < |s| && s[r.value] == c
    decreases |s| - i
  {
    if i >= |s| then None
    else if s[i] == c then Some(i)
    else IndexOf(s, c, i + 1)
  }

  /** IndexOf finds the first occurrence, and finds nothing only when there is none. */
  lemma {:induction false} IndexOfFirst(s: string, c: char, i: nat)
    ensures var r := IndexOf(s, c, i);
      (r.Some? ==> forall k :: i <= k < r.value ==> s[k] != c) &&
      (r.None? ==> forall k :: i <= k < |s| ==> s[k] != c)
    decreases |s| - i
  {
    if i < |s| && s[i] != c {
      IndexOfFirst(s, c, i + 1);
    }
  }

  /** The length of the match of alternative 2, `%[sfd]{[^}]+}`, at position i,
      or 0: a type character, `{`, at least one character that is not `}`, and
      the first `}` after them. */
  function NamedLen(s: string, i: nat): (n: nat)
    ensures n > 0 ==> n >= 5 && i + n <= |s|
  {
    if i + 3 < |s| && s[i] == '%' && IsTypeChar(s[i + 1]) && s[i + 2] == '{' then
      match IndexOf(s, '}', i + 3)
      case Some(j) => if j > i + 3 then j - i + 1 else 0
      case None => 0
    else 0
  }

  /** The length of the pattern's match at i (alternative 1 is tried first), or 0. */
  function TokenLen(s: string, i: nat): (n: nat)
    ensures n > 0 ==> i + n <= |s| && s[i] == '%'
    ensures n == 0 <==> !BareAt(s, i) && NamedLen(s, i) == 0
  {
    if BareAt(s, i) then 3 else NamedLen(s, i)
  }

  /** The length of the pattern's match at each position of s (0 where none
      starts): the scanner below reads s through this table. */
  function Tokens(s: string): (t: seq<nat>)
    ensures |t| == |s|
  {
    seq(|s|, i requires 0 <= i < |s| => TokenLen(s, i))
  }

  /** A table of match lengths for s: one entry per position, and no match
      runs past the end of s. */
  predicate IsTable(s: string, t: seq<nat>)
  {
    |t| == |s| && forall i :: 0 <= i < |t| ==> i + t[i] <= |s|
  }

  lemma TokensTable(s: string)
    ensures IsTable(s, Tokens(s))
  {
  }

  /** The two groups of the match at i: the matched text in the group of the
      alternative that matched, None in the other. Alternative 1 always
      matches three characters and alternative 2 at least five, so the
      length tells them apart. */
  function Groups(s: string, t: seq<nat>, i: nat): (g: seq<Option<string>>)
    requires IsTable(s, t) && i < |s| && t[i] > 0
    ensures |g| == 2
  {
    var m := s[i..i + t[i]];
    if t[i] == 3 then [Some(m), None] else [None, Some(m)]
  }

  /** With the table of s, the groups are those of alternative 1 exactly when
      alternative 1 matches. */
  lemma GroupsOfTokens(s: string, i: nat)
    requires i < |s| && TokenLen(s, i) > 0
    ensures IsTable(s, Tokens(s)) && Tokens(s)[i] == TokenLen(s, i)
    ensures Groups(s, Tokens(s), i)
      == if BareAt(s, i) then [Some(s[i..i + 3]), None] else [None, Some(s[i..i + TokenLen(s, i)])]
  {
    TokensTable(s);
  }

  /** `re.split(pattern, s)` continued from position i, the current literal run
      having begun at `start`: each match gives the literal before it and the
      match's two groups. */
  function SplitFrom(s: string, t: seq<nat>, start: nat, i: nat): seq<Option<string>>
    requires IsTable(s, t) && start <= i <= |s|
    decreases |s| - i
  {
    if i == |s| then [Some(s[start..])]
    else if t[i] > 0 then
      [Some(s[start..i])] + Groups(s, t, i) + SplitFrom(s, t, i + t[i], i + t[i])
    else SplitFrom(s, t, start, i + 1)
  }

  /** `re.split("(%[sfd][^\{])|(%[sfd]{[^}]+})", s)`. */
  function Split(s: string): seq<Option<string>>
  {
    TokensTable(s);
    SplitFrom(s, Tokens(s), 0, 0)
  }

  /** No match starts in s[a..b]. */
  predicate NoTokenIn(t: seq<nat>, a: nat, b: nat)
    requires b <= |t|
  {
    forall p: nat :: a <= p < b ==> t[p] == 0
  }

  /** `lit` is the text of s at pos and no match starts inside it. */
  predicate LiteralAt(s: string, t: seq<nat>, pos: nat, lit: string)
    requires |t| == |s|
  {
    pos + |lit| <= |s| && lit == s[pos..pos + |lit|] && NoTokenIn(t, pos, pos + |lit|)
  }

  /** `pieces` is the split of s[pos..] by leftmost matching: a literal holding
      no match, which ends at the end of s or where the next match starts; that
      match's two groups; and the split of the rest after the match. */
  ghost predicate SplitsAs(s: string, t: seq<nat>, pos: nat, pieces: seq<Option<string>>)
    requires IsTable(s, t)
    decreases |pieces|
  {
    |pieces| >= 1 && pieces[0].Some? && LiteralAt(s, t, pos, pieces[0].value) &&
    var e := pos + |pieces[0].value|;
    if |pieces| == 1 then e == |s|
    else
      |pieces| >= 4 && e < |s| && t[e] > 0 && pieces[1..3] == Groups(s, t, e) &&
      SplitsAs(s, t, e + t[e], pieces[3..])
  }

  /** The scanner splits at the leftmost matches. */
  lemma SplitIsLeftmost(s: string)
    ensures IsTable(s, Tokens(s)) && SplitsAs(s, Tokens(s), 0, Split(s))
  {
    TokensTable(s);
    SplitFromIsLeftmost(s, Tokens(s), 0, 0);
  }

  lemma {:induction false} SplitFromIsLeftmost(s: string, t: seq<nat>, start: nat, i: nat)
    requires IsTable(s, t) && start <= i <= |s| && NoTokenIn(t, start, i)
    ensures SplitsAs(s, t, start, SplitFrom(s, t, start, i))
    decreases |s| - i
  {
    if i == |s| {
      LastLiteral(s, t, start);
    } else if t[i] > 0 {
      SplitFromIsLeftmost(s, t, i + t[i], i + t[i]);
      LeftmostAtMatch(s, t, start, i);
    } else {
      NoTokenExtend(t, start, i);
      SplitFromIsLeftmost(s, t, start, i + 1);
      LeftmostPastLiteral(s, t, start, i);
    }
  }

  lemma LeftmostAtMatch(s: string, t: seq<nat>, start: nat, i: nat)
    requires IsTable(s, t) && start <= i < |s| && t[i] > 0 && NoTokenIn(t, start, i)
    requires SplitsAs(s, t, i + t[i], SplitFrom(s, t, i + t[i], i + t[i]))
    ensures SplitsAs(s, t, start, SplitFrom(s, t, start, i))
  {
    MatchStep(s, t, start, i, SplitFrom(s, t, i + t[i], i + t[i]));
    SplitFromMatch(s, t, start, i);
  }

  lemma LeftmostPastLiteral(s: string, t: seq<nat>, start: nat, i: nat)
    requires IsTable(s, t) && start <= i < |s| && t[i] == 0
    requires SplitsAs(s, t, start, SplitFrom(s, t, start, i + 1))
    ensures SplitsAs(s, t, start, SplitFrom(s, t, start, i))
  {
    SplitFromSkip(s, t, start, i);
  }

  lemma NoTokenExtend(t: seq<nat>, a: nat, b: nat)
    requires b < |t| && NoTokenIn(t, a, b) && t[b] == 0
    ensures NoTokenIn(t, a, b + 1)
  {
  }

  lemma SplitFromMatch(s: string, t: seq<nat>, start: nat, i: nat)
    requires IsTable(s, t) && start <= i < |s| && t[i] > 0
    ensures SplitFrom(s, t, start, i)
      == [Some(s[start..i])] + Groups(s, t, i) + SplitFrom(s, t, i + t[i], i + t[i])
  {
  }

  lemma SplitFromSkip(s: string, t: seq<nat>, start: nat, i: nat)
    requires IsTable(s, t) && start <= i < |s| && t[i] == 0
    ensures SplitFrom(s, t, start, i) == SplitFrom(s, t, start, i + 1)
  {
  }

  /** The literal after the last match runs to the end of s. */
  lemma LastLiteral(s: string, t: seq<nat>, start: nat)
    requires IsTable(s, t) && start <= |s| && NoTokenIn(t, start, |s|)
    ensures SplitsAs(s, t, start, [Some(s[start..])])
    ensures SplitFrom(s, t, start, |s|) == [Some(s[start..])]
    ensures SplitsAs(s, t, start, SplitFrom(s, t, start, |s|))
  {
    assert LiteralAt(s, t, start, s[start..]);
  }

  /** A literal without a match, then a match, then a split of the rest. */
  lemma MatchStep(s: string, t: seq<nat>, start: nat, i: nat, rest: seq<Option<string>>)
    requires IsTable(s, t) && start <= i < |s| && t[i] > 0 && NoTokenIn(t, start, i)
    requires SplitsAs(s, t, i + t[i], rest)
    ensures SplitsAs(s, t, start, [Some(s[start..i])] + Groups(s, t, i) + rest)
  {
    var ps := [Some(s[start..i])] + Groups(s, t, i) + rest;
    assert LiteralAt(s, t, start, s[start..i]);
    assert ps[1..3] == Groups(s, t, i);
    assert ps[3..] == rest;
  }

  /** Leftmost matching determines the split: any split of s by leftmost
      matches is the scanner's. */
  lemma SplitIsUnique(s: string, pieces: seq<Option<string>>)
    requires IsTable(s, Tokens(s)) && SplitsAs(s, Tokens(s), 0, pieces)
    ensures pieces == Split(s)
  {
    SplitsAsUnique(s, Tokens(s), 0, pieces);
  }

  lemma {:induction false} SplitsAsUnique(s: string, t: seq<nat>, pos: nat, pieces: seq<Option<string>>)
    requires IsTable(s, t) && SplitsAs(s, t, pos, pieces)
    ensures pieces == SplitFrom(s, t, pos, pos)
    decreases |pieces|
  {
    if |pieces| == 1 {
      UniqueLast(s, t, pos, pieces);
    } else {
      var e := pos + |pieces[0].value|;
      SplitsAsUnique(s, t, e + t[e], pieces[3..]);
      UniqueStep(s, t, pos, pieces);
    }
  }

  lemma UniqueLast(s: string, t: seq<nat>, pos: nat, pieces: seq<Option<string>>)
    requires IsTable(s, t) && SplitsAs(s, t, pos, pieces) && |pieces| == 1
    ensures pieces == SplitFrom(s, t, pos, pos)
  {
    SkipLiteral(s, t, pos, pos, |s|);
    LastLiteral(s, t, pos);
  }

  lemma UniqueStep(s: string, t: seq<nat>, pos: nat, pieces: seq<Option<string>>)
    requires IsTable(s, t) && SplitsAs(s, t, pos, pieces) && |pieces| > 1
    requires var e := pos + |pieces[0].value|; pieces[3..] == SplitFrom(s, t, e + t[e], e + t[e])
    ensures pieces == SplitFrom(s, t, pos, pos)
  {
    var e := pos + |pieces[0].value|;
    SkipLiteral(s, t, pos, pos, e);
    SplitFromMatch(s, t, pos, e);
    assert pieces == [pieces[0]] + pieces[1..3] + pieces[3..];
  }

  /** Scanning over positions where nothing matches does not change the split. */
  lemma {:induction false} SkipLiteral(s: string, t: seq<nat>, start: nat, i: nat, e: nat)
    requires IsTable(s, t) && start <= i <= e <= |s| && NoTokenIn(t, i, e)
    ensures SplitFrom(s, t, start, i) == SplitFrom(s, t, start, e)
    decreases e - i
  {
    if i < e {
      SkipLiteral(s, t, start, i + 1, e);
    }
  }

  /** The text of a piece; a group that did not take part contributes nothing. */
  function PieceText(p: Option<string>): string
  {
    if p.Some? then p.value else ""
  }

  function Rejoin(pieces: seq<Option<string>>): string
  {
    if pieces == [] then "" else PieceText(pieces[0]) + Rejoin(pieces[1..])
  }

  /** Putting the pieces back together gives back the template. */
  lemma SplitRejoins(s: string)
    ensures Rejoin(Split(s)) == s
  {
    TokensTable(s);
    SplitFromRejoins(s, Tokens(s), 0, 0);
  }

  lemma {:induction false} SplitFromRejoins(s: string, t: seq<nat>, start: nat, i: nat)
    requires IsTable(s, t) && start <= i <= |s|
    ensures Rejoin(SplitFrom(s, t, start, i)) == s[start..]
    decreases |s| - i
  {
    if i == |s| {
      RejoinLast(s, t, start);
    } else if t[i] > 0 {
      SplitFromRejoins(s, t, i + t[i], i + t[i]);
      SplitFromMatch(s, t, start, i);
      RejoinAtMatch(s, t, start, i, SplitFrom(s, t, start, i), SplitFrom(s, t, i + t[i], i + t[i]));
    } else {
      SplitFromRejoins(s, t, start, i + 1);
      SplitFromSkip(s, t, start, i);
    }
  }

  lemma RejoinLast(s: string, t: seq<nat>, start: nat)
    requires IsTable(s, t) && start <= |s|
    ensures Rejoin(SplitFrom(s, t, start, |s|)) == s[start..]
  {
    assert Rejoin([Some(s[start..])]) == s[start..] + Rejoin([]);
  }

  lemma RejoinAtMatch(s: string, t: seq<nat>, start: nat, i: nat, pieces: seq<Option<string>>,
                       rest: seq<Option<string>>)
    requires IsTable(s, t) && start <= i < |s| && t[i] > 0
    requires pieces == [Some(s[start..i])] + Groups(s, t, i) + rest
    requires Rejoin(rest) == s[i + t[i]..]
    ensures Rejoin(pieces) == s[start..]
  {
    GroupsText(s, t, i);
    RejoinThree(s, start, i, i + t[i], Groups(s, t, i), rest);
  }

  /** A literal, the two groups of a match and the rest, put back together. */
  lemma RejoinThree(s: string, a: nat, b: nat, c: nat, g: seq<Option<string>>, rest: seq<Option<string>>)
    requires a <= b <= c <= |s| && |g| == 2
    requires PieceText(g[0]) + PieceText(g[1]) == s[b..c] && Rejoin(rest) == s[c..]
    ensures Rejoin([Some(s[a..b])] + g + rest) == s[a..]
  {
    var pieces := [Some(s[a..b])] + g + rest;
    var p1 := pieces[1..];
    var p2 := p1[1..];
    assert p2[1..] == rest;
    assert Rejoin(pieces) == s[a..b] + Rejoin(p1);
    assert Rejoin(p1) == PieceText(g[0]) + Rejoin(p2);
    assert Rejoin(p2) == PieceText(g[1]) + Rejoin(rest);
    Associate(s[a..b], PieceText(g[0]), PieceText(g[1]), s[c..]);
    ThreeParts(s, a, b, c);
  }

  lemma Associate(a: string, b: string, c: string, r: string)
    ensures a + (b + (c + r)) == a + (b + c) + r
  {
  }

  /** The two groups of a match hold the matched text between them. */
  lemma GroupsText(s: string, t: seq<nat>, i: nat)
    requires IsTable(s, t) && i < |s| && t[i] > 0
    ensures PieceText(Groups(s, t, i)[0]) + PieceText(Groups(s, t, i)[1]) == s[i..i + t[i]]
  {
  }

  lemma ThreeParts(s: string, a: nat, b: nat, c: nat)
    requires a <= b <= c <= |s|
    ensures s[a..] == s[a..b] + s[b..c] + s[c..]
  {
  }

  // ---------------------------------------------------------------------------
  // What one placeholder fragment contributes
  // ---------------------------------------------------------------------------

  /** A match of `%.` at i: a `%` followed by a character other than a newline. */
  predicate PercentAt(s: string, i: int)
  {
    0 <= i < |s| - 1 && s[i] == '%' && s[i + 1] != '\n'
  }

  /** `re.findall("%.", s)[0]`, of which only the character after the `%`
      matters; IndexError when nothing matches. */
  function TypeCharOf(s: string): (r: Result<char>)
    ensures r.Err? ==> r.error == IndexError
  {
    TypeCharFrom(s, 0)
  }

  function TypeCharFrom(s: string, i: nat): (r: Result<char>)
    ensures r.Err? ==> r.error == IndexError
    decreases |s| - i
  {
    if i + 1 >= |s| then Err(IndexError)
    else if PercentAt(s, i) then Ok(s[i + 1])
    else TypeCharFrom(s, i + 1)
  }

  /** The type character is the one after the leftmost match of `%.`, and
      there is an error exactly when `%.` does not match anywhere. */
  lemma TypeCharOfFirst(s: string)
    ensures TypeCharOf(s).Err? <==> forall i :: 0 <= i < |s| ==> !PercentAt(s, i)
    ensures TypeCharOf(s).Ok? ==> exists i ::
      PercentAt(s, i) && s[i + 1] == TypeCharOf(s).value && forall k :: 0 <= k < i ==> !PercentAt(s, k)
  {
    TypeCharFromFirst(s, 0);
  }

  lemma {:induction false} TypeCharFromFirst(s: string, i: nat)
    requires forall k :: 0 <= k < i ==> !PercentAt(s, k)
    ensures TypeCharFrom(s, i).Err? <==> forall k :: 0 <= k < |s| ==> !PercentAt(s, k)
    ensures TypeCharFrom(s, i).Ok? ==> exists j ::
      PercentAt(s, j) && s[j + 1] == TypeCharFrom(s, i).value && forall k :: 0 <= k < j ==> !PercentAt(s, k)
    decreases |s| - i
  {
    if i + 1 >= |s| {
      assert forall k :: i <= k < |s| ==> !PercentAt(s, k);
    } else if !PercentAt(s, i) {
      TypeCharFromFirst(s, i + 1);
    }
  }

  /** The parameter type a placeholder's type character gives. The `%%Float`
      is what the generator writes: the text is inserted as a value, so the
      doubled `%` is never collapsed. */
  function TypeName(c: char): string
  {
    if c == 'd' then "Int"
    else if c == 'f' then "%%Float"
    else if c == 's' then "String"
    else ""
  }

  /** Three named types, and the empty one for any other character. */
  lemma TypeNameRange(c: char)
    ensures TypeName(c) in ["Int", "%%Float", "String", ""]
    ensures TypeName(c) == "" <==> c !in "dfs"
  {
  }

  /** The end of the line that position i is on: the first newline at or after
      i, or the end of s. (`.` in a Python pattern does not match a newline.) */
  function LineEnd(s: string, i: nat): (e: nat)
    requires i <= |s|
    ensures i <= e <= |s|
    decreases |s| - i
  {
    if i == |s| || s[i] == '\n' then i else LineEnd(s, i + 1)
  }

  lemma {:induction false} LineEndOfLastLine(s: string, i: nat)
    requires i <= |s| && '\n' !in s[i..]
    ensures LineEnd(s, i) == |s|
    decreases |s| - i
  {
    if i < |s| {
      assert s[i] == s[i..][0];
      assert s[i + 1..] == s[i..][1..];
      LineEndOfLastLine(s, i + 1);
    }
  }

  /** The last position in s[lo..hi] holding c. */
  function LastIndexIn(s: string, c: char, lo: nat, hi: nat): (r: Option<nat>)
    requires lo <= hi <= |s|
    ensures r.Some? ==> lo <= r.value < hi && s[r.value] == c
    decreases hi - lo
  {
    if lo == hi then None
    else if s[hi - 1] == c then Some(hi - 1)
    else LastIndexIn(s, c, lo, hi - 1)
  }

  /** `re.findall("\{(.*)\}", s)` from position i on, first match: the first
      `{` that has a `}` after it on the same line, and everything up to the
      last such `}` (the group is greedy). */
  function BracedFrom(s: string, i: nat): Option<string>
    decreases |s| - i
  {
    if i >= |s| then None
    else if s[i] == '{' && LastIndexIn(s, '}', i + 1, LineEnd(s, i + 1)).Some? then
      Some(s[i + 1..LastIndexIn(s, '}', i + 1, LineEnd(s, i + 1)).value])
    else BracedFrom(s, i + 1)
  }

  /** `re.findall("\{(.*)\}", s)[0]`: IndexError when nothing matches. */
  function BracedName(s: string): Result<string>
  {
    match BracedFrom(s, 0)
    case Some(name) => Ok(name)
    case None => Err(IndexError)
  }

  /** LastIndexIn finds the last occurrence in s[lo..hi], and finds nothing
      only when there is none. */
  lemma {:induction false} LastIndexInIsLast(s: string, c: char, lo: nat, hi: nat)
    requires lo <= hi <= |s|
    ensures var r := LastIndexIn(s, c, lo, hi);
      (r.Some? ==> forall p :: r.value < p < hi ==> s[p] != c) &&
      (r.None? <==> forall p :: lo <= p < hi ==> s[p] != c)
    decreases hi - lo
  {
    if lo < hi && s[hi - 1] != c {
      LastIndexInIsLast(s, c, lo, hi - 1);
    }
  }

  /** `\{(.*)\}` matches at i: a `{` and, later on the same line, a `}`. */
  predicate BraceAt(s: string, i: int)
  {
    0 <= i < |s| && s[i] == '{' && exists j :: i < j < LineEnd(s, i + 1) && s[j] == '}'
  }

  /** j is the last `}` on the line of the `{` at i, where the greedy group of
      `\{(.*)\}` ends. */
  predicate LastClose(s: string, i: int, j: int)
  {
    0 <= i < j < |s| && j < LineEnd(s, i + 1) && s[j] == '}' &&
    forall p :: j < p < LineEnd(s, i + 1) ==> s[p] != '}'
  }

  /** The braced name is the text between the leftmost `{` that has a `}` after
      it on its line and the last such `}`, and the IndexError happens exactly
      when no `{` has one. */
  lemma BracedNameFirst(s: string)
    ensures BracedName(s).Err? <==> forall i :: 0 <= i < |s| ==> !BraceAt(s, i)
    ensures BracedName(s).Err? ==> BracedName(s).error == IndexError
    ensures BracedName(s).Ok? ==> exists i, j ::
      BraceAt(s, i) && (forall k :: 0 <= k < i ==> !BraceAt(s, k)) &&
      LastClose(s, i, j) && BracedName(s).value == s[i + 1..j]
  {
    BracedFromFirst(s, 0);
  }

  lemma {:induction false} BracedFromFirst(s: string, i: nat)
    requires forall k :: 0 <= k < i ==> !BraceAt(s, k)
    ensures BracedFrom(s, i).None? <==> forall k :: 0 <= k < |s| ==> !BraceAt(s, k)
    ensures BracedFrom(s, i).Some? ==> exists i', j ::
      BraceAt(s, i') && (forall k :: 0 <= k < i' ==> !BraceAt(s, k)) &&
      LastClose(s, i', j) && BracedFrom(s, i).value == s[i' + 1..j]
    decreases |s| - i
  {
    if i < |s| {
      var e := LineEnd(s, i + 1);
      LastIndexInIsLast(s, '}', i + 1, e);
      var r := LastIndexIn(s, '}', i + 1, e);
      if s[i] == '{' && r.Some? {
        assert BraceAt(s, i);
        assert LastClose(s, i, r.value);
      } else {
        assert !BraceAt(s, i);
        BracedFromFirst(s, i + 1);
      }
    }
  }

  datatype Param = Param(name: string, typ: string)

  /** `"%s: %s" % (name, type)`: a parameter in the argument list. */
  function Declaration(p: Param): string
  {
    p.name + ": " + p.typ
  }

  function Declarations(ps: seq<Param>): (r: seq<string>)
    ensures |r| == |ps|
  {
    if ps == [] then [] else Declarations(ps[..|ps| - 1]) + [Declaration(ps[|ps| - 1])]
  }

  /** The placeholder at 1-based position k among a template's placeholders:
      its parameter and what it adds to the returned string. A fragment with a
      `{` takes the braced name verbatim and interpolates it; any other is named
      `a<k>` and interpolates the fragment itself, in which only the text `%%`
      followed by the type character would be renamed. */
  function Placeholder(lang: Lang, piece: string, k: nat): (r: Result<(Param, string)>)
    ensures r.Err? ==> r.error == IndexError
    ensures r.Ok? ==> TypeCharOf(piece).Ok? && r.value.0.typ == TypeName(TypeCharOf(piece).value)
    ensures r.Ok? && '{' in piece ==> r.value.1 == Interp(lang, r.value.0.name)
    ensures r.Ok? && '{' !in piece ==> r.value.0.name == "a" + NatText(k)
  {
    var c :- TypeCharOf(piece);
    if '{' in piece then
      var name :- BracedName(piece);
      Ok((Param(name, TypeName(c)), Interp(lang, name)))
    else
      var name := "a" + NatText(k);
      Ok((Param(name, TypeName(c)), Interp(lang, Replace(piece, ['%', '%', c], "$" + name))))
  }

  /** A placeholder fragment the compiler accepts: `%.` matches in it, and,
      if it holds a `{`, `\{(.*)\}` matches too. */
  predicate WellFormedPlaceholder(piece: string)
  {
    TypeCharOf(piece).Ok? && ('{' in piece ==> BracedName(piece).Ok?)
  }

  // ---------------------------------------------------------------------------
  // The whole template
  // ---------------------------------------------------------------------------

  datatype Compiled = Compiled(params: seq<Param>, body: string)

  /** Adding compiled parts in front of a compilation result; a failure stays. */
  function Prepend(params: seq<Param>, body: string, r: Result<Compiled>): (p: Result<Compiled>)
    ensures p.Ok? <==> r.Ok?
    ensures r.Err? ==> p == r
  {
    if r.Ok? then Ok(Compiled(params + r.value.params, body + r.value.body)) else r
  }

  lemma PrependTwice(a: seq<Param>, x: string, b: seq<Param>, y: string, r: Result<Compiled>)
    ensures Prepend(a, x, Prepend(b, y, r)) == Prepend(a + b, x + y, r)
  {
    if r.Ok? {
      assert a + (b + r.value.params) == (a + b) + r.value.params;
      assert x + (y + r.value.body) == (x + y) + r.value.body;
    }
  }

  lemma PrependNothing(r: Result<Compiled>)
    ensures Prepend([], "", r) == r
  {
    if r.Ok? {
      assert [] + r.value.params == r.value.params;
      assert "" + r.value.body == r.value.body;
    }
  }

  /** The pieces a loop over `re.split`'s result treats as placeholders: the
      non-empty ones holding a `%`, in order (a literal left over by the split,
      such as a trailing `%s`, is one of them). */
  function Placeholders(pieces: seq<Option<string>>): seq<string>
  {
    if pieces == [] then []
    else
      (if pieces[0].Some? && '%' in pieces[0].value then [pieces[0].value] else [])
      + Placeholders(pieces[1..])
  }

  /** Compiling the pieces from one on, the next placeholder being the k-th:
      None and empty pieces are skipped, a placeholder gives a parameter and
      an interpolation, any other piece is copied verbatim. */
  function CompileFrom(lang: Lang, pieces: seq<Option<string>>, k: nat): Result<Compiled>
  {
    if pieces == [] then Ok(Compiled([], ""))
    else if pieces[0].None? || pieces[0].value == "" then CompileFrom(lang, pieces[1..], k)
    else if '%' in pieces[0].value then
      match Placeholder(lang, pieces[0].value, k)
      case Err(e) => Err(e)
      case Ok(ph) => Prepend([ph.0], ph.1, CompileFrom(lang, pieces[1..], k + 1))
    else Prepend([], pieces[0].value, CompileFrom(lang, pieces[1..], k))
  }

  /** One step of the compilation, by the kind of the first piece. */
  lemma CompileHead(lang: Lang, pieces: seq<Option<string>>, k: nat)
    requires pieces != []
    ensures pieces[0].None? || pieces[0].value == "" ==>
      CompileFrom(lang, pieces, k) == CompileFrom(lang, pieces[1..], k)
    ensures pieces[0].Some? && '%' !in pieces[0].value ==>
      CompileFrom(lang, pieces, k) == Prepend([], pieces[0].value, CompileFrom(lang, pieces[1..], k))
    ensures pieces[0].Some? && '%' in pieces[0].value && Placeholder(lang, pieces[0].value, k).Err? ==>
      CompileFrom(lang, pieces, k) == Err(Placeholder(lang, pieces[0].value, k).error)
    ensures pieces[0].Some? && '%' in pieces[0].value && Placeholder(lang, pieces[0].value, k).Ok? ==>
      var ph := Placeholder(lang, pieces[0].value, k).value;
      CompileFrom(lang, pieces, k) == Prepend([ph.0], ph.1, CompileFrom(lang, pieces[1..], k + 1))
  {
    if pieces[0].Some? && pieces[0].value == "" {
      PrependNothing(CompileFrom(lang, pieces[1..], k));
    }
  }

  /** There is one parameter per placeholder fragment, in order, and the j-th
      (from 0) is the one that fragment gives as the (k + j)-th placeholder. */
  predicate ParamsOf(lang: Lang, phs: seq<string>, params: seq<Param>, k: nat)
  {
    |params| == |phs| &&
    forall j :: 0 <= j < |params| ==>
      Placeholder(lang, phs[j], k + j).Ok? && Placeholder(lang, phs[j], k + j).value.0 == params[j]
  }

  lemma ParamsOfCons(lang: Lang, ph: string, p: Param, phs: seq<string>, params: seq<Param>, k: nat)
    requires Placeholder(lang, ph, k).Ok? && Placeholder(lang, ph, k).value.0 == p
    requires ParamsOf(lang, phs, params, k + 1)
    ensures ParamsOf(lang, [ph] + phs, [p] + params, k)
  {
    var all, ps := [ph] + phs, [p] + params;
    forall j | 0 <= j < |ps|
      ensures Placeholder(lang, all[j], k + j).Ok? && Placeholder(lang, all[j], k + j).value.0 == ps[j]
    {
      if j > 0 {
        assert all[j] == phs[j - 1] && ps[j] == params[j - 1];
        assert k + j == (k + 1) + (j - 1);
      }
    }
  }

  /** The compiled parameters are those of the placeholder fragments, in
      order: the counter moves on at every placeholder, named or not. */
  lemma {:induction false} CompileParams(lang: Lang, pieces: seq<Option<string>>, k: nat)
    requires CompileFrom(lang, pieces, k).Ok?
    ensures ParamsOf(lang, Placeholders(pieces), CompileFrom(lang, pieces, k).value.params, k)
  {
    if pieces != [] {
      var v := pieces[0];
      var rest := Placeholders(pieces[1..]);
      if v.Some? && v.value != "" && '%' in v.value {
        var ph := Placeholder(lang, v.value, k);
        var tail := CompileFrom(lang, pieces[1..], k + 1);
        CompileParams(lang, pieces[1..], k + 1);
        assert Placeholders(pieces) == [v.value] + rest;
        assert CompileFrom(lang, pieces, k).value.params == [ph.value.0] + tail.value.params;
        ParamsOfCons(lang, v.value, ph.value.0, rest, tail.value.params, k);
      } else {
        CompileParams(lang, pieces[1..], k);
        assert Placeholders(pieces) == rest;
        assert CompileFrom(lang, pieces, k).value.params == CompileFrom(lang, pieces[1..], k).value.params;
      }
    }
  }

  /** Every fragment in phs is a well-formed placeholder. */
  predicate AllWellFormed(phs: seq<string>)
  {
    forall j :: 0 <= j < |phs| ==> WellFormedPlaceholder(phs[j])
  }

  lemma AllWellFormedCons(ph: string, rest: seq<string>)
    ensures AllWellFormed([ph] + rest) <==> WellFormedPlaceholder(ph) && AllWellFormed(rest)
  {
    var ps := [ph] + rest;
    assert ps[0] == ph;
    assert forall j :: 0 <= j < |rest| ==> ps[j + 1] == rest[j];
  }

  /** A template compiles exactly when each of its placeholder fragments is
      well formed; the target language and the numbering play no part. */
  lemma {:induction false} CompileOkIff(lang: Lang, pieces: seq<Option<string>>, k: nat)
    ensures CompileFrom(lang, pieces, k).Ok? <==> AllWellFormed(Placeholders(pieces))
  {
    if pieces != [] {
      var v := pieces[0];
      var rest := Placeholders(pieces[1..]);
      if v.Some? && '%' in v.value {
        CompileOkIff(lang, pieces[1..], k + 1);
        CompileHead(lang, pieces, k);
        PlaceholderOk(lang, v.value, k);
        assert Placeholders(pieces) == [v.value] + rest;
        AllWellFormedCons(v.value, rest);
      } else {
        CompileOkIff(lang, pieces[1..], k);
        CompileHead(lang, pieces, k);
        assert Placeholders(pieces) == rest;
      }
    }
  }

  /** Whether a placeholder fragment is accepted depends only on its text. */
  lemma PlaceholderOk(lang: Lang, piece: string, k: nat)
    ensures Placeholder(lang, piece, k).Ok? <==> WellFormedPlaceholder(piece)
  {
  }

  /** The three parts of `createMethodDefinition`'s result: the method name,
      the argument list and the text of the returned string. */
  datatype MethodParts = MethodParts(name: string, arguments: string, returnValue: string)

  /** What `createMethodDefinition(name, template)` returns: the parameters'
      declarations joined by ", ", and the compiled return text. */
  function MethodDefinitionParts(lang: Lang, name: string, template: string): Result<MethodParts>
  {
    var c :- CompileFrom(lang, Split(template), 1);
    Ok(MethodParts(name, Join(", ", Declarations(c.params)), c.body))
  }

  /** One more parameter in the argument list: a ", " when the list is not
      empty, then the parameter's declaration. */
  lemma ArgumentsStep(params: seq<Param>, p: Param, arguments: string)
    requires arguments == Join(", ", Declarations(params))
    ensures (if |arguments| > 0 then arguments + ", " else arguments) + (p.name + ": " + p.typ)
      == Join(", ", Declarations(params + [p]))
  {
    JoinSnoc(", ", Declarations(params), Declaration(p));
    assert (params + [p])[..|params|] == params;
    if params != [] {
      JoinNonEmpty(", ", Declarations(params));
    }
  }

  /** `CodeClass.createMethodDefinition`: walks the split template once,
      counting placeholders and growing the argument list and the return text. */
  method CreateMethodDefinition(lang: Lang, name: string, value: string) returns (r: Result<MethodParts>)
    ensures r == MethodDefinitionParts(lang, name, value)
  {
    var paramCount: nat := 1;
    var methodArguments := "";
    var methodReturnValue := "";
    var splitValues := Split(value);
    ghost var params: seq<Param> := [];
    assert splitValues[0..] == splitValues;
    PrependNothing(CompileFrom(lang, splitValues, 1));
    for i := 0 to |splitValues|
      invariant methodArguments == Join(", ", Declarations(params))
      invariant CompileFrom(lang, splitValues, 1)
        == Prepend(params, methodReturnValue, CompileFrom(lang, splitValues[i..], paramCount))
    {
      ghost var todo := splitValues[i..];
      assert todo[0] == splitValues[i] && todo[1..] == splitValues[i + 1..];
      CompileHead(lang, todo, paramCount);
      var splitValue := splitValues[i];
      if splitValue.None? || splitValue.value == "" {
        continue;
      }
      var piece := splitValue.value;
      if '%' in piece {
        // the type
        var typeChar := TypeCharOf(piece);
        if typeChar.Err? {
          assert Placeholder(lang, piece, paramCount) == Err(typeChar.error);
          return Err(typeChar.error);
        }
        var c := typeChar.value;
        var paramType := TypeName(c);
        // the name
        var paramHasName := '{' in piece;
        var paramName := "";
        if paramHasName {
          var braced := BracedName(piece);
          if braced.Err? {
            assert Placeholder(lang, piece, paramCount) == Err(braced.error);
            return Err(braced.error);
          }
          paramName := braced.value;
        } else {
          paramName := "a" + NatText(paramCount);
        }
        ghost var p := Param(paramName, paramType);
        ghost var k := paramCount;
        paramCount := paramCount + 1;
        // the argument list
        ArgumentsStep(params, p, methodArguments);
        if |methodArguments| > 0 {
          methodArguments := methodArguments + ", ";
        }
        methodArguments := methodArguments + (paramName + ": " + paramType);
        // the return value
        ghost var before := methodReturnValue;
        if paramHasName {
          methodReturnValue := methodReturnValue + Interp(lang, paramName);
        } else {
          paramName := Replace(piece, ['%', '%', c], "$" + paramName);
          methodReturnValue := methodReturnValue + Interp(lang, paramName);
        }
        ghost var text := Interp(lang, paramName);
        assert methodReturnValue == before + text;
        assert Placeholder(lang, piece, k) == Ok((p, text));
        PrependTwice(params, before, [p], text, CompileFrom(lang, splitValues[i + 1..], paramCount));
        params := params + [p];
        continue;
      }
      PrependTwice(params, methodReturnValue, [], piece, CompileFrom(lang, splitValues[i + 1..], paramCount));
      assert params + [] == params;
      methodReturnValue := methodReturnValue + piece;
    }
    assert splitValues[|splitValues|..] == [];
    assert params + [] == params && methodReturnValue + "" == methodReturnValue;
    r := Ok(MethodParts(name, methodArguments, methodReturnValue));
  }

  // ---------------------------------------------------------------------------
  // Templates with one placeholder
  // ---------------------------------------------------------------------------

  /** The text of a named placeholder `%c{name}`. */
  function NamedText(c: char, name: string): string
  {
    ['%', c, '{'] + name + ['}']
  }

  /** A template without `%` is a plain string: no parameters, returned as is. */
  lemma PlainTemplate(lang: Lang, methodName: string, template: string)
    requires '%' !in template
    ensures MethodDefinitionParts(lang, methodName, template) == Ok(MethodParts(methodName, "", template))
  {
    NoPercentNoToken(template, 0, |template|);
    SplitWithoutToken(template);
    CompileLiteralThen(lang, template, [], 1, Compiled([], ""));
    assert [Some(template)] + [] == [Some(template)] && template + "" == template;
    PartsOfCompiled(lang, methodName, template, Compiled([], template));
  }

  /** The parts of a method come from the compilation of its split template. */
  lemma PartsOfCompiled(lang: Lang, methodName: string, template: string, c: Compiled)
    requires CompileFrom(lang, Split(template), 1) == Ok(c)
    ensures MethodDefinitionParts(lang, methodName, template)
      == Ok(MethodParts(methodName, Join(", ", Declarations(c.params)), c.body))
  {
  }

  /** A template in which nothing matches is split into itself. */
  lemma SplitWithoutToken(s: string)
    requires NoTokenIn(Tokens(s), 0, |s|)
    ensures Split(s) == [Some(s)]
  {
    TokensTable(s);
    LastLiteral(s, Tokens(s), 0);
    SkipLiteral(s, Tokens(s), 0, 0, |s|);
  }

  /** The argument list of a method with one parameter. */
  lemma OneDeclaration(p: Param)
    ensures Join(", ", Declarations([p])) == p.name + ": " + p.typ
  {
    assert [p][..0] == [];
  }

  /** A template with one named placeholder and no other `%`: one parameter
      with the braced name and the type the type character gives, and the
      placeholder replaced by an interpolation of that name. */
  lemma NamedTemplate(lang: Lang, methodName: string, pre: string, c: char, name: string, post: string)
    requires '%' !in pre && '%' !in post && IsTypeChar(c)
    requires name != "" && '}' !in name && '\n' !in name
    ensures MethodDefinitionParts(lang, methodName, pre + NamedText(c, name) + post)
      == Ok(MethodParts(methodName, name + ": " + TypeName(c), pre + Interp(lang, name) + post))
  {
    var frag := NamedText(c, name);
    NamedToken(pre, c, name, post);
    SplitOnePlaceholder(pre, frag, post, [None, Some(frag)]);
    NamedPlaceholder(lang, c, name);
    var ph := (Param(name, TypeName(c)), Interp(lang, name));
    CompileOne(lang, pre, [None, Some(frag)], frag, post, ph);
    OneDeclaration(ph.0);
    PartsOfCompiled(lang, methodName, pre + frag + post, Compiled([ph.0], pre + ph.1 + post));
  }

  /** A template with one unnamed placeholder `%c` followed by a character x
      other than `{`, and no other `%`: one parameter named `a1`, but the
      interpolation holds the fragment `%cx` itself, for the text the
      generator replaces (`%%` and the type character) never occurs in it. */
  lemma BareTemplate(lang: Lang, methodName: string, pre: string, c: char, x: char, post: string)
    requires '%' !in pre && '%' !in post && IsTypeChar(c) && x != '{'
    ensures MethodDefinitionParts(lang, methodName, pre + ['%', c, x] + post)
      == Ok(MethodParts(methodName, "a1: " + TypeName(c), pre + Interp(lang, ['%', c, x]) + post))
  {
    var frag := ['%', c, x];
    var s := pre + frag + post;
    assert s[|pre|..|pre| + 3] == frag;
    assert BareAt(s, |pre|);
    GroupsOfTokens(s, |pre|);
    SplitOnePlaceholder(pre, frag, post, [Some(frag), None]);
    assert '{' !in frag;
    UnnamedPlaceholder(lang, frag, 0, c);
    var ph := (Param("a1", TypeName(c)), Interp(lang, frag));
    CompileOne(lang, pre, [Some(frag), None], frag, post, ph);
    OneDeclaration(ph.0);
    assert "a1" + ": " + TypeName(c) == "a1: " + TypeName(c);
    PartsOfCompiled(lang, methodName, s, Compiled([ph.0], pre + ph.1 + post));
  }

  /** A template ending in `%c`, with no other `%` and no `{`: nothing matches
      the split pattern (alternative 1 needs one more character), so the whole
      template is one placeholder, named `a1`, and the interpolation holds the
      whole template. */
  lemma TrailingPlaceholder(lang: Lang, methodName: string, pre: string, c: char)
    requires '%' !in pre && '{' !in pre && IsTypeChar(c)
    ensures MethodDefinitionParts(lang, methodName, pre + ['%', c])
      == Ok(MethodParts(methodName, "a1: " + TypeName(c), Interp(lang, pre + ['%', c])))
  {
    var t := pre + ['%', c];
    TokensTable(t);
    forall k | 0 <= k < |t| ensures Tokens(t)[k] == 0 {
      if k < |pre| {
        assert t[k] == pre[k];
      }
    }
    SplitWithoutToken(t);
    UnnamedPlaceholder(lang, t, |pre|, c);
    var ph := (Param("a1", TypeName(c)), Interp(lang, t));
    CompilePlaceholderThen(lang, t, [], 1, ph, Compiled([], ""));
    assert [Some(t)] + [] == [Some(t)];
    assert [ph.0] + [] == [ph.0] && ph.1 + "" == ph.1;
    OneDeclaration(ph.0);
    assert "a1" + ": " + TypeName(c) == "a1: " + TypeName(c);
    PartsOfCompiled(lang, methodName, t, Compiled([ph.0], ph.1));
  }

  /** Positions without a `%` start no match. */
  lemma NoPercentNoToken(s: string, a: nat, b: nat)
    requires a <= b <= |s| && forall k :: a <= k < b ==> s[k] != '%'
    ensures NoTokenIn(Tokens(s), a, b)
  {
  }

  lemma IndexOfAt(s: string, c: char, i: nat, j: nat)
    requires i <= j < |s| && s[j] == c && forall k :: i <= k < j ==> s[k] != c
    ensures IndexOf(s, c, i) == Some(j)
    decreases j - i
  {
    if i < j {
      IndexOfAt(s, c, i + 1, j);
    }
  }

  /** The split of pre + frag + post, where frag is the one match and neither
      pre nor post holds a `%`. */
  lemma SplitOnePlaceholder(pre: string, frag: string, post: string, groups: seq<Option<string>>)
    requires '%' !in pre && '%' !in post
    requires var s := pre + frag + post;
      |frag| > 0 && IsTable(s, Tokens(s)) && TokenLen(s, |pre|) == |frag| &&
      Groups(s, Tokens(s), |pre|) == groups
    ensures Split(pre + frag + post) == [Some(pre)] + groups + [Some(post)]
  {
    var s := pre + frag + post;
    var e := |pre| + |frag|;
    assert s[..|pre|] == pre && s[e..] == post;
    forall k | 0 <= k < |pre| ensures s[k] != '%' { assert s[k] == pre[k]; }
    forall k | e <= k < |s| ensures s[k] != '%' { assert s[k] == post[k - e]; }
    NoPercentNoToken(s, 0, |pre|);
    NoPercentNoToken(s, e, |s|);
    LastLiteral(s, Tokens(s), e);
    MatchStep(s, Tokens(s), 0, |pre|, [Some(post)]);
    SplitIsUnique(s, [Some(pre)] + groups + [Some(post)]);
  }

  /** A named placeholder after a text without `%` is the match there. */
  lemma NamedToken(pre: string, c: char, name: string, post: string)
    requires '%' !in pre && IsTypeChar(c) && name != "" && '}' !in name
    ensures var s := pre + NamedText(c, name) + post;
      TokenLen(s, |pre|) == |NamedText(c, name)| && IsTable(s, Tokens(s)) &&
      Groups(s, Tokens(s), |pre|) == [None, Some(NamedText(c, name))]
  {
    var frag := NamedText(c, name);
    var s := pre + frag + post;
    var e := |pre|;
    assert s[e..e + |frag|] == frag;
    forall k | e + 3 <= k < e + |frag| - 1 ensures s[k] != '}' {
      assert s[k] == name[k - e - 3];
    }
    IndexOfAt(s, '}', e + 3, e + |frag| - 1);
    GroupsOfTokens(s, e);
  }

  /** A named placeholder's parameter takes the braced name and its
      interpolation holds that name. */
  lemma NamedPlaceholder(lang: Lang, c: char, name: string)
    requires IsTypeChar(c) && name != "" && '}' !in name && '\n' !in name
    ensures Placeholder(lang, NamedText(c, name), 1)
      == Ok((Param(name, TypeName(c)), Interp(lang, name)))
  {
    var frag := NamedText(c, name);
    var close := |frag| - 1;
    assert TypeCharOf(frag) == Ok(c);
    assert frag[2] == '{';
    assert frag[3..close] == name;
    assert '\n' !in frag[3..] by {
      assert frag[3..] == name + ['}'];
    }
    LineEndOfLastLine(frag, 3);
    assert BracedFrom(frag, 0) == BracedFrom(frag, 2);
  }

  /** An unnamed placeholder fragment whose first `%` is at position i and is
      followed by c, holding no `{` and no second `%`, is named `a1` and
      interpolated unchanged. */
  lemma UnnamedPlaceholder(lang: Lang, frag: string, i: nat, c: char)
    requires i + 1 < |frag| && frag[i] == '%' && frag[i + 1] == c && IsTypeChar(c)
    requires forall k :: 0 <= k < i ==> frag[k] != '%'
    requires forall k :: 0 <= k < |frag| - 1 ==> !(frag[k] == '%' && frag[k + 1] == '%')
    requires '{' !in frag
    ensures Placeholder(lang, frag, 1) == Ok((Param("a1", TypeName(c)), Interp(lang, frag)))
  {
    TypeCharAt(frag, i);
    forall k | 0 <= k <= |frag| - 3 ensures !OccursAt(frag, ['%', '%', c], k) {
      assert frag[k..k + 3][0] == frag[k] && frag[k..k + 3][1] == frag[k + 1];
    }
    ReplaceAbsent(frag, ['%', '%', c], "$" + ("a" + NatText(1)));
    assert NatText(1) == "1";
    assert "a" + NatText(1) == "a1";
    assert TypeCharOf(frag) == Ok(c);
    assert !('{' in frag);
    assert Replace(frag, ['%', '%', c], "$" + ("a" + NatText(1))) == frag;
  }

  lemma TypeCharAt(s: string, i: nat)
    requires PercentAt(s, i) && forall k :: 0 <= k < i ==> s[k] != '%'
    ensures TypeCharOf(s) == Ok(s[i + 1])
  {
    TypeCharFromAt(s, 0, i);
  }

  lemma TypeCharFromAt(s: string, j: nat, i: nat)
    requires j <= i && PercentAt(s, i) && forall k :: j <= k < i ==> s[k] != '%'
    ensures TypeCharFrom(s, j) == Ok(s[i + 1])
    decreases i - j
  {
    if j < i {
      TypeCharFromAt(s, j + 1, i);
    }
  }

  /** Compiling a literal piece without `%` in front of compiled pieces. */
  lemma CompileLiteralThen(lang: Lang, v: string, rest: seq<Option<string>>, k: nat, c: Compiled)
    requires '%' !in v && CompileFrom(lang, rest, k) == Ok(c)
    ensures CompileFrom(lang, [Some(v)] + rest, k) == Ok(Compiled(c.params, v + c.body))
  {
    var ps := [Some(v)] + rest;
    assert ps[1..] == rest;
    CompileHead(lang, ps, k);
    assert [] + c.params == c.params;
    assert v == "" ==> v + c.body == c.body;
  }

  /** Compiling a placeholder piece in front of compiled pieces. */
  lemma CompilePlaceholderThen(lang: Lang, g: string, rest: seq<Option<string>>, k: nat,
                               ph: (Param, string), c: Compiled)
    requires '%' in g && Placeholder(lang, g, k) == Ok(ph) && CompileFrom(lang, rest, k + 1) == Ok(c)
    ensures CompileFrom(lang, [Some(g)] + rest, k) == Ok(Compiled([ph.0] + c.params, ph.1 + c.body))
  {
    var ps := [Some(g)] + rest;
    assert ps[1..] == rest;
    CompileHead(lang, ps, k);
  }

  /** A group that did not take part is skipped. */
  lemma CompileSkipNone(lang: Lang, rest: seq<Option<string>>, k: nat)
    ensures CompileFrom(lang, [None] + rest, k) == CompileFrom(lang, rest, k)
  {
    var ps := [None] + rest;
    assert ps[1..] == rest;
  }

  /** Compiling pre, the groups of one placeholder g, and post. */
  lemma CompileOne(lang: Lang, pre: string, groups: seq<Option<string>>, g: string, post: string,
                   ph: (Param, string))
    requires '%' !in pre && '%' !in post && '%' in g
    requires groups == [None, Some(g)] || groups == [Some(g), None]
    requires Placeholder(lang, g, 1) == Ok(ph)
    ensures CompileFrom(lang, [Some(pre)] + groups + [Some(post)], 1)
      == Ok(Compiled([ph.0], pre + ph.1 + post))
  {
    var tail := [Some(post)];
    CompileLiteralThen(lang, post, [], 2, Compiled([], ""));
    assert tail + [] == tail && post + "" == post;
    if groups == [None, Some(g)] {
      CompilePlaceholderThen(lang, g, tail, 1, ph, Compiled([], post));
      CompileSkipNone(lang, [Some(g)] + tail, 1);
      assert groups + tail == [None] + ([Some(g)] + tail);
    } else {
      CompileSkipNone(lang, tail, 2);
      CompilePlaceholderThen(lang, g, [None] + tail, 1, ph, Compiled([], post));
      assert groups + tail == [Some(g)] + ([None] + tail);
    }
    CompileLiteralThen(lang, pre, groups + tail, 1, Compiled([ph.0] + [], ph.1 + post));
    assert [Some(pre)] + groups + tail == [Some(pre)] + (groups + tail);
    assert [ph.0] + [] == [ph.0];
    assert pre + (ph.1 + post) == pre + ph.1 + post;
  }
}
