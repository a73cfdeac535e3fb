/** What the two target languages supply to the generator. The Python code has
    one `CodeClass` subclass per language overriding these primitives; here the
    language is a parameter. */
module Target {
  import opened Strings

  datatype Lang = Kotlin | Swift

  /** `language`: the name written into the generated file's header comment. */
  function LanguageName(lang: Lang): string
  {
    match lang
    case Kotlin => "Kotlin"
    case Swift => "Swift"
  }

  /** `constKeyword`. */
  function ConstKeyword(lang: Lang): string
  {
    match lang
    case Kotlin => "const val"
    case Swift => "static let"
  }

  /** `indentationCharacter`: one level of indentation, four spaces in both languages. */
  const IndentUnit: string := "    "

  /** The indentation of a line at the given nesting level. */
  function Indent(level: nat): string
  {
    Repeat(IndentUnit, level)
  }

  /** `CodeClass.indentation(level)`: the unit appended `level` times. */
  method Indentation(level: nat) returns (ident: string)
    ensures ident == Indent(level)
  {
    ident := "";
    for i := 0 to level
      invariant ident == Indent(i)
    {
      ident := ident + IndentUnit;
    }
  }

  /** `for line in xs: writeLine(line, level)`: appends each line of xs, in
      order, after the indentation of the level. */
  method WriteLines(lines: seq<string>, xs: seq<string>, level: nat) returns (r: seq<string>)
    ensures r == lines + Prefixed(Indent(level), xs)
  {
    r := lines;
    for n := 0 to |xs|
      invariant r == lines + Prefixed(Indent(level), xs[..n])
    {
      var ident := Indentation(level);
      PrefixedSnoc(Indent(level), xs[..n], xs[n]);
      TakeSnoc(xs, n);
      r := r + [ident + xs[n]];
    }
    assert xs[..|xs|] == xs;
  }

  /** `for line in ys: xs.append(line)`. */
  method AppendLines(xs: seq<string>, ys: seq<string>) returns (r: seq<string>)
    ensures r == xs + ys
  {
    r := xs;
    for k := 0 to |ys|
      invariant r == xs + ys[..k]
    {
      TakeSnoc(ys, k);
      r := r + [ys[k]];
    }
    assert ys[..|ys|] == ys;
  }

  /** `for line in lines: text += line + "\n"`, from an empty text. */
  method WriteText(lines: seq<string>) returns (text: string)
    ensures text == Unlines(lines)
  {
    text := "";
    for k := 0 to |lines|
      invariant text == Unlines(lines[..k])
    {
      UnlinesSnoc(lines[..k], lines[k]);
      TakeSnoc(lines, k);
      text := text + (lines[k] + "\n");
    }
    assert lines[..|lines|] == lines;
  }

  /** An indentation is `level` units of four spaces and nothing else. */
  lemma {:induction false} IndentShape(level: nat)
    ensures |Indent(level)| == 4 * level
    ensures forall k :: 0 <= k < |Indent(level)| ==> Indent(level)[k] == ' '
  {
    if level > 0 {
      IndentShape(level - 1);
    }
  }

  /** Indenting an indented line adds the two levels. */
  lemma IndentAdd(a: nat, b: nat)
    ensures Indent(a) + Indent(b) == Indent(a + b)
  {
    RepeatAdd(IndentUnit, a, b);
  }

  /** `createStringInterpolatedValue`: embedding an expression in a string literal. */
  function Interp(lang: Lang, value: string): string
  {
    match lang
    case Kotlin => "${" + value + "}"
    case Swift => "\\(" + value + ")"
  }

  /** An interpolation holds the expression unchanged between a two-character
      opener and a one-character closer, both fixed by the language. */
  lemma InterpShape(lang: Lang, value: string)
    ensures var r := Interp(lang, value);
      |r| == |value| + 3 && r[2..|r| - 1] == value &&
      r[..2] + r[|r| - 1..] == (if lang == Kotlin then "${}" else "\\()")
  {
  }

  /** The embedded expression can be read back from its interpolation. */
  lemma InterpInjective(lang: Lang, a: string, b: string)
    requires Interp(lang, a) == Interp(lang, b)
    ensures a == b
  {
    var r := Interp(lang, a);
    assert r[2..|r| - 1] == a;
    assert Interp(lang, b)[2..|r| - 1] == b;
  }

  /** `createClassDefinition`: the opening of a class at the given level. The
      Swift one holds two more physical lines (a private initialiser), indented
      one level deeper than the class's own level. */
  function ClassHeader(lang: Lang, name: string, level: nat): string
  {
    match lang
    case Kotlin => "object " + name + " {"
    case Swift => "struct " + name + " {\n" + Indent(level + 1) + "private init() {}\n"
  }

  /** A Kotlin opening is `object <name> {` and nothing more; a Swift one
      opens `struct <name> {` and ends with the private initialiser one level
      deeper, on a line of its own. */
  lemma ClassHeaderShape(lang: Lang, name: string, level: nat)
    ensures var r := ClassHeader(lang, name, level);
      StartsWith(r, (if lang == Kotlin then "object " else "struct ") + name + " {") &&
      (lang == Kotlin ==> |r| == |name| + 9) &&
      (lang == Swift ==> EndsWith(r, "{\n" + Indent(level + 1) + "private init() {}\n"))
  {
  }

  /** The class name can be read back from a class's opening. */
  lemma ClassHeaderInjective(lang: Lang, a: string, b: string, level: nat)
    requires ClassHeader(lang, a, level) == ClassHeader(lang, b, level)
    ensures a == b
  {
    var r := ClassHeader(lang, a, level);
    assert |a| == |b| by {
      if lang == Swift {
        var tail := "{\n" + Indent(level + 1) + "private init() {}\n";
        assert |r| == 7 + |a| + 1 + |tail|;
        assert |ClassHeader(lang, b, level)| == 7 + |b| + 1 + |tail|;
      }
    }
    assert r[7..7 + |a|] == a;
    assert ClassHeader(lang, b, level)[7..7 + |b|] == b;
  }

  /** `"%s %s = %s" % (constKeyword, key, literal)`: a constant declaration. */
  function ConstLine(lang: Lang, key: string, literal: string): string
  {
    ConstKeyword(lang) + " " + key + " = " + literal
  }

  /** A string constant's literal: the value between double quotes, unescaped. */
  function Quoted(value: string): string
  {
    "\"" + value + "\""
  }

  /** A blank line written at a level is the level's indentation. */
  lemma BlankLine(level: nat)
    ensures Prefixed(Indent(level), [""]) == [Indent(level)]
  {
    PrefixedOne(Indent(level), "");
    assert Indent(level) + "" == Indent(level);
  }
}
