/** The first generator (`kotlinswift_const_creator.py`): a JSON object
    `{"className": ..., "classProperties": {...}}` becomes one Kotlin `object`
    or Swift `struct` holding a constant per plain property, a method per
    property whose string holds `%`, and a nested type per property whose value
    is anything else. */
module KotlinSwiftConstCreator {
  import opened Strings
  import opened PyErrors
  import opened Json
  import opened Target
  import opened FormatString

  // ---------------------------------------------------------------------------
  // The parsed class, as a value
  // ---------------------------------------------------------------------------

  /** What a `CodeClass` holds once parsed: its name, its nesting level, the
      constant lines, the method lines and the nested classes, in order. */
  datatype ClassDecl = ClassDecl(
    name: string,
    level: nat,
    attributes: seq<string>,
    methods: seq<string>,
    inners: seq<ClassDecl>)

  /** A freshly constructed `CodeClass` at the given level. */
  function Unparsed(level: nat): ClassDecl
  {
    ClassDecl("Unknown", level, [], [], [])
  }

  /** The Kotlin or Swift method that `createMethodDefinition` writes for the
      parts it computed. */
  function MethodLine(lang: Lang, parts: MethodParts): string
  {
    match lang
    case Kotlin =>
      "fun " + parts.name + "(" + parts.arguments + "): String { return \"" + parts.returnValue + "\" }"
    case Swift =>
      "static func " + parts.name + "(" + parts.arguments + ") -> String { return \"" + parts.returnValue + "\" }"
  }

  /** A method line declares the method with its argument list and returns the
      compiled text between double quotes. */
  lemma MethodLineShape(lang: Lang, parts: MethodParts)
    ensures var r := MethodLine(lang, parts);
      StartsWith(r, (if lang == Kotlin then "fun " else "static func ") + parts.name + "(" + parts.arguments + ")") &&
      EndsWith(r, "{ return \"" + parts.returnValue + "\" }")
  {
    var tail := "{ return \"" + parts.returnValue + "\" }";
    var pre := (if lang == Kotlin then "fun " else "static func ") + parts.name + "(" + parts.arguments
      + (if lang == Kotlin then "): String " else ") -> String ");
    assert MethodLine(lang, parts) == pre + tail;
  }

  /** A method line is one physical line when its parts hold no newline. */
  lemma MethodLineOneLine(lang: Lang, parts: MethodParts)
    requires '\n' !in parts.name + parts.arguments + parts.returnValue
    ensures '\n' !in MethodLine(lang, parts)
  {
  }

  /** `KotlinClass.createMethodDefinition` / `SwiftClass.createMethodDefinition`. */
  function MethodDefinition(lang: Lang, name: string, template: string): Result<string>
  {
    var parts :- MethodDefinitionParts(lang, name, template);
    Ok(MethodLine(lang, parts))
  }

  /** A property value that becomes a constant line: a string without `%`, a
      float, an int or a bool. */
  predicate IsConstant(v: Json)
  {
    (v.JStr? && '%' !in v.s) || v.JFloat? || v.JInt? || v.JBool?
  }

  /** The literal of a constant: a quoted string, `%.2f` of a float, `%d` of an
      int or a bool. */
  function Literal(v: Json): string
    requires IsConstant(v)
  {
    if v.JStr? then Quoted(v.s) else if v.JFloat? then Fixed2(v.x) else PercentD(v)
  }

  /** `parseClassObject` on a class whose state is d: the class name and the
      properties are looked up, each property adds a member, and the name
      becomes the value of "className". */
  function ParseClass(lang: Lang, j: Json, d: ClassDecl): Result<ClassDecl>
    decreases j, 0
  {
    if !j.JObj? then Err(TypeError)
    else
      match FindKey(j.fields, "className")
      case None => Err(KeyError("className"))
      case Some(ni) =>
        match FindKey(j.fields, "classProperties")
        case None => Err(KeyError("classProperties"))
        case Some(pi) =>
          var props := j.fields[pi].1;
          assert props < j by { assert j.fields[pi] in j.fields; }
          var body :-
            if props.JObj? then ParseEntries(lang, props, |props.fields|, d)
            else if EmptyIterable(props) then Ok(d)
            else Err(TypeError);
          var name :- PyStr(j.fields[ni].1);
          Ok(body.(name := name))
  }

  /** The state after the first i properties of `owner` were added to d, in
      order; the first property that fails ends the parse. */
  function ParseEntries(lang: Lang, owner: Json, i: nat, d: ClassDecl): Result<ClassDecl>
    requires owner.JObj? && i <= |owner.fields|
    decreases owner, i
  {
    if i == 0 then Ok(d)
    else
      var acc :- ParseEntries(lang, owner, i - 1, d);
      assert owner.fields[i - 1].1 < owner by { assert owner.fields[i - 1] in owner.fields; }
      AddProperty(lang, owner.fields[i - 1].0, owner.fields[i - 1].1, acc)
  }

  /** One iteration of the `for key in properties` loop: a string holding `%`
      adds a method, a constant adds a constant line, and any other value is
      parsed as a nested class one level deeper. */
  function AddProperty(lang: Lang, key: string, value: Json, acc: ClassDecl): Result<ClassDecl>
    decreases value, 1
  {
    if value.JStr? && '%' in value.s then
      var m :- MethodDefinition(lang, key, value.s);
      Ok(acc.(methods := acc.methods + [m]))
    else if IsConstant(value) then
      Ok(acc.(attributes := acc.attributes + [ConstLine(lang, key, Literal(value))]))
    else
      var inner :- ParseClass(lang, value, Unparsed(acc.level + 1));
      Ok(acc.(inners := acc.inners + [inner]))
  }

  /** Once a property fails, the parse of the remaining ones fails with it. */
  lemma {:induction false} ParseEntriesStops(lang: Lang, owner: Json, i: nat, n: nat, d: ClassDecl)
    requires owner.JObj? && i <= n <= |owner.fields| && ParseEntries(lang, owner, i, d).Err?
    ensures ParseEntries(lang, owner, n, d) == ParseEntries(lang, owner, i, d)
    decreases n - i
  {
    if i < n {
      ParseEntriesStops(lang, owner, i, n - 1, d);
    }
  }

  // ---------------------------------------------------------------------------
  // The generated lines, as a value
  // ---------------------------------------------------------------------------

  /** `generateClassDefinitionLines`: the header at the class's level, the
      constants one level deeper, a blank line and the methods if there are
      methods, two blank lines and the nested classes' lines (each put at this
      class's level once more) if there are nested classes, and the closing
      brace. */
  function ClassLines(lang: Lang, d: ClassDecl): seq<string>
    decreases d, |d.inners| + 1
  {
    var l := d.level;
    ClassHead(lang, d) + InnerLines(lang, d, |d.inners|) + [Indent(l) + "}"]
  }

  /** The lines before the nested classes: the header, the constants, the
      methods and the blank lines that separate them. */
  function ClassHead(lang: Lang, d: ClassDecl): seq<string>
  {
    var l := d.level;
    [Indent(l) + ClassHeader(lang, d.name, l)]
    + Prefixed(Indent(l + 1), d.attributes)
    + MethodGap(d)
    + Prefixed(Indent(l + 1), d.methods)
    + InnerGap(d)
  }

  /** The blank line before the methods, if there are methods. */
  function MethodGap(d: ClassDecl): seq<string>
  {
    if |d.methods| > 0 then [Indent(d.level)] else []
  }

  /** The two blank lines before the nested classes, if there are any. */
  function InnerGap(d: ClassDecl): seq<string>
  {
    if |d.inners| > 0 then [Indent(d.level), Indent(d.level)] else []
  }

  /** The lines of the first k nested classes, each at d's level once more. */
  function InnerLines(lang: Lang, d: ClassDecl, k: nat): seq<string>
    requires k <= |d.inners|
    decreases d, k
  {
    if k == 0 then []
    else InnerLines(lang, d, k - 1) + Prefixed(Indent(d.level), ClassLines(lang, d.inners[k - 1]))
  }

  /** Appending the next nested class's lines, put at d's level once more. */
  lemma InnerLinesStep(lang: Lang, d: ClassDecl, k: nat, head: seq<string>, lines: seq<string>,
                       inner: seq<string>, level: nat, next: seq<string>)
    requires k < |d.inners| && level == d.level
    requires lines == head + InnerLines(lang, d, k)
    requires inner == ClassLines(lang, d.inners[k])
    requires next == lines + Prefixed(Indent(level), inner)
    ensures next == head + InnerLines(lang, d, k + 1)
  {
    AppendAssoc(head, InnerLines(lang, d, k), Prefixed(Indent(d.level), inner));
  }

  /** The lines `generateClassDefinitionLines` writes before the nested
      classes, section after section, are the class's head. */
  lemma ClassHeadWritten(lang: Lang, d: ClassDecl, header: seq<string>, attributes: seq<string>,
                         gap: seq<string>, methods: seq<string>, gaps: seq<string>)
    requires header == [] + Prefixed(Indent(d.level), [ClassHeader(lang, d.name, d.level)])
    requires attributes == header + Prefixed(Indent(d.level + 1), d.attributes)
    requires gap == attributes + MethodGap(d)
    requires methods == gap + Prefixed(Indent(d.level + 1), d.methods)
    requires gaps == methods + InnerGap(d)
    ensures gaps == ClassHead(lang, d)
  {
    PrefixedOne(Indent(d.level), ClassHeader(lang, d.name, d.level));
    assert header == [Indent(d.level) + ClassHeader(lang, d.name, d.level)];
  }

  /** The header comment of a generated file. */
  function FileHeader(lang: Lang): string
  {
    "// " + LanguageName(lang) + " file generated by const_creator python script\n"
  }

  /** `generateStringFromCodeClass`: the header and the class's lines, each
      followed by a newline. */
  function FileText(lang: Lang, d: ClassDecl): string
  {
    Unlines([FileHeader(lang)] + ClassLines(lang, d))
  }

  /** `convertToSwiftFile` / `convertToKotlinFile` on an already-parsed JSON value. */
  function ConvertedFile(lang: Lang, j: Json): Result<string>
  {
    var d :- ParseClass(lang, j, Unparsed(0));
    Ok(FileText(lang, d))
  }

  // ---------------------------------------------------------------------------
  // The class
  // ---------------------------------------------------------------------------

  /** `CodeClass` with its `KotlinClass` / `SwiftClass` subclass chosen by `lang`. */
  class CodeClass {
    const lang: Lang
    var name: string
    var indentationLevel: nat
    var attributeLines: seq<string>
    var methodProperties: seq<string>
    var innerClasses: seq<CodeClass>

    /** The value this class and its nested classes hold. */
    ghost var Decl: ClassDecl
    ghost var Repr: set<object>

    ghost predicate Valid()
      reads this, Repr
      decreases Repr
    {
      this in Repr &&
      Decl.name == name && Decl.level == indentationLevel &&
      Decl.attributes == attributeLines && Decl.methods == methodProperties &&
      |Decl.inners| == |innerClasses| &&
      forall i :: 0 <= i < |innerClasses| ==>
        var c := innerClasses[i];
        c in Repr && c.Repr <= Repr && this !in c.Repr &&
        c.lang == lang && c.Decl == Decl.inners[i] && c.Valid()
    }

    constructor (lang: Lang)
      ensures Valid() && fresh(Repr)
      ensures this.lang == lang && Decl == Unparsed(0)
    {
      this.lang := lang;
      name := "Unknown";
      indentationLevel := 0;
      attributeLines := [];
      methodProperties := [];
      innerClasses := [];
      Decl := Unparsed(0);
      Repr := {this};
    }

    /** `parseClassObject(jsonObject)`: returns the exception it raises, if any. */
    method ParseClassObject(j: Json) returns (raised: Option<Error>)
      requires Valid()
      modifies this
      decreases j, 0
      ensures Valid() && fresh(Repr - old(Repr))
      ensures raised == Raised(ParseClass(lang, j, old(Decl)))
      ensures raised.None? ==> Decl == ParseClass(lang, j, old(Decl)).value
    {
      if !j.JObj? {
        return Some(TypeError);
      }
      var ni := FindKey(j.fields, "className");
      if ni.None? {
        return Some(KeyError("className"));
      }
      var pi := FindKey(j.fields, "classProperties");
      if pi.None? {
        return Some(KeyError("classProperties"));
      }
      var properties := j.fields[pi.value].1;
      assert properties < j by { assert j.fields[pi.value] in j.fields; }
      if !properties.JObj? {
        if !EmptyIterable(properties) {
          return Some(TypeError);
        }
      } else {
        for i := 0 to |properties.fields|
          invariant Valid() && fresh(Repr - old(Repr))
          invariant ParseEntries(lang, properties, i, old(Decl)) == Ok(Decl)
        {
          var key := properties.fields[i].0;
          var value := properties.fields[i].1;
          assert value < properties by { assert properties.fields[i] in properties.fields; }
          ghost var before := Decl;
          raised := ParseProperty(key, value);
          assert ParseEntries(lang, properties, i + 1, old(Decl)) == AddProperty(lang, key, value, before);
          if raised.Some? {
            ParseEntriesStops(lang, properties, i + 1, |properties.fields|, old(Decl));
            return;
          }
        }
      }
      var className := PyStr(j.fields[ni.value].1);
      if className.Err? {
        return Some(className.error);
      }
      SetName(className.value);
      return None;
    }

    /** The body of the `for key in properties` loop for one property. */
    method ParseProperty(key: string, value: Json) returns (raised: Option<Error>)
      requires Valid()
      modifies this
      decreases value, 1
      ensures Valid() && fresh(Repr - old(Repr))
      ensures raised == Raised(AddProperty(lang, key, value, old(Decl)))
      ensures raised.None? ==> Decl == AddProperty(lang, key, value, old(Decl)).value
    {
      if value.JStr? && '%' in value.s {
        var parts := CreateMethodDefinition(lang, key, value.s);
        if parts.Err? {
          return Some(parts.error);
        }
        AppendMethod(MethodLine(lang, parts.value));
      } else if value.JStr? {
        AppendAttribute(ConstLine(lang, key, Quoted(value.s)));
      } else if value.JFloat? {
        AppendAttribute(ConstLine(lang, key, Fixed2(value.x)));
      } else if value.JInt? || value.JBool? {
        AppendAttribute(ConstLine(lang, key, PercentD(value)));
      } else {
        var innerClass := new CodeClass(lang);
        innerClass.indentationLevel := indentationLevel + 1;
        innerClass.Decl := Unparsed(indentationLevel + 1);
        var innerRaised := innerClass.ParseClassObject(value);
        if innerRaised.Some? {
          return innerRaised;
        }
        AppendInnerClass(innerClass);
      }
      return None;
    }

    /** `self.methodProperties.append(method)`. */
    method AppendMethod(m: string)
      requires Valid()
      modifies this
      ensures Valid() && Repr == old(Repr)
      ensures Decl == old(Decl).(methods := old(Decl).methods + [m])
    {
      methodProperties := methodProperties + [m];
      Decl := Decl.(methods := methodProperties);
    }

    /** `self.attributeLines.append(line)`. */
    method AppendAttribute(line: string)
      requires Valid()
      modifies this
      ensures Valid() && Repr == old(Repr)
      ensures Decl == old(Decl).(attributes := old(Decl).attributes + [line])
    {
      attributeLines := attributeLines + [line];
      Decl := Decl.(attributes := attributeLines);
    }

    /** `self.innerClasses.append(innerClass)`, for a class parsed on its own. */
    method AppendInnerClass(c: CodeClass)
      requires Valid() && c.Valid() && c.lang == lang && Repr !! c.Repr
      modifies this
      ensures Valid() && Repr == old(Repr) + c.Repr
      ensures Decl == old(Decl).(inners := old(Decl).inners + [c.Decl])
    {
      innerClasses := innerClasses + [c];
      Decl := Decl.(inners := Decl.inners + [c.Decl]);
      Repr := Repr + c.Repr;
    }

    /** `self.name = ...`, with the name already turned into text. */
    method SetName(n: string)
      requires Valid()
      modifies this
      ensures Valid() && Repr == old(Repr)
      ensures Decl == old(Decl).(name := n)
    {
      name := n;
      Decl := Decl.(name := n);
    }

    /** A nested class is valid, holds its part of the value and lies strictly
        inside this class's representation. */
    lemma InnerValid(k: nat)
      requires Valid() && k < |innerClasses|
      ensures innerClasses[k].Valid() && innerClasses[k].lang == lang
      ensures innerClasses[k].Decl == Decl.inners[k]
      ensures innerClasses[k].Repr < Repr
    {
    }

    /** `generateClassDefinitionLines()`. Its local `writeLine(line, level)`
        appends one line at an indentation level; each `for` loop over a list
        of lines is `WriteLines`. */
    method GenerateClassDefinitionLines() returns (lines: seq<string>)
      requires Valid()
      decreases Repr, 2
      ensures lines == ClassLines(lang, Decl)
    {
      lines := WriteClassHead();
      lines := WriteInnerClassLines(lines);
      lines := WriteLines(lines, ["}"], indentationLevel);
      PrefixedOne(Indent(indentationLevel), "}");
    }

    /** The part of `generateClassDefinitionLines` before the nested classes. */
    method WriteClassHead() returns (lines: seq<string>)
      requires Valid()
      ensures lines == ClassHead(lang, Decl)
    {
      var l := indentationLevel;
      lines := WriteLines([], [ClassHeader(lang, name, l)], l);
      ghost var header := lines;
      lines := WriteLines(lines, attributeLines, l + 1);
      ghost var attributes := lines;
      if |methodProperties| > 0 {
        lines := WriteLines(lines, [""], l);
        BlankLine(l);
      } else {
        assert lines == lines + [];
      }
      ghost var gap := lines;
      lines := WriteLines(lines, methodProperties, l + 1);
      ghost var methods := lines;
      if |innerClasses| > 0 {
        lines := WriteLines(lines, [""], l);
        lines := WriteLines(lines, [""], l);
        BlankLine(l);
        assert lines == methods + [Indent(l), Indent(l)];
      } else {
        assert lines == lines + [];
      }
      ClassHeadWritten(lang, Decl, header, attributes, gap, methods, lines);
    }

    /** The `for innerClass in self.innerClasses` loop of
        `generateClassDefinitionLines`: each nested class's lines, each put at
        this class's level once more. */
    method WriteInnerClassLines(lines: seq<string>) returns (r: seq<string>)
      requires Valid()
      decreases Repr, 0
      ensures r == lines + InnerLines(lang, Decl, |Decl.inners|)
    {
      ghost var d := Decl;
      var l := indentationLevel;
      var inners := innerClasses;
      r := lines;
      for k := 0 to |inners|
        invariant r == lines + InnerLines(lang, d, k)
      {
        InnerValid(k);
        var innerClassLines := inners[k].GenerateClassDefinitionLines();
        var next := WriteLines(r, innerClassLines, l);
        InnerLinesStep(lang, d, k, lines, r, innerClassLines, l, next);
        r := next;
      }
    }
  }

  /** `generateStringFromCodeClass(codeClass)`. */
  method GenerateStringFromCodeClass(codeClass: CodeClass) returns (classFile: string)
    requires codeClass.Valid()
    ensures classFile == FileText(codeClass.lang, codeClass.Decl)
  {
    var fileLines := [FileHeader(codeClass.lang)];
    var lines := codeClass.GenerateClassDefinitionLines();
    fileLines := AppendLines(fileLines, lines);
    classFile := WriteText(fileLines);
  }

  /** `convertToSwiftFile` (lang Swift) and `convertToKotlinFile` (lang Kotlin),
      given the value `json.loads` returned. */
  method ConvertToFile(lang: Lang, templateFileObject: Json) returns (r: Result<string>)
    ensures r == ConvertedFile(lang, templateFileObject)
  {
    var codeClass := new CodeClass(lang);
    var raised := codeClass.ParseClassObject(templateFileObject);
    if raised.Some? {
      return Err(raised.value);
    }
    var text := GenerateStringFromCodeClass(codeClass);
    return Ok(text);
  }

  // ---------------------------------------------------------------------------
  // Properties of the parse
  // ---------------------------------------------------------------------------

  /** Every nested class sits exactly one level below the class holding it, all
      the way down. */
  ghost predicate WellNested(d: ClassDecl)
    decreases d
  {
    forall k :: 0 <= k < |d.inners| ==>
      d.inners[k].level == d.level + 1 && WellNested(d.inners[k])
  }

  lemma WellNestedSnoc(acc: ClassDecl, e: ClassDecl)
    requires WellNested(acc) && WellNested(e) && e.level == acc.level + 1
    ensures WellNested(acc.(inners := acc.inners + [e]))
  {
    var r := acc.(inners := acc.inners + [e]);
    forall k | 0 <= k < |r.inners|
      ensures r.inners[k].level == r.level + 1 && WellNested(r.inners[k])
    {
      if k < |acc.inners| {
        assert r.inners[k] == acc.inners[k];
      }
    }
  }

  /** A parsed class keeps the level it was created at, and every class nested
      in it, at any depth, is one level below its parent. */
  lemma {:induction false} ParseClassNested(lang: Lang, j: Json, d: ClassDecl)
    requires WellNested(d) && ParseClass(lang, j, d).Ok?
    ensures ParseClass(lang, j, d).value.level == d.level
    ensures WellNested(ParseClass(lang, j, d).value)
    decreases j, 0
  {
    var pi := FindKey(j.fields, "classProperties").value;
    var props := j.fields[pi].1;
    assert props < j by { assert j.fields[pi] in j.fields; }
    if props.JObj? {
      ParseEntriesNested(lang, props, |props.fields|, d);
    }
  }

  lemma {:induction false} ParseEntriesNested(lang: Lang, owner: Json, i: nat, d: ClassDecl)
    requires owner.JObj? && i <= |owner.fields|
    requires WellNested(d) && ParseEntries(lang, owner, i, d).Ok?
    ensures ParseEntries(lang, owner, i, d).value.level == d.level
    ensures WellNested(ParseEntries(lang, owner, i, d).value)
    decreases owner, i
  {
    if i > 0 {
      ParseEntriesNested(lang, owner, i - 1, d);
      var acc := ParseEntries(lang, owner, i - 1, d).value;
      var value := owner.fields[i - 1].1;
      assert value < owner by { assert owner.fields[i - 1] in owner.fields; }
      AddPropertyNested(lang, owner.fields[i - 1].0, value, acc);
    }
  }

  lemma {:induction false} AddPropertyNested(lang: Lang, key: string, value: Json, acc: ClassDecl)
    requires WellNested(acc) && AddProperty(lang, key, value, acc).Ok?
    ensures AddProperty(lang, key, value, acc).value.level == acc.level
    ensures WellNested(AddProperty(lang, key, value, acc).value)
    decreases value, 1
  {
    if !(value.JStr? && '%' in value.s) && !IsConstant(value) {
      ParseClassNested(lang, value, Unparsed(acc.level + 1));
      WellNestedSnoc(acc, ParseClass(lang, value, Unparsed(acc.level + 1)).value);
    }
  }

  /** The number of members a class holds. */
  function Members(d: ClassDecl): nat
  {
    |d.attributes| + |d.methods| + |d.inners|
  }

  /** Every property parsed adds exactly one member: none is dropped and none
      is counted twice. */
  lemma {:induction false} OneMemberPerEntry(lang: Lang, owner: Json, i: nat, d: ClassDecl)
    requires owner.JObj? && i <= |owner.fields| && ParseEntries(lang, owner, i, d).Ok?
    ensures Members(ParseEntries(lang, owner, i, d).value) == Members(d) + i
  {
    if i > 0 {
      OneMemberPerEntry(lang, owner, i - 1, d);
      var acc := ParseEntries(lang, owner, i - 1, d).value;
      AddPropertyMembers(lang, owner.fields[i - 1].0, owner.fields[i - 1].1, acc, ParseEntries(lang, owner, i, d).value);
    }
  }

  lemma AddPropertyMembers(lang: Lang, key: string, value: Json, acc: ClassDecl, r: ClassDecl)
    requires AddProperty(lang, key, value, acc) == Ok(r)
    ensures Members(r) == Members(acc) + 1
  {
  }

  /** The constant lines of the constant properties among `fields`, in order. */
  function ConstantLines(lang: Lang, fields: seq<(string, Json)>): seq<string>
  {
    if fields == [] then []
    else
      var (k, v) := fields[|fields| - 1];
      ConstantLines(lang, fields[..|fields| - 1])
      + (if IsConstant(v) then [ConstLine(lang, k, Literal(v))] else [])
  }

  /** The methods written for the properties among `fields` whose string holds
      `%`, in order (a template that fails ends the parse, so none is left
      out of a successful one). */
  function MethodLines(lang: Lang, fields: seq<(string, Json)>): seq<string>
  {
    if fields == [] then []
    else
      var (k, v) := fields[|fields| - 1];
      var m := if v.JStr? && '%' in v.s then MethodDefinition(lang, k, v.s) else Err(TypeError);
      MethodLines(lang, fields[..|fields| - 1]) + (if m.Ok? then [m.value] else [])
  }

  /** A property value the loop parses as a nested class: neither a template
      nor a constant. */
  predicate IsNested(v: Json)
  {
    !(v.JStr? && '%' in v.s) && !IsConstant(v)
  }

  /** The classes parsed, at the given level, from the values among `fields`
      that are parsed as nested classes, in order (a nested value that fails
      ends the parse, so none is left out of a successful one). */
  function NestedParses(lang: Lang, fields: seq<(string, Json)>, level: nat): seq<ClassDecl>
  {
    if fields == [] then []
    else
      var v := fields[|fields| - 1].1;
      var p := if IsNested(v) then ParseClass(lang, v, Unparsed(level)) else Err(TypeError);
      NestedParses(lang, fields[..|fields| - 1], level) + (if p.Ok? then [p.value] else [])
  }

  /** The parse of the properties `fields` took d to r: the name and the level
      are kept, the constants' lines and the methods follow the order of the
      properties, and the nested classes are the nested values, each parsed
      one level below d, after d's own. */
  predicate InOrder(lang: Lang, fields: seq<(string, Json)>, d: ClassDecl, r: ClassDecl)
  {
    r.name == d.name && r.level == d.level &&
    r.attributes == d.attributes + ConstantLines(lang, fields) &&
    r.methods == d.methods + MethodLines(lang, fields) &&
    r.inners == d.inners + NestedParses(lang, fields, d.level + 1)
  }

  /** What adding one property does to each kind of member: a nested value
      adds the class parsed from it one level below. */
  lemma AddPropertyShape(lang: Lang, key: string, value: Json, acc: ClassDecl, r: ClassDecl)
    requires AddProperty(lang, key, value, acc) == Ok(r)
    ensures r.name == acc.name && r.level == acc.level
    ensures r.attributes == acc.attributes + ConstantLines(lang, [(key, value)])
    ensures r.methods == acc.methods + MethodLines(lang, [(key, value)])
    ensures r.inners == acc.inners + NestedParses(lang, [(key, value)], acc.level + 1)
  {
  }

  lemma InOrderStep(lang: Lang, fields: seq<(string, Json)>, d: ClassDecl, acc: ClassDecl, r: ClassDecl)
    requires fields != [] && InOrder(lang, fields[..|fields| - 1], d, acc)
    requires r.name == acc.name && r.level == acc.level
    requires r.attributes == acc.attributes + ConstantLines(lang, [fields[|fields| - 1]])
    requires r.methods == acc.methods + MethodLines(lang, [fields[|fields| - 1]])
    requires r.inners == acc.inners + NestedParses(lang, [fields[|fields| - 1]], acc.level + 1)
    ensures InOrder(lang, fields, d, r)
  {
    var init, last := fields[..|fields| - 1], [fields[|fields| - 1]];
    ConstantLinesSnoc(lang, fields);
    ExtendBy(d.attributes, ConstantLines(lang, init), ConstantLines(lang, last), acc.attributes, r.attributes);
    MethodLinesSnoc(lang, fields);
    ExtendBy(d.methods, MethodLines(lang, init), MethodLines(lang, last), acc.methods, r.methods);
    NestedParsesSnoc(lang, fields, d.level + 1);
    ExtendBy(d.inners, NestedParses(lang, init, d.level + 1), NestedParses(lang, last, d.level + 1), acc.inners, r.inners);
  }

  /** Appending the next part to what already extends d by the earlier parts
      extends d by all of them. */
  lemma ExtendBy<T>(d: seq<T>, earlier: seq<T>, next: seq<T>, acc: seq<T>, r: seq<T>)
    requires acc == d + earlier && r == acc + next
    ensures r == d + (earlier + next)
  {
    AppendAssoc(d, earlier, next);
  }

  lemma ConstantLinesSnoc(lang: Lang, fields: seq<(string, Json)>)
    requires fields != []
    ensures ConstantLines(lang, fields)
      == ConstantLines(lang, fields[..|fields| - 1]) + ConstantLines(lang, [fields[|fields| - 1]])
  {
  }

  lemma MethodLinesSnoc(lang: Lang, fields: seq<(string, Json)>)
    requires fields != []
    ensures MethodLines(lang, fields)
      == MethodLines(lang, fields[..|fields| - 1]) + MethodLines(lang, [fields[|fields| - 1]])
  {
  }

  lemma NestedParsesSnoc(lang: Lang, fields: seq<(string, Json)>, level: nat)
    requires fields != []
    ensures NestedParses(lang, fields, level)
      == NestedParses(lang, fields[..|fields| - 1], level) + NestedParses(lang, [fields[|fields| - 1]], level)
  {
  }

  /** Parsing the first i properties keeps the name and the level, appends
      the constants' lines and the methods in the order of the properties,
      and appends the nested values' classes, each parsed one level below. */
  lemma {:induction false} EntriesInOrder(lang: Lang, owner: Json, i: nat, d: ClassDecl)
    requires owner.JObj? && i <= |owner.fields| && ParseEntries(lang, owner, i, d).Ok?
    ensures InOrder(lang, owner.fields[..i], d, ParseEntries(lang, owner, i, d).value)
  {
    if i == 0 {
      assert owner.fields[..0] == [];
    } else {
      EntriesInOrder(lang, owner, i - 1, d);
      var acc := ParseEntries(lang, owner, i - 1, d).value;
      var r := ParseEntries(lang, owner, i, d).value;
      ParseEntriesLast(lang, owner, i, d, acc, r);
      PrefixLast(owner.fields, i);
      AddPropertyShape(lang, owner.fields[i - 1].0, owner.fields[i - 1].1, acc, r);
      InOrderStep(lang, owner.fields[..i], d, acc, r);
    }
  }

  /** The last of the first i properties is the one added last. */
  lemma ParseEntriesLast(lang: Lang, owner: Json, i: nat, d: ClassDecl, acc: ClassDecl, r: ClassDecl)
    requires owner.JObj? && 0 < i <= |owner.fields|
    requires ParseEntries(lang, owner, i - 1, d) == Ok(acc) && ParseEntries(lang, owner, i, d) == Ok(r)
    ensures AddProperty(lang, owner.fields[i - 1].0, owner.fields[i - 1].1, acc) == Ok(r)
  {
  }

  lemma PrefixLast<T>(xs: seq<T>, i: nat)
    requires 0 < i <= |xs|
    ensures xs[..i][..i - 1] == xs[..i - 1] && xs[..i][i - 1] == xs[i - 1]
  {
  }

  /** A property whose value is a list or null makes the whole parse fail, with
      a TypeError unless an earlier property already failed. */
  lemma ListOrNullEntryFails(lang: Lang, owner: Json, i: nat, n: nat, d: ClassDecl)
    requires owner.JObj? && i < n <= |owner.fields|
    requires owner.fields[i].1.JList? || owner.fields[i].1.JNull?
    ensures ParseEntries(lang, owner, n, d).Err?
    ensures ParseEntries(lang, owner, i, d).Ok? ==> ParseEntries(lang, owner, n, d) == Err(TypeError)
  {
    if ParseEntries(lang, owner, i, d).Err? {
      ParseEntriesStops(lang, owner, i, n, d);
    } else {
      var acc := ParseEntries(lang, owner, i, d).value;
      var (key, value) := owner.fields[i];
      assert ParseClass(lang, value, Unparsed(acc.level + 1)) == Err(TypeError);
      assert ParseEntries(lang, owner, i + 1, d) == AddProperty(lang, key, value, acc);
      ParseEntriesStops(lang, owner, i + 1, n, d);
    }
  }

  // ---------------------------------------------------------------------------
  // Properties of the generated lines
  // ---------------------------------------------------------------------------

  lemma {:induction false} InnerLinesStartWith(lang: Lang, d: ClassDecl, k: nat)
    requires k <= |d.inners|
    ensures AllStartWith(InnerLines(lang, d, k), Indent(d.level))
  {
    if k > 0 {
      InnerLinesStartWith(lang, d, k - 1);
      PrefixedStartWith(Indent(d.level), Indent(d.level), ClassLines(lang, d.inners[k - 1]));
      AllStartWithAppend(InnerLines(lang, d, k - 1),
        Prefixed(Indent(d.level), ClassLines(lang, d.inners[k - 1])), Indent(d.level));
    }
  }

  /** Every line of a class, its nested classes' lines included, starts with
      the indentation of the class's level. */
  lemma ClassLinesIndented(lang: Lang, d: ClassDecl)
    ensures AllStartWith(ClassLines(lang, d), Indent(d.level))
  {
    var l := d.level;
    var p := Indent(l);
    var head := [p + ClassHeader(lang, d.name, l)];
    var gap: seq<string> := if |d.methods| > 0 then [p] else [];
    var gaps: seq<string> := if |d.inners| > 0 then [p, p] else [];
    var close := [p + "}"];
    assert StartsWith(Indent(l + 1), p);
    assert StartsWith(head[0], p) && StartsWith(close[0], p) && StartsWith(p, p);
    PrefixedStartWith(p, Indent(l + 1), d.attributes);
    PrefixedStartWith(p, Indent(l + 1), d.methods);
    InnerLinesStartWith(lang, d, |d.inners|);
    var a := head + Prefixed(Indent(l + 1), d.attributes);
    AllStartWithAppend(head, Prefixed(Indent(l + 1), d.attributes), p);
    AllStartWithAppend(a, gap, p);
    AllStartWithAppend(a + gap, Prefixed(Indent(l + 1), d.methods), p);
    var b := a + gap + Prefixed(Indent(l + 1), d.methods);
    AllStartWithAppend(b, gaps, p);
    AllStartWithAppend(b + gaps, InnerLines(lang, d, |d.inners|), p);
    AllStartWithAppend(b + gaps + InnerLines(lang, d, |d.inners|), close, p);
  }

  lemma {:induction false} InnerLinesFirst(lang: Lang, d: ClassDecl, k: nat, first: seq<string>)
    requires 1 <= k <= |d.inners| && first == InnerLines(lang, d, 1)
    ensures |first| <= |InnerLines(lang, d, k)| && InnerLines(lang, d, k)[..|first|] == first
  {
    if k > 1 {
      InnerLinesFirst(lang, d, k - 1, first);
      PrefixOfPrefix(InnerLines(lang, d, k - 1), Prefixed(Indent(d.level), ClassLines(lang, d.inners[k - 1])), first);
    }
  }

  lemma PrefixOfPrefix(xs: seq<string>, ys: seq<string>, p: seq<string>)
    requires |p| <= |xs| && xs[..|p|] == p
    ensures |p| <= |xs + ys| && (xs + ys)[..|p|] == p
  {
    assert (xs + ys)[..|p|] == xs[..|p|];
  }

  /** A class's first line is its header at its own level. */
  lemma ClassLinesFirst(lang: Lang, d: ClassDecl)
    ensures ClassLines(lang, d)[0] == Indent(d.level) + ClassHeader(lang, d.name, d.level)
  {
  }

  /** The header of the first nested class is indented twice over: by its own
      level and once more by its parent's, so at 2l + 1 levels below a class at
      level l. */
  lemma InnerHeaderIndent(lang: Lang, d: ClassDecl)
    requires |d.inners| > 0 && d.inners[0].level == d.level + 1
    ensures var at := 1 + |d.attributes| + (if |d.methods| > 0 then 1 else 0) + |d.methods| + 2;
      at < |ClassLines(lang, d)| &&
      ClassLines(lang, d)[at] == Indent(2 * d.level + 1) + ClassHeader(lang, d.inners[0].name, d.level + 1)
  {
    var e := d.inners[0];
    FirstInnerLine(lang, d);
    ClassLinesFirst(lang, e);
    DoubleIndent(d.level, ClassHeader(lang, e.name, d.level + 1));
    LineAfter(lang, d);
    HeadLength(lang, d);
  }

  /** The first of the nested classes' lines is the first nested class's
      header, put at d's level once more. */
  lemma FirstInnerLine(lang: Lang, d: ClassDecl)
    requires |d.inners| > 0
    ensures InnerLines(lang, d, |d.inners|) != []
    ensures InnerLines(lang, d, |d.inners|)[0] == Indent(d.level) + ClassLines(lang, d.inners[0])[0]
  {
    var first := InnerLines(lang, d, 1);
    InnerLinesFirst(lang, d, |d.inners|, first);
    InnerLinesOne(lang, d, ClassLines(lang, d.inners[0])[0]);
  }

  lemma DoubleIndent(l: nat, h: string)
    ensures Indent(l) + (Indent(l + 1) + h) == Indent(2 * l + 1) + h
  {
    IndentAdd(l, l + 1);
  }

  lemma InnerLinesOne(lang: Lang, d: ClassDecl, head: string)
    requires |d.inners| > 0 && ClassLines(lang, d.inners[0])[0] == head
    ensures InnerLines(lang, d, 1) != [] && InnerLines(lang, d, 1)[0] == Indent(d.level) + head
  {
    assert InnerLines(lang, d, 1) == Prefixed(Indent(d.level), ClassLines(lang, d.inners[0]));
  }

  /** The nested classes' lines come right after the class's head. */
  lemma LineAfter(lang: Lang, d: ClassDecl)
    requires InnerLines(lang, d, |d.inners|) != []
    ensures |ClassHead(lang, d)| < |ClassLines(lang, d)|
    ensures ClassLines(lang, d)[|ClassHead(lang, d)|] == InnerLines(lang, d, |d.inners|)[0]
  {
    IndexAfter(ClassHead(lang, d), InnerLines(lang, d, |d.inners|), [Indent(d.level) + "}"]);
  }

  /** With nested classes, the number of lines before them: the header, one
      per constant, a blank line and one per method when there are methods,
      and two blank lines. */
  lemma HeadLength(lang: Lang, d: ClassDecl)
    requires |d.inners| > 0
    ensures |ClassHead(lang, d)| == 1 + |d.attributes| + (if |d.methods| > 0 then 1 else 0) + |d.methods| + 2
  {
  }

  lemma IndexAfter(xs: seq<string>, ys: seq<string>, zs: seq<string>)
    requires ys != []
    ensures |xs| < |xs + ys + zs| && (xs + ys + zs)[|xs|] == ys[0]
  {
  }

  /** A generated file starts with its header comment followed by a blank
      line, and ends with the closing brace of the class at its level and a
      newline. */
  lemma FileShape(lang: Lang, d: ClassDecl)
    ensures StartsWith(FileText(lang, d), FileHeader(lang) + "\n")
    ensures var t := FileText(lang, d); var last := Indent(d.level) + "}\n";
      |last| <= |t| && t[|t| - |last|..] == last
  {
    var xs := [FileHeader(lang)] + ClassLines(lang, d);
    UnlinesFirst(xs);
    UnlinesLast(xs);
    assert xs[|xs| - 1] == Indent(d.level) + "}";
  }

  /** The method the script's demonstration prints, written piece by piece:
      `static func nomeDoMetodo(numberOfClicks: Int) -> String { return
      "tab_bar_click_\(numberOfClicks)_times" }`. */
  lemma DemoMethod()
    ensures MethodDefinition(Swift, "nomeDoMetodo", "tab_bar_click_" + "%d{numberOfClicks}" + "_times")
      == Ok("static func " + "nomeDoMetodo" + "(" + ("numberOfClicks" + ": " + "Int") + ") -> String { return \""
            + ("tab_bar_click_" + ("\\(" + "numberOfClicks" + ")") + "_times") + "\" }")
  {
    assert NamedText('d', "numberOfClicks") == "%d{numberOfClicks}";
    NamedTemplate(Swift, "nomeDoMetodo", "tab_bar_click_", 'd', "numberOfClicks", "_times");
  }
}
