/** The later generator (`pykotlinswift_const_creator.py`): the JSON object
    itself is the body of a class whose name the caller gives. A plain property
    becomes a constant, an object whose `_name` is not null becomes an
    analytics-event method returning an `EventData`, and an object whose
    `_name` is null is parsed as a nested class. The file opens with the
    declaration of `EventData`. */
module PyKotlinSwiftConstCreator {
  import opened Strings
  import opened PyErrors
  import opened Json
  import opened Target
  import FormatString

  // ---------------------------------------------------------------------------
  // The parsed class, as a value
  // ---------------------------------------------------------------------------

  /** The tuple `createEventMethodDefinition` returns: the method's name, its
      argument list and its return statement. */
  datatype EventMethod = EventMethod(name: string, arguments: string, returnValue: string)

  /** The tuple as the list of lines `generateClassDefinitionLines` walks. */
  function EventLines(e: EventMethod): seq<string>
  {
    [e.name, e.arguments, e.returnValue]
  }

  /** What a `CodeClass` holds once parsed: its name, its nesting level, the
      constant lines, the event methods and the nested classes, in order. */
  datatype ClassDecl = ClassDecl(
    name: string,
    level: nat,
    attributes: seq<string>,
    methods: seq<EventMethod>,
    inners: seq<ClassDecl>)

  /** A freshly constructed `CodeClass` once its caller has set its name and level. */
  function Unparsed(name: string, level: nat): ClassDecl
  {
    ClassDecl(name, level, [], [], [])
  }

  // ---------------------------------------------------------------------------
  // The language primitives of the later generator
  // ---------------------------------------------------------------------------

  /** `createParamName(name, type, userDefined)`: Swift puts `_ ` before a
      parameter that is not user-defined. */
  function ParamName(lang: Lang, name: string, typ: string, userDefined: bool): (r: string)
    ensures EndsWith(r, name + ": " + typ)
    ensures userDefined || lang == Kotlin ==> r == name + ": " + typ
    ensures !userDefined && lang == Swift ==> StartsWith(r, "_ ")
  {
    match lang
    case Kotlin => name + ": " + typ
    case Swift => if userDefined then name + ": " + typ else "_ " + name + ": " + typ
  }

  /** `createEventClassInstance(name, value)`. */
  function EventInstance(lang: Lang, name: string, value: string): string
  {
    match lang
    case Kotlin => "EventData(" + name + ", " + value + ")"
    case Swift => "EventData(name: " + name + ", params: " + value + ")"
  }

  /** Both languages call `EventData` with the event's name first and the map
      last; Swift labels the name. */
  lemma EventInstanceShape(lang: Lang, name: string, value: string)
    ensures var r := EventInstance(lang, name, value);
      var opener := if lang == Kotlin then "EventData(" else "EventData(name: ";
      StartsWith(r, opener + name) && EndsWith(r, value + ")")
  {
  }

  /** `createEventClassDefinition()`. The Swift list has no comma after its
      first literal, so the opening of the struct and the `name` field are one
      element, and the list has three elements. */
  function EventClassDefinition(lang: Lang): seq<string>
  {
    match lang
    case Kotlin => ["data class EventData(val name: String, val params: Map<String, Any>)"]
    case Swift => ["struct EventData {" + "\tlet name: String", "\tlet params: [String: Any]", "}"]
  }

  /** The language's `createMapDefinition` around the base one: `mapOf(...)`
      with every `=` of the text replaced, by ` to ` in Kotlin and by `:` in
      Swift, values included. */
  function WrapMap(lang: Lang, params: string): string
  {
    match lang
    case Kotlin => "mapOf(" + Replace(params, "=", " to ") + ")"
    case Swift => "mapOf(" + Replace(params, "=", ":") + ")"
  }

  /** The wrapped map is a `mapOf(...)` call in both languages. */
  lemma WrapMapShape(lang: Lang, params: string)
    ensures var r := WrapMap(lang, params);
      StartsWith(r, "mapOf(") && EndsWith(r, ")")
  {
  }

  /** What `re.findall("%.", v)[0]` names: `"d" in typeChar` and so on, in
      that order; any other character gives an empty type. */
  function EventTypeName(c: char): string
  {
    if c == 'd' then "Int" else if c == 'f' then "Float" else if c == 's' then "String" else ""
  }

  /** Three named types, and the empty one for any other character. */
  lemma EventTypeNameRange(c: char)
    ensures EventTypeName(c) in ["Int", "Float", "String", ""]
    ensures EventTypeName(c) == "" <==> c !in "dfs"
  {
  }

  /** The two type tables agree except on `f`: the event arguments write
      `Float` where the older template compiler writes `%%Float`. */
  lemma EventTypeNameVsTypeName(c: char)
    ensures c != 'f' ==> EventTypeName(c) == FormatString.TypeName(c)
    ensures EventTypeName('f') == "Float" && FormatString.TypeName('f') == "%%Float"
  {
  }

  // ---------------------------------------------------------------------------
  // Events
  // ---------------------------------------------------------------------------

  /** Python's `"%" in v`: a substring test on a string, a membership test on
      a list or on a dict's keys, and a TypeError on anything else. */
  function HasPercent(v: Json): Result<bool>
  {
    match v
    case JStr(s) => Ok('%' in s)
    case JList(items) => Ok(JStr("%") in items)
    case JObj(fields) => Ok(FindKey(fields, "%").Some?)
    case _ => Err(TypeError)
  }

  /** The entries a `for k in v: ... v[k]` loop visits: a dict's, none for an
      empty list or string, and a TypeError for anything else. */
  function IterEntries(j: Json): Result<seq<(string, Json)>>
  {
    if j.JObj? then Ok(j.fields) else if EmptyIterable(j) then Ok([]) else Err(TypeError)
  }

  /** The argument list the `for paramName in eventParams` loop builds from the
      given entries: one `name: Type` per value holding `%`, typed by the
      character after its first `%`, separated by ", ". */
  function EventArguments(lang: Lang, entries: seq<(string, Json)>): Result<string>
  {
    if entries == [] then Ok("")
    else
      var before :- EventArguments(lang, entries[..|entries| - 1]);
      var (key, value) := entries[|entries| - 1];
      var has :- HasPercent(value);
      if !has then Ok(before)
      else
        var c :- if value.JStr? then FormatString.TypeCharOf(value.s) else Err(TypeError);
        Ok((if |before| > 0 then before + ", " else before) + ParamName(lang, key, EventTypeName(c), true))
  }

  /** What one entry of the map adds after the separator: `key = ${key}` for a
      string holding `%`, `key = "value"` for another string, a constant
      declaration for a float, an int or a bool, and nothing for an object or
      null. */
  function MapEntry(lang: Lang, key: string, value: Json): string
  {
    if value.JStr? then
      (if '%' in value.s then key + " = " + Interp(lang, key) else key + " = " + Quoted(value.s))
    else if value.JFloat? then ConstLine(lang, key, Fixed2(value.x))
    else if value.JInt? || value.JBool? then ConstLine(lang, key, PercentD(value))
    else ""
  }

  /** A string entry is `key = ...`; a number or bool entry starts with the
      language's constant keyword; null, an object or a list adds nothing. */
  lemma MapEntryShape(lang: Lang, key: string, value: Json)
    ensures var r := MapEntry(lang, key, value);
      (value.JStr? ==> StartsWith(r, key + " = ")) &&
      (value.JFloat? || value.JInt? || value.JBool? ==> StartsWith(r, ConstKeyword(lang) + " " + key + " = ")) &&
      (r == "" <==> value.JNull? || value.JObj? || value.JList?)
  {
  }

  /** A number or bool in an event's map is written as the very constant
      declaration a property with that value gets, keyword included; a plain
      string entry is that declaration without its keyword. */
  lemma MapEntryRepeatsConstant(lang: Lang, key: string, value: Json, acc: ClassDecl)
    requires value.JFloat? || value.JInt? || value.JBool? || (value.JStr? && '%' !in value.s)
    ensures var p := AddProperty(lang, key, value, acc);
      p.Ok? && p.value.attributes[..|p.value.attributes| - 1] == acc.attributes &&
      p.value.attributes[|p.value.attributes| - 1]
        == if value.JStr? then ConstKeyword(lang) + " " + MapEntry(lang, key, value) else MapEntry(lang, key, value)
  {
    var p := AddProperty(lang, key, value, acc);
    assert p.value.attributes == acc.attributes + [p.value.attributes[|p.value.attributes| - 1]];
    if value.JStr? {
      AppendAssoc(ConstKeyword(lang) + " ", key + " = ", Quoted(value.s));
      AppendAssoc(ConstKeyword(lang) + " ", key, " = ");
    }
  }

  /** The text the loop of the base `createMapDefinition` builds from the given
      entries: ", " goes in before every entry after the first text that is not
      empty, whatever the entry adds, and a list stops the loop. */
  function MapParams(lang: Lang, entries: seq<(string, Json)>): Result<string>
  {
    if entries == [] then Ok("")
    else
      var before :- MapParams(lang, entries[..|entries| - 1]);
      var (key, value) := entries[|entries| - 1];
      if value.JList? then Err(ArraysNotSupported)
      else Ok((if |before| > 0 then before + ", " else before) + MapEntry(lang, key, value))
  }

  /** The language's `createMapDefinition(values)`. */
  function MapDefinition(lang: Lang, entries: seq<(string, Json)>): Result<string>
  {
    var params :- MapParams(lang, entries);
    Ok(WrapMap(lang, params))
  }

  /** `createEventMethodDefinition(methodName, eventName, eventParams)`: the
      arguments first, then the map, then the event's name as `%s` formats it. */
  function EventMethodDefinition(lang: Lang, methodName: string, eventName: Json, eventParams: Json): Result<EventMethod>
  {
    var entries :- IterEntries(eventParams);
    var arguments :- EventArguments(lang, entries);
    var mapText :- MapDefinition(lang, entries);
    var name :- PyStr(eventName);
    Ok(EventMethod(methodName, arguments, "return " + EventInstance(lang, name, mapText)))
  }

  // ---------------------------------------------------------------------------
  // The parse, as a value
  // ---------------------------------------------------------------------------

  /** `parseClassObject(jsonObject)` on a class whose state is d: every
      property of the object adds a member. */
  function ParseClass(lang: Lang, j: Json, d: ClassDecl): Result<ClassDecl>
    decreases j, if j.JObj? then |j.fields| + 1 else 0
  {
    if j.JObj? then ParseEntries(lang, j, |j.fields|, d)
    else if EmptyIterable(j) then Ok(d)
    else Err(TypeError)
  }

  /** The state after the first i properties of `owner` were added to d, in
      order; the first property that fails ends the parse. */
  function ParseEntries(lang: Lang, owner: Json, i: nat, d: ClassDecl): Result<ClassDecl>
    requires owner.JObj? && i <= |owner.fields|
    decreases owner, i
  {
    if i == 0 then Ok(d)
    else
      var acc :- ParseEntries(lang, owner, i - 1, d);
      assert owner.fields[i - 1].1 < owner by { assert owner.fields[i - 1] in owner.fields; }
      AddProperty(lang, owner.fields[i - 1].0, owner.fields[i - 1].1, acc)
  }

  /** One iteration of the `for key in properties` loop. A string holding `%`
      reaches `super().createMethodDefinition`, which the base class does not
      have; null fails at `value["_name"]`; an object needs `_name`, and
      `_params` too when `_name` is not null. */
  function AddProperty(lang: Lang, key: string, value: Json, acc: ClassDecl): Result<ClassDecl>
    decreases value, if value.JObj? then |value.fields| + 2 else 0
  {
    match value
    case JStr(s) =>
      if '%' in s then Err(AttributeError)
      else Ok(acc.(attributes := acc.attributes + [ConstLine(lang, key, Quoted(s))]))
    case JFloat(x) => Ok(acc.(attributes := acc.attributes + [ConstLine(lang, key, Fixed2(x))]))
    case JInt(_) => Ok(acc.(attributes := acc.attributes + [ConstLine(lang, key, PercentD(value))]))
    case JBool(_) => Ok(acc.(attributes := acc.attributes + [ConstLine(lang, key, PercentD(value))]))
    case JList(_) => Err(ArraysNotSupported)
    case JNull => Err(TypeError)
    case JObj(fields) =>
      match FindKey(fields, "_name")
      case None => Err(KeyError("_name"))
      case Some(ni) =>
        if fields[ni].1 != JNull then
          match FindKey(fields, "_params")
          case None => Err(KeyError("_params"))
          case Some(pi) =>
            var m :- EventMethodDefinition(lang, key, fields[ni].1, fields[pi].1);
            Ok(acc.(methods := acc.methods + [m]))
        else
          var inner :- ParseClass(lang, value, Unparsed(key, acc.level + 1));
          Ok(acc.(inners := acc.inners + [inner]))
  }

  /** Once a property fails, the parse of the remaining ones fails with it. */
  lemma {:induction false} ParseEntriesStops(lang: Lang, owner: Json, i: nat, n: nat, d: ClassDecl)
    requires owner.JObj? && i <= n <= |owner.fields| && ParseEntries(lang, owner, i, d).Err?
    ensures ParseEntries(lang, owner, n, d) == ParseEntries(lang, owner, i, d)
    decreases n - i
  {
    if i < n {
      ParseEntriesStops(lang, owner, i, n - 1, d);
    }
  }

  // ---------------------------------------------------------------------------
  // The generated lines, as a value
  // ---------------------------------------------------------------------------

  /** `generateClassDefinitionLines`: the head, the nested classes' lines (each
      put at this class's level once more) and the closing brace. */
  function ClassLines(lang: Lang, d: ClassDecl): seq<string>
    decreases d, |d.inners| + 1
  {
    ClassHead(lang, d) + InnerLines(lang, d, |d.inners|) + [Indent(d.level) + "}"]
  }

  /** The lines before the nested classes: the header, the constants one level
      deeper, a blank line and the methods if there are methods, and two blank
      lines if there are nested classes. */
  function ClassHead(lang: Lang, d: ClassDecl): seq<string>
  {
    var l := d.level;
    [Indent(l) + ClassHeader(lang, d.name, l)]
    + Prefixed(Indent(l + 1), d.attributes)
    + MethodGap(d)
    + MethodsLines(l, d.methods)
    + InnerGap(d)
  }

  function MethodGap(d: ClassDecl): seq<string>
  {
    if |d.methods| > 0 then [Indent(d.level)] else []
  }

  function InnerGap(d: ClassDecl): seq<string>
  {
    if |d.inners| > 0 then [Indent(d.level), Indent(d.level)] else []
  }

  /** The lines of the methods of a class at the given level, one block each. */
  function MethodsLines(level: nat, ms: seq<EventMethod>): seq<string>
  {
    if ms == [] then [] else MethodsLines(level, ms[..|ms| - 1]) + MethodBlock(level, EventLines(ms[|ms| - 1]))
  }

  /** One method's lines: its first and last line one level deeper than the
      class, the lines between them two levels deeper. */
  function MethodBlock(level: nat, m: seq<string>): seq<string>
    requires m != []
  {
    [Indent(level + 1) + m[0]] + Prefixed(Indent(level + 2), Middle(m)) + [Indent(level + 1) + m[|m| - 1]]
  }

  /** `method[1:len(method) - 1]`: the lines strictly between the first and the last. */
  function Middle(m: seq<string>): seq<string>
    requires m != []
  {
    if |m| >= 2 then m[1..|m| - 1] else []
  }

  /** The lines of the first k nested classes, each at d's level once more. */
  function InnerLines(lang: Lang, d: ClassDecl, k: nat): seq<string>
    requires k <= |d.inners|
    decreases d, k
  {
    if k == 0 then []
    else InnerLines(lang, d, k - 1) + Prefixed(Indent(d.level), ClassLines(lang, d.inners[k - 1]))
  }

  /** The header comment of a generated file. */
  function FileHeader(lang: Lang): string
  {
    "// " + LanguageName(lang) + " file generated by pykotlinswift script.\n\n"
  }

  /** `generateStringFromCodeClass`: the header, the declaration of `EventData`,
      a separator and the class's lines, each followed by a newline. */
  function FileText(lang: Lang, d: ClassDecl): string
  {
    Unlines([FileHeader(lang)] + EventClassDefinition(lang) + ["\n\n"] + ClassLines(lang, d))
  }

  /** `convertToSwiftFile` / `convertToKotlinFile` on an already-parsed JSON
      value and the class name. */
  function ConvertedFile(lang: Lang, j: Json, className: string): Result<string>
  {
    var d :- ParseClass(lang, j, Unparsed(className, 0));
    Ok(FileText(lang, d))
  }

  // ---------------------------------------------------------------------------
  // The loops of the event and map definitions
  // ---------------------------------------------------------------------------

  /** Once the first n entries fail, every longer prefix fails the same way. */
  lemma {:induction false} MapParamsStops(lang: Lang, entries: seq<(string, Json)>, n: nat, m: nat)
    requires n <= m <= |entries| && MapParams(lang, entries[..n]).Err?
    ensures MapParams(lang, entries[..m]) == MapParams(lang, entries[..n])
    decreases m
  {
    if n < m {
      MapParamsStops(lang, entries, n, m - 1);
      assert entries[..m][..m - 1] == entries[..m - 1];
    }
  }

  lemma {:induction false} EventArgumentsStops(lang: Lang, entries: seq<(string, Json)>, n: nat, m: nat)
    requires n <= m <= |entries| && EventArguments(lang, entries[..n]).Err?
    ensures EventArguments(lang, entries[..m]) == EventArguments(lang, entries[..n])
    decreases m
  {
    if n < m {
      EventArgumentsStops(lang, entries, n, m - 1);
      assert entries[..m][..m - 1] == entries[..m - 1];
    }
  }

  /** One more entry of a prefix: the prefix's last element is the entry. */
  lemma PrefixSnoc<T>(xs: seq<T>, n: nat)
    requires n < |xs|
    ensures xs[..n + 1] != [] && xs[..n + 1][..n] == xs[..n] && xs[..n + 1][n] == xs[n]
  {
  }

  /** One more entry of the map: a list stops it, anything else adds the
      separator (when text is already there) and the entry's text. */
  lemma MapParamsStep(lang: Lang, entries: seq<(string, Json)>, n: nat, before: string)
    requires n < |entries| && MapParams(lang, entries[..n]) == Ok(before)
    ensures MapParams(lang, entries[..n + 1])
      == if entries[n].1.JList? then Err(ArraysNotSupported)
         else Ok((if |before| > 0 then before + ", " else before) + MapEntry(lang, entries[n].0, entries[n].1))
  {
    PrefixSnoc(entries, n);
  }

  /** The language's `createMapDefinition(values)` with the loop of the base one. */
  method CreateMapDefinition(lang: Lang, values: seq<(string, Json)>) returns (r: Result<string>)
    ensures r == MapDefinition(lang, values)
  {
    var params := "";
    for n := 0 to |values|
      invariant MapParams(lang, values[..n]) == Ok(params)
    {
      var (valueKey, value) := values[n];
      MapParamsStep(lang, values, n, params);
      if |params| > 0 {
        params := params + ", ";
      }
      var entry := "";
      if value.JStr? {
        if '%' in value.s {
          entry := valueKey + " = " + Interp(lang, valueKey);
        } else {
          entry := valueKey + " = " + Quoted(value.s);
        }
      } else if value.JFloat? {
        entry := ConstLine(lang, valueKey, Fixed2(value.x));
      } else if value.JInt? || value.JBool? {
        entry := ConstLine(lang, valueKey, PercentD(value));
      } else if value.JList? {
        MapParamsStops(lang, values, n + 1, |values|);
        assert values[..|values|] == values;
        return Err(ArraysNotSupported);
      }
      assert entry == MapEntry(lang, valueKey, value);
      params := params + entry;
    }
    assert values[..|values|] == values;
    r := Ok(WrapMap(lang, params));
  }

  /** One more entry of the arguments: one without `%` adds nothing, one with
      `%` adds the separator (when text is already there) and its parameter. */
  lemma EventArgumentsStep(lang: Lang, entries: seq<(string, Json)>, n: nat, before: string)
    requires n < |entries| && EventArguments(lang, entries[..n]) == Ok(before)
    ensures EventArguments(lang, entries[..n + 1])
      == var (key, value) := entries[n];
         var has :- HasPercent(value);
         if !has then Ok(before)
         else
           var c :- if value.JStr? then FormatString.TypeCharOf(value.s) else Err(TypeError);
           Ok((if |before| > 0 then before + ", " else before) + ParamName(lang, key, EventTypeName(c), true))
  {
    PrefixSnoc(entries, n);
  }

  /** The `for paramName in eventParams` loop of `createEventMethodDefinition`. */
  method CreateEventArguments(lang: Lang, params: seq<(string, Json)>) returns (r: Result<string>)
    ensures r == EventArguments(lang, params)
  {
    var methodArguments := "";
    for n := 0 to |params|
      invariant EventArguments(lang, params[..n]) == Ok(methodArguments)
    {
      var (paramName, paramValue) := params[n];
      EventArgumentsStep(lang, params, n, methodArguments);
      var has := HasPercent(paramValue);
      if has.Err? || (has.value && !paramValue.JStr?) {
        EventArgumentsStops(lang, params, n + 1, |params|);
        assert params[..|params|] == params;
        return Err(TypeError);
      }
      if has.value {
        var typeChar := FormatString.TypeCharOf(paramValue.s);
        if typeChar.Err? {
          EventArgumentsStops(lang, params, n + 1, |params|);
          assert params[..|params|] == params;
          return Err(typeChar.error);
        }
        var paramType := EventTypeName(typeChar.value);
        if |methodArguments| > 0 {
          methodArguments := methodArguments + ", ";
        }
        methodArguments := methodArguments + ParamName(lang, paramName, paramType, true);
      }
    }
    assert params[..|params|] == params;
    return Ok(methodArguments);
  }

  /** `createEventMethodDefinition(methodName, eventName, eventParams)`. */
  method CreateEventMethodDefinition(lang: Lang, methodName: string, eventName: Json, eventParams: Json)
    returns (r: Result<EventMethod>)
    ensures r == EventMethodDefinition(lang, methodName, eventName, eventParams)
  {
    var entries := IterEntries(eventParams);
    if entries.Err? {
      return Err(entries.error);
    }
    var methodArguments := CreateEventArguments(lang, entries.value);
    if methodArguments.Err? {
      return Err(methodArguments.error);
    }
    var mapParams := CreateMapDefinition(lang, entries.value);
    if mapParams.Err? {
      return Err(mapParams.error);
    }
    var name := PyStr(eventName);
    if name.Err? {
      return Err(name.error);
    }
    return Ok(EventMethod(methodName, methodArguments.value, "return " + EventInstance(lang, name.value, mapParams.value)));
  }

  // ---------------------------------------------------------------------------
  // The class
  // ---------------------------------------------------------------------------

  /** `CodeClass` with its `KotlinClass` / `SwiftClass` subclass chosen by `lang`. */
  class CodeClass {
    const lang: Lang
    var name: string
    var indentationLevel: nat
    var attributeLines: seq<string>
    var methodProperties: seq<EventMethod>
    var innerClasses: seq<CodeClass>

    /** The value this class and its nested classes hold. */
    ghost var Decl: ClassDecl
    ghost var Repr: set<object>

    ghost predicate Valid()
      reads this, Repr
      decreases Repr
    {
      this in Repr &&
      Decl.name == name && Decl.level == indentationLevel &&
      Decl.attributes == attributeLines && Decl.methods == methodProperties &&
      |Decl.inners| == |innerClasses| &&
      forall i :: 0 <= i < |innerClasses| ==>
        var c := innerClasses[i];
        c in Repr && c.Repr <= Repr && this !in c.Repr &&
        c.lang == lang && c.Decl == Decl.inners[i] && c.Valid()
    }

    constructor (lang: Lang)
      ensures Valid() && fresh(Repr)
      ensures this.lang == lang && Decl == Unparsed("Unknown", 0)
    {
      this.lang := lang;
      name := "Unknown";
      indentationLevel := 0;
      attributeLines := [];
      methodProperties := [];
      innerClasses := [];
      Decl := Unparsed("Unknown", 0);
      Repr := {this};
    }

    /** `parseClassObject(jsonObject)`: returns the exception it raises, if any. */
    method ParseClassObject(j: Json) returns (raised: Option<Error>)
      requires Valid()
      modifies this
      decreases j, if j.JObj? then |j.fields| + 1 else 0
      ensures Valid() && fresh(Repr - old(Repr))
      ensures raised == Raised(ParseClass(lang, j, old(Decl)))
      ensures raised.None? ==> Decl == ParseClass(lang, j, old(Decl)).value
    {
      if !j.JObj? {
        if !EmptyIterable(j) {
          return Some(TypeError);
        }
        return None;
      }
      for i := 0 to |j.fields|
        invariant Valid() && fresh(Repr - old(Repr))
        invariant ParseEntries(lang, j, i, old(Decl)) == Ok(Decl)
      {
        var key := j.fields[i].0;
        var value := j.fields[i].1;
        assert value < j by { assert j.fields[i] in j.fields; }
        ghost var before := Decl;
        raised := ParseProperty(key, value);
        assert ParseEntries(lang, j, i + 1, old(Decl)) == AddProperty(lang, key, value, before);
        if raised.Some? {
          ParseEntriesStops(lang, j, i + 1, |j.fields|, old(Decl));
          return;
        }
      }
      return None;
    }

    /** The body of the `for key in properties` loop for one property. */
    method ParseProperty(key: string, value: Json) returns (raised: Option<Error>)
      requires Valid()
      modifies this
      decreases value, if value.JObj? then |value.fields| + 2 else 0
      ensures Valid() && fresh(Repr - old(Repr))
      ensures raised == Raised(AddProperty(lang, key, value, old(Decl)))
      ensures raised.None? ==> Decl == AddProperty(lang, key, value, old(Decl)).value
    {
      if value.JStr? && '%' in value.s {
        return Some(AttributeError);
      } else if value.JStr? {
        AppendAttribute(ConstLine(lang, key, Quoted(value.s)));
      } else if value.JFloat? {
        AppendAttribute(ConstLine(lang, key, Fixed2(value.x)));
      } else if value.JInt? || value.JBool? {
        AppendAttribute(ConstLine(lang, key, PercentD(value)));
      } else if value.JList? {
        return Some(ArraysNotSupported);
      } else if value.JNull? {
        return Some(TypeError);
      } else {
        var fields := value.fields;
        var ni := FindKey(fields, "_name");
        if ni.None? {
          return Some(KeyError("_name"));
        }
        if fields[ni.value].1 != JNull {
          raised := ParseEvent(key, value);
          return;
        }
        var innerClass := new CodeClass(lang);
        innerClass.SetName(key);
        innerClass.SetIndentationLevel(indentationLevel + 1);
        var innerRaised := innerClass.ParseClassObject(value);
        if innerRaised.Some? {
          return innerRaised;
        }
        AppendInnerClass(innerClass);
      }
      return None;
    }

    /** The branch of the loop for an object whose `_name` is not null: an
        event method made from `_name` and `_params`. */
    method ParseEvent(key: string, value: Json) returns (raised: Option<Error>)
      requires Valid() && value.JObj?
      requires FindKey(value.fields, "_name").Some?
      requires value.fields[FindKey(value.fields, "_name").value].1 != JNull
      modifies this
      ensures Valid() && Repr == old(Repr)
      ensures raised == Raised(AddProperty(lang, key, value, old(Decl)))
      ensures raised.None? ==> Decl == AddProperty(lang, key, value, old(Decl)).value
    {
      var fields := value.fields;
      var eventName := fields[FindKey(fields, "_name").value].1;
      var pi := FindKey(fields, "_params");
      if pi.None? {
        return Some(KeyError("_params"));
      }
      var eventParams := fields[pi.value].1;
      var eventMethod := CreateEventMethodDefinition(lang, key, eventName, eventParams);
      if eventMethod.Err? {
        return Some(eventMethod.error);
      }
      AppendMethod(eventMethod.value);
      return None;
    }

    /** `self.methodProperties.append(eventMethodLines)`. */
    method AppendMethod(m: EventMethod)
      requires Valid()
      modifies this
      ensures Valid() && Repr == old(Repr)
      ensures Decl == old(Decl).(methods := old(Decl).methods + [m])
    {
      methodProperties := methodProperties + [m];
      Decl := Decl.(methods := methodProperties);
    }

    /** `self.attributeLines.append(line)`. */
    method AppendAttribute(line: string)
      requires Valid()
      modifies this
      ensures Valid() && Repr == old(Repr)
      ensures Decl == old(Decl).(attributes := old(Decl).attributes + [line])
    {
      attributeLines := attributeLines + [line];
      Decl := Decl.(attributes := attributeLines);
    }

    /** `self.innerClasses.append(innerClass)`, for a class parsed on its own. */
    method AppendInnerClass(c: CodeClass)
      requires Valid() && c.Valid() && c.lang == lang && Repr !! c.Repr
      modifies this
      ensures Valid() && Repr == old(Repr) + c.Repr
      ensures Decl == old(Decl).(inners := old(Decl).inners + [c.Decl])
    {
      innerClasses := innerClasses + [c];
      Decl := Decl.(inners := Decl.inners + [c.Decl]);
      Repr := Repr + c.Repr;
    }

    /** `self.name = n`. */
    method SetName(n: string)
      requires Valid()
      modifies this
      ensures Valid() && Repr == old(Repr)
      ensures Decl == old(Decl).(name := n)
    {
      name := n;
      Decl := Decl.(name := n);
    }

    /** `self.indentationLevel = level`. */
    method SetIndentationLevel(level: nat)
      requires Valid()
      modifies this
      ensures Valid() && Repr == old(Repr)
      ensures Decl == old(Decl).(level := level)
    {
      indentationLevel := level;
      Decl := Decl.(level := level);
    }

    /** A nested class is valid, holds its part of the value and lies strictly
        inside this class's representation. */
    lemma InnerValid(k: nat)
      requires Valid() && k < |innerClasses|
      ensures innerClasses[k].Valid() && innerClasses[k].lang == lang
      ensures innerClasses[k].Decl == Decl.inners[k]
      ensures innerClasses[k].Repr < Repr
    {
    }

    /** `generateClassDefinitionLines()`. Its local `writeLine(line, level)`
        appends one line at an indentation level; each `for` loop over a list
        of lines is `WriteLines`. */
    method GenerateClassDefinitionLines() returns (lines: seq<string>)
      requires Valid()
      decreases Repr, 2
      ensures lines == ClassLines(lang, Decl)
    {
      lines := WriteClassHead();
      lines := WriteInnerClassLines(lines);
      lines := WriteLines(lines, ["}"], indentationLevel);
      PrefixedOne(Indent(indentationLevel), "}");
    }

    /** The part of `generateClassDefinitionLines` before the nested classes. */
    method WriteClassHead() returns (lines: seq<string>)
      requires Valid()
      ensures lines == ClassHead(lang, Decl)
    {
      var l := indentationLevel;
      lines := WriteLines([], [ClassHeader(lang, name, l)], l);
      ghost var header := lines;
      lines := WriteLines(lines, attributeLines, l + 1);
      ghost var attributes := lines;
      if |methodProperties| > 0 {
        lines := WriteLines(lines, [""], l);
        BlankLine(l);
      } else {
        assert lines == lines + [];
      }
      ghost var gap := lines;
      lines := WriteMethods(lines, methodProperties, l);
      ghost var methods := lines;
      if |innerClasses| > 0 {
        lines := WriteLines(lines, [""], l);
        lines := WriteLines(lines, [""], l);
        BlankLine(l);
        assert lines == methods + [Indent(l), Indent(l)];
      } else {
        assert lines == lines + [];
      }
      ClassHeadWritten(lang, Decl, header, attributes, gap, methods, lines);
    }

    /** The `for innerClass in self.innerClasses` loop of
        `generateClassDefinitionLines`. */
    method WriteInnerClassLines(lines: seq<string>) returns (r: seq<string>)
      requires Valid()
      decreases Repr, 0
      ensures r == lines + InnerLines(lang, Decl, |Decl.inners|)
    {
      ghost var d := Decl;
      var l := indentationLevel;
      var inners := innerClasses;
      r := lines;
      for k := 0 to |inners|
        invariant r == lines + InnerLines(lang, d, k)
      {
        InnerValid(k);
        var innerClassLines := inners[k].GenerateClassDefinitionLines();
        var next := WriteLines(r, innerClassLines, l);
        InnerLinesStep(lang, d, k, lines, r, innerClassLines, l, next);
        r := next;
      }
    }
  }

  /** The lines `generateClassDefinitionLines` writes before the nested
      classes, section after section, are the class's head. */
  lemma ClassHeadWritten(lang: Lang, d: ClassDecl, header: seq<string>, attributes: seq<string>,
                         gap: seq<string>, methods: seq<string>, gaps: seq<string>)
    requires header == [] + Prefixed(Indent(d.level), [ClassHeader(lang, d.name, d.level)])
    requires attributes == header + Prefixed(Indent(d.level + 1), d.attributes)
    requires gap == attributes + MethodGap(d)
    requires methods == gap + MethodsLines(d.level, d.methods)
    requires gaps == methods + InnerGap(d)
    ensures gaps == ClassHead(lang, d)
  {
    PrefixedOne(Indent(d.level), ClassHeader(lang, d.name, d.level));
    assert header == [Indent(d.level) + ClassHeader(lang, d.name, d.level)];
  }

  /** Appending the next nested class's lines, put at d's level once more. */
  lemma InnerLinesStep(lang: Lang, d: ClassDecl, k: nat, head: seq<string>, lines: seq<string>,
                       inner: seq<string>, level: nat, next: seq<string>)
    requires k < |d.inners| && level == d.level
    requires lines == head + InnerLines(lang, d, k)
    requires inner == ClassLines(lang, d.inners[k])
    requires next == lines + Prefixed(Indent(level), inner)
    ensures next == head + InnerLines(lang, d, k + 1)
  {
    AppendAssoc(head, InnerLines(lang, d, k), Prefixed(Indent(d.level), inner));
  }

  /** The `for method in self.methodProperties` loop: each method's block. */
  method WriteMethods(lines: seq<string>, ms: seq<EventMethod>, level: nat) returns (r: seq<string>)
    ensures r == lines + MethodsLines(level, ms)
  {
    r := lines;
    for n := 0 to |ms|
      invariant r == lines + MethodsLines(level, ms[..n])
    {
      PrefixSnoc(ms, n);
      var next := WriteMethodLines(r, EventLines(ms[n]), level);
      AppendAssoc(lines, MethodsLines(level, ms[..n]), MethodBlock(level, EventLines(ms[n])));
      r := next;
    }
    assert ms[..|ms|] == ms;
  }

  /** One method: its first line, the lines of `range(1, len(method) - 1)`
      one level deeper, and its last line. */
  method WriteMethodLines(lines: seq<string>, block: seq<string>, level: nat) returns (r: seq<string>)
    requires block != []
    ensures r == lines + MethodBlock(level, block)
  {
    r := WriteLines(lines, [block[0]], level + 1);
    PrefixedOne(Indent(level + 1), block[0]);
    ghost var first := r;
    var k := 1;
    while k < |block| - 1
      invariant 1 <= k && (k <= |block| - 1 || k == 1)
      invariant r == first + Prefixed(Indent(level + 2), block[1..k])
    {
      var next := WriteLines(r, [block[k]], level + 2);
      PrefixedOne(Indent(level + 2), block[k]);
      PrefixedSnoc(Indent(level + 2), block[1..k], block[k]);
      assert block[1..k + 1] == block[1..k] + [block[k]];
      r := next;
      k := k + 1;
    }
    assert block[1..k] == Middle(block);
    r := WriteLines(r, [block[|block| - 1]], level + 1);
    PrefixedOne(Indent(level + 1), block[|block| - 1]);
  }

  /** `generateStringFromCodeClass(codeClass)`. */
  method GenerateStringFromCodeClass(codeClass: CodeClass) returns (classFile: string)
    requires codeClass.Valid()
    ensures classFile == FileText(codeClass.lang, codeClass.Decl)
  {
    var fileLines := [FileHeader(codeClass.lang)];
    fileLines := fileLines + EventClassDefinition(codeClass.lang);
    fileLines := fileLines + ["\n\n"];
    var lines := codeClass.GenerateClassDefinitionLines();
    fileLines := AppendLines(fileLines, lines);
    classFile := WriteText(fileLines);
  }

  /** `convertToSwiftFile` (lang Swift) and `convertToKotlinFile` (lang Kotlin),
      given the value `json.loads` returned and the class name. */
  method ConvertToFile(lang: Lang, templateFileObject: Json, className: string) returns (r: Result<string>)
    ensures r == ConvertedFile(lang, templateFileObject, className)
  {
    var codeClass := new CodeClass(lang);
    codeClass.SetName(className);
    var raised := codeClass.ParseClassObject(templateFileObject);
    if raised.Some? {
      return Err(raised.value);
    }
    var text := GenerateStringFromCodeClass(codeClass);
    ConvertedFileOk(lang, templateFileObject, className, codeClass.Decl, text);
    return Ok(text);
  }

  /** A parse that succeeds with d converts to the file text of d. */
  lemma ConvertedFileOk(lang: Lang, j: Json, className: string, d: ClassDecl, text: string)
    requires ParseClass(lang, j, Unparsed(className, 0)) == Ok(d) && text == FileText(lang, d)
    ensures ConvertedFile(lang, j, className) == Ok(text)
  {
  }

  // ---------------------------------------------------------------------------
  // Properties of the events and the map
  // ---------------------------------------------------------------------------

  /** The values a map entry is written for: strings, floats, ints and bools. */
  predicate IsScalar(v: Json)
  {
    v.JStr? || v.JFloat? || v.JInt? || v.JBool?
  }

  /** The text of each entry of the map, in order. */
  function MapEntries(lang: Lang, entries: seq<(string, Json)>): (r: seq<string>)
    ensures |r| == |entries|
  {
    if entries == [] then []
    else MapEntries(lang, entries[..|entries| - 1]) + [MapEntry(lang, entries[|entries| - 1].0, entries[|entries| - 1].1)]
  }

  /** A scalar's entry is never empty: it names its key. */
  lemma ScalarEntryNonEmpty(lang: Lang, key: string, value: Json)
    requires IsScalar(value)
    ensures |MapEntry(lang, key, value)| >= |key| + 3
  {
  }

  /** With scalar values only, the map's text is the entries joined by ", ",
      one per key, in order. */
  lemma {:induction false} MapParamsJoin(lang: Lang, entries: seq<(string, Json)>)
    requires forall k :: 0 <= k < |entries| ==> IsScalar(entries[k].1)
    ensures MapParams(lang, entries) == Ok(Join(", ", MapEntries(lang, entries)))
  {
    if entries != [] {
      var init := entries[..|entries| - 1];
      MapParamsJoin(lang, init);
      if init != [] {
        ScalarEntryNonEmpty(lang, init[|init| - 1].0, init[|init| - 1].1);
        JoinNonEmpty(", ", MapEntries(lang, init));
      }
      MapJoinStep(lang, entries, Join(", ", MapEntries(lang, init)));
    }
  }

  lemma MapJoinStep(lang: Lang, entries: seq<(string, Json)>, before: string)
    requires entries != [] && IsScalar(entries[|entries| - 1].1)
    requires MapParams(lang, entries[..|entries| - 1]) == Ok(before)
    requires before == Join(", ", MapEntries(lang, entries[..|entries| - 1]))
    requires |entries| > 1 <==> before != ""
    ensures MapParams(lang, entries) == Ok(Join(", ", MapEntries(lang, entries)))
  {
    var init := entries[..|entries| - 1];
    var entry := MapEntry(lang, entries[|entries| - 1].0, entries[|entries| - 1].1);
    JoinSnoc(", ", MapEntries(lang, init), entry);
    assert MapEntries(lang, entries) == MapEntries(lang, init) + [entry];
    assert MapParams(lang, entries) == Ok((if |before| > 0 then before + ", " else before) + entry);
    assert (if |before| > 0 then before + ", " else before) + entry == Join(", ", MapEntries(lang, entries));
  }

  /** A null or object value adds nothing but the separator put in before it,
      so the text can end with ", ". */
  lemma DanglingSeparator(lang: Lang, entries: seq<(string, Json)>, before: string)
    requires entries != [] && MapParams(lang, entries[..|entries| - 1]) == Ok(before) && before != ""
    requires entries[|entries| - 1].1.JNull? || entries[|entries| - 1].1.JObj?
    ensures MapParams(lang, entries) == Ok(before + ", ")
  {
    var entry := MapEntry(lang, entries[|entries| - 1].0, entries[|entries| - 1].1);
    assert entry == "";
    assert MapParams(lang, entries) == Ok(before + ", " + entry);
    assert before + ", " + entry == before + ", ";
  }

  /** A list anywhere among the values makes the map fail. */
  lemma {:induction false} MapParamsNoList(lang: Lang, entries: seq<(string, Json)>)
    requires MapParams(lang, entries).Ok?
    ensures forall k :: 0 <= k < |entries| ==> !entries[k].1.JList?
  {
    if entries != [] {
      var init := entries[..|entries| - 1];
      MapParamsNoList(lang, init);
      assert forall k :: 0 <= k < |init| ==> init[k] == entries[k];
    }
  }

  /** The wrapped map holds no `=`: every one of the text, in keys and values
      alike, became ` to ` (Kotlin) or `:` (Swift), and the length says so. */
  lemma WrapMapNoEquals(lang: Lang, params: string)
    ensures '=' !in WrapMap(lang, params)
    ensures |WrapMap(lang, params)| == 7 + |params| + Count(params, '=') * (if lang == Kotlin then 3 else 0)
  {
    var repl := if lang == Kotlin then " to " else ":";
    assert "=" == ['='];
    ReplaceCharRemoves(params, '=', repl);
    ReplaceCharLength(params, '=', repl);
    var r := Replace(params, "=", repl);
    assert WrapMap(lang, params) == "mapOf(" + r + ")";
    assert '=' !in "mapOf(" && '=' !in ")";
  }

  /** An event parameter the arguments loop gets past: `"%" in v` works on it,
      and a value holding `%` is a string whose first `%` has a character
      after it. */
  predicate ArgumentAccepted(v: Json)
  {
    HasPercent(v).Ok? && (HasPercent(v).value ==> v.JStr? && FormatString.TypeCharOf(v.s).Ok?)
  }

  /** Every parameter among the entries is accepted. */
  predicate AllAccepted(entries: seq<(string, Json)>)
  {
    forall k :: 0 <= k < |entries| ==> ArgumentAccepted(entries[k].1)
  }

  /** The declaration of each parameter whose string holds `%`, in order. */
  function ParamDecls(lang: Lang, entries: seq<(string, Json)>): (r: seq<string>)
    ensures forall k :: 0 <= k < |r| ==> r[k] != ""
  {
    if entries == [] then []
    else
      var (key, value) := entries[|entries| - 1];
      var c := if value.JStr? && '%' in value.s then FormatString.TypeCharOf(value.s) else Err(TypeError);
      ParamDecls(lang, entries[..|entries| - 1])
      + (if c.Ok? then [ParamName(lang, key, EventTypeName(c.value), true)] else [])
  }

  /** The arguments loop succeeds exactly when every parameter is accepted, and
      then its text is the declarations of the `%` parameters joined by ", ". */
  lemma {:induction false} EventArgumentsJoin(lang: Lang, entries: seq<(string, Json)>)
    ensures EventArguments(lang, entries).Ok? <==> AllAccepted(entries)
    ensures EventArguments(lang, entries).Ok?
      ==> EventArguments(lang, entries).value == Join(", ", ParamDecls(lang, entries))
  {
    if entries != [] {
      EventArgumentsJoin(lang, entries[..|entries| - 1]);
      EventJoinStep(lang, entries);
    }
  }

  lemma EventJoinStep(lang: Lang, entries: seq<(string, Json)>)
    requires entries != []
    requires var init := entries[..|entries| - 1];
      (EventArguments(lang, init).Ok? <==> AllAccepted(init)) &&
      (EventArguments(lang, init).Ok? ==> EventArguments(lang, init).value == Join(", ", ParamDecls(lang, init)))
    ensures EventArguments(lang, entries).Ok? <==> AllAccepted(entries)
    ensures EventArguments(lang, entries).Ok?
      ==> EventArguments(lang, entries).value == Join(", ", ParamDecls(lang, entries))
  {
    var init := entries[..|entries| - 1];
    var value := entries[|entries| - 1].1;
    AcceptedSnoc(entries);
    if EventArguments(lang, init).Err? || !ArgumentAccepted(value) {
      EventArgumentsRejected(lang, entries);
    } else if HasPercent(value).value {
      EventJoinPercent(lang, entries, EventArguments(lang, init).value);
    } else {
      EventJoinPlain(lang, entries, EventArguments(lang, init).value);
    }
  }

  lemma AcceptedSnoc(entries: seq<(string, Json)>)
    requires entries != []
    ensures AllAccepted(entries)
      <==> AllAccepted(entries[..|entries| - 1]) && ArgumentAccepted(entries[|entries| - 1].1)
  {
    var init := entries[..|entries| - 1];
    assert forall k :: 0 <= k < |init| ==> init[k] == entries[k];
  }

  /** A failure before the last entry, or at it, fails the arguments. */
  lemma EventArgumentsRejected(lang: Lang, entries: seq<(string, Json)>)
    requires entries != []
    requires EventArguments(lang, entries[..|entries| - 1]).Err? || !ArgumentAccepted(entries[|entries| - 1].1)
    ensures EventArguments(lang, entries).Err?
  {
  }

  lemma EventJoinPercent(lang: Lang, entries: seq<(string, Json)>, before: string)
    requires entries != []
    requires EventArguments(lang, entries[..|entries| - 1]) == Ok(before)
    requires before == Join(", ", ParamDecls(lang, entries[..|entries| - 1]))
    requires ArgumentAccepted(entries[|entries| - 1].1) && HasPercent(entries[|entries| - 1].1).value
    ensures EventArguments(lang, entries) == Ok(Join(", ", ParamDecls(lang, entries)))
  {
    var (key, value) := entries[|entries| - 1];
    var decl := ParamName(lang, key, EventTypeName(FormatString.TypeCharOf(value.s).value), true);
    PercentArgumentStep(lang, entries, before, decl);
    PercentDeclStep(lang, entries, decl);
    JoinAppend(", ", ParamDecls(lang, entries[..|entries| - 1]), decl, before);
  }

  lemma PercentArgumentStep(lang: Lang, entries: seq<(string, Json)>, before: string, decl: string)
    requires entries != []
    requires EventArguments(lang, entries[..|entries| - 1]) == Ok(before)
    requires ArgumentAccepted(entries[|entries| - 1].1) && HasPercent(entries[|entries| - 1].1).value
    requires decl == ParamName(lang, entries[|entries| - 1].0,
                               EventTypeName(FormatString.TypeCharOf(entries[|entries| - 1].1.s).value), true)
    ensures EventArguments(lang, entries) == Ok((if |before| > 0 then before + ", " else before) + decl)
  {
  }

  lemma PercentDeclStep(lang: Lang, entries: seq<(string, Json)>, decl: string)
    requires entries != []
    requires ArgumentAccepted(entries[|entries| - 1].1) && HasPercent(entries[|entries| - 1].1).value
    requires decl == ParamName(lang, entries[|entries| - 1].0,
                               EventTypeName(FormatString.TypeCharOf(entries[|entries| - 1].1.s).value), true)
    ensures ParamDecls(lang, entries) == ParamDecls(lang, entries[..|entries| - 1]) + [decl]
  {
  }

  lemma EventJoinPlain(lang: Lang, entries: seq<(string, Json)>, before: string)
    requires entries != []
    requires EventArguments(lang, entries[..|entries| - 1]) == Ok(before)
    requires ArgumentAccepted(entries[|entries| - 1].1) && !HasPercent(entries[|entries| - 1].1).value
    ensures EventArguments(lang, entries) == Ok(before)
    ensures ParamDecls(lang, entries) == ParamDecls(lang, entries[..|entries| - 1])
  {
    assert ParamDecls(lang, entries) == ParamDecls(lang, entries[..|entries| - 1]) + [];
  }

  /** An event parameter that is a number, a bool or null fails the `"%" in`
      test, so the event cannot be defined. */
  lemma NonStringParamFails(lang: Lang, entries: seq<(string, Json)>, k: nat)
    requires k < |entries|
    requires entries[k].1.JInt? || entries[k].1.JFloat? || entries[k].1.JBool? || entries[k].1.JNull?
    ensures EventArguments(lang, entries).Err?
  {
    EventArgumentsJoin(lang, entries);
    assert !ArgumentAccepted(entries[k].1);
  }

  /** A defined event's parameters are strings and objects only: numbers, bools
      and null fail the arguments loop and lists fail the map, so the map's
      float and int entries are never written for an event. */
  lemma EventParamsAreStringsOrObjects(lang: Lang, methodName: string, eventName: Json, eventParams: Json)
    requires EventMethodDefinition(lang, methodName, eventName, eventParams).Ok?
    ensures var entries := IterEntries(eventParams).value;
      forall k :: 0 <= k < |entries| ==> entries[k].1.JStr? || entries[k].1.JObj?
  {
    var entries := IterEntries(eventParams).value;
    EventArgumentsJoin(lang, entries);
    MapParamsNoList(lang, entries);
    forall k | 0 <= k < |entries|
      ensures entries[k].1.JStr? || entries[k].1.JObj?
    {
      assert ArgumentAccepted(entries[k].1);
    }
  }

  /** An event method is three lines: its name one level into the class, its
      argument list alone one level deeper, its return statement back at the
      first. */
  lemma EventBlock(level: nat, e: EventMethod)
    ensures MethodBlock(level, EventLines(e))
      == [Indent(level + 1) + e.name, Indent(level + 2) + e.arguments, Indent(level + 1) + e.returnValue]
  {
    assert Middle(EventLines(e)) == [e.arguments];
    PrefixedOne(Indent(level + 2), e.arguments);
  }

  // ---------------------------------------------------------------------------
  // Properties of the parse
  // ---------------------------------------------------------------------------

  /** An object whose `_name` is null, which the loop parses as a nested class. */
  predicate IsNestedClass(v: Json)
  {
    v.JObj? && FindKey(v.fields, "_name").Some? && v.fields[FindKey(v.fields, "_name").value].1 == JNull
  }

  /** A property value the loop gets past: a string without `%`, a number, a
      bool, or an event object with a non-null `_name` and a `_params` whose
      method can be defined. */
  predicate Accepted(lang: Lang, key: string, v: Json)
  {
    match v
    case JStr(s) => '%' !in s
    case JFloat(_) => true
    case JInt(_) => true
    case JBool(_) => true
    case JList(_) => false
    case JNull => false
    case JObj(fields) =>
      FindKey(fields, "_name").Some? && fields[FindKey(fields, "_name").value].1 != JNull &&
      FindKey(fields, "_params").Some? &&
      EventMethodDefinition(lang, key, fields[FindKey(fields, "_name").value].1,
                            fields[FindKey(fields, "_params").value].1).Ok?
  }

  /** A nested class can never be parsed: its own `_name` entry is null, and
      the loop reads `value["_name"]` of that null. */
  lemma NestedClassFails(lang: Lang, key: string, value: Json, acc: ClassDecl)
    requires IsNestedClass(value)
    ensures AddProperty(lang, key, value, acc).Err?
  {
    var ni := FindKey(value.fields, "_name").value;
    var d := Unparsed(key, acc.level + 1);
    if ParseEntries(lang, value, ni, d).Ok? {
      var before := ParseEntries(lang, value, ni, d).value;
      assert AddProperty(lang, value.fields[ni].0, value.fields[ni].1, before) == Err(TypeError);
    }
    assert ParseEntries(lang, value, ni + 1, d).Err?;
    ParseEntriesStops(lang, value, ni + 1, |value.fields|, d);
    assert ParseClass(lang, value, d).Err?;
  }

  /** Exactly the accepted values are added: every other one fails, a string
      holding `%` with an AttributeError, a list with "Arrays are not
      supported!", null with a TypeError and an object without `_name` with a
      KeyError. */
  lemma AddPropertyAccepts(lang: Lang, key: string, value: Json, acc: ClassDecl)
    ensures AddProperty(lang, key, value, acc).Ok? <==> Accepted(lang, key, value)
    ensures value.JStr? && '%' in value.s ==> AddProperty(lang, key, value, acc) == Err(AttributeError)
    ensures value.JList? ==> AddProperty(lang, key, value, acc) == Err(ArraysNotSupported)
    ensures value.JNull? ==> AddProperty(lang, key, value, acc) == Err(TypeError)
    ensures value.JObj? && FindKey(value.fields, "_name").None?
      ==> AddProperty(lang, key, value, acc) == Err(KeyError("_name"))
  {
    if IsNestedClass(value) {
      NestedClassFails(lang, key, value, acc);
    }
  }

  /** A property that is not accepted ends the parse: the parse fails, with that
      property's own error when the ones before it were added. */
  lemma EntryFails(lang: Lang, owner: Json, i: nat, n: nat, d: ClassDecl)
    requires owner.JObj? && i < n <= |owner.fields|
    requires !Accepted(lang, owner.fields[i].0, owner.fields[i].1)
    ensures ParseEntries(lang, owner, n, d).Err?
    ensures ParseEntries(lang, owner, i, d).Ok? ==>
      ParseEntries(lang, owner, n, d)
        == AddProperty(lang, owner.fields[i].0, owner.fields[i].1, ParseEntries(lang, owner, i, d).value)
  {
    var key, value := owner.fields[i].0, owner.fields[i].1;
    var before := ParseEntries(lang, owner, i, d);
    if before.Ok? {
      ParseEntriesNext(lang, owner, i, d, before.value);
      AddPropertyAccepts(lang, key, value, before.value);
      var after := ParseEntries(lang, owner, i + 1, d);
      assert after == AddProperty(lang, key, value, before.value) && after.Err?;
      ParseEntriesStops(lang, owner, i + 1, n, d);
    } else {
      ParseEntriesStops(lang, owner, i, n, d);
    }
  }

  lemma ParseEntriesNext(lang: Lang, owner: Json, i: nat, d: ClassDecl, acc: ClassDecl)
    requires owner.JObj? && i < |owner.fields| && ParseEntries(lang, owner, i, d) == Ok(acc)
    ensures ParseEntries(lang, owner, i + 1, d) == AddProperty(lang, owner.fields[i].0, owner.fields[i].1, acc)
  {
  }

  /** A class that parses holds accepted values only: no string with `%`, no
      list, no null, no nested class. */
  lemma ParsedValuesAccepted(lang: Lang, j: Json, d: ClassDecl)
    requires j.JObj? && ParseClass(lang, j, d).Ok?
    ensures forall k :: 0 <= k < |j.fields| ==> Accepted(lang, j.fields[k].0, j.fields[k].1)
  {
    forall k | 0 <= k < |j.fields|
      ensures Accepted(lang, j.fields[k].0, j.fields[k].1)
    {
      if !Accepted(lang, j.fields[k].0, j.fields[k].1) {
        EntryFails(lang, j, k, |j.fields|, d);
      }
    }
  }

  /** The constant line a property adds, if it adds one. */
  function AttributeOf(lang: Lang, key: string, v: Json): seq<string>
  {
    match v
    case JStr(s) => if '%' in s then [] else [ConstLine(lang, key, Quoted(s))]
    case JFloat(x) => [ConstLine(lang, key, Fixed2(x))]
    case JInt(_) => [ConstLine(lang, key, PercentD(v))]
    case JBool(_) => [ConstLine(lang, key, PercentD(v))]
    case _ => []
  }

  /** The event method a property adds, if it adds one. */
  function EventMethodOf(lang: Lang, key: string, v: Json): seq<EventMethod>
  {
    if !v.JObj? then []
    else match FindKey(v.fields, "_name")
      case None => []
      case Some(ni) =>
        if v.fields[ni].1 == JNull then []
        else match FindKey(v.fields, "_params")
          case None => []
          case Some(pi) =>
            var m := EventMethodDefinition(lang, key, v.fields[ni].1, v.fields[pi].1);
            if m.Ok? then [m.value] else []
  }

  /** The constant lines of the properties `fields`, in order. */
  function ConstantLines(lang: Lang, fields: seq<(string, Json)>): seq<string>
  {
    if fields == [] then []
    else ConstantLines(lang, fields[..|fields| - 1]) + AttributeOf(lang, fields[|fields| - 1].0, fields[|fields| - 1].1)
  }

  /** The event methods of the properties `fields`, in order. */
  function EventMethods(lang: Lang, fields: seq<(string, Json)>): seq<EventMethod>
  {
    if fields == [] then []
    else EventMethods(lang, fields[..|fields| - 1]) + EventMethodOf(lang, fields[|fields| - 1].0, fields[|fields| - 1].1)
  }

  /** The class d becomes once the properties `fields` are added in order. */
  function WithMembers(lang: Lang, d: ClassDecl, fields: seq<(string, Json)>): ClassDecl
  {
    d.(attributes := d.attributes + ConstantLines(lang, fields), methods := d.methods + EventMethods(lang, fields))
  }

  /** Adding one property adds exactly one member: its constant line or its
      event method. */
  lemma AddPropertyShape(lang: Lang, key: string, value: Json, acc: ClassDecl, r: ClassDecl)
    requires AddProperty(lang, key, value, acc) == Ok(r)
    ensures r == acc.(attributes := acc.attributes + AttributeOf(lang, key, value),
                      methods := acc.methods + EventMethodOf(lang, key, value))
    ensures |AttributeOf(lang, key, value)| + |EventMethodOf(lang, key, value)| == 1
  {
    if IsNestedClass(value) {
      NestedClassFails(lang, key, value, acc);
    }
  }

  lemma InOrderStep(lang: Lang, fields: seq<(string, Json)>, d: ClassDecl, acc: ClassDecl, r: ClassDecl)
    requires fields != []
    requires acc == WithMembers(lang, d, fields[..|fields| - 1])
    requires |ConstantLines(lang, fields[..|fields| - 1])| + |EventMethods(lang, fields[..|fields| - 1])| == |fields| - 1
    requires r == acc.(attributes := acc.attributes + AttributeOf(lang, fields[|fields| - 1].0, fields[|fields| - 1].1),
                       methods := acc.methods + EventMethodOf(lang, fields[|fields| - 1].0, fields[|fields| - 1].1))
    requires |AttributeOf(lang, fields[|fields| - 1].0, fields[|fields| - 1].1)|
      + |EventMethodOf(lang, fields[|fields| - 1].0, fields[|fields| - 1].1)| == 1
    ensures r == WithMembers(lang, d, fields)
    ensures |ConstantLines(lang, fields)| + |EventMethods(lang, fields)| == |fields|
  {
    var init := fields[..|fields| - 1];
    var (key, value) := fields[|fields| - 1];
    AppendAssoc(d.attributes, ConstantLines(lang, init), AttributeOf(lang, key, value));
    AppendAssoc(d.methods, EventMethods(lang, init), EventMethodOf(lang, key, value));
  }

  lemma ParseEntriesLast(lang: Lang, owner: Json, i: nat, d: ClassDecl, acc: ClassDecl, r: ClassDecl)
    requires owner.JObj? && 0 < i <= |owner.fields|
    requires ParseEntries(lang, owner, i - 1, d) == Ok(acc) && ParseEntries(lang, owner, i, d) == Ok(r)
    ensures AddProperty(lang, owner.fields[i - 1].0, owner.fields[i - 1].1, acc) == Ok(r)
  {
  }

  /** Parsing the first i properties adds their constant lines and their event
      methods, in order, one member per property, and changes nothing else. */
  lemma {:induction false} EntriesInOrder(lang: Lang, owner: Json, i: nat, d: ClassDecl)
    requires owner.JObj? && i <= |owner.fields| && ParseEntries(lang, owner, i, d).Ok?
    ensures ParseEntries(lang, owner, i, d).value == WithMembers(lang, d, owner.fields[..i])
    ensures |ConstantLines(lang, owner.fields[..i])| + |EventMethods(lang, owner.fields[..i])| == i
  {
    if i == 0 {
      assert owner.fields[..0] == [];
    } else {
      EntriesInOrder(lang, owner, i - 1, d);
      var acc := ParseEntries(lang, owner, i - 1, d).value;
      var r := ParseEntries(lang, owner, i, d).value;
      ParseEntriesLast(lang, owner, i, d, acc, r);
      PrefixSnoc(owner.fields, i - 1);
      AddPropertyShape(lang, owner.fields[i - 1].0, owner.fields[i - 1].1, acc, r);
      InOrderStep(lang, owner.fields[..i], d, acc, r);
    }
  }

  /** The properties a `for key in properties` loop visits: an object's, none
      for an empty list or string. */
  function Properties(j: Json): seq<(string, Json)>
  {
    if j.JObj? then j.fields else []
  }

  /** A parsed class keeps its name, its level and its nested classes (a
      nested class never parses) and gains one constant line or event method
      per property, in order. */
  lemma ParsedClass(lang: Lang, j: Json, d: ClassDecl)
    requires ParseClass(lang, j, d).Ok?
    ensures ParseClass(lang, j, d).value == WithMembers(lang, d, Properties(j))
    ensures |ConstantLines(lang, Properties(j))| + |EventMethods(lang, Properties(j))| == |Properties(j)|
  {
    if j.JObj? {
      EntriesInOrder(lang, j, |j.fields|, d);
      assert j.fields[..|j.fields|] == j.fields;
    } else {
      assert WithMembers(lang, d, []) == d;
    }
  }

  // ---------------------------------------------------------------------------
  // Properties of the generated lines and of the file
  // ---------------------------------------------------------------------------

  /** Every method is written as three lines. */
  lemma {:induction false} MethodsLinesLength(level: nat, ms: seq<EventMethod>)
    ensures |MethodsLines(level, ms)| == 3 * |ms|
  {
    if ms != [] {
      MethodsLinesLength(level, ms[..|ms| - 1]);
      EventBlock(level, ms[|ms| - 1]);
    }
  }

  /** The number of lines before the nested classes: the header, one per
      constant, a blank line and three per method when there are methods, and
      two blank lines when there are nested classes. */
  lemma HeadLength(lang: Lang, d: ClassDecl)
    ensures |ClassHead(lang, d)|
      == 1 + |d.attributes| + (if |d.methods| > 0 then 1 else 0) + 3 * |d.methods| + (if |d.inners| > 0 then 2 else 0)
  {
    MethodsLinesLength(d.level, d.methods);
  }

  lemma {:induction false} MethodsLinesStartWith(level: nat, ms: seq<EventMethod>)
    ensures AllStartWith(MethodsLines(level, ms), Indent(level))
  {
    if ms != [] {
      var e := ms[|ms| - 1];
      MethodsLinesStartWith(level, ms[..|ms| - 1]);
      EventBlock(level, e);
      IndentAdd(level, 1);
      IndentAdd(level, 2);
      var block := [Indent(level + 1) + e.name, Indent(level + 2) + e.arguments, Indent(level + 1) + e.returnValue];
      assert Indent(level + 1) + e.name == Indent(level) + (Indent(1) + e.name);
      assert Indent(level + 2) + e.arguments == Indent(level) + (Indent(2) + e.arguments);
      assert Indent(level + 1) + e.returnValue == Indent(level) + (Indent(1) + e.returnValue);
      assert AllStartWith(block, Indent(level));
      AllStartWithAppend(MethodsLines(level, ms[..|ms| - 1]), block, Indent(level));
    }
  }

  lemma {:induction false} InnerLinesStartWith(lang: Lang, d: ClassDecl, k: nat)
    requires k <= |d.inners|
    ensures AllStartWith(InnerLines(lang, d, k), Indent(d.level))
  {
    if k > 0 {
      InnerLinesStartWith(lang, d, k - 1);
      PrefixedStartWith(Indent(d.level), Indent(d.level), ClassLines(lang, d.inners[k - 1]));
      AllStartWithAppend(InnerLines(lang, d, k - 1),
        Prefixed(Indent(d.level), ClassLines(lang, d.inners[k - 1])), Indent(d.level));
    }
  }

  lemma ClassLinesIndented(lang: Lang, d: ClassDecl)
    ensures AllStartWith(ClassLines(lang, d), Indent(d.level))
  {
    var l := d.level;
    var p := Indent(l);
    var head := [p + ClassHeader(lang, d.name, l)];
    var close := [p + "}"];
    IndentAdd(l, 1);
    assert StartsWith(Indent(l + 1), p);
    assert StartsWith(head[0], p) && StartsWith(close[0], p) && StartsWith(p, p);
    PrefixedStartWith(p, Indent(l + 1), d.attributes);
    MethodsLinesStartWith(l, d.methods);
    InnerLinesStartWith(lang, d, |d.inners|);
    assert AllStartWith(MethodGap(d), p) && AllStartWith(InnerGap(d), p);
    AllStartWithAppend(head, Prefixed(Indent(l + 1), d.attributes), p);
    AllStartWithAppend(head + Prefixed(Indent(l + 1), d.attributes), MethodGap(d), p);
    AllStartWithAppend(head + Prefixed(Indent(l + 1), d.attributes) + MethodGap(d), MethodsLines(l, d.methods), p);
    AllStartWithAppend(head + Prefixed(Indent(l + 1), d.attributes) + MethodGap(d) + MethodsLines(l, d.methods),
      InnerGap(d), p);
    assert ClassHead(lang, d) == head + Prefixed(Indent(l + 1), d.attributes) + MethodGap(d) + MethodsLines(l, d.methods) + InnerGap(d);
    AllStartWithAppend(ClassHead(lang, d), InnerLines(lang, d, |d.inners|), p);
    AllStartWithAppend(ClassHead(lang, d) + InnerLines(lang, d, |d.inners|), close, p);
  }

  /** The file is its header and a blank line, the declaration of `EventData`,
      three newlines (the separator line and its own newline after the one of
      the declaration's last line), then the class. */
  lemma FileLayout(lang: Lang, d: ClassDecl)
    ensures FileText(lang, d)
      == FileHeader(lang) + "\n" + Unlines(EventClassDefinition(lang)) + ("\n\n" + "\n") + Unlines(ClassLines(lang, d))
  {
    UnlinesLayout(FileHeader(lang), EventClassDefinition(lang), "\n\n", ClassLines(lang, d));
  }

  /** A generated file starts with its header comment followed by a blank
      line, and ends with the closing brace of the class at its level and a
      newline. */
  lemma FileShape(lang: Lang, d: ClassDecl)
    ensures StartsWith(FileText(lang, d), FileHeader(lang) + "\n")
    ensures var t := FileText(lang, d); var last := Indent(d.level) + "}\n";
      |last| <= |t| && t[|t| - |last|..] == last
  {
    var xs := [FileHeader(lang)] + EventClassDefinition(lang) + ["\n\n"] + ClassLines(lang, d);
    UnlinesFirst(xs);
    UnlinesLast(xs);
    assert xs[|xs| - 1] == Indent(d.level) + "}";
  }

  /** The Swift file: the missing comma in the Swift declaration of
      `EventData` puts the opening of the struct and its `name` field on one
      physical line, right after the header and its blank line; the `params`
      field and the closing brace follow on lines of their own, then the
      separator's newlines and the class. */
  lemma SwiftEventData(d: ClassDecl)
    ensures FileText(Swift, d)
      == FileHeader(Swift) + "\n"
         + ("struct EventData {" + "\tlet name: String" + "\n")
         + ("\tlet params: [String: Any]" + "\n")
         + ("}" + "\n")
         + "\n\n\n" + Unlines(ClassLines(Swift, d))
  {
    var h, open, params, close := FileHeader(Swift), "struct EventData {" + "\tlet name: String", "\tlet params: [String: Any]", "}";
    var rest := Unlines(ClassLines(Swift, d));
    FileLayout(Swift, d);
    UnlinesThree(open, params, close);
    assert "\n\n" + "\n" == "\n\n\n";
    calc {
      FileText(Swift, d);
      h + "\n" + (open + "\n" + params + "\n" + close + "\n") + "\n\n\n" + rest;
      { AppendAssoc(h + "\n", open + "\n" + params + "\n", close + "\n");
        AppendAssoc(h + "\n", open + "\n", params + "\n");
        AppendAssoc(open + "\n", params, "\n"); }
      h + "\n" + (open + "\n") + (params + "\n") + (close + "\n") + "\n\n\n" + rest;
    }
  }
}
