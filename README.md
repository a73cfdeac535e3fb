# Kotlin/Swift constant generators, modelled in Dafny

Both generators read a JSON description of a constants class and write it
out as Kotlin or Swift source.

**The older generator, `kotlinswift_const_creator.py`.** Its input is an
object with a `className` and `classProperties`. Each property becomes one
of three things:

- a constant (`const val` / `static let`);
- a method built from a printf-style template such as
  `tab_bar_click_%d{numberOfClicks}_times`;
- a nested class, written one level deeper.

**The later generator, `pykotlinswift_const_creator.py`.** It takes the
class name as an argument and treats the whole object as properties. A
string holding `%` makes it call a method that its base class no longer
has. An object with a non-null `_name` becomes an event method. That method
has three lines:

- a signature with one parameter per `_params` entry that holds `%`;
- a body that builds `EventData(...)` with a `mapOf(...)` of the
  parameters;
- a closing brace.

The generated file holds a header comment, the language's `EventData` type
and then the class.

**Modules.**

| module | file | what it holds |
|---|---|---|
| `PyErrors` | `errors.dfy` | the Python exceptions the code can raise, as an `Error` value inside a `Result` |
| `Strings` | `strings.dfy` | joining, line output, `str.replace` and the numerals of `%d` |
| `Json` | `json.dfy` | the parsed JSON value, dictionary lookup, `str()` of a value, and `%d` / `%.2f` |
| `Target` | `target.dfy` | what the `KotlinClass` and `SwiftClass` subclasses fix, chosen by a `Lang` value |
| `FormatString` | `format_string.dfy` | the older template compiler: the `re.split` scan it relies on, `re.findall` and the compilation loop |
| `KotlinSwiftConstCreator` | `kotlinswift_const_creator.dfy` | the older generator |
| `PyKotlinSwiftConstCreator` | `pykotlinswift_const_creator.dfy` | the later generator |

`Target` covers the subclasses' class header, constant keyword,
interpolation syntax and indentation.

**How each generator is modelled.** Each one has two layers:

- **A `CodeClass` class.** Its fields (`name`, `indentationLevel`,
  `attributeLines`, `methodProperties`, `innerClasses`) are updated in place
  by `ParseClassObject` and its helpers. `generateClassDefinitionLines`
  builds the output with loops.
- **Pure functions.** `ParseClass` and `ClassLines` say what a parse
  produces and which lines a class value gives.

Every method's `ensures` ties its result, or the class's new state, to
these functions. The lemmas then state the properties of the functions:
parse order, errors, indentation and file layout.

A Python exception becomes an `Err` result. A method that may raise returns
the error it raises, if any.

Where the documented behaviour and the code differ, the model follows the
code. For example, an event parameter holding an integer is documented as
usable, but `"%" in 3` raises a TypeError, so such an event fails
(`PyKotlinSwiftConstCreator.NonStringParamFails`).

## Model

| member | source | states |
|---|---|---|
| Strings.ReplaceAbsent | kotlinswift_const_creator.py:74 | `str.replace` with a pattern that never occurs returns the text unchanged |
| Strings.ReplaceCharRemoves | pykotlinswift_const_creator.py:203 | after replacing every occurrence of a character, the character no longer occurs |
| Strings.ReplaceCharLength | pykotlinswift_const_creator.py:249 | replacing a character changes the length by the number of occurrences times the replacement's extra length |
| Strings.UnlinesAppend | pykotlinswift_const_creator.py:267-269 | writing two lists of lines, each followed by a newline, gives the two texts one after the other |
| Strings.NatTextDigits | kotlinswift_const_creator.py:97 | `%d` of a natural number is a non-empty run of decimal digits |
| Strings.NatTextInjective | kotlinswift_const_creator.py:60 | distinct counters give distinct numerals, so the generated names `a1`, `a2`, ... are distinct |
| Strings.IntTextHasNoPoint | kotlinswift_const_creator.py:97 | `%d` of an integer holds no decimal point |
| Json.FindKey | kotlinswift_const_creator.py:84-85 | a lookup finds an entry with the key, and finds nothing exactly when no entry has the key (the KeyError case) |
| Json.PyStr | pykotlinswift_const_creator.py:198-199 | `%s` of a string is the string itself, of an int its decimal numeral, of a bool `True` or `False`, of null `None`; it fails exactly on a float, a list or an object |
| Json.RoundHalfEven | kotlinswift_const_creator.py:95 | the rounded value is a natural number within one half of the exact value, and a value exactly halfway goes to the even neighbour |
| Json.Fixed2Shape | kotlinswift_const_creator.py:95 | `%.2f` writes exactly two digits after its only decimal point |
| Target.Indentation | pykotlinswift_const_creator.py:126-130 | the indentation loop returns `level` copies of the four-space indentation unit |
| Target.IndentShape | pykotlinswift_const_creator.py:168 | the indentation of a level is four spaces per level, and nothing but spaces |
| Target.IndentAdd | kotlinswift_const_creator.py:131-134 | indenting an already indented line adds the two levels |
| Target.WriteLines | pykotlinswift_const_creator.py:135-141 | the `writeLine` loop appends every line, in order, behind the level's indentation, after the lines already written |
| Target.AppendLines | pykotlinswift_const_creator.py:263-265 | the append loop puts the class's lines after the file lines already present, in order |
| Target.WriteText | pykotlinswift_const_creator.py:267-269 | the concatenation loop gives every line followed by a newline, in order |
| Target.InterpInjective | pykotlinswift_const_creator.py:179-180 | interpolation of different names gives different text in each language |
| Target.InterpShape | kotlinswift_const_creator.py:154-155 | an interpolation holds the expression unchanged between a two-character opener and a one-character closer fixed by the language: `${`...`}` in Kotlin, `\(`...`)` in Swift (lines 176-177) |
| Target.ClassHeaderShape | kotlinswift_const_creator.py:151-152 | a Kotlin class opens with `object <name> {` and nothing more; a Swift one (lines 173-174) opens with `struct <name> {` and ends with `private init() {}` one level deeper than the class, on a line of its own ended by a newline |
| Target.ClassHeaderInjective | kotlinswift_const_creator.py:173-174 | distinct class names give distinct openings, in each language and at each level |
| FormatString.TokenLen | kotlinswift_const_creator.py:36 | a match of the split pattern starts with `%` and stays inside the template, and there is none exactly when neither alternative matches |
| FormatString.GroupsOfTokens | kotlinswift_const_creator.py:36 | the two capture groups of a match: alternative 1's text and None, or None and alternative 2's text |
| FormatString.SplitIsLeftmost | kotlinswift_const_creator.py:36 | `re.split`'s result is: a literal holding no match, the next match's groups, and the split of the rest |
| FormatString.SplitIsUnique | kotlinswift_const_creator.py:36 | any split by leftmost matches is the one `re.split` returns |
| FormatString.SplitRejoins | kotlinswift_const_creator.py:36 | the split pieces put back together give the template |
| FormatString.TypeCharOfFirst | kotlinswift_const_creator.py:44 | the type character follows the leftmost `%.` match, and the IndexError happens exactly when `%.` matches nowhere |
| FormatString.TypeNameRange | kotlinswift_const_creator.py:46-52 | the parameter type is `Int`, `%%Float`, `String` or empty, and empty exactly when the type character is none of `d`, `f`, `s` |
| FormatString.LastIndexInIsLast | kotlinswift_const_creator.py:58 | the `}` found is the last one in the range, where the greedy group ends, and none is found exactly when the range holds no `}` |
| FormatString.BracedNameFirst | kotlinswift_const_creator.py:58 | the name is the text between the leftmost `{` that has a `}` later on its line and the last such `}`; the IndexError happens exactly when no `{` has one |
| FormatString.Placeholder | kotlinswift_const_creator.py:42-75 | a placeholder fails only with IndexError; its parameter's type is the one its first `%.` names; a braced placeholder interpolates exactly the parameter it declares, and an unbraced one at position k declares `a<k>` |
| FormatString.ArgumentsStep | kotlinswift_const_creator.py:65-68 | adding `, ` only after a non-empty argument list gives the declarations joined by `, ` |
| FormatString.CompileParams | kotlinswift_const_creator.py:54-62 | there is one parameter per placeholder fragment, in order, and the counter advances at every placeholder, named or not |
| FormatString.CompileOkIff | kotlinswift_const_creator.py:38-77 | a template compiles exactly when each of its placeholder fragments is well formed, whatever the language |
| FormatString.PlaceholderOk | kotlinswift_const_creator.py:42-60 | a placeholder fragment is accepted exactly when `%.` matches in it and, when it holds `{`, `\{(.*)\}` matches too |
| FormatString.CreateMethodDefinition | kotlinswift_const_creator.py:31-81 | the loop over the split template returns the name, the argument list and the return text of the compiled template, or the IndexError it raises |
| FormatString.PlainTemplate | kotlinswift_const_creator.py:79-81 | a template without `%` gives no arguments and returns itself |
| FormatString.NamedTemplate | kotlinswift_const_creator.py:55-72 | one `%c{name}` gives one parameter `name` of the type `c` stands for, and that placeholder becomes an interpolation of `name` |
| FormatString.BareTemplate | kotlinswift_const_creator.py:73-75 | one bare `%cx` gives a parameter `a1`, but the return text interpolates the fragment unchanged, because the replaced text `%%c` never occurs |
| FormatString.TrailingPlaceholder | kotlinswift_const_creator.py:36-60 | a template ending in a bare `%c` is not split at all, and the whole template is interpolated as parameter `a1` |
| KotlinSwiftConstCreator.CodeClass.constructor | kotlinswift_const_creator.py:12-20 | a new class is named `Unknown`, sits at level 0 and holds no members |
| KotlinSwiftConstCreator.CodeClass.ParseClassObject | kotlinswift_const_creator.py:83-102 | parsing raises exactly the error of the parse function, and otherwise leaves the class holding the parse's result |
| KotlinSwiftConstCreator.CodeClass.ParseProperty | kotlinswift_const_creator.py:88-102 | one property adds a method, a constant line or a nested class parsed one level deeper, or raises that property's error |
| KotlinSwiftConstCreator.CodeClass.AppendMethod | kotlinswift_const_creator.py:91 | the method line goes at the end of the methods, and nothing else changes |
| KotlinSwiftConstCreator.CodeClass.AppendAttribute | kotlinswift_const_creator.py:93-97 | the constant line goes at the end of the constants, and nothing else changes |
| KotlinSwiftConstCreator.CodeClass.AppendInnerClass | kotlinswift_const_creator.py:102 | the nested class goes at the end of the nested classes, and nothing else changes |
| KotlinSwiftConstCreator.CodeClass.SetName | kotlinswift_const_creator.py:84 | only the name changes |
| KotlinSwiftConstCreator.CodeClass.GenerateClassDefinitionLines | kotlinswift_const_creator.py:110-138 | the lines written are the class's lines: header, constants, methods, nested classes, closing brace |
| KotlinSwiftConstCreator.CodeClass.WriteClassHead | kotlinswift_const_creator.py:116-129 | the header, the constants one level deeper, a blank line and the methods when there are methods, and two blank lines when there are nested classes |
| KotlinSwiftConstCreator.CodeClass.WriteInnerClassLines | kotlinswift_const_creator.py:131-134 | each nested class's lines, in order, indented once more by this class's level |
| KotlinSwiftConstCreator.GenerateStringFromCodeClass | kotlinswift_const_creator.py:187-198 | the file is the header comment and the class's lines, each followed by a newline |
| KotlinSwiftConstCreator.ConvertToFile | kotlinswift_const_creator.py:200-219 | converting a parsed JSON value gives the file text of the parsed class, or the error the parse raises |
| KotlinSwiftConstCreator.ParseEntriesStops | kotlinswift_const_creator.py:87-102 | once a property fails, the parse fails with that error whatever follows |
| KotlinSwiftConstCreator.ParseClassNested | kotlinswift_const_creator.py:99-101 | a parsed class keeps its level, and every nested class sits exactly one level below its parent, at any depth |
| KotlinSwiftConstCreator.OneMemberPerEntry | kotlinswift_const_creator.py:87-102 | every parsed property adds exactly one member |
| KotlinSwiftConstCreator.AddPropertyShape | kotlinswift_const_creator.py:89-102 | a property keeps the name and level and appends, after the existing members, its constant line, its method, or the class parsed from its value one level deeper |
| KotlinSwiftConstCreator.EntriesInOrder | kotlinswift_const_creator.py:87-102 | the constants, the methods and the nested classes (each parsed one level deeper) follow the order of the properties, after the existing members, and the name and level are kept |
| KotlinSwiftConstCreator.ListOrNullEntryFails | kotlinswift_const_creator.py:98-101 | a property whose value is a list or null makes the whole parse fail, with a TypeError unless an earlier property failed first |
| KotlinSwiftConstCreator.ClassLinesIndented | kotlinswift_const_creator.py:113-136 | every line of a class, its nested classes included, starts with the indentation of its level |
| KotlinSwiftConstCreator.ClassLinesFirst | kotlinswift_const_creator.py:116 | a class's first line is its header at its own level |
| KotlinSwiftConstCreator.HeadLength | kotlinswift_const_creator.py:116-129 | when there are nested classes, the lines before them number one for the header, one per constant, one blank line plus one per method when there are methods, and two blank lines |
| KotlinSwiftConstCreator.InnerHeaderIndent | kotlinswift_const_creator.py:127-134 | a nested class's header is indented by its own level plus its parent's level, that is 2l + 1 levels under a class at level l |
| KotlinSwiftConstCreator.FileShape | kotlinswift_const_creator.py:187-198 | a file starts with its header comment and a blank line, and ends with the class's closing brace and a newline |
| KotlinSwiftConstCreator.DemoMethod | kotlinswift_const_creator.py:222 | the demonstration template gives `static func nomeDoMetodo(numberOfClicks: Int) -> String { return "tab_bar_click_\(numberOfClicks)_times" }` |
| KotlinSwiftConstCreator.MethodLineShape | kotlinswift_const_creator.py:157-159 | a method line starts with `fun` (Swift, lines 179-181: `static func`), the name and the argument list in parentheses, and ends with the compiled return text between double quotes followed by ` }` |
| KotlinSwiftConstCreator.MethodLineOneLine | kotlinswift_const_creator.py:179-181 | a method line holds no newline when its name, arguments and return text hold none |
| PyKotlinSwiftConstCreator.CreateMapDefinition | pykotlinswift_const_creator.py:41-60 | the loop over the values gives the wrapped map text, or the error raised at the first list |
| PyKotlinSwiftConstCreator.CreateEventArguments | pykotlinswift_const_creator.py:66-86 | the arguments loop gives the argument list, or the error of the first parameter it cannot handle |
| PyKotlinSwiftConstCreator.CreateEventMethodDefinition | pykotlinswift_const_creator.py:62-92 | an event method is its name, its argument list and `return EventData(...)` of the event's name and map, or the first error raised |
| PyKotlinSwiftConstCreator.MapParamsStops | pykotlinswift_const_creator.py:43-59 | after a list raises, the values after it do not change the result |
| PyKotlinSwiftConstCreator.EventArgumentsStops | pykotlinswift_const_creator.py:66-86 | after a parameter raises, the parameters after it do not change the result |
| PyKotlinSwiftConstCreator.MapParamsJoin | pykotlinswift_const_creator.py:41-60 | when every value is a string or number, the map text is the entries joined by `, ` |
| PyKotlinSwiftConstCreator.DanglingSeparator | pykotlinswift_const_creator.py:46-58 | a null or object value after a non-empty text adds only `, `, so the map can end in a dangling separator |
| PyKotlinSwiftConstCreator.MapParamsNoList | pykotlinswift_const_creator.py:58-59 | a map that is written holds no list value |
| PyKotlinSwiftConstCreator.WrapMapNoEquals | pykotlinswift_const_creator.py:201-203 | the wrapped map holds no `=`, in keys and values alike; each became ` to ` (Kotlin) or `:` (Swift), as the length shows |
| PyKotlinSwiftConstCreator.WrapMapShape | pykotlinswift_const_creator.py:247-249 | the wrapped map is a `mapOf(...)` call in both languages (Kotlin: lines 201-203) |
| PyKotlinSwiftConstCreator.ParamName | pykotlinswift_const_creator.py:223-226 | every parameter ends with `name: Type`; a user-defined one, and every Kotlin one (lines 182-183), is exactly that; a Swift one that is not user-defined starts with `_ ` |
| PyKotlinSwiftConstCreator.EventInstanceShape | pykotlinswift_const_creator.py:244-245 | an event value calls `EventData(` with the event's name first (labelled `name:` in Swift) and the map last, closed by `)` (Kotlin: lines 198-199) |
| PyKotlinSwiftConstCreator.EventTypeNameRange | pykotlinswift_const_creator.py:73-79 | the parameter type is `Int`, `Float` or `String`, or empty exactly when the type character is none of `d`, `f`, `s` |
| PyKotlinSwiftConstCreator.EventTypeNameVsTypeName | pykotlinswift_const_creator.py:73-79 | the event type table agrees with the older template compiler's except on `f`, which gives `Float` where the older one gives `%%Float` |
| PyKotlinSwiftConstCreator.MapEntryShape | pykotlinswift_const_creator.py:49-57 | a string entry starts with `key = `; a float, int or bool entry starts with the constant keyword and then `key = `; an entry is empty exactly for null, an object or a list |
| PyKotlinSwiftConstCreator.MapEntryRepeatsConstant | pykotlinswift_const_creator.py:54-57 | a float, int or bool in an event's map is written as the whole constant declaration the same property gets in a class (lines 106-109), keyword included; a plain string entry is that declaration without its keyword |
| PyKotlinSwiftConstCreator.EventArgumentsJoin | pykotlinswift_const_creator.py:66-86 | the arguments loop succeeds exactly when every parameter is accepted, and then gives the declarations of the `%` parameters joined by `, ` |
| PyKotlinSwiftConstCreator.NonStringParamFails | pykotlinswift_const_creator.py:69 | a number, bool or null parameter makes `"%" in` raise a TypeError, so the event cannot be defined |
| PyKotlinSwiftConstCreator.EventParamsAreStringsOrObjects | pykotlinswift_const_creator.py:62-92 | an event that is defined has only string and object parameters |
| PyKotlinSwiftConstCreator.EventBlock | pykotlinswift_const_creator.py:146-150 | an event method is written as its name one level in, its argument list two levels in, and its return line one level in |
| PyKotlinSwiftConstCreator.CodeClass.constructor | pykotlinswift_const_creator.py:10-18 | a new class is named `Unknown`, sits at level 0 and holds no members |
| PyKotlinSwiftConstCreator.CodeClass.ParseClassObject | pykotlinswift_const_creator.py:95-124 | parsing raises exactly the error of the parse function, and otherwise leaves the class holding the parse's result |
| PyKotlinSwiftConstCreator.CodeClass.ParseProperty | pykotlinswift_const_creator.py:99-124 | one property adds a constant line, an event method or a nested class, or raises that property's error |
| PyKotlinSwiftConstCreator.CodeClass.ParseEvent | pykotlinswift_const_creator.py:113-118 | an object with a non-null `_name` adds the event method built from `_name` and `_params` |
| PyKotlinSwiftConstCreator.CodeClass.AppendMethod | pykotlinswift_const_creator.py:117-118 | the method goes at the end of the methods, and nothing else changes |
| PyKotlinSwiftConstCreator.CodeClass.AppendAttribute | pykotlinswift_const_creator.py:104-109 | the constant line goes at the end of the constants, and nothing else changes |
| PyKotlinSwiftConstCreator.CodeClass.AppendInnerClass | pykotlinswift_const_creator.py:124 | the nested class goes at the end of the nested classes, and nothing else changes |
| PyKotlinSwiftConstCreator.CodeClass.SetName | pykotlinswift_const_creator.py:121 | only the name changes |
| PyKotlinSwiftConstCreator.CodeClass.SetIndentationLevel | pykotlinswift_const_creator.py:122 | only the level changes |
| PyKotlinSwiftConstCreator.CodeClass.GenerateClassDefinitionLines | pykotlinswift_const_creator.py:132-163 | the lines written are the class's lines: header, constants, methods, nested classes, closing brace |
| PyKotlinSwiftConstCreator.CodeClass.WriteClassHead | pykotlinswift_const_creator.py:138-154 | the header, the constants one level deeper, a blank line and the method blocks when there are methods, and two blank lines when there are nested classes |
| PyKotlinSwiftConstCreator.CodeClass.WriteInnerClassLines | pykotlinswift_const_creator.py:156-159 | each nested class's lines, in order, indented once more by this class's level |
| PyKotlinSwiftConstCreator.WriteMethods | pykotlinswift_const_creator.py:146-150 | every method's block, in order, after the lines already written |
| PyKotlinSwiftConstCreator.WriteMethodLines | pykotlinswift_const_creator.py:147-150 | a method's first and last line one level in, and the lines between them two levels in |
| PyKotlinSwiftConstCreator.GenerateStringFromCodeClass | pykotlinswift_const_creator.py:254-271 | the file is the header comment, the `EventData` definition, a spacer and the class's lines, each followed by a newline |
| PyKotlinSwiftConstCreator.ConvertToFile | pykotlinswift_const_creator.py:273-294 | converting a parsed JSON value under a class name gives the file text of the parsed class, or the error the parse raises |
| PyKotlinSwiftConstCreator.ParseEntriesStops | pykotlinswift_const_creator.py:98-124 | once a property fails, the parse fails with that error whatever follows |
| PyKotlinSwiftConstCreator.NestedClassFails | pykotlinswift_const_creator.py:112-124 | an object whose `_name` is null can never be parsed: the nested parse reaches `None["_name"]` on that very entry |
| PyKotlinSwiftConstCreator.AddPropertyAccepts | pykotlinswift_const_creator.py:99-124 | a property is added exactly when it is accepted; otherwise the error is the one shown below |
| PyKotlinSwiftConstCreator.EntryFails | pykotlinswift_const_creator.py:98-124 | a property that is not accepted fails the parse, with its own error when the properties before it were added |
| PyKotlinSwiftConstCreator.ParsedValuesAccepted | pykotlinswift_const_creator.py:95-124 | a class that parses holds no string with `%`, no list, no null and no nested class |
| PyKotlinSwiftConstCreator.AddPropertyShape | pykotlinswift_const_creator.py:100-118 | a property adds exactly one member, a constant line or an event method, and changes nothing else |
| PyKotlinSwiftConstCreator.EntriesInOrder | pykotlinswift_const_creator.py:98-124 | the constants and methods follow the order of the properties, one member per property, and the name, level and nested classes are kept |
| PyKotlinSwiftConstCreator.ParsedClass | pykotlinswift_const_creator.py:95-124 | a successful parse adds every property's member in order, keeps name, level and nested classes, and the member counts sum to the number of properties |
| PyKotlinSwiftConstCreator.MethodsLinesLength | pykotlinswift_const_creator.py:146-150 | every event method takes three lines |
| PyKotlinSwiftConstCreator.HeadLength | pykotlinswift_const_creator.py:138-154 | the lines before the nested classes number one for the header, one per constant, one blank line plus three per method when there are methods, and two blank lines when there are nested classes |
| PyKotlinSwiftConstCreator.MethodsLinesStartWith | pykotlinswift_const_creator.py:146-150 | every method line starts with the class's indentation |
| PyKotlinSwiftConstCreator.ClassLinesIndented | pykotlinswift_const_creator.py:135-161 | every line of a class, its nested classes included, starts with the indentation of its level |
| PyKotlinSwiftConstCreator.FileLayout | pykotlinswift_const_creator.py:254-271 | the file is the header, a newline, the `EventData` lines, the spacer's three newlines and the class's lines |
| PyKotlinSwiftConstCreator.FileShape | pykotlinswift_const_creator.py:254-271 | a file starts with its header comment and a newline, and ends with the class's closing brace and a newline |
| PyKotlinSwiftConstCreator.SwiftEventData | pykotlinswift_const_creator.py:236-242 | in the Swift file, right after the header and its newline, the two literals left without a comma form one physical line `struct EventData {` followed by a tab and the `name` field; the `params` field and the closing brace follow on lines of their own, then three newlines and the class's lines |

`PyKotlinSwiftConstCreator.AddPropertyAccepts` names these errors:

- a string holding `%` gives AttributeError;
- a list gives "Arrays are not supported!";
- null gives TypeError;
- an object without `_name` gives KeyError.

## Left out

- Reading the template file, `json.loads` and printing the result are left out. The model starts from a parsed `Json` value and returns the file text.
- The `__main__` blocks are left out. The older one only prints the demonstration method, whose output is `KotlinSwiftConstCreator.DemoMethod`; the later one reads and prints a file.
- `pykotlinswift.py` and `mobile_event_updater.py` are not part of this model.
- The unused `asyncore` import is left out.
- The `"invalid json"` branches are left out. `isinstance(x, object)` holds for every value, so they cannot be reached.
- Swift's `createParamName` with `userDefined=False` is modelled, but the generator never calls it that way.
- `CodeClass` identity and aliasing are modelled only through each class's footprint. Nested classes are fresh objects owned by one parent.
- The indentation character and the language are fixed per `Lang` rather than stored as fields.
- Objects with a repeated key are not excluded. `json.loads` keeps one entry per key, while the `Json` type admits repeats and every lookup finds the first one, so the lemmas also range over objects `json.loads` cannot return.
- Json.PyStr: `str()` of a float, list or object (as a class name or an event name) is not modelled. It gives an `Unsupported` error instead of Python's text.
- Json.RoundHalfEven: floats are exact reals, so binary representation error, NaN, infinities and `-0.0` are not captured by `%.2f`. Rounding is half-to-even on the exact value.
- KotlinSwiftConstCreator.CodeClass.ParseClassObject: a non-empty list or another non-dictionary `classProperties` is a TypeError. Python would index the list by its own elements, which can also raise IndexError or succeed.
- PyKotlinSwiftConstCreator.CodeClass.ParseClassObject: the same simplification applies to the top-level value and to an event's `_params`.
- KotlinSwiftConstCreator.CodeClass.ParseClassObject: the class name is turned into text at the end of a successful parse. Python stores the raw value and formats it only when writing the header.
