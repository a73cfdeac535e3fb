/** The already-parsed JSON tree the generator walks, with the Python operations
    the generator applies to its nodes: key lookup, `str()`, `"%d"` and `"%.2f"`. */
module Json {
  import opened Strings
  import opened PyErrors

  /** A value as `json.loads` returns it. An object keeps its keys in insertion
      order, which fixes the order of the generated declarations. A parsed
      dict holds each key once; this type also admits objects with a repeated
      key, on which every lookup finds the first entry. A number with a
      fraction or exponent is a float, carried here by its exact value. */
  datatype Json =
    | JStr(s: string)
    | JInt(i: int)
    | JFloat(x: real)
    | JBool(b: bool)
    | JNull
    | JList(items: seq<Json>)
    | JObj(fields: seq<(string, Json)>)

  /** The position of `key` among the fields, if it is there. */
  function FindKey(fields: seq<(string, Json)>, key: string): (r: Option<nat>)
    ensures r.Some? ==> r.value < |fields| && fields[r.value].0 == key
    ensures r.None? <==> forall k :: 0 <= k < |fields| ==> fields[k].0 != key
  {
    if fields == [] then None
    else if fields[0].0 == key then Some(0)
    else match FindKey(fields[1..], key)
      case None => None
      case Some(k) => Some(k + 1)
  }

  /** An empty list or an empty string: iterating it, as the generator's
      `for key in properties` does, visits nothing. */
  predicate EmptyIterable(j: Json)
  {
    j == JList([]) || j == JStr("")
  }

  /** Python's `str(v)`, which `"%s" % v` applies to a class or event name. */
  function PyStr(j: Json): (r: Result<string>)
    ensures j.JStr? ==> r == Ok(j.s)
    ensures j.JInt? ==> r == Ok(IntText(j.i))
    ensures j.JBool? ==> r == Ok(if j.b then "True" else "False")
    ensures j.JNull? ==> r == Ok("None")
    ensures r.Err? <==> j.JFloat? || j.JList? || j.JObj?
  {
    match j
    case JStr(s) => Ok(s)
    case JInt(i) => Ok(IntText(i))
    case JBool(b) => Ok(if b then "True" else "False")
    case JNull => Ok("None")
    case _ => Err(Unsupported)
  }

  /** Python's `"%d" % v` for an int or a bool (a bool is an int in Python). */
  function PercentD(j: Json): string
    requires j.JInt? || j.JBool?
  {
    if j.JInt? then IntText(j.i) else if j.b then "1" else "0"
  }

  /** The integer nearest to y >= 0, ties to the even neighbour: how Python
      rounds the exact value of a float when formatting it. */
  function RoundHalfEven(y: real): (n: int)
    requires y >= 0.0
    ensures 0 <= n
    ensures -0.5 <= y - n as real <= 0.5
    ensures y - n as real == 0.5 || n as real - y == 0.5 ==> n % 2 == 0
  {
    var n := y.Floor;
    var f := y - n as real;
    if f > 0.5 || (f == 0.5 && n % 2 == 1) then n + 1 else n
  }

  /** Python's `"%.2f" % x`: the value rounded to hundredths, a minus sign for
      every negative value (also one that rounds to zero), then the integer
      part, a point and exactly two digits. */
  function Fixed2(x: real): string
  {
    if x < 0.0 then "-" + Fixed2Abs(-x) else Fixed2Abs(x)
  }

  function Fixed2Abs(y: real): string
    requires y >= 0.0
  {
    var m := RoundHalfEven(y * 100.0);
    NatText(m / 100) + "." + [DigitChar(m % 100 / 10), DigitChar(m % 10)]
  }

  /** A float is written with exactly two digits after its only decimal point. */
  lemma Fixed2Shape(x: real)
    ensures var r := Fixed2(x);
      |r| >= 4 && r[|r| - 3] == '.' && '.' !in r[..|r| - 3] &&
      IsDigit(r[|r| - 2]) && IsDigit(r[|r| - 1])
  {
    var y := if x < 0.0 then -x else x;
    var m := RoundHalfEven(y * 100.0);
    var head := NatText(m / 100);
    NatTextDigits(m / 100);
    var d1, d2 := DigitChar(m % 100 / 10), DigitChar(m % 10);
    if x < 0.0 {
      PointShape("-" + head, d1, d2);
    } else {
      PointShape(head, d1, d2);
    }
  }

  lemma PointShape(whole: string, d1: char, d2: char)
    requires whole != [] && '.' !in whole && IsDigit(d1) && IsDigit(d2)
    ensures var r := whole + "." + [d1, d2];
      |r| >= 4 && r[|r| - 3] == '.' && '.' !in r[..|r| - 3] &&
      IsDigit(r[|r| - 2]) && IsDigit(r[|r| - 1])
  {
    var r := whole + "." + [d1, d2];
    assert r[..|r| - 3] == whole;
  }
}
