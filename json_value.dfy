/**
  The values `JSON.parse` produces, with the three JavaScript operations the
  lesson planner applies to them: truthiness, string conversion (template
  literals, `new Error(x)`, `join`) and property lookup.
*/
module JsonValue {
  import opened JsText

  /** A parsed JSON value. A number is kept as the text JavaScript's
      `Number.prototype.toString` gives it, which is all the planner ever observes
      of it (both zeros print as "0"). */
  datatype Json =
    | JNull
    | JBool(b: bool)
    | JNumber(shown: string)
    | JString(s: string)
    | JArray(elements: seq<Json>)
    | JObject(members: seq<(string, Json)>)

  /** The outcome of `JSON.parse` (or `Response.json()`) on some text. */
  datatype Parsed = Parsed(value: Json) | SyntaxError(message: string)

  /** The result of reading a property: JavaScript's `undefined`, or a value. */
  datatype Property = Undefined | Defined(value: Json)

  /** ToBoolean on a JSON value: `null`, `false`, zero and the empty string are falsy. */
  predicate Truthy(v: Json) {
    match v
    case JNull => false
    case JBool(b) => b
    case JNumber(shown) => shown != "0"
    case JString(s) => s != ""
    case JArray(_) => true
    case JObject(_) => true
  }

  /** ToBoolean on a property read; `undefined` is falsy. */
  predicate IsTruthy(p: Property) {
    p.Defined? && Truthy(p.value)
  }

  /** The value of the last member named `key`; JSON.parse keeps the last of duplicated keys. */
  function LastMember(ms: seq<(string, Json)>, key: string): (p: Property)
    ensures p.Defined? <==> exists i :: 0 <= i < |ms| && ms[i].0 == key
    ensures p.Defined? ==> exists i :: 0 <= i < |ms| && ms[i] == (key, p.value)
                                       && forall j :: i < j < |ms| ==> ms[j].0 != key
  {
    if ms == [] then Undefined
    else if ms[|ms| - 1].0 == key then Defined(ms[|ms| - 1].1)
    else LastMember(ms[..|ms| - 1], key)
  }

  /** `v.key` on a non-null value: only objects have the member names this program reads. */
  function Member(v: Json, key: string): (p: Property)
    ensures p.Defined? ==> v.JObject?
  {
    match v
    case JObject(ms) => LastMember(ms, key)
    case _ => Undefined
  }

  /** The TypeError that ToString raises on an object with an own `toString` member. */
  const CannotConvert := "Cannot convert object to primitive value"

  /** ToString succeeds on a parsed value unless the value is, or is an array that holds
      at any depth, an object with an own `toString` member: a parsed member is never
      callable, and `valueOf` then yields the object itself, so no primitive is found. */
  predicate Convertible(v: Json)
    decreases v
  {
    match v
    case JArray(es) => forall i :: 0 <= i < |es| ==> Convertible(es[i])
    case JObject(ms) => !LastMember(ms, "toString").Defined?
    case _ => true
  }

  /** A property read that a template literal can print: `undefined` or a convertible value. */
  predicate Printable(p: Property) {
    p.Undefined? || Convertible(p.value)
  }

  /** ToString on a convertible JSON value, as a template literal or `new Error(v)` applies
      it: an array prints as its elements joined by commas, any other object as
      "[object Object]". */
  function ToJsString(v: Json): string
    requires Convertible(v)
    decreases v, 0
  {
    match v
    case JNull => "null"
    case JBool(b) => if b then "true" else "false"
    case JNumber(shown) => shown
    case JString(s) => s
    case JArray(es) => Join(seq(|es|, i requires 0 <= i < |es| => JoinPiece(es[i])), ",")
    case JObject(_) => "[object Object]"
  }

  /** How `Array.prototype.join` prints one element: `null` as the empty string. */
  function JoinPiece(e: Json): string
    requires Convertible(e)
    decreases e, 1
  {
    if e == JNull then "" else ToJsString(e)
  }

  /** The strings `join` assembles from the elements of an array. */
  function JoinPieces(es: seq<Json>): (r: seq<string>)
    requires forall i :: 0 <= i < |es| ==> Convertible(es[i])
    ensures |r| == |es|
    ensures forall i :: 0 <= i < |es| ==> r[i] == JoinPiece(es[i])
  {
    seq(|es|, i requires 0 <= i < |es| => JoinPiece(es[i]))
  }

  /** ToString of a property read inside a template literal; `undefined` prints as such. */
  function Interpolate(p: Property): string
    requires Printable(p)
  {
    match p
    case Undefined => "undefined"
    case Defined(v) => ToJsString(v)
  }

  /** An array prints its elements joined by commas, a `null` element as nothing and a
      nested array flattened into the same list. */
  lemma ArrayPrintsJoined(a: string, b: string, c: string)
    ensures ToJsString(JArray([JString(a), JNull, JArray([JString(b), JString(c)])]))
         == a + ",," + b + "," + c
  {
    var inner := JArray([JString(b), JString(c)]);
    assert JoinPiece(JString(a)) == ToJsString(JString(a)) == a;
    assert JoinPiece(JString(b)) == ToJsString(JString(b)) == b;
    assert JoinPiece(JString(c)) == ToJsString(JString(c)) == c;
    var innerPieces := JoinPieces([JString(b), JString(c)]);
    assert innerPieces[0] == b && innerPieces[1] == c;
    assert innerPieces == [b, c];
    assert ToJsString(inner) == Join([b, c], ",") == b + "," + c;
    var pieces := JoinPieces([JString(a), JNull, inner]);
    assert pieces[0] == a && pieces[1] == "" && pieces[2] == b + "," + c;
    assert pieces == [a, "", b + "," + c];
    assert Join(pieces, ",") == a + "," + Join(pieces[1..], ",");
    assert pieces[1..][1..] == [b + "," + c];
  }

  /** An object that ToString cannot convert: it has an own `toString` member. */
  predicate BlocksConversion(x: Json) {
    x.JObject? && LastMember(x.members, "toString").Defined?
  }

  /** The values an array holds at any depth that are not themselves arrays, in order; any
      other value is its own single leaf. */
  function Leaves(v: Json): seq<Json>
    decreases v
  {
    match v
    case JArray(es) => Flatten(seq(|es|, i requires 0 <= i < |es| => Leaves(es[i])))
    case _ => [v]
  }

  /** The concatenation of a sequence of sequences. */
  function Flatten(ss: seq<seq<Json>>): (r: seq<Json>)
    ensures forall x :: x in r <==> exists i :: 0 <= i < |ss| && x in ss[i]
  {
    if ss == [] then []
    else
      var rest := Flatten(ss[1..]);
      assert forall j :: 0 <= j < |ss[1..]| ==> ss[1..][j] == ss[j + 1];
      ss[0] + rest
  }

  /** ToString succeeds on a value exactly when none of its leaves is an object with an own
      `toString`: flattening the arrays first and then looking at each leaf describes the
      same values as `Convertible`, which descends element by element. */
  lemma {:induction false} ConvertibleIffNoBlockingLeaf(v: Json)
    decreases v
    ensures Convertible(v) <==> forall x :: x in Leaves(v) ==> !BlocksConversion(x)
  {
    match v
    case JArray(es) =>
      var ss := seq(|es|, i requires 0 <= i < |es| => Leaves(es[i]));
      assert Leaves(v) == Flatten(ss);
      forall i | 0 <= i < |es|
        ensures Convertible(es[i]) <==> forall x :: x in ss[i] ==> !BlocksConversion(x)
      {
        ConvertibleIffNoBlockingLeaf(es[i]);
      }
    case _ =>
      assert Leaves(v) == [v];
      assert Convertible(v) <==> !BlocksConversion(v);
  }
}
