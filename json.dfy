/** JSON-like values as the frontend sees them after `JSON.parse` or from the
    API: objects keep their keys in insertion order, as JavaScript objects do.
    Numbers are integers (the model never needs fractional JSON numbers). */
module Json {
  import opened Wrappers
  import Strings

  datatype Json =
    | JNull
    | JBool(b: bool)
    | JNum(n: int)
    | JStr(s: string)
    | JArr(items: seq<Json>)
    | JObj(fields: seq<Field>)

  datatype Field = Field(key: string, value: Json)

  /** `Object.keys(obj)` */
  function Keys(fields: seq<Field>): (r: seq<string>)
    ensures |r| == |fields| && forall i :: 0 <= i < |fields| ==> r[i] == fields[i].key
  {
    if fields == [] then [] else [fields[0].key] + Keys(fields[1..])
  }

  predicate HasKey(fields: seq<Field>, key: string) {
    exists i :: 0 <= i < |fields| && fields[i].key == key
  }

  /** `obj[key]`, `None` standing for `undefined`: the first field with that key. */
  function Get(fields: seq<Field>, key: string): (r: Option<Json>)
    ensures r.None? <==> !HasKey(fields, key)
    ensures r.Some? ==> exists i :: 0 <= i < |fields| && fields[i] == Field(key, r.value) &&
                                    forall j :: 0 <= j < i ==> fields[j].key != key
  {
    if fields == [] then None
    else if fields[0].key == key then Some(fields[0].value)
    else
      var r := Get(fields[1..], key);
      assert r.Some? ==> exists i :: 1 <= i < |fields| && fields[i] == Field(key, r.value) &&
                                     forall j :: 0 <= j < i ==> fields[j].key != key by {
        if r.Some? {
          var i :| 0 <= i < |fields[1..]| && fields[1..][i] == Field(key, r.value) &&
                   forall j :: 0 <= j < i ==> fields[1..][j].key != key;
          assert fields[i + 1] == Field(key, r.value);
          assert forall j :: 1 <= j < i + 1 ==> fields[j].key != key by {
            forall j | 1 <= j < i + 1 ensures fields[j].key != key {
              assert fields[j] == fields[1..][j - 1];
            }
          }
        }
      }
      r
  }

  /** `{...rest}` without `key`: every field except those named `key`, in order. */
  function Without(fields: seq<Field>, key: string): (r: seq<Field>)
    ensures !HasKey(r, key)
    ensures forall k :: k != key ==> Get(r, k) == Get(fields, k)
  {
    if fields == [] then []
    else if fields[0].key == key then Without(fields[1..], key)
    else [fields[0]] + Without(fields[1..], key)
  }

  lemma {:induction false} GetAppend(a: seq<Field>, b: seq<Field>, key: string)
    ensures Get(a + b, key) == if HasKey(a, key) then Get(a, key) else Get(b, key)
    decreases |a|
  {
    if a != [] {
      assert (a + b)[1..] == a[1..] + b;
      GetAppend(a[1..], b, key);
      if a[0].key != key && HasKey(a, key) {
        var i :| 0 <= i < |a| && a[i].key == key;
        assert a[1..][i - 1].key == key;
      }
    } else {
      assert a + b == b;
    }
  }

  /** JavaScript truthiness of a JSON value. */
  predicate Truthy(j: Json) {
    match j
    case JNull => false
    case JBool(b) => b
    case JNum(n) => n != 0
    case JStr(s) => s != ""
    case JArr(_) => true
    case JObj(_) => true
  }

  /** `typeof v === 'object' && v !== null`: arrays included. */
  predicate IsObjectLike(j: Json) {
    j.JArr? || j.JObj?
  }

  /** `String(v)`: scalars as JavaScript prints them, an array through
      `Array.prototype.toString` (its elements joined by commas, `null`
      written as nothing) and a record as "[object Object]". */
  function ToJsString(j: Json): (r: string)
    ensures j.JStr? ==> r == j.s
    ensures j.JNull? ==> r == "null"
    ensures j.JBool? ==> r == (if j.b then "true" else "false")
    ensures j.JObj? ==> r == "[object Object]"
    ensures j.JArr? && j.items == [] ==> r == ""
    ensures j.JArr? && |j.items| == 1 ==> r == ElementString(j.items[0])
    decreases j, 0
  {
    match j
    case JNull => "null"
    case JBool(b) => if b then "true" else "false"
    case JNum(n) => Strings.Decimal(n)
    case JStr(s) => s
    case JArr(items) => JoinElements(items)
    case JObj(_) => "[object Object]"
  }

  /** An array element inside `join`: `null` becomes the empty string. */
  function ElementString(j: Json): string
    decreases j, 1
  {
    if j.JNull? then "" else ToJsString(j)
  }

  /** `items.join(",")` */
  function JoinElements(items: seq<Json>): string
    decreases items
  {
    if items == [] then ""
    else if |items| == 1 then ElementString(items[0])
    else ElementString(items[0]) + "," + JoinElements(items[1..])
  }

  /** `String` of arrays: `["1"]` is "1", `[5, 6]` is "5,6", `[null]` is
      "", and a nested array is flattened into the same list. */
  lemma ArrayStringExamples()
    ensures ToJsString(JArr([JStr("1")])) == "1"
    ensures ToJsString(JArr([JNum(5), JNum(6)])) == "5,6"
    ensures ToJsString(JArr([JNull])) == ""
    ensures ToJsString(JArr([JArr([JNum(1), JNum(2)]), JNum(3)])) == "1,2,3"
  {
    assert Strings.Decimal(5) == "5" && Strings.Decimal(6) == "6";
    assert Strings.Decimal(1) == "1" && Strings.Decimal(2) == "2" && Strings.Decimal(3) == "3";
  }

  /** A size measure that only grows with the text needed to write a value;
      used to show that re-parsing strings terminates. */
  function Weight(j: Json): nat
    decreases j
  {
    match j
    case JNull => 1
    case JBool(_) => 1
    case JNum(_) => 1
    case JStr(s) => 1 + |s|
    case JArr(items) => 1 + WeightItems(items)
    case JObj(fields) => 1 + WeightFields(fields)
  }

  function WeightItems(items: seq<Json>): nat
    decreases items
  {
    if items == [] then 0 else 1 + Weight(items[0]) + WeightItems(items[1..])
  }

  function WeightFields(fields: seq<Field>): nat
    decreases fields
  {
    if fields == [] then 0 else 1 + Weight(fields[0].value) + WeightFields(fields[1..])
  }

  /** A JSON parser (`JSON.parse`), `None` when it throws. The model only
      assumes it never produces a value heavier than its input text, which
      holds for any JSON text. */
  type Parser = string -> Option<Json>

  ghost predicate Shrinking(parse: Parser) {
    forall t :: parse(t).Some? ==> Weight(parse(t).value) <= |t|
  }

  /** `JSON.stringify(v, null, 2)`: an uninterpreted serialiser. */
  type Stringifier = Json -> string

  /** Every JSON text is non-empty (even `""` serialises to two quotes). */
  ghost predicate NeverEmpty(stringify: Stringifier) {
    forall j :: stringify(j) != ""
  }
}
