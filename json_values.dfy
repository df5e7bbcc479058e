/** Option, shared by every module of the model. */
module Wrappers {
  datatype Option<+T> = None | Some(value: T)
}

/**
 * JSON values as the Newtonsoft.Json token tree (JToken, JValue, JArray,
 * JObject, JProperty) that the document store walks, together with the
 * text conversions the store relies on: ToString() of a value token and
 * ToLower() of a property name.
 */
module JsonValues {
  import opened Wrappers

  /** A JSON token. Numbers are integers; floating point is not modelled. */
  datatype Json =
    | JNull
    | JBool(b: bool)
    | JNum(n: int)
    | JStr(s: string)
    | JArr(items: seq<Json>)
    | JObj(props: seq<Prop>)

  /** A JProperty: one name/value pair of a JObject, in document order. */
  datatype Prop = Prop(name: string, value: Json)

  /** A JSON object (a JObject), the shape of every stored document. */
  type JObject = j: Json | j.JObj? witness JObj([])

  /** A JValue: a token that is neither an object nor an array. */
  predicate IsScalar(j: Json) {
    !j.JArr? && !j.JObj?
  }

  /** JObject.TryGetValue / GetValue: the value of the first property named `name`. */
  function Get(props: seq<Prop>, name: string): Option<Json>
    decreases |props|
  {
    if |props| == 0 then None
    else if props[0].name == name then Some(props[0].value)
    else Get(props[1..], name)
  }

  /**
   * A property is found exactly when one has the name, and what is found is
   * the value of the first property with that name.
   */
  lemma {:induction false} GetFirst(props: seq<Prop>, name: string)
    ensures Get(props, name).Some? <==> exists k :: 0 <= k < |props| && props[k].name == name
    ensures Get(props, name).Some? ==>
      exists k :: 0 <= k < |props| && props[k].name == name && props[k].value == Get(props, name).value
        && forall j :: 0 <= j < k ==> props[j].name != name
    decreases |props|
  {
    if |props| > 0 && props[0].name != name {
      GetFirst(props[1..], name);
      assert forall k :: 1 <= k < |props| ==> props[k] == props[1..][k - 1];
      if Get(props, name).Some? {
        var k :| 0 <= k < |props| - 1 && props[1..][k].name == name && props[1..][k].value == Get(props, name).value
          && forall j :: 0 <= j < k ==> props[1..][j].name != name;
        assert props[k + 1].name == name && forall j :: 0 <= j < k + 1 ==> props[j].name != name;
      }
    }
  }

  /** Lower-casing of one character (ASCII letters only). */
  function LowerChar(c: char): char {
    if 'A' <= c <= 'Z' then (c as int + 32) as char else c
  }

  /** String.ToLower(), on ASCII letters. */
  function Lower(s: string): (r: string)
    ensures |r| == |s|
    ensures forall i :: 0 <= i < |s| ==> r[i] == LowerChar(s[i])
  {
    if |s| == 0 then "" else [LowerChar(s[0])] + Lower(s[1..])
  }

  /** A string with no upper-case ASCII letter. */
  predicate IsLower(s: string) {
    forall i :: 0 <= i < |s| ==> !('A' <= s[i] <= 'Z')
  }

  lemma LowerAppend(a: string, b: string)
    ensures Lower(a + b) == Lower(a) + Lower(b)
  {
    var l, r := Lower(a + b), Lower(a) + Lower(b);
    forall i | 0 <= i < |l|
      ensures l[i] == r[i]
    {
      if i < |a| {
        assert (a + b)[i] == a[i];
      } else {
        assert (a + b)[i] == b[i - |a|];
      }
    }
  }

  lemma LowerIsLower(s: string)
    ensures IsLower(Lower(s))
    ensures Lower(Lower(s)) == Lower(s)
  {
  }

  lemma LowerOfLower(s: string)
    requires IsLower(s)
    ensures Lower(s) == s
  {
    assert forall i :: 0 <= i < |s| ==> Lower(s)[i] == s[i];
  }

  lemma IsLowerAppend(a: string, b: string)
    requires IsLower(a) && IsLower(b)
    ensures IsLower(a + b)
  {
    assert forall i :: 0 <= i < |a + b| ==> (a + b)[i] == if i < |a| then a[i] else b[i - |a|];
  }

  function DigitChar(d: nat): (c: char)
    requires d < 10
    ensures '0' <= c <= '9'
  {
    ('0' as int + d) as char
  }

  /** The value of a decimal digit. */
  function DigitValue(c: char): (d: int)
    ensures '0' <= c <= '9' ==> 0 <= d < 10 && DigitChar(d) == c
  {
    c as int - '0' as int
  }

  /** The number a string of decimal digits denotes. */
  function ParseNat(s: string): int
    decreases |s|
  {
    if |s| == 0 then 0 else 10 * ParseNat(s[..|s| - 1]) + DigitValue(s[|s| - 1])
  }

  /** The integer an optional minus sign followed by decimal digits denotes. */
  function ParseInt(s: string): int {
    if |s| > 0 && s[0] == '-' then -ParseNat(s[1..]) else ParseNat(s)
  }

  /** Decimal text of a natural number. */
  function NatToString(n: nat): (s: string)
    ensures |s| > 0
  {
    if n < 10 then [DigitChar(n)] else NatToString(n / 10) + [DigitChar(n % 10)]
  }

  /** Int32.ToString() of an integer token, without the 32-bit bound. */
  function IntToString(i: int): (s: string)
    ensures |s| > 0
  {
    if i < 0 then "-" + NatToString(-i) else NatToString(i)
  }

  /** The decimal text of a natural number holds digits only. */
  lemma {:induction false} NatToStringDigits(n: nat)
    ensures forall i :: 0 <= i < |NatToString(n)| ==> '0' <= NatToString(n)[i] <= '9'
  {
    if n >= 10 {
      NatToStringDigits(n / 10);
    }
  }

  /** Reading the decimal text of a natural number back gives the number. */
  lemma {:induction false} NatToStringRoundTrip(n: nat)
    ensures ParseNat(NatToString(n)) == n
  {
    var s := NatToString(n);
    if n >= 10 {
      NatToStringRoundTrip(n / 10);
      assert s[..|s| - 1] == NatToString(n / 10);
    }
  }

  /** Reading the text of an integer back gives the integer, so no two integers share a text. */
  lemma IntToStringRoundTrip(i: int)
    ensures ParseInt(IntToString(i)) == i
    ensures forall j :: IntToString(j) == IntToString(i) ==> j == i
  {
    forall j | true
      ensures ParseInt(IntToString(j)) == j
    {
      var s := IntToString(j);
      if j < 0 {
        NatToStringRoundTrip(-j);
        assert s[1..] == NatToString(-j);
      } else {
        NatToStringRoundTrip(j);
        NatToStringDigits(j);
      }
    }
  }

  /** The text of an integer starts with a minus sign or a digit. */
  lemma IntToStringStart(i: int)
    ensures IntToString(i)[0] == '-' || '0' <= IntToString(i)[0] <= '9'
  {
    if i >= 0 {
      NatToStringDigits(i);
    }
  }

  /** Joins strings with a separator. */
  function JoinWith(sep: string, parts: seq<string>): string {
    if |parts| == 0 then ""
    else if |parts| == 1 then parts[0]
    else parts[0] + sep + JoinWith(sep, parts[1..])
  }

  /**
   * Compact JSON text of a token. Escaping inside strings and the
   * indentation Newtonsoft uses for JToken.ToString() are not modelled.
   */
  function Serialize(j: Json): string
    decreases j
  {
    match j
    case JNull => "null"
    case JBool(b) => if b then "true" else "false"
    case JNum(n) => IntToString(n)
    case JStr(s) => "\"" + s + "\""
    case JArr(items) =>
      "[" + JoinWith(",", seq(|items|, k requires 0 <= k < |items| => Serialize(items[k]))) + "]"
    case JObj(props) =>
      "{" + JoinWith(",", seq(|props|, k requires 0 <= k < |props| =>
        "\"" + props[k].name + "\":" + Serialize(props[k].value))) + "}"
  }

  /**
   * JToken.ToString(): a value token gives its plain text (a string without
   * quotes, a boolean as "True"/"False" and null as ""), a container its JSON text.
   */
  function Text(j: Json): string {
    match j
    case JNull => ""
    case JBool(b) => if b then "True" else "False"
    case JNum(n) => IntToString(n)
    case JStr(s) => s
    case _ => Serialize(j)
  }

  /** JToken.HasValues: whether an object or array has any child token. */
  predicate HasValues(j: Json) {
    match j
    case JObj(props) => |props| > 0
    case JArr(items) => |items| > 0
    case _ => false
  }
}
