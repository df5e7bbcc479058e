/**
 * JSONStoreQuery and the advanced-query keywords.
 *
 * A query object holds one operand array per operator. The keyword strings
 * (JSON_STORE_QUERY_LIKE and the others) are constants whose text is not
 * part of this model, so they are a parameter `keyword` of every operation
 * that looks at them; only their fixed order of precedence is modelled.
 */
module Queries {
  import opened Wrappers
  import opened JsonValues

  /** The operand fields of a JSONStoreQuery. */
  datatype Operator =
    | Like | NotLike | RightLike | NotRightLike | LeftLike | NotLeftLike
    | LessThan | LessOrEqualThan | GreaterThan | GreaterOrEqualThan
    | Equal | NotEqual | Inside | NotInside | Between | NotBetween
    | Ids

  /** The order in which a property name is checked against the keywords. */
  const KeywordOrder: seq<Operator> := [
    Like, NotLike, RightLike, NotRightLike, LeftLike, NotLeftLike,
    LessThan, LessOrEqualThan, GreaterThan, GreaterOrEqualThan,
    Equal, NotEqual, Inside, NotInside, Between, NotBetween
  ]

  /** `k` occurs in `name` starting at position `i`. */
  predicate OccursAt(k: string, name: string, i: int) {
    0 <= i && i + |k| <= |name| && name[i..i + |k|] == k
  }

  /** `name.IndexOf(k) >= 0`: `k` occurs in `name` at some position. */
  predicate IsSubstring(k: string, name: string) {
    exists i :: 0 <= i <= |name| - |k| && OccursAt(k, name, i)
  }

  /** The first operator of `ops` whose keyword occurs in `name`. */
  function FirstMatch(ops: seq<Operator>, name: string, keyword: Operator -> string): Option<Operator>
    decreases |ops|
  {
    if |ops| == 0 then None
    else if IsSubstring(keyword(ops[0]), name) then Some(ops[0])
    else FirstMatch(ops[1..], name, keyword)
  }

  /**
   * The scan finds nothing exactly when no keyword occurs in the name, and
   * otherwise an operator whose keyword occurs and before which none does.
   */
  lemma {:induction false} FirstMatchSpec(ops: seq<Operator>, name: string, keyword: Operator -> string)
    ensures FirstMatch(ops, name, keyword).None? <==> forall i :: 0 <= i < |ops| ==> !IsSubstring(keyword(ops[i]), name)
    ensures FirstMatch(ops, name, keyword).Some? ==>
      exists i :: 0 <= i < |ops| && ops[i] == FirstMatch(ops, name, keyword).value && IsSubstring(keyword(ops[i]), name)
        && forall j :: 0 <= j < i ==> !IsSubstring(keyword(ops[j]), name)
    decreases |ops|
  {
    if |ops| > 0 && !IsSubstring(keyword(ops[0]), name) {
      var r := FirstMatch(ops[1..], name, keyword);
      FirstMatchSpec(ops[1..], name, keyword);
      assert forall i :: 1 <= i < |ops| ==> ops[i] == ops[1..][i - 1];
      if r.Some? {
        var i :| 0 <= i < |ops| - 1 && ops[1..][i] == r.value && IsSubstring(keyword(ops[1..][i]), name)
          && forall j :: 0 <= j < i ==> !IsSubstring(keyword(ops[1..][j]), name);
        assert ops[i + 1] == r.value && forall j :: 0 <= j < i + 1 ==> !IsSubstring(keyword(ops[j]), name);
      }
    }
  }

  /** The operator the if/else-if chain of the query-part compiler assigns for a property name. */
  function SelectOperator(name: string, keyword: Operator -> string): Option<Operator> {
    FirstMatch(KeywordOrder, name, keyword)
  }

  /** The selected operator is the first keyword, in the fixed order, that occurs in the name. */
  lemma SelectOperatorIsFirstMatch(name: string, keyword: Operator -> string, i: nat)
    requires i < |KeywordOrder|
    ensures SelectOperator(name, keyword) == Some(KeywordOrder[i]) <==>
      IsSubstring(keyword(KeywordOrder[i]), name) && forall j :: 0 <= j < i ==> !IsSubstring(keyword(KeywordOrder[j]), name)
  {
    var r := SelectOperator(name, keyword);
    FirstMatchSpec(KeywordOrder, name, keyword);
    if r == Some(KeywordOrder[i]) {
      var i' :| 0 <= i' < |KeywordOrder| && KeywordOrder[i'] == r.value && IsSubstring(keyword(KeywordOrder[i']), name)
        && forall j :: 0 <= j < i' ==> !IsSubstring(keyword(KeywordOrder[j]), name);
      KeywordOrderDistinct(i, i');
    }
    if IsSubstring(keyword(KeywordOrder[i]), name) && forall j :: 0 <= j < i ==> !IsSubstring(keyword(KeywordOrder[j]), name) {
      FirstMatchIs(KeywordOrder, name, keyword, i);
    }
  }

  /** The operator at `i` is the first match when its keyword occurs and no earlier one does. */
  lemma {:induction false} FirstMatchIs(ops: seq<Operator>, name: string, keyword: Operator -> string, i: nat)
    requires i < |ops| && IsSubstring(keyword(ops[i]), name)
    requires forall j :: 0 <= j < i ==> !IsSubstring(keyword(ops[j]), name)
    ensures FirstMatch(ops, name, keyword) == Some(ops[i])
    decreases i
  {
    if i > 0 {
      assert !IsSubstring(keyword(ops[0]), name);
      assert forall j :: 0 <= j < i - 1 ==> ops[1..][j] == ops[j + 1];
      FirstMatchIs(ops[1..], name, keyword, i - 1);
    }
  }

  /** A name in which no keyword occurs selects no operator, and Ids is never selected. */
  lemma SelectOperatorNone(name: string, keyword: Operator -> string)
    ensures SelectOperator(name, keyword).None? <==>
      forall i :: 0 <= i < |KeywordOrder| ==> !IsSubstring(keyword(KeywordOrder[i]), name)
    ensures SelectOperator(name, keyword) != Some(Ids)
  {
    FirstMatchSpec(KeywordOrder, name, keyword);
    FirstMatchIn(KeywordOrder, name, keyword);
    assert Ids !in KeywordOrder;
  }

  /** The first match is one of the candidates. */
  lemma {:induction false} FirstMatchIn(ops: seq<Operator>, name: string, keyword: Operator -> string)
    ensures FirstMatch(ops, name, keyword).Some? ==> FirstMatch(ops, name, keyword).value in ops
    decreases |ops|
  {
    if |ops| > 0 && !IsSubstring(keyword(ops[0]), name) {
      FirstMatchIn(ops[1..], name, keyword);
    }
  }

  /**
   * A keyword that contains an earlier keyword is shadowed: the operator
   * listed later can never be selected, whatever the property name.
   */
  lemma ShadowedKeyword(name: string, keyword: Operator -> string, i: nat, j: nat)
    requires i < j < |KeywordOrder|
    requires IsSubstring(keyword(KeywordOrder[i]), keyword(KeywordOrder[j]))
    ensures SelectOperator(name, keyword) != Some(KeywordOrder[j])
  {
    if SelectOperator(name, keyword) == Some(KeywordOrder[j]) {
      SelectOperatorIsFirstMatch(name, keyword, j);
      SubstringTransitive(keyword(KeywordOrder[i]), keyword(KeywordOrder[j]), name);
      assert false;
    }
  }

  lemma KeywordOrderDistinct(i: nat, j: nat)
    requires i < |KeywordOrder| && j < |KeywordOrder|
    requires KeywordOrder[i] == KeywordOrder[j]
    ensures i == j
  {
  }

  lemma SubstringTransitive(a: string, b: string, c: string)
    requires IsSubstring(a, b) && IsSubstring(b, c)
    ensures IsSubstring(a, c)
  {
    var i :| 0 <= i <= |b| - |a| && OccursAt(a, b, i);
    var k :| 0 <= k <= |c| - |b| && OccursAt(b, c, k);
    assert b[i..i + |a|] == a && c[k..k + |b|] == b;
    forall t | 0 <= t < |a|
      ensures c[k + i..k + i + |a|][t] == a[t]
    {
      assert c[k + i + t] == c[k..k + |b|][i + t] == b[i + t] == b[i..i + |a|][t];
    }
    assert c[k + i..k + i + |a|] == a;
    assert OccursAt(a, c, k + i);
  }

  /** The options of a find that the collection layer looks at (JSONStoreQueryOptions). */
  datatype QueryOptions = QueryOptions(offset: int, limit: int, exact: bool)

  /** `new JSONStoreQueryOptions()` with `exact` set, as findWithIds and changeData build it. */
  function ExactOptions(): (o: QueryOptions)
    ensures o.exact && !(o.offset > 0)
  {
    QueryOptions(0, 0, true)
  }

  /** A JSONStoreQuery: one operand array per operator, each assigned in place. */
  class Query {
    var operands: map<Operator, seq<Json>>

    /** `new JSONStoreQuery()`: no operator set. */
    constructor()
      ensures operands == map[]
    {
      operands := map[];
    }

    /** Assigns one operand field, as `query.like = array` does. */
    method Set(op: Operator, values: seq<Json>)
      modifies this
      ensures operands == old(operands)[op := values]
    {
      operands := operands[op := values];
    }
  }
}
