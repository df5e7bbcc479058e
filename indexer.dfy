/**
 * JSONStoreIndexer: the secondary-index extractor.
 *
 * Given the schema's search-field paths and a document, it builds a map from
 * each declared path to the set of scalar values found at that path. The
 * source threads one mutable Dictionary<string, HashSet<string>> through
 * three recursive procedures; here the dictionary is an IndexMap passed in
 * and handed back by each method, and every method is proved against the
 * specification function Pairs, which is itself proved equal to a
 * path-based reference definition (LeafPath).
 */
module Indexer {
  import opened Wrappers
  import opened JsonValues

  /** The dictionary from index path to the values found there. */
  type IndexMap = map<string, set<string>>

  // ---------------------------------------------------------------------
  // Specification
  // ---------------------------------------------------------------------

  /** The index value of a scalar leaf: booleans become "1"/"0", the rest their text. */
  function LeafValue(j: Json): string
    requires IsScalar(j)
  {
    if j.JBool? then (if j.b then "1" else "0") else Text(j)
  }

  /** Path segments joined with ".". */
  function JoinDot(segs: seq<string>): string {
    if |segs| == 0 then ""
    else if |segs| == 1 then segs[0]
    else JoinDot(segs[..|segs| - 1]) + "." + segs[|segs| - 1]
  }

  /**
   * Every (path, value) pair the walk offers to the dictionary, for a token
   * reached under the lower-cased path segments `segs`. A property adds its
   * lower-cased name as a segment, an array adds nothing and passes on only
   * its object and array elements, and a scalar property yields one pair.
   */
  function Pairs(j: Json, segs: seq<string>): set<(string, string)>
    decreases j
  {
    match j
    case JObj(props) => FieldPairs(props, |props|, segs)
    case JArr(items) => ElementPairs(items, |items|, segs)
    case _ => {(JoinDot(segs), LeafValue(j))}
  }

  /** The pairs of the first n properties of an object. */
  function FieldPairs(props: seq<Prop>, n: nat, segs: seq<string>): set<(string, string)>
    requires n <= |props|
    decreases props
  {
    set k, p | 0 <= k < n && p in Pairs(props[k].value, segs + [Lower(props[k].name)]) :: p
  }

  /** The pairs of the first n elements of an array; scalar elements give none. */
  function ElementPairs(items: seq<Json>, n: nat, segs: seq<string>): set<(string, string)>
    requires n <= |items|
    decreases items
  {
    set k, p | 0 <= k < n && !IsScalar(items[k]) && p in Pairs(items[k], segs) :: p
  }

  /** The values offered for one path. */
  function ValuesAt(pairs: set<(string, string)>, path: string): set<string> {
    set p | p in pairs && p.0 == path :: p.1
  }

  /** The dictionary after offering `pairs`: only keys already present receive values. */
  function Absorb(d: IndexMap, pairs: set<(string, string)>): (r: IndexMap)
    ensures r.Keys == d.Keys
  {
    map k | k in d :: d[k] + ValuesAt(pairs, k)
  }

  /** One empty set per declared path. */
  function EmptyIndex(schema: set<string>): (r: IndexMap)
    ensures r.Keys == schema
  {
    map k | k in schema :: {}
  }

  /** The dictionary findIndexesFromSchema returns for a schema and a document. */
  function Indexes(schema: set<string>, doc: seq<Prop>): IndexMap {
    Absorb(EmptyIndex(schema), Pairs(JObj(doc), []))
  }

  // ---------------------------------------------------------------------
  // Reference definition: paths of steps into the document
  // ---------------------------------------------------------------------

  /** One step into a token: the k-th property of an object or the k-th element of an array. */
  datatype Step = Field(k: nat) | Element(k: nat)

  /** The token reached by following `steps`, if every step exists. */
  function At(j: Json, steps: seq<Step>): Option<Json>
    decreases |steps|
  {
    if |steps| == 0 then Some(j)
    else match steps[0]
      case Field(k) => if j.JObj? && k < |j.props| then At(j.props[k].value, steps[1..]) else None
      case Element(k) => if j.JArr? && k < |j.items| then At(j.items[k], steps[1..]) else None
  }

  /** The lower-cased property names along `steps`; array steps contribute nothing. */
  function PathNames(j: Json, steps: seq<Step>): seq<string>
    decreases |steps|
  {
    if |steps| == 0 then []
    else match steps[0]
      case Field(k) =>
        if j.JObj? && k < |j.props| then [Lower(j.props[k].name)] + PathNames(j.props[k].value, steps[1..]) else []
      case Element(k) =>
        if j.JArr? && k < |j.items| then PathNames(j.items[k], steps[1..]) else []
  }

  /** `steps` leads to a scalar that is a property value (or `j` itself), not an array element. */
  predicate LeafPath(j: Json, steps: seq<Step>) {
    && At(j, steps).Some?
    && IsScalar(At(j, steps).value)
    && (|steps| == 0 || steps[|steps| - 1].Field?)
  }

  /** The (path, value) pair of the leaf that `steps` leads to. */
  function PairAt(j: Json, segs: seq<string>, steps: seq<Step>): (string, string)
    requires LeafPath(j, steps)
  {
    (JoinDot(segs + PathNames(j, steps)), LeafValue(At(j, steps).value))
  }

  // ---------------------------------------------------------------------
  // The walk as a fold, one token at a time
  // ---------------------------------------------------------------------

  /** Offers one (path, value) pair: only a declared path receives it. */
  function Offer(d: IndexMap, path: string, v: string): (r: IndexMap)
    ensures r.Keys == d.Keys
    ensures r == Absorb(d, {(path, v)})
  {
    AbsorbOne(d, path, v);
    if path in d then d[path := d[path] + {v}] else d
  }

  /** The dictionary after walking `j` under `segs`, in document order. */
  function Walk(d: IndexMap, j: Json, segs: seq<string>): IndexMap
    decreases j
  {
    match j
    case JObj(props) => WalkFields(d, props, |props|, segs)
    case JArr(items) => WalkElements(d, items, |items|, segs)
    case _ => Offer(d, JoinDot(segs), LeafValue(j))
  }

  /** The dictionary after walking the first n properties of an object. */
  function WalkFields(d: IndexMap, props: seq<Prop>, n: nat, segs: seq<string>): IndexMap
    requires n <= |props|
    decreases props, n
  {
    if n == 0 then d
    else Walk(WalkFields(d, props, n - 1, segs), props[n - 1].value, segs + [Lower(props[n - 1].name)])
  }

  /** The dictionary after walking the first n elements of an array; scalar elements are skipped. */
  function WalkElements(d: IndexMap, items: seq<Json>, n: nat, segs: seq<string>): IndexMap
    requires n <= |items|
    decreases items, n
  {
    if n == 0 then d
    else if IsScalar(items[n - 1]) then WalkElements(d, items, n - 1, segs)
    else Walk(WalkElements(d, items, n - 1, segs), items[n - 1], segs)
  }

  /** Walking a token offers exactly its pairs. */
  lemma {:induction false} WalkIsAbsorb(d: IndexMap, j: Json, segs: seq<string>)
    ensures Walk(d, j, segs) == Absorb(d, Pairs(j, segs))
    decreases j, 1
  {
    match j
    case JObj(props) => WalkFieldsIsAbsorb(d, props, |props|, segs);
    case JArr(items) => WalkElementsIsAbsorb(d, items, |items|, segs);
    case _ =>
  }

  lemma {:induction false} WalkFieldsIsAbsorb(d: IndexMap, props: seq<Prop>, n: nat, segs: seq<string>)
    requires n <= |props|
    ensures WalkFields(d, props, n, segs) == Absorb(d, FieldPairs(props, n, segs))
    decreases props, n
  {
    if n == 0 {
      AbsorbFromNothing(d, FieldPairs(props, 0, segs));
    } else {
      WalkFieldsIsAbsorb(d, props, n - 1, segs);
      WalkIsAbsorb(WalkFields(d, props, n - 1, segs), props[n - 1].value, segs + [Lower(props[n - 1].name)]);
      FieldStep(d, props, n, segs);
    }
  }

  lemma {:induction false} WalkElementsIsAbsorb(d: IndexMap, items: seq<Json>, n: nat, segs: seq<string>)
    requires n <= |items|
    ensures WalkElements(d, items, n, segs) == Absorb(d, ElementPairs(items, n, segs))
    decreases items, n
  {
    if n == 0 {
      AbsorbFromNothing(d, ElementPairs(items, 0, segs));
    } else {
      WalkElementsIsAbsorb(d, items, n - 1, segs);
      ElementStep(d, items, n, segs);
      if !IsScalar(items[n - 1]) {
        WalkIsAbsorb(WalkElements(d, items, n - 1, segs), items[n - 1], segs);
      }
    }
  }

  // ---------------------------------------------------------------------
  // findIndexesFromSchema and its three recursive helpers
  // ---------------------------------------------------------------------

  /** findIndexesFromSchema. */
  method FindIndexesFromSchema(schema: set<string>, data: seq<Prop>) returns (d: IndexMap)
    ensures d == Indexes(schema, data)
    ensures d.Keys == schema
  {
    d := map[];
    var rest := schema;
    while rest != {}
      invariant rest <= schema
      invariant d.Keys == schema - rest
      invariant forall k | k in d :: d[k] == {}
      decreases rest
    {
      var idx :| idx in rest;
      d := d[idx := {}];
      rest := rest - {idx};
    }
    EmptyIndexIs(d, schema);
    var i := 0;
    while i < |data|
      invariant 0 <= i <= |data|
      invariant d == WalkFields(EmptyIndex(schema), data, i, [])
    {
      var prop := data[i];
      assert [] + [Lower(prop.name)] == [Lower(prop.name)];
      if prop.value.JObj? {
        d := HandleObject(d, prop.value, prop.name, [Lower(prop.name)]);
      } else if prop.value.JArr? {
        d := HandleArray(d, prop.value, prop.name, [Lower(prop.name)]);
      } else {
        d := HandleSimple(d, prop, None, []);
      }
      i := i + 1;
    }
    WalkIsAbsorb(EmptyIndex(schema), JObj(data), []);
  }

  /** handleObject: walks an object found under `parentPath`. */
  method HandleObject(d: IndexMap, obj: Json, parentPath: string, ghost segs: seq<string>) returns (d': IndexMap)
    requires obj.JObj?
    requires |segs| > 0 && Lower(parentPath) == JoinDot(segs)
    ensures d' == Walk(d, obj, segs)
    decreases obj
  {
    d' := d;
    var i := 0;
    while i < |obj.props|
      invariant 0 <= i <= |obj.props|
      invariant d' == WalkFields(d, obj.props, i, segs)
    {
      var prop := obj.props[i];
      if prop.value.JObj? {
        ChildPath(parentPath, segs, prop.name);
        d' := HandleObject(d', prop.value, parentPath + "." + Lower(prop.name), segs + [Lower(prop.name)]);
      } else if prop.value.JArr? {
        ChildPath(parentPath, segs, prop.name);
        d' := HandleArray(d', prop.value, parentPath + "." + Lower(prop.name), segs + [Lower(prop.name)]);
      } else {
        d' := HandleSimple(d', prop, Some(parentPath), segs);
      }
      i := i + 1;
    }
  }

  /** handleArray: walks the object and array elements of an array; scalar elements are skipped. */
  method HandleArray(d: IndexMap, arr: Json, parentPath: string, ghost segs: seq<string>) returns (d': IndexMap)
    requires arr.JArr?
    requires |segs| > 0 && Lower(parentPath) == JoinDot(segs)
    ensures d' == Walk(d, arr, segs)
    decreases arr
  {
    d' := d;
    var i := 0;
    while i < |arr.items|
      invariant 0 <= i <= |arr.items|
      invariant d' == WalkElements(d, arr.items, i, segs)
    {
      var item := arr.items[i];
      if item.JObj? {
        d' := HandleObject(d', item, parentPath, segs);
      } else if item.JArr? {
        d' := HandleArray(d', item, parentPath, segs);
      } else {
        // A bare scalar inside an array cannot be indexed.
      }
      i := i + 1;
    }
  }

  /**
   * handleSimple: offers one scalar property to the dictionary under the
   * lower-cased path; `parentPath` is None at the top level of the document.
   */
  method HandleSimple(d: IndexMap, prop: Prop, parentPath: Option<string>, ghost segs: seq<string>)
    returns (d': IndexMap)
    requires IsScalar(prop.value)
    requires parentPath.None? ==> segs == []
    requires parentPath.Some? ==> |segs| > 0 && Lower(parentPath.value) == JoinDot(segs)
    ensures d' == Walk(d, prop.value, segs + [Lower(prop.name)])
  {
    var path: string;
    if parentPath.None? {
      path := Lower(prop.name);
      assert segs + [Lower(prop.name)] == [Lower(prop.name)];
    } else {
      path := Lower(parentPath.value) + "." + Lower(prop.name);
      JoinDotSnoc(segs, Lower(prop.name));
    }
    assert path == JoinDot(segs + [Lower(prop.name)]);
    d' := d;
    if path in d {
      var value := "";
      if prop.value.JBool? {
        BooleanText(prop.value.b);
        if Lower(Text(prop.value)) == "true" {
          value := "1";
        } else {
          value := "0";
        }
      } else {
        value := Text(prop.value);
      }
      d' := d[path := d[path] + {value}];
    }
  }

  // ---------------------------------------------------------------------
  // What the index holds
  // ---------------------------------------------------------------------

  /** Every pair offered for a token comes from a leaf path into it. */
  lemma {:induction false} PairsSound(j: Json, segs: seq<string>, p: (string, string))
    requires p in Pairs(j, segs)
    ensures exists steps :: LeafPath(j, steps) && PairAt(j, segs, steps) == p
    decreases j
  {
    match j
    case JObj(props) =>
      var k :| 0 <= k < |props| && p in Pairs(props[k].value, segs + [Lower(props[k].name)]);
      PairsSound(props[k].value, segs + [Lower(props[k].name)], p);
      var rest :| LeafPath(props[k].value, rest) && PairAt(props[k].value, segs + [Lower(props[k].name)], rest) == p;
      FieldLeafPath(props, k, segs, rest);
    case JArr(items) =>
      var k :| 0 <= k < |items| && !IsScalar(items[k]) && p in Pairs(items[k], segs);
      PairsSound(items[k], segs, p);
      var rest :| LeafPath(items[k], rest) && PairAt(items[k], segs, rest) == p;
      ElementLeafPath(items, k, segs, rest);
    case _ =>
      assert segs + PathNames(j, []) == segs;
      assert LeafPath(j, []) && PairAt(j, segs, []) == p;
  }

  /** A leaf path into a property's value extends to one into the object. */
  lemma FieldLeafPath(props: seq<Prop>, k: nat, segs: seq<string>, rest: seq<Step>)
    requires k < |props| && LeafPath(props[k].value, rest)
    ensures LeafPath(JObj(props), [Field(k)] + rest)
    ensures PairAt(JObj(props), segs, [Field(k)] + rest) == PairAt(props[k].value, segs + [Lower(props[k].name)], rest)
  {
    var steps := [Field(k)] + rest;
    assert steps[1..] == rest;
    assert segs + PathNames(JObj(props), steps) == segs + [Lower(props[k].name)] + PathNames(props[k].value, rest);
  }

  /** A leaf path into an array element that is a container extends to one into the array. */
  lemma ElementLeafPath(items: seq<Json>, k: nat, segs: seq<string>, rest: seq<Step>)
    requires k < |items| && !IsScalar(items[k]) && LeafPath(items[k], rest)
    ensures LeafPath(JArr(items), [Element(k)] + rest)
    ensures PairAt(JArr(items), segs, [Element(k)] + rest) == PairAt(items[k], segs, rest)
  {
    var steps := [Element(k)] + rest;
    assert steps[1..] == rest;
  }

  /** Every leaf path into a token has its pair offered. */
  lemma {:induction false} PairsComplete(j: Json, segs: seq<string>, steps: seq<Step>)
    requires LeafPath(j, steps)
    ensures PairAt(j, segs, steps) in Pairs(j, segs)
    decreases j
  {
    if |steps| == 0 {
      assert segs + PathNames(j, steps) == segs;
    } else {
      var rest := steps[1..];
      match steps[0]
      case Field(k) =>
        var child := j.props[k];
        var childSegs := segs + [Lower(child.name)];
        assert LeafPath(child.value, rest);
        PairsComplete(child.value, childSegs, rest);
        assert segs + PathNames(j, steps) == childSegs + PathNames(child.value, rest);
        assert PairAt(j, segs, steps) == PairAt(child.value, childSegs, rest);
      case Element(k) =>
        var item := j.items[k];
        assert |rest| > 0;
        assert At(item, rest) == At(j, steps);
        assert item.JObj? || item.JArr?;
        assert LeafPath(item, rest);
        PairsComplete(item, segs, rest);
        assert PairAt(j, segs, steps) == PairAt(item, segs, rest);
    }
  }

  /**
   * The index of a document, described without the walk: a declared path
   * holds exactly the values of the leaves whose lower-cased property path
   * is that path, and no undeclared path is a key.
   */
  lemma IndexesCharacterized(schema: set<string>, doc: seq<Prop>, path: string, v: string)
    ensures path in Indexes(schema, doc) <==> path in schema
    ensures path in schema ==>
      (v in Indexes(schema, doc)[path] <==>
         exists steps :: LeafPath(JObj(doc), steps) && PairAt(JObj(doc), [], steps) == (path, v))
  {
    if path in schema {
      assert v in Indexes(schema, doc)[path] <==> (path, v) in Pairs(JObj(doc), []);
      if (path, v) in Pairs(JObj(doc), []) {
        PairsSound(JObj(doc), [], (path, v));
      }
      forall steps | LeafPath(JObj(doc), steps) && PairAt(JObj(doc), [], steps) == (path, v)
        ensures (path, v) in Pairs(JObj(doc), [])
      {
        PairsComplete(JObj(doc), [], steps);
      }
    }
  }

  /** A boolean leaf at a declared path contributes "1" when true and "0" when false. */
  lemma BooleanLeafIndexed(schema: set<string>, doc: seq<Prop>, steps: seq<Step>, b: bool)
    requires LeafPath(JObj(doc), steps) && At(JObj(doc), steps).value == JBool(b)
    requires PairAt(JObj(doc), [], steps).0 in schema
    ensures (if b then "1" else "0") in Indexes(schema, doc)[PairAt(JObj(doc), [], steps).0]
  {
    IndexesCharacterized(schema, doc, PairAt(JObj(doc), [], steps).0, if b then "1" else "0");
  }

  /**
   * The texts "true", "false", "True" and "False" only ever reach the index
   * from string leaves: a boolean becomes "1"/"0" and a number is digits.
   */
  lemma BooleanTextOnlyFromStrings(schema: set<string>, doc: seq<Prop>, path: string, v: string)
    requires path in schema && v in Indexes(schema, doc)[path]
    requires v in {"true", "false", "True", "False"}
    ensures exists steps :: LeafPath(JObj(doc), steps) && PairAt(JObj(doc), [], steps) == (path, v)
                            && At(JObj(doc), steps).value == JStr(v)
  {
    IndexesCharacterized(schema, doc, path, v);
    var steps :| LeafPath(JObj(doc), steps) && PairAt(JObj(doc), [], steps) == (path, v);
    LeafValueTextsOnlyFromStrings(At(JObj(doc), steps).value);
  }

  lemma LeafValueTextsOnlyFromStrings(j: Json)
    requires IsScalar(j) && LeafValue(j) in {"true", "false", "True", "False"}
    ensures j == JStr(LeafValue(j))
  {
    if j.JNum? {
      NumberTextIsNotBooleanText(j.n);
    }
  }

  lemma NumberTextIsNotBooleanText(n: int)
    ensures IntToString(n) !in {"true", "false", "True", "False"}
  {
    IntToStringStart(n);
    var s := IntToString(n);
    assert s[0] == '-' || '0' <= s[0] <= '9';
  }

  /** Only lower-case paths can receive values: a declared path with an upper-case letter stays empty. */
  lemma UpperCasePathStaysEmpty(schema: set<string>, doc: seq<Prop>, path: string)
    requires path in schema && !IsLower(path)
    ensures Indexes(schema, doc)[path] == {}
  {
    forall v | v in Indexes(schema, doc)[path]
      ensures false
    {
      PairsSound(JObj(doc), [], (path, v));
      PathsAreLower(JObj(doc), [], (path, v));
    }
  }

  /** Under lower-case segments, every offered path is lower-case. */
  lemma {:induction false} PathsAreLower(j: Json, segs: seq<string>, p: (string, string))
    requires forall i :: 0 <= i < |segs| ==> IsLower(segs[i])
    requires p in Pairs(j, segs)
    ensures IsLower(p.0)
    decreases j
  {
    match j
    case JObj(props) =>
      var k :| 0 <= k < |props| && p in Pairs(props[k].value, segs + [Lower(props[k].name)]);
      LowerIsLower(props[k].name);
      PathsAreLower(props[k].value, segs + [Lower(props[k].name)], p);
    case JArr(items) =>
      var k :| 0 <= k < |items| && !IsScalar(items[k]) && p in Pairs(items[k], segs);
      PathsAreLower(items[k], segs, p);
    case _ =>
      JoinDotIsLower(segs);
  }

  lemma {:induction false} JoinDotIsLower(segs: seq<string>)
    requires forall i :: 0 <= i < |segs| ==> IsLower(segs[i])
    ensures IsLower(JoinDot(segs))
    decreases |segs|
  {
    if |segs| > 1 {
      JoinDotIsLower(segs[..|segs| - 1]);
      IsLowerAppend(JoinDot(segs[..|segs| - 1]), ".");
      IsLowerAppend(JoinDot(segs[..|segs| - 1]) + ".", segs[|segs| - 1]);
    }
  }

  /** An array adds no path segment: its object and array elements are indexed under the array's own path. */
  lemma ArrayElementsShareThePath(items: seq<Json>, segs: seq<string>, k: nat)
    requires k < |items| && !IsScalar(items[k])
    ensures Pairs(items[k], segs) <= Pairs(JArr(items), segs)
  {
  }

  /** A scalar element of an array contributes nothing: removing it leaves the pairs unchanged. */
  lemma ScalarElementIgnored(items: seq<Json>, segs: seq<string>, k: nat)
    requires k < |items| && IsScalar(items[k])
    ensures Pairs(JArr(items[..k] + items[k + 1..]), segs) == Pairs(JArr(items), segs)
  {
    var short := items[..k] + items[k + 1..];
    forall p | p in Pairs(JArr(items), segs)
      ensures p in Pairs(JArr(short), segs)
    {
      assert p in ElementPairs(items, |items|, segs);
      var i :| 0 <= i < |items| && !IsScalar(items[i]) && p in Pairs(items[i], segs);
      var i' := if i < k then i else i - 1;
      assert short[i'] == items[i];
    }
    forall p | p in Pairs(JArr(short), segs)
      ensures p in Pairs(JArr(items), segs)
    {
      assert p in ElementPairs(short, |short|, segs);
      var i :| 0 <= i < |short| && !IsScalar(short[i]) && p in Pairs(short[i], segs);
      var i' := if i < k then i else i + 1;
      assert short[i] == items[i'];
    }
  }

  /** Values are a set: a document whose properties are listed twice has the same index. */
  lemma RepeatedValuesCollapse(schema: set<string>, doc: seq<Prop>)
    ensures Indexes(schema, doc + doc) == Indexes(schema, doc)
  {
    var twice := doc + doc;
    forall p | p in Pairs(JObj(twice), [])
      ensures p in Pairs(JObj(doc), [])
    {
      assert p in FieldPairs(twice, |twice|, []);
      var i :| 0 <= i < |twice| && p in Pairs(twice[i].value, [] + [Lower(twice[i].name)]);
      var i' := if i < |doc| then i else i - |doc|;
      assert twice[i] == doc[i'];
    }
    forall p | p in Pairs(JObj(doc), [])
      ensures p in Pairs(JObj(twice), [])
    {
      assert p in FieldPairs(doc, |doc|, []);
      var i :| 0 <= i < |doc| && p in Pairs(doc[i].value, [] + [Lower(doc[i].name)]);
      assert twice[i] == doc[i];
    }
    assert Pairs(JObj(twice), []) == Pairs(JObj(doc), []);
  }

  /** The document {hobbies: [3, {k: "v"}]} under the schema {hobbies, hobbies.k}: the 3 is dropped. */
  lemma HobbiesExample()
    ensures Indexes({"hobbies", "hobbies.k"}, [Prop("hobbies", JArr([JNum(3), JObj([Prop("k", JStr("v"))])]))])
         == map["hobbies" := {}, "hobbies.k" := {"v"}]
  {
    var doc := [Prop("hobbies", JArr([JNum(3), JObj([Prop("k", JStr("v"))])]))];
    var e := EmptyIndex({"hobbies", "hobbies.k"});
    HobbiesWalk(e);
    WalkIsAbsorb(e, JObj(doc), []);
  }

  /** Example helper for HobbiesExample: the walk of the whole document, the 3 skipped. */
  lemma HobbiesWalk(e: IndexMap)
    requires e == EmptyIndex({"hobbies", "hobbies.k"})
    ensures Walk(e, JObj([Prop("hobbies", JArr([JNum(3), JObj([Prop("k", JStr("v"))])]))]), [])
         == map["hobbies" := {}, "hobbies.k" := {"v"}]
  {
    var inner := JObj([Prop("k", JStr("v"))]);
    var arr := JArr([JNum(3), inner]);
    var doc := [Prop("hobbies", arr)];
    HobbiesInner(e);
    assert WalkElements(e, arr.items, 1, ["hobbies"]) == e;
    assert Walk(e, arr, ["hobbies"]) == Walk(e, inner, ["hobbies"]);
    LowerOfLower("hobbies");
    assert [] + [Lower("hobbies")] == ["hobbies"];
    assert WalkFields(e, doc, 1, []) == Walk(e, arr, ["hobbies"]);
  }

  /** Example helper for HobbiesExample: the walk of the inner object under the path `hobbies`. */
  lemma HobbiesInner(e: IndexMap)
    requires e == EmptyIndex({"hobbies", "hobbies.k"})
    ensures Walk(e, JObj([Prop("k", JStr("v"))]), ["hobbies"]) == map["hobbies" := {}, "hobbies.k" := {"v"}]
  {
    var inner := JObj([Prop("k", JStr("v"))]);
    assert Lower("k") == "k";
    assert ["hobbies"] + [Lower("k")] == ["hobbies", "k"];
    assert JoinDot(["hobbies", "k"]) == "hobbies.k";
    assert WalkFields(e, inner.props, 1, ["hobbies"]) == Walk(e, JStr("v"), ["hobbies", "k"]);
    assert Walk(e, JStr("v"), ["hobbies", "k"]) == Offer(e, "hobbies.k", "v");
    assert e["hobbies.k"] + {"v"} == {"v"};
    assert e["hobbies.k" := {"v"}] == map["hobbies" := {}, "hobbies.k" := {"v"}];
  }

  // ---------------------------------------------------------------------
  // Helper lemmas for the walk
  // ---------------------------------------------------------------------

  lemma JoinDotSnoc(segs: seq<string>, s: string)
    requires |segs| > 0
    ensures JoinDot(segs + [s]) == JoinDot(segs) + "." + s
  {
    assert (segs + [s])[..|segs|] == segs;
  }

  /** The text a child object or array is passed down with still lower-cases to its segments. */
  lemma ChildPath(parentPath: string, segs: seq<string>, name: string)
    requires |segs| > 0 && Lower(parentPath) == JoinDot(segs)
    ensures Lower(parentPath + "." + Lower(name)) == JoinDot(segs + [Lower(name)])
  {
    var ln := Lower(name);
    LowerAppend(parentPath + ".", ln);
    LowerAppend(parentPath, ".");
    LowerIsLower(name);
    assert Lower(".") == ".";
    calc {
      Lower(parentPath + "." + ln);
      Lower(parentPath + ".") + Lower(ln);
      Lower(parentPath) + Lower(".") + ln;
      JoinDot(segs) + "." + ln;
      { JoinDotSnoc(segs, ln); }
      JoinDot(segs + [ln]);
    }
  }

  lemma BooleanText(b: bool)
    ensures Lower(Text(JBool(b))) == "true" <==> b
  {
    if b {
      assert Lower("True") == "t" + Lower("rue");
      assert Lower("rue") == "r" + Lower("ue");
      assert Lower("ue") == "u" + Lower("e");
    } else {
      assert Lower("False")[0] == 'f';
    }
  }

  /** Offering the pairs of the n-th property is offering them after the earlier ones. */
  lemma FieldStep(d: IndexMap, props: seq<Prop>, n: nat, segs: seq<string>)
    requires 0 < n <= |props|
    ensures Absorb(d, FieldPairs(props, n, segs))
         == Absorb(Absorb(d, FieldPairs(props, n - 1, segs)), Pairs(props[n - 1].value, segs + [Lower(props[n - 1].name)]))
  {
    assert FieldPairs(props, n, segs)
        == FieldPairs(props, n - 1, segs) + Pairs(props[n - 1].value, segs + [Lower(props[n - 1].name)]);
    AbsorbUnion(d, FieldPairs(props, n - 1, segs), Pairs(props[n - 1].value, segs + [Lower(props[n - 1].name)]));
  }

  /** Offering the pairs of the n-th element; a scalar element offers nothing. */
  lemma ElementStep(d: IndexMap, items: seq<Json>, n: nat, segs: seq<string>)
    requires 0 < n <= |items|
    ensures IsScalar(items[n - 1]) ==> Absorb(d, ElementPairs(items, n, segs)) == Absorb(d, ElementPairs(items, n - 1, segs))
    ensures !IsScalar(items[n - 1]) ==>
      Absorb(d, ElementPairs(items, n, segs)) == Absorb(Absorb(d, ElementPairs(items, n - 1, segs)), Pairs(items[n - 1], segs))
  {
    if IsScalar(items[n - 1]) {
      assert ElementPairs(items, n, segs) == ElementPairs(items, n - 1, segs);
    } else {
      assert ElementPairs(items, n, segs) == ElementPairs(items, n - 1, segs) + Pairs(items[n - 1], segs);
      AbsorbUnion(d, ElementPairs(items, n - 1, segs), Pairs(items[n - 1], segs));
    }
  }

  lemma EmptyIndexIs(d: IndexMap, schema: set<string>)
    requires d.Keys == schema
    requires forall k | k in d :: d[k] == {}
    ensures d == EmptyIndex(schema)
  {
  }

  lemma AbsorbFromNothing(d: IndexMap, none: set<(string, string)>)
    requires none == {}
    ensures Absorb(d, none) == d
  {
    forall k | k in d
      ensures Absorb(d, none)[k] == d[k]
    {
      assert ValuesAt(none, k) == {};
    }
  }

  lemma AbsorbUnion(d: IndexMap, a: set<(string, string)>, b: set<(string, string)>)
    ensures Absorb(Absorb(d, a), b) == Absorb(d, a + b)
  {
    forall k | k in d
      ensures Absorb(Absorb(d, a), b)[k] == Absorb(d, a + b)[k]
    {
      assert ValuesAt(a + b, k) == ValuesAt(a, k) + ValuesAt(b, k);
    }
  }

  lemma AbsorbOne(d: IndexMap, path: string, v: string)
    ensures Absorb(d, {(path, v)}) == if path in d then d[path := d[path] + {v}] else d
  {
    var r := Absorb(d, {(path, v)});
    forall k | k in d
      ensures r[k] == if k == path then d[k] + {v} else d[k]
    {
      assert ValuesAt({(path, v)}, k) == if k == path then {v} else {};
    }
    if path in d {
      assert r == d[path := d[path] + {v}];
    } else {
      assert r == d;
    }
  }
}
