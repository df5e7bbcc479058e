/**
 * StoragePlugin: the entry points the JavaScript layer calls. Each looks up
 * the collection by name (`JSONStore.getCollectionWithName`, a parameter
 * here: null when the collection is not open), calls one collection
 * operation and turns its return value or its exception into a
 * StorageResult. The parameter strings are already deserialised: every
 * method takes the values the JSON parser would have produced.
 */
module Plugin {
  import opened Wrappers
  import opened JsonValues
  import opened Constants
  import opened Queries
  import opened Stores
  import opened CollectionSpecs
  import opened Collections
  import opened StorageResults

  /* ---------- return codes ---------- */

  /**
   * The two catch blocks most entry points end with: a JSONStoreException
   * reports its error code, any other exception PERSISTENT_STORE_FAILURE.
   */
  function FromFault(f: Fault): StorageResult {
    match f
    case StoreException(code, _) => WithMessage(Error, CodeMessage(code))
    case OtherException => WithMessage(Error, CodeMessage(PersistentStoreFailure))
  }

  /** replace's first catch block: the failed documents when the exception carries them, else the code. */
  function ReplaceFault(f: Fault): StorageResult {
    match f
    case StoreException(_, Some(data)) => WithMessage(Error, Docs(data))
    case _ => FromFault(f)
  }

  /** remove has only the general catch block. */
  function RemoveFault(f: Fault): StorageResult {
    WithMessage(Error, CodeMessage(PersistentStoreFailure))
  }

  /** The reply when the collection lookup finds nothing. */
  function NotOpen(): StorageResult {
    WithMessage(Error, CodeMessage(DatabaseNotOpen))
  }

  /** `new StorageResult(Status.OK, value)` for a returned value; the catch blocks for an exception. */
  function Reply<T>(outcome: Result<T>, message: T -> Message, onFault: Fault -> StorageResult): StorageResult {
    match outcome
    case Success(v) => WithMessage(Ok, message(v))
    case Failure(f) => onFault(f)
  }

  /** A boolean result as the JS_TRUE / JS_FALSE sentinel. */
  function JsBool(b: bool): Code {
    if b then RcJsTrue else RcJsFalse
  }

  function CountMessage(n: int): Message {
    Count(n)
  }

  function DocsMessage(docs: seq<JObject>): Message {
    Docs(docs)
  }

  function RcOkMessage<T>(v: T): Message {
    CodeMessage(RcOk)
  }

  function JsBoolMessage(b: bool): Message {
    CodeMessage(JsBool(b))
  }

  /**
   * provision: `openCollections` (not part of this model) either throws or
   * tells whether the collection was reopened.
   */
  function ProvisionReply(outcome: Result<bool>): StorageResult {
    Reply(outcome, (wasReopened: bool) => CodeMessage(if wasReopened then ProvisionTableExists else RcOk), FromFault)
  }

  /**
   * startTransaction, commitTransaction, rollbackTransaction: the JSONStore
   * call (not part of this model) either throws or tells whether it worked;
   * a call that did not work is still reported with status OK.
   */
  function TransactionReply(worked: Result<bool>): StorageResult {
    Reply(worked, (w: bool) => CodeMessage(if w then RcOk else PersistentStoreFailure), FromFault)
  }

  /** A reply is a success exactly when the operation returned; a thrown exception is always ERROR. */
  lemma ReplyIsSuccess<T>(outcome: Result<T>, message: T -> Message, onFault: Fault -> StorageResult)
    requires forall f :: onFault(f).statusCode == Error
    ensures Reply(outcome, message, onFault).IsSuccess() <==> outcome.Success?
    ensures Reply(outcome, message, onFault).statusCode != NoResult
  {
  }

  /** Every catch block reports status ERROR, so no exception becomes a success. */
  lemma FaultRepliesAreErrors(f: Fault)
    ensures FromFault(f).statusCode == Error && ReplaceFault(f).statusCode == Error && RemoveFault(f).statusCode == Error
    ensures !FromFault(f).IsSuccess() && !ReplaceFault(f).IsSuccess() && !RemoveFault(f).IsSuccess()
  {
  }

  /**
   * A JSONStoreException keeps its code; any other exception is reported
   * exactly like a JSONStoreException with PERSISTENT_STORE_FAILURE.
   */
  lemma FromFaultKeepsCode(f: Fault, g: Fault)
    ensures f.StoreException? ==> FromFault(f).value == CodeMessage(f.code)
    ensures f.StoreException? && g.StoreException? ==> (FromFault(f) == FromFault(g) <==> f.code == g.code)
    ensures FromFault(OtherException) == FromFault(StoreException(PersistentStoreFailure, None))
  {
  }

  /**
   * replace reports the failed documents of an exception that has them,
   * and otherwise the same as the other entry points.
   */
  lemma ReplaceFaultReportsData(f: Fault)
    ensures f.StoreException? && f.data.Some? ==> ReplaceFault(f).value == Docs(f.data.value)
    ensures !(f.StoreException? && f.data.Some?) ==> ReplaceFault(f) == FromFault(f)
  {
  }

  /** remove reports PERSISTENT_STORE_FAILURE for every exception: its failure list is dropped. */
  lemma RemoveFaultDropsData(f: Fault)
    ensures RemoveFault(f) == FromFault(OtherException)
    ensures !RemoveFault(f).value.Docs?
  {
  }

  /** The sentinels tell the two booleans apart. */
  lemma JsBoolSentinels(b: bool)
    ensures JsBool(b) == RcJsTrue <==> b
    ensures JsBool(b) == RcJsFalse <==> !b
  {
  }

  /** provision returns PROVISION_TABLE_EXISTS exactly for a reopened collection, else RC_OK. */
  lemma ProvisionCodes(wasReopened: bool)
    ensures ProvisionReply(Success(wasReopened)).IsSuccess()
    ensures ProvisionReply(Success(wasReopened)).value == CodeMessage(ProvisionTableExists) <==> wasReopened
    ensures ProvisionReply(Success(wasReopened)).value == CodeMessage(RcOk) <==> !wasReopened
  {
  }

  /**
   * A transaction call that returned is reported with status OK either
   * way; the code is RC_OK exactly when it worked.
   */
  lemma TransactionCodes(worked: bool, f: Fault)
    ensures TransactionReply(Success(worked)).IsSuccess()
    ensures TransactionReply(Success(worked)).value == CodeMessage(RcOk) <==> worked
    ensures TransactionReply(Success(worked)).value == CodeMessage(PersistentStoreFailure) <==> !worked
    ensures !TransactionReply(Failure(f)).IsSuccess()
  {
  }

  /* ---------- advancedFind: the query-part compiler ---------- */

  /** The number of array-valued properties: each appends one query part. */
  function ArrayCount(props: seq<Prop>): nat
    decreases |props|
  {
    if |props| == 0 then 0
    else ArrayCount(props[..|props| - 1]) + (if props[|props| - 1].value.JArr? then 1 else 0)
  }

  /** The if/else-if chain of the compiler, as a function of the property name. */
  function Selector(keyword: Operator -> string): string -> Option<Operator> {
    name => SelectOperator(name, keyword)
  }

  /**
   * The operand arrays one query object ends up with: each array-valued
   * property sets the operator `select` picks for its name, a later
   * property overwriting an earlier one for the same operator; a name that
   * selects no operator sets nothing.
   */
  function CompileOperands(props: seq<Prop>, select: string -> Option<Operator>): map<Operator, seq<Json>>
    decreases |props|
  {
    if |props| == 0 then map[]
    else
      var n := |props| - 1;
      var prev := CompileOperands(props[..n], select);
      match props[n].value
      case JArr(items) =>
        (match select(props[n].name)
         case Some(op) => prev[op := items]
         case None => prev)
      case _ => prev
  }

  /** `k` repeated `n` times. */
  function Repeat(k: int, n: nat): (r: seq<int>)
    ensures |r| == n && forall i :: 0 <= i < n ==> r[i] == k
  {
    seq(n, _ => k)
  }

  /** For each query part, the position of the input object it was built from. */
  function OwnerList(inputs: seq<Json>): seq<int>
    decreases |inputs|
  {
    if |inputs| == 0 then []
    else
      var n := |inputs| - 1;
      OwnerList(inputs[..n]) + (if inputs[n].JObj? then Repeat(n, ArrayCount(inputs[n].props)) else [])
  }

  /** Every array-valued property of input `k` makes one part, and parts follow input order. */
  lemma {:induction false} OwnerListCounts(inputs: seq<Json>, k: nat)
    requires k < |inputs| && inputs[k].JObj?
    ensures multiset(OwnerList(inputs))[k] == ArrayCount(inputs[k].props)
    ensures forall i, j :: 0 <= i < j < |OwnerList(inputs)| ==> OwnerList(inputs)[i] <= OwnerList(inputs)[j]
    decreases |inputs|
  {
    var n := |inputs| - 1;
    var prev := OwnerList(inputs[..n]);
    var count := if inputs[n].JObj? then ArrayCount(inputs[n].props) else 0;
    assert OwnerList(inputs) == prev + Repeat(n, count);
    OwnerListBelow(inputs[..n]);
    RepeatCount(n, count, k);
    if k < n {
      assert inputs[..n][k] == inputs[k];
      OwnerListCounts(inputs[..n], k);
    } else {
      assert forall x | x in prev :: x < n;
    }
    OrderedOwners(inputs);
  }

  /** How often a value occurs in a repetition. */
  lemma {:induction false} RepeatCount(v: int, m: nat, x: int)
    ensures multiset(Repeat(v, m))[x] == if x == v then m else 0
    decreases m
  {
    if m > 0 {
      assert Repeat(v, m) == Repeat(v, m - 1) + [v];
      RepeatCount(v, m - 1, x);
    }
  }

  /** Parts follow input order. */
  lemma {:induction false} OrderedOwners(inputs: seq<Json>)
    ensures forall i, j :: 0 <= i < j < |OwnerList(inputs)| ==> OwnerList(inputs)[i] <= OwnerList(inputs)[j]
    decreases |inputs|
  {
    if |inputs| > 0 {
      var n := |inputs| - 1;
      OrderedOwners(inputs[..n]);
      OwnerListBelow(inputs[..n]);
      var prev := OwnerList(inputs[..n]);
      var last := if inputs[n].JObj? then Repeat(n, ArrayCount(inputs[n].props)) else [];
      assert OwnerList(inputs) == prev + last;
    }
  }

  /** The owners of the parts of a prefix are positions inside it. */
  lemma {:induction false} OwnerListBelow(inputs: seq<Json>)
    ensures forall i :: 0 <= i < |OwnerList(inputs)| ==> 0 <= OwnerList(inputs)[i] < |inputs|
    decreases |inputs|
  {
    if |inputs| > 0 {
      var n := |inputs| - 1;
      OwnerListBelow(inputs[..n]);
    }
  }

  /** Property `p` is an array whose name selects `op`: compiling it sets `op`. */
  predicate Sets(p: Prop, op: Operator, select: string -> Option<Operator>) {
    p.value.JArr? && select(p.name) == Some(op)
  }

  /** An operator is set exactly when some array-valued property selects it. */
  lemma {:induction false} CompileOperandsKeys(props: seq<Prop>, select: string -> Option<Operator>, op: Operator)
    ensures op in CompileOperands(props, select) <==> exists i :: 0 <= i < |props| && Sets(props[i], op, select)
    decreases |props|
  {
    if |props| > 0 {
      var n := |props| - 1;
      CompileOperandsKeys(props[..n], select, op);
      if exists i :: 0 <= i < n && Sets(props[..n][i], op, select) {
        var i :| 0 <= i < n && Sets(props[..n][i], op, select);
        assert Sets(props[i], op, select);
      }
      if exists i :: 0 <= i < |props| && Sets(props[i], op, select) {
        var i :| 0 <= i < |props| && Sets(props[i], op, select);
        if i < n {
          assert Sets(props[..n][i], op, select);
        }
      }
    }
  }

  /** The operand array of an operator is the array of the last property that selects it. */
  lemma {:induction false} CompileOperandsLastWins(props: seq<Prop>, select: string -> Option<Operator>, op: Operator, i: nat)
    requires i < |props| && Sets(props[i], op, select)
    requires forall j | i < j < |props| :: !Sets(props[j], op, select)
    ensures op in CompileOperands(props, select) && CompileOperands(props, select)[op] == props[i].value.items
    decreases |props|
  {
    var n := |props| - 1;
    if i < n {
      assert forall j | i < j < n :: props[..n][j] == props[j];
      CompileOperandsLastWins(props[..n], select, op, i);
      assert !Sets(props[n], op, select);
    }
  }

  /** An array-valued property whose name selects no operator still makes a part, with nothing set. */
  lemma UnmatchedNameStillAppends(props: seq<Prop>, p: Prop, select: string -> Option<Operator>)
    requires p.value.JArr? && select(p.name).None?
    ensures ArrayCount(props + [p]) == ArrayCount(props) + 1
    ensures CompileOperands(props + [p], select) == CompileOperands(props, select)
  {
    assert (props + [p])[..|props|] == props;
  }

  /**
   * The compiler loop of advancedFind. Each input must be an object (the
   * cast throws otherwise). Each input gets one new query object, holding
   * that input's compiled operands, and each of its array-valued
   * properties appends that same object to the parts.
   */
  method CompileQueryParts(inputQuery: seq<Json>, keyword: Operator -> string)
    returns (r: Result<seq<Query>>, ghost owners: seq<int>, ghost objects: seq<Query>)
    ensures r.Success? <==> AllObjectsIn(inputQuery)
    ensures r.Failure? ==> r == Failure(OtherException)
    ensures r.Success? ==> Compiled(inputQuery, keyword, r.value, owners, objects)
  {
    var queryParts: seq<Query> := [];
    owners := [];
    objects := [];
    var k := 0;
    while k < |inputQuery| && inputQuery[k].JObj?
      invariant 0 <= k <= |inputQuery|
      invariant Compiled(inputQuery[..k], keyword, queryParts, owners, objects)
    {
      queryParts, owners, objects := CompileNext(inputQuery, k, keyword, queryParts, owners, objects);
      k := k + 1;
    }
    if k < |inputQuery| {
      assert !inputQuery[k].JObj?;
      r := Failure(OtherException);
    } else {
      assert inputQuery[..|inputQuery|] == inputQuery;
      AllObjects(inputQuery, keyword, objects);
      r := Success(queryParts);
    }
  }

  /**
   * The query parts compiled from `inputs`: one query object per input,
   * holding its compiled operands, and each part is the object of the
   * input it came from, one per array-valued property, in input order.
   */
  ghost predicate Compiled(inputs: seq<Json>, keyword: Operator -> string, parts: seq<Query>, owners: seq<int>, objects: seq<Query>)
    reads objects
  {
    && owners == OwnerList(inputs) && |parts| == |owners| && |objects| == |inputs|
    && CompiledOperands(inputs, keyword, objects)
    && (forall a, b | 0 <= a < b < |objects| :: objects[a] != objects[b])
    && (forall i | 0 <= i < |owners| :: 0 <= owners[i] < |objects| && parts[i] == objects[owners[i]])
  }

  /** Each input is an object whose query object holds its compiled operands. */
  ghost predicate CompiledOperands(inputs: seq<Json>, keyword: Operator -> string, objects: seq<Query>)
    reads objects
  {
    |objects| == |inputs| &&
    forall k | 0 <= k < |objects| ::
      HoldsOperands(inputs[k], keyword, objects[k])
  }

  /** The input is an object and the query object holds its compiled operands. */
  ghost predicate HoldsOperands(input: Json, keyword: Operator -> string, query: Query)
    reads query
  {
    input.JObj? && query.operands == CompileOperands(input.props, Selector(keyword))
  }

  /** Every input is an object, so every cast of the compiler goes through. */
  predicate AllObjectsIn(inputs: seq<Json>) {
    forall k | 0 <= k < |inputs| :: inputs[k].JObj?
  }

  lemma AllObjects(inputs: seq<Json>, keyword: Operator -> string, objects: seq<Query>)
    requires CompiledOperands(inputs, keyword, objects)
    ensures AllObjectsIn(inputs)
  {
  }

  lemma CompiledOperandsStep(inputs: seq<Json>, k: nat, keyword: Operator -> string, objects: seq<Query>, query: Query)
    requires k < |inputs| && inputs[k].JObj?
    requires CompiledOperands(inputs[..k], keyword, objects)
    requires query.operands == CompileOperands(inputs[k].props, Selector(keyword))
    ensures CompiledOperands(inputs[..k + 1], keyword, objects + [query])
  {
    assert inputs[..k + 1][..k] == inputs[..k];
  }

  /** The operand maps of the compiled parts, in order: each part has those of the input it came from. */
  function PartOperands(inputs: seq<Json>, keyword: Operator -> string): (r: seq<map<Operator, seq<Json>>>)
    ensures |r| == |OwnerList(inputs)|
  {
    var owners := OwnerList(inputs);
    seq(|owners|, i requires 0 <= i < |owners| =>
      var k := owners[i];
      if 0 <= k < |inputs| && inputs[k].JObj? then CompileOperands(inputs[k].props, Selector(keyword)) else map[])
  }

  /** What the store is handed for compiled parts: the operands of the input each part came from. */
  lemma CompiledPartsOperands(inputs: seq<Json>, keyword: Operator -> string, parts: seq<Query>,
                              owners: seq<int>, objects: seq<Query>)
    requires Compiled(inputs, keyword, parts, owners, objects)
    ensures Operands(parts) == PartOperands(inputs, keyword)
  {
    assert CompiledOperands(inputs, keyword, objects);
  }

  /** One iteration of the compiler loop: the parts of input `k`. */
  method CompileNext(inputQuery: seq<Json>, k: nat, keyword: Operator -> string, queryParts: seq<Query>,
                     ghost owners: seq<int>, ghost objects: seq<Query>)
    returns (queryParts': seq<Query>, ghost owners': seq<int>, ghost objects': seq<Query>)
    requires k < |inputQuery| && inputQuery[k].JObj?
    requires Compiled(inputQuery[..k], keyword, queryParts, owners, objects)
    ensures Compiled(inputQuery[..k + 1], keyword, queryParts', owners', objects')
  {
    var query;
    assert CompiledOperands(inputQuery[..k], keyword, objects);
    queryParts', query := CompilePart(inputQuery[k].props, keyword, queryParts);
    assert CompiledOperands(inputQuery[..k], keyword, objects);
    CompiledOperandsStep(inputQuery, k, keyword, objects, query);
    assert inputQuery[..k + 1][..k] == inputQuery[..k];
    owners' := owners + Repeat(k, ArrayCount(inputQuery[k].props));
    objects' := objects + [query];
  }

  /**
   * The inner loop for one input object: a new query object, set by each
   * array-valued property and appended once per such property.
   */
  method CompilePart(props: seq<Prop>, keyword: Operator -> string, parts: seq<Query>)
    returns (parts': seq<Query>, query: Query)
    ensures fresh(query)
    ensures |parts'| == |parts| + ArrayCount(props) && parts'[..|parts|] == parts
    ensures forall i | |parts| <= i < |parts'| :: parts'[i] == query
    ensures query.operands == CompileOperands(props, Selector(keyword))
  {
    query := new Query();
    parts' := parts;
    var j := 0;
    while j < |props|
      invariant 0 <= j <= |props|
      invariant fresh(query)
      invariant |parts'| == |parts| + ArrayCount(props[..j]) && parts'[..|parts|] == parts
      invariant forall i | |parts| <= i < |parts'| :: parts'[i] == query
      invariant query.operands == CompileOperands(props[..j], Selector(keyword))
    {
      CompileSnoc(props, j, keyword);
      var part := props[j];
      if part.value.JArr? {
        var op := SelectOperator(part.name, keyword);
        if op.Some? {
          query.Set(op.value, part.value.items);
        }
        parts' := parts' + [query];
      }
      j := j + 1;
    }
    assert props[..|props|] == props;
  }

  /** One more property: it counts and sets an operand only when its value is an array. */
  lemma CompileSnoc(props: seq<Prop>, j: nat, keyword: Operator -> string)
    requires j < |props|
    ensures ArrayCount(props[..j + 1]) == ArrayCount(props[..j]) + (if props[j].value.JArr? then 1 else 0)
    ensures CompileOperands(props[..j + 1], Selector(keyword)) ==
      (if props[j].value.JArr? && SelectOperator(props[j].name, keyword).Some?
       then CompileOperands(props[..j], Selector(keyword))[SelectOperator(props[j].name, keyword).value := props[j].value.items]
       else CompileOperands(props[..j], Selector(keyword)))
  {
    assert props[..j + 1][..j] == props[..j];
  }

  /* ---------- the entry points ---------- */

  /** store: addData with the add options' `isAdd` as the dirty flag. */
  method Store(env: Env, collection: Collection?, dataArray: seq<Json>, isAdd: bool) returns (r: StorageResult)
    requires env.store != null ==> env.store.Valid()
    modifies env.store
    ensures collection == null || env.store == null ==> r == NotOpen()
    ensures r.IsSuccess() <==> r.statusCode == Ok
    ensures r.IsSuccess() ==> r.value == Count(|dataArray|)
    ensures collection != null && env.store != null && r.IsSuccess() ==>
      env.store.Table(collection.name)
        == Appended(old(env.store.Table(collection.name)), old(env.store.nextId), dataArray, isAdd)
    ensures collection != null && env.store != null && !r.IsSuccess() ==>
      r == WithMessage(Error, CodeMessage(PersistentStoreFailure))
  {
    if collection == null {
      return NotOpen();
    }
    var docsStored, n := collection.AddData(env, dataArray, isAdd);
    r := Reply(docsStored, CountMessage, FromFault);
  }

  /**
   * advancedFind: compiles the input query objects into query parts and
   * runs them. An input that is not an object is reported as
   * PERSISTENT_STORE_FAILURE.
   */
  method AdvancedFind(env: Env, collection: Collection?, inputQuery: seq<Json>, options: QueryOptions,
                      keyword: Operator -> string) returns (r: StorageResult)
    modifies env.store
    ensures collection == null ==> r == NotOpen()
    ensures collection != null && (exists k :: 0 <= k < |inputQuery| && !inputQuery[k].JObj?) ==>
      r == FromFault(OtherException)
    ensures collection != null && (forall k | 0 <= k < |inputQuery| :: inputQuery[k].JObj?) ==>
      (env.store == null ==> r == NotOpen())
      && (env.store != null ==>
            env.store.log == old(env.store.log) + [FindParts(collection.name, PartOperands(inputQuery, keyword), Some(options))])
    ensures collection != null && (forall k | 0 <= k < |inputQuery| :: inputQuery[k].JObj?) && env.store != null ==>
      !r.IsSuccess() ==> r == WithMessage(Error, CodeMessage(InvalidSearchField))
    ensures r.IsSuccess() <==> r.statusCode == Ok
    ensures r.IsSuccess() ==> r.value.Docs?
  {
    if collection == null {
      return NotOpen();
    }
    var queryParts, owners, objects := CompileQueryParts(inputQuery, keyword);
    if queryParts.Failure? {
      return FromFault(queryParts.fault);
    }
    CompiledPartsOperands(inputQuery, keyword, queryParts.value, owners, objects);
    var results := collection.FindWithAdvancedQuery(env, queryParts.value, Some(options));
    r := Reply(results, DocsMessage, FromFault);
  }

  /** find: findWithQueries. */
  method Find(env: Env, collection: Collection?, queries: seq<Json>, options: QueryOptions)
    returns (r: StorageResult, ghost answers: seq<seq<JObject>>)
    modifies env.store
    ensures collection == null ==> r == NotOpen()
    ensures collection != null && options.offset > 0 && options.limit <= 0 ==>
      r == WithMessage(Error, CodeMessage(InvalidOffset))
    ensures collection != null && !(options.offset > 0 && options.limit <= 0) && env.store == null ==> r == NotOpen()
    ensures collection != null && !(options.offset > 0 && options.limit <= 0) && env.store != null ==>
      (r.IsSuccess() ==> |answers| == |queries| && r.value == Docs(FindResult(answers)))
      && (!r.IsSuccess() ==> r == WithMessage(Error, CodeMessage(InvalidSearchField)))
    ensures r.IsSuccess() <==> r.statusCode == Ok
  {
    answers := [];
    if collection == null {
      return NotOpen(), answers;
    }
    var results;
    results, answers := collection.FindWithQueries(env, queries, options);
    r := Reply(results, DocsMessage, FromFault);
  }

  /** The advanced queries findById issues: one ids-query per id, with no options. */
  function IdCalls(coll: string, ids: seq<Json>): (r: seq<Call>)
    ensures |r| == |ids|
    decreases |ids|
  {
    if |ids| == 0 then []
    else IdCalls(coll, ids[..|ids| - 1]) + [FindParts(coll, [map[Ids := [ids[|ids| - 1]]]], None)]
  }

  /**
   * findById: one advanced query per id, each with only `ids` set to that
   * one id, and the answers concatenated in id order without removing
   * duplicates. An id that is not a scalar fails its cast.
   */
  method FindById(env: Env, collection: Collection?, ids: seq<Json>) returns (r: StorageResult, ghost answers: seq<seq<JObject>>)
    modifies env.store
    ensures collection == null ==> r == NotOpen()
    ensures r.IsSuccess() <==> r.statusCode == Ok
    ensures collection != null && env.store != null && r.IsSuccess() ==>
      |answers| == |ids| && r.value == Docs(Flatten(answers))
      && env.store.log == old(env.store.log) + IdCalls(collection.name, ids)
    ensures collection != null && env.store == null && |ids| > 0 && IsScalar(ids[0]) ==> r == NotOpen()
    ensures collection != null && env.store != null && !r.IsSuccess() ==>
      r == FromFault(OtherException) || r == WithMessage(Error, CodeMessage(InvalidSearchField))
    ensures collection != null && r.IsSuccess() ==> AllScalar(ids)
  {
    answers := [];
    if collection == null {
      return NotOpen(), answers;
    }
    ghost var log0 := if env.store != null then env.store.log else [];
    var fullResults: seq<JObject> := [];
    var k := 0;
    while k < |ids|
      invariant 0 <= k <= |ids|
      invariant FoundSoFar(env.store, log0, collection.name, ids, k, answers, fullResults)
    {
      var results;
      results, fullResults, answers := FindNextId(env, collection, ids, k, log0, fullResults, answers);
      if results.Failure? {
        return FromFault(results.fault), answers;
      }
      k := k + 1;
    }
    assert ids[..|ids|] == ids;
    r := WithMessage(Ok, Docs(fullResults));
  }

  /** Every id is a scalar, so each cast of findById goes through. */
  predicate AllScalar(ids: seq<Json>) {
    forall id | id in ids :: IsScalar(id)
  }

  /** The state of findById after `k` ids: their queries logged, their answers gathered, each cast done. */
  ghost predicate FoundSoFar(store: Store?, log0: seq<Call>, coll: string, ids: seq<Json>, k: nat,
                             answers: seq<seq<JObject>>, fullResults: seq<JObject>)
    reads store
  {
    && k <= |ids| && |answers| == k && (k > 0 ==> store != null)
    && fullResults == Flatten(answers) && AllScalar(ids[..k])
    && (store != null ==> store.log == log0 + IdCalls(coll, ids[..k]))
  }

  /** One iteration of findById: the cast of id `k`, its query, and its answer appended. */
  method FindNextId(env: Env, collection: Collection, ids: seq<Json>, k: nat, ghost log0: seq<Call>,
                    fullResults: seq<JObject>, ghost answers: seq<seq<JObject>>)
    returns (results: Result<seq<JObject>>, fullResults': seq<JObject>, ghost answers': seq<seq<JObject>>)
    requires k < |ids| && FoundSoFar(env.store, log0, collection.name, ids, k, answers, fullResults)
    modifies env.store
    ensures results.Success? ==> FoundSoFar(env.store, log0, collection.name, ids, k + 1, answers', fullResults')
    ensures results.Failure? ==> answers' == answers
    ensures !IsScalar(ids[k]) ==> results == Failure(OtherException)
    ensures IsScalar(ids[k]) && env.store == null ==> results == Throw(DatabaseNotOpen)
    ensures env.store != null ==> results.Success? || results == Failure(OtherException) || results == Throw(InvalidSearchField)
  {
    answers', fullResults' := answers, fullResults;
    results := FindCastId(env, collection, ids[k]);
    if results.Success? {
      fullResults' := AppendAll(fullResults, results.value);
      FindByIdStep(collection.name, ids, k, answers, results.value);
      answers' := answers + [results.value];
    }
  }

  /** The call log and the answers of findById grow by one id at a time, and so does the run of scalar ids. */
  lemma FindByIdStep(coll: string, ids: seq<Json>, k: nat, answers: seq<seq<JObject>>, results: seq<JObject>)
    requires k < |ids|
    ensures IdCalls(coll, ids[..k + 1]) == IdCalls(coll, ids[..k]) + [FindParts(coll, [map[Ids := [ids[k]]]], None)]
    ensures Flatten(answers + [results]) == Flatten(answers) + results
    ensures AllScalar(ids[..k]) && IsScalar(ids[k]) ==> AllScalar(ids[..k + 1])
  {
    assert ids[..k + 1] == ids[..k] + [ids[k]];
    assert ids[..k + 1][..k] == ids[..k];
    assert (answers + [results])[..|answers|] == answers;
  }

  /** One id of findById: the cast of the id to a scalar, then its query. */
  method FindCastId(env: Env, collection: Collection, id: Json) returns (results: Result<seq<JObject>>)
    modifies env.store
    ensures !IsScalar(id) ==> results == Failure(OtherException)
    ensures results.Success? ==> IsScalar(id)
    ensures IsScalar(id) && env.store == null ==> results == Throw(DatabaseNotOpen)
    ensures IsScalar(id) && env.store != null ==>
      env.store.log == old(env.store.log) + [FindParts(collection.name, [map[Ids := [id]]], None)]
      && (results.Success? || results == Throw(InvalidSearchField))
  {
    if !IsScalar(id) {
      return Failure(OtherException);
    }
    results := FindOneId(env, collection, id);
  }

  /** One iteration of findById: an advanced query whose only operand is `ids` set to `[id]`. */
  method FindOneId(env: Env, collection: Collection, id: Json) returns (results: Result<seq<JObject>>)
    modifies env.store
    ensures env.store == null ==> results == Throw(DatabaseNotOpen)
    ensures env.store != null ==>
      env.store.log == old(env.store.log) + [FindParts(collection.name, [map[Ids := [id]]], None)]
      && (results.Success? || results == Throw(InvalidSearchField))
  {
    var query := new Query();
    query.Set(Ids, [id]);
    assert Operands([query]) == [map[Ids := [id]]];
    results := collection.FindWithAdvancedQuery(env, [query], None);
  }

  /** The loop of findById that appends one answer's documents to the full results. */
  method AppendAll(fullResults: seq<JObject>, results: seq<JObject>) returns (r: seq<JObject>)
    ensures r == fullResults + results
  {
    r := fullResults;
    var t := 0;
    while t < |results|
      invariant 0 <= t <= |results|
      invariant r == fullResults + results[..t]
    {
      assert results[..t + 1] == results[..t] + [results[t]];
      r := r + [results[t]];
      t := t + 1;
    }
    assert results[..|results|] == results;
  }

  /** replace: replaceDocuments, marking the documents dirty unless this is a refresh. */
  method Replace(env: Env, collection: Collection?, documents: seq<Json>, isRefresh: bool) returns (r: StorageResult)
    requires env.store != null ==> env.store.Valid()
    modifies env.store
    ensures collection == null || env.store == null ==> r == NotOpen()
    ensures r.IsSuccess() <==> r.statusCode == Ok
    ensures r.IsSuccess() ==> r.value == Count(|documents|)
    ensures collection != null && env.store != null && !r.IsSuccess() ==>
      exists i :: 0 <= i < |documents| && r.value == Docs([documents[i]])
  {
    if collection == null {
      return NotOpen();
    }
    var numReplaced, n := collection.ReplaceDocuments(env, documents, !isRefresh);
    r := Reply(numReplaced, CountMessage, ReplaceFault);
  }

  /** remove: the remove options' `isErase` and `exact`; every exception is reported alike. */
  method Remove(env: Env, collection: Collection?, documents: seq<Json>, isErase: bool, exact: bool)
    returns (r: StorageResult, ghost counts: seq<int>)
    requires env.store != null ==> env.store.Valid()
    modifies env.store
    ensures collection == null ==> r == NotOpen()
    ensures collection != null && env.store == null ==> r == RemoveFault(OtherException)
    ensures collection != null && env.store != null ==>
      |counts| == |documents|
      && (r.IsSuccess() <==> |FailedDocs(documents, Worked(counts))| == 0)
      && (r.IsSuccess() ==> r.value == Count(Removed(counts)))
      && (!r.IsSuccess() ==> r == RemoveFault(OtherException))
    ensures r.IsSuccess() <==> r.statusCode == Ok
    ensures !r.IsSuccess() ==> !r.value.Docs?
  {
    counts := [];
    if collection == null {
      return NotOpen(), counts;
    }
    var numUpdated;
    ghost var removed;
    numUpdated, counts, removed := collection.Remove(env, documents, isErase, exact);
    r := Reply(numUpdated, CountMessage, RemoveFault);
  }

  /** localCount: the number of dirty documents. */
  method LocalCount(env: Env, collection: Collection?) returns (r: StorageResult)
    modifies env.store
    ensures collection == null || env.store == null ==> r == NotOpen()
    ensures collection != null && env.store != null ==>
      r == WithMessage(Ok, Count(|DirtyKeys(old(env.store.Table(collection.name)))|))
  {
    if collection == null {
      return NotOpen();
    }
    var countResult := collection.CountAllDirtyDocuments(env);
    r := Reply(countResult, CountMessage, FromFault);
  }

  /** count: countDocuments with the query object and the options' `exact`. */
  method CountEntry(env: Env, collection: Collection?, query: JObject, exact: bool) returns (r: StorageResult)
    modifies env.store
    ensures collection == null || env.store == null ==> r == NotOpen()
    ensures collection != null && env.store != null ==>
      r.IsSuccess() && r.value.Count?
      && env.store.log == old(env.store.log)
           + [if HasValues(query) then CountQuery(collection.name, query, exact) else CountAll(collection.name)]
  {
    if collection == null {
      return NotOpen();
    }
    var countResult := collection.CountDocuments(env, Some(query), exact);
    r := Reply(countResult, CountMessage, FromFault);
  }

  /**
   * isDirty: asks about the query object's `_id`, as text; a query without
   * `_id` is reported as PERSISTENT_STORE_FAILURE.
   */
  method IsDirty(env: Env, collection: Collection?, query: JObject) returns (r: StorageResult)
    modifies env.store
    ensures collection == null ==> r == NotOpen()
    ensures collection != null && Get(query.props, FieldId).None? ==>
      r == WithMessage(Error, CodeMessage(PersistentStoreFailure))
    ensures collection != null && Get(query.props, FieldId).Some? && env.store == null ==> r == NotOpen()
    ensures collection != null && Get(query.props, FieldId).Some? && env.store != null ==>
      r.IsSuccess()
      && (r.value == CodeMessage(RcJsTrue) <==>
            exists k :: k in DirtyKeys(old(env.store.Table(collection.name)))
                        && IdText(k) == JsonValues.Text(Get(query.props, FieldId).value))
      && (r.value == CodeMessage(RcJsTrue) || r.value == CodeMessage(RcJsFalse))
  {
    if collection == null {
      return NotOpen();
    }
    var idToken := Get(query.props, FieldId);
    if idToken.None? {
      return WithMessage(Error, CodeMessage(PersistentStoreFailure));
    }
    var id := JsonValues.Text(idToken.value);
    var result := collection.IsDirtyDocument(env, id);
    r := Reply(result, JsBoolMessage, FromFault);
  }

  /** allDirty: allDirtyWithDocuments. */
  method AllDirty(env: Env, collection: Collection?, documents: seq<Json>) returns (r: StorageResult, ghost dirty: seq<Json>)
    modifies env.store
    ensures collection == null || env.store == null ==> r == NotOpen()
    ensures collection != null && env.store != null ==>
      (r.IsSuccess() <==> SelectDirty(dirty, documents, IdOf).Success?)
      && (r.IsSuccess() ==> r.value == Docs(SelectDirty(dirty, documents, IdOf).value))
    ensures collection != null && env.store != null && !r.IsSuccess() ==>
      r == WithMessage(Error, CodeMessage(PersistentStoreFailure))
  {
    dirty := [];
    if collection == null {
      return NotOpen(), dirty;
    }
    var dirtyDocs;
    dirtyDocs, dirty := collection.AllDirtyWithDocuments(env, documents);
    if env.store != null && |documents| > 0 {
      SelectFromFailsOnlyWithOther(dirty, documents, IdOf);
    }
    r := Reply(dirtyDocs, (docs: seq<Json>) => Docs(docs), FromFault);
  }

  /** markClean: markDocumentsClean; only the code of its exception is reported. */
  method MarkClean(env: Env, collection: Collection?, documents: seq<Json>) returns (r: StorageResult, ghost oks: seq<bool>)
    requires env.store != null ==> env.store.Valid()
    modifies env.store
    ensures collection == null || env.store == null ==> r == NotOpen()
    ensures collection != null && env.store != null && |oks| == |documents| ==>
      (r.IsSuccess() <==> |FailedDocs(documents, oks)| == 0)
      && (r.IsSuccess() ==> r.value == Count(Successes(oks)))
      && (!r.IsSuccess() ==> r.value == CodeMessage(CouldNotMarkDocumentPushed))
    ensures collection != null && env.store != null && |oks| < |documents| ==>
      r == FromFault(OtherException) && CleanArgs(documents[|oks|]).None?
  {
    oks := [];
    if collection == null {
      return NotOpen(), oks;
    }
    var numCleaned;
    ghost var keys;
    numCleaned, oks, keys := collection.MarkDocumentsClean(env, documents);
    r := Reply(numCleaned, CountMessage, FromFault);
  }

  /** dropTable: removeCollection; its return value is not looked at. */
  method DropTable(env: Env, collection: Collection?) returns (r: StorageResult)
    requires env.store != null ==> env.store.Valid()
    modifies env, env.store
    ensures env.store == old(env.store) && env.transactionInProgress == old(env.transactionInProgress)
    ensures collection == null ==> r == NotOpen()
    ensures collection != null && env.transactionInProgress ==>
      r == WithMessage(Error, CodeMessage(TransactionFailureDuringRemoveCollection))
    ensures collection != null && !env.transactionInProgress && env.store == null ==> r == NotOpen()
    ensures collection != null && !env.transactionInProgress && env.store != null && r.IsSuccess() ==>
      r == WithMessage(Ok, CodeMessage(RcOk))
      && env.store.tables == old(env.store.tables) - {collection.name} && env.accessors == old(env.accessors) - {collection.name}
    ensures collection != null && !env.transactionInProgress && env.store != null && !r.IsSuccess() ==>
      r == WithMessage(Error, CodeMessage(ErrorClearingCollection))
      && env.store.tables == old(env.store.tables) && env.accessors == old(env.accessors)
  {
    if collection == null {
      return NotOpen();
    }
    var removed := collection.RemoveCollection(env);
    r := Reply(removed, RcOkMessage, FromFault);
  }

  /** clear: clearCollection; its return value is not looked at. */
  method Clear(env: Env, collection: Collection?) returns (r: StorageResult)
    requires env.store != null ==> env.store.Valid()
    modifies env.store
    ensures collection == null || env.store == null ==> r == NotOpen()
    ensures collection != null && env.store != null && r.IsSuccess() ==>
      r == WithMessage(Ok, CodeMessage(RcOk)) && env.store.tables == old(env.store.tables)[collection.name := map[]]
    ensures collection != null && env.store != null && !r.IsSuccess() ==>
      r == WithMessage(Error, CodeMessage(ErrorClearingCollection)) && env.store.tables == old(env.store.tables)
  {
    if collection == null {
      return NotOpen();
    }
    var cleared := collection.ClearCollection(env);
    r := Reply(cleared, RcOkMessage, FromFault);
  }

  /** change: changeData with the replace options. */
  method Change(env: Env, collection: Collection?, dataArray: seq<Json>, criteria: Option<seq<string>>,
                addNew: bool, markDirty: bool)
    returns (r: StorageResult, ghost plans: seq<Plan>, ghost finds: seq<seq<seq<JObject>>>, ghost fault: Fault)
    requires env.store != null ==> env.store.Valid()
    modifies env.store
    ensures collection == null || env.store == null ==> r == NotOpen()
    ensures r.IsSuccess() <==> r.statusCode == Ok
    ensures collection != null && env.store != null && r.IsSuccess() ==>
      |plans| == |dataArray| && r.value == Count(Total(plans)) && PlansFit(dataArray, criteria, addNew, finds, plans)
    ensures collection != null && env.store != null && !r.IsSuccess() ==>
      |plans| < |dataArray| && r == FromFault(fault) && PlansFit(dataArray, criteria, addNew, finds, plans)
  {
    plans, finds, fault := [], [], OtherException;
    if collection == null {
      return NotOpen(), plans, finds, fault;
    }
    var updatedOrAdded;
    updatedOrAdded, plans, finds := collection.ChangeData(env, dataArray, criteria, addNew, markDirty);
    if updatedOrAdded.Failure? {
      fault := updatedOrAdded.fault;
    }
    r := Reply(updatedOrAdded, CountMessage, FromFault);
  }
}
