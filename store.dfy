/**
 * The storage layer the collection operations run against: the shared
 * JSONStoreSQLLite manager and the static state of JSONStore.
 *
 * The SQL behind JSONStoreSQLLite is not part of this model. A store holds
 * one table of rows per collection, keyed by the integer `_id` it assigns,
 * and the snapshot taken when a transaction begins. Whether a data call
 * succeeds is not determined by anything the core can see, so each call
 * chooses its outcome nondeterministically; its contract says what the
 * call changes in each case. Every call is also appended to a ghost log,
 * so that the contracts of the collection operations can state the exact
 * sequence of store calls, including which transactions are begun,
 * committed and rolled back.
 */
module Stores {
  import opened Wrappers
  import opened JsonValues
  import opened Queries

  /** A stored document: its JSON, whether it awaits a push, and whether it is marked for removal. */
  datatype Row = Row(json: Json, dirty: bool, removed: bool)

  /** The rows of one collection by `_id`. */
  type Table = map<int, Row>

  /** One call into the store, as recorded in the ghost log. */
  datatype Call =
    | Begin
    | Commit
    | Rollback
    | StoreDoc(coll: string, doc: Json, dirty: bool)
    | RemoveDoc(coll: string, query: Json, soft: bool, exact: bool)
    | ReplaceDoc(coll: string, doc: Json, dirty: bool)
    | MarkCleanDoc(coll: string, id: string, operation: string)
    | FindDocs(coll: string, query: Json, options: QueryOptions)
    | FindParts(coll: string, parts: seq<map<Operator, seq<Json>>>, partOptions: Option<QueryOptions>)
    | CountAll(coll: string)
    | CountQuery(coll: string, query: Json, exact: bool)
    | CountDirty(coll: string)
    | IsDirtyDoc(coll: string, id: string)
    | AllDirty(coll: string)
    | DropColl(coll: string)
    | ClearColl(coll: string)

  /** The log entries of storeObject calls for `docs`, in order. */
  function StoreCalls(coll: string, docs: seq<Json>, dirty: bool): (r: seq<Call>)
    ensures |r| == |docs|
  {
    if |docs| == 0 then [] else StoreCalls(coll, docs[..|docs| - 1], dirty) + [StoreDoc(coll, docs[|docs| - 1], dirty)]
  }

  /** The log entries of replace calls for `docs`, in order. */
  function ReplaceCalls(coll: string, docs: seq<Json>, dirty: bool): (r: seq<Call>)
    ensures |r| == |docs|
  {
    if |docs| == 0 then [] else ReplaceCalls(coll, docs[..|docs| - 1], dirty) + [ReplaceDoc(coll, docs[|docs| - 1], dirty)]
  }

  /** The log entries of remove calls for `docs`, in order. */
  function RemoveCalls(coll: string, docs: seq<Json>, soft: bool, exact: bool): (r: seq<Call>)
    ensures |r| == |docs|
  {
    if |docs| == 0 then [] else RemoveCalls(coll, docs[..|docs| - 1], soft, exact) + [RemoveDoc(coll, docs[|docs| - 1], soft, exact)]
  }

  /** The log entries of find calls for `queries`, in order. */
  function FindCalls(coll: string, queries: seq<Json>, options: QueryOptions): (r: seq<Call>)
    ensures |r| == |queries|
  {
    if |queries| == 0 then [] else FindCalls(coll, queries[..|queries| - 1], options) + [FindDocs(coll, queries[|queries| - 1], options)]
  }

  /** `rows` stored one after another under the keys `id`, `id + 1`, ... */
  function Appended(t: Table, id: int, docs: seq<Json>, dirty: bool): Table
    decreases |docs|
  {
    if |docs| == 0 then t
    else Appended(t, id, docs[..|docs| - 1], dirty)[id + |docs| - 1 := Row(docs[|docs| - 1], dirty, false)]
  }

  /** Appending keeps every old row and stores document i under `id + i`, and nothing else. */
  lemma {:induction false} AppendedRows(t: Table, id: int, docs: seq<Json>, dirty: bool)
    requires forall k | k in t :: k < id
    ensures forall k :: k in Appended(t, id, docs, dirty) <==> k in t || id <= k < id + |docs|
    ensures forall k | k in t :: Appended(t, id, docs, dirty)[k] == t[k]
    ensures forall i | 0 <= i < |docs| :: Appended(t, id, docs, dirty)[id + i] == Row(docs[i], dirty, false)
    decreases |docs|
  {
    if |docs| > 0 {
      var n := |docs| - 1;
      AppendedRows(t, id, docs[..n], dirty);
      assert forall i | 0 <= i < n :: docs[..n][i] == docs[i];
    }
  }

  /** One more stored document takes the next key. */
  lemma AppendedStep(t: Table, id: int, docs: seq<Json>, i: nat, dirty: bool)
    requires i < |docs|
    ensures Appended(t, id, docs[..i + 1], dirty) == Appended(t, id, docs[..i], dirty)[id + i := Row(docs[i], dirty, false)]
  {
    assert docs[..i + 1][..i] == docs[..i];
  }

  /** The rows after removing `ks`: a soft remove marks them dirty and removed, a hard one deletes them. */
  function RemoveRows(t: Table, ks: set<int>, soft: bool): (r: Table)
    ensures soft ==> r.Keys == t.Keys
    ensures !soft ==> r.Keys == t.Keys - ks
  {
    if soft then map k | k in t :: if k in ks then t[k].(dirty := true, removed := true) else t[k]
    else map k | k in t && k !in ks :: t[k]
  }

  /** A remove that takes no row leaves the table as it was. */
  lemma RemoveRowsNothing(t: Table, soft: bool)
    ensures RemoveRows(t, {}, soft) == t
  {
    assert RemoveRows(t, {}, soft).Keys == t.Keys;
  }

  /** Removing live rows takes exactly those rows out of the live ones, whether softly or for good. */
  lemma RemoveRowsLive(t: Table, ks: set<int>, soft: bool)
    requires ks <= LiveKeys(t)
    ensures LiveKeys(RemoveRows(t, ks, soft)) == LiveKeys(t) - ks
    ensures |LiveKeys(RemoveRows(t, ks, soft))| == |LiveKeys(t)| - |ks|
  {
    assert LiveKeys(RemoveRows(t, ks, soft)) == LiveKeys(t) - ks;
  }

  /** One more stored document adds its call to the end of the log entries. */
  lemma StoreCallsStep(coll: string, docs: seq<Json>, i: nat, dirty: bool)
    requires i < |docs|
    ensures StoreCalls(coll, docs[..i + 1], dirty) == StoreCalls(coll, docs[..i], dirty) + [StoreDoc(coll, docs[i], dirty)]
  {
    assert docs[..i + 1][..i] == docs[..i];
  }

  /** One more replaced document adds its call to the end of the log entries. */
  lemma ReplaceCallsStep(coll: string, docs: seq<Json>, i: nat, dirty: bool)
    requires i < |docs|
    ensures ReplaceCalls(coll, docs[..i + 1], dirty) == ReplaceCalls(coll, docs[..i], dirty) + [ReplaceDoc(coll, docs[i], dirty)]
  {
    assert docs[..i + 1][..i] == docs[..i];
  }

  /** One more query adds its find call to the end of the log entries. */
  lemma FindCallsStep(coll: string, queries: seq<Json>, i: nat, options: QueryOptions)
    requires i < |queries|
    ensures FindCalls(coll, queries[..i + 1], options) == FindCalls(coll, queries[..i], options) + [FindDocs(coll, queries[i], options)]
  {
    assert queries[..i + 1][..i] == queries[..i];
  }

  /** Appending to a log in two steps is appending once. */
  lemma LogAppend(log: seq<Call>, calls: seq<Call>, more: seq<Call>)
    ensures log + (calls + more) == (log + calls) + more
  {
  }

  /** A transaction's calls appended to the log, grouped either way; the old log stays a prefix. */
  lemma LogAppend3(log: seq<Call>, opening: seq<Call>, calls: seq<Call>, closing: seq<Call>)
    ensures log + (opening + calls + closing) == log + opening + calls + closing
    ensures log <= log + opening + calls + closing
  {
  }

  /** Replacing one collection's table leaves every other collection's table as it was. */
  lemma OtherTablesKept(tables: map<string, Table>, coll: string, t: Table)
    ensures tables[coll := t] - {coll} == tables - {coll}
  {
  }

  /** The store calls that open a transaction, unless the caller has one open. */
  function Opening(inTransaction: bool): seq<Call> {
    if inTransaction then [] else [Begin]
  }

  /** The store call that ends a transaction, unless the caller has one open. */
  function Closing(inTransaction: bool, end: Call): seq<Call> {
    if inTransaction then [] else [end]
  }

  /** The keys of the rows not yet marked for removal. */
  function LiveKeys(t: Table): set<int> {
    set k | k in t && !t[k].removed
  }

  /** The keys of the dirty rows. */
  function DirtyKeys(t: Table): set<int> {
    set k | k in t && t[k].dirty
  }

  /** The identifier a JSON `_id` value is compared by: its text. */
  function IdText(k: int): string {
    IntToString(k)
  }

  /** JSONStoreSQLLite, the shared store manager. */
  class Store {
    var tables: map<string, Table>
    var snapshot: Option<map<string, Table>>
    var nextId: int
    ghost var log: seq<Call>

    /** Every key in use, now or in the open transaction's snapshot, is below `nextId`. */
    ghost predicate Valid()
      reads this
    {
      && (forall c, k | c in tables && k in tables[c] :: k < nextId)
      && (snapshot.Some? ==> forall c, k | c in snapshot.value && k in snapshot.value[c] :: k < nextId)
    }

    /** The table of a collection; a collection without a table has no rows. */
    function Table(coll: string): Table
      reads this
    {
      if coll in tables then tables[coll] else map[]
    }

    constructor()
      ensures tables == map[] && snapshot == None && nextId == 0 && log == []
      ensures Valid()
    {
      tables := map[];
      snapshot := None;
      nextId := 0;
      log := [];
    }

    /** startTransaction: succeeds exactly when no transaction is open, and then takes a snapshot. */
    method StartTransaction() returns (ok: bool)
      requires Valid()
      modifies this
      ensures Valid()
      ensures ok <==> old(snapshot).None?
      ensures snapshot == if ok then Some(old(tables)) else old(snapshot)
      ensures tables == old(tables) && nextId == old(nextId)
      ensures log == old(log) + [Begin]
    {
      log := log + [Begin];
      ok := snapshot.None?;
      if ok {
        snapshot := Some(tables);
      }
    }

    /** commitTransaction: keeps the data and closes the open transaction. */
    method CommitTransaction() returns (ok: bool)
      modifies this
      ensures ok <==> old(snapshot).Some?
      ensures snapshot == None
      ensures tables == old(tables) && nextId == old(nextId)
      ensures log == old(log) + [Commit]
    {
      log := log + [Commit];
      ok := snapshot.Some?;
      snapshot := None;
    }

    /** rollbackTransaction: restores the snapshot of the open transaction and closes it. */
    method RollbackTransaction() returns (ok: bool)
      requires Valid()
      modifies this
      ensures Valid()
      ensures ok <==> old(snapshot).Some?
      ensures snapshot == None
      ensures tables == if ok then old(snapshot).value else old(tables)
      ensures nextId == old(nextId)
      ensures log == old(log) + [Rollback]
    {
      log := log + [Rollback];
      ok := snapshot.Some?;
      if ok {
        tables := snapshot.value;
      }
      snapshot := None;
    }

    /** storeObject: on success the document becomes a new dirty-or-clean row under a fresh key. */
    method StoreObject(doc: JObject, coll: string, markDirty: bool) returns (ok: bool)
      requires Valid()
      modifies this
      ensures Valid()
      ensures snapshot == old(snapshot)
      ensures ok ==> tables == old(tables)[coll := old(Table(coll))[old(nextId) := Row(doc, markDirty, false)]]
                     && nextId == old(nextId) + 1
      ensures !ok ==> tables == old(tables) && nextId == old(nextId)
      ensures log == old(log) + [StoreDoc(coll, doc, markDirty)]
    {
      log := log + [StoreDoc(coll, doc, markDirty)];
      ok := *;
      if ok {
        tables := tables[coll := Table(coll)[nextId := Row(doc, markDirty, false)]];
        nextId := nextId + 1;
      }
    }

    /**
     * remove: a negative count reports a failure and changes nothing;
     * otherwise the count is the number of live rows the query matched.
     */
    method Remove(query: Json, coll: string, soft: bool, exact: bool) returns (n: int)
      requires Valid()
      modifies this
      ensures Valid()
      ensures snapshot == old(snapshot) && nextId == old(nextId)
      ensures n < 0 ==> tables == old(tables)
      ensures n >= 0 ==> (exists ks :: ks <= LiveKeys(old(Table(coll))) && |ks| == n
                            && tables == old(tables)[coll := RemoveRows(old(Table(coll)), ks, soft)])
      ensures log == old(log) + [RemoveDoc(coll, query, soft, exact)]
    {
      log := log + [RemoveDoc(coll, query, soft, exact)];
      var failed: bool := *;
      if failed {
        n := -1;
      } else {
        var ks :| ks <= LiveKeys(Table(coll));
        n := |ks|;
        tables := tables[coll := RemoveRows(Table(coll), ks, soft)];
      }
    }

    /**
     * replace: the document names the row it replaces by its numeric `_id`;
     * the row takes the document's `json` field (or the whole document when
     * it has none). A failure changes nothing.
     */
    method Replace(doc: Json, coll: string, markDirty: bool) returns (ok: bool)
      requires Valid()
      modifies this
      ensures Valid()
      ensures snapshot == old(snapshot) && nextId == old(nextId)
      ensures ok ==> (exists k :: ReplaceTarget(doc, old(Table(coll))) == Some(k)
                       && tables == old(tables)[coll := old(Table(coll))[k := Row(Payload(doc), markDirty, false)]])
      ensures !ok ==> tables == old(tables)
      ensures log == old(log) + [ReplaceDoc(coll, doc, markDirty)]
    {
      log := log + [ReplaceDoc(coll, doc, markDirty)];
      ok := *;
      var target := ReplaceTarget(doc, Table(coll));
      if ok && target.Some? {
        tables := tables[coll := Table(coll)[target.value := Row(Payload(doc), markDirty, false)]];
      } else {
        ok := false;
      }
    }

    /**
     * markClean: the row whose `_id` text is `id` stops being dirty; a row
     * marked for removal is deleted for good. A failure changes nothing.
     */
    method MarkClean(id: string, coll: string, operation: string) returns (ok: bool)
      requires Valid()
      modifies this
      ensures Valid()
      ensures snapshot == old(snapshot) && nextId == old(nextId)
      ensures ok ==> (exists k :: k in old(Table(coll)) && IdText(k) == id
                       && tables == old(tables)[coll := Cleaned(old(Table(coll)), k)])
      ensures !ok ==> tables == old(tables)
      ensures log == old(log) + [MarkCleanDoc(coll, id, operation)]
    {
      log := log + [MarkCleanDoc(coll, id, operation)];
      ok := *;
      if ok && exists k :: k in Table(coll) && IdText(k) == id {
        var k :| k in Table(coll) && IdText(k) == id;
        tables := tables[coll := Cleaned(Table(coll), k)];
      } else {
        ok := false;
      }
    }

    /** find: the documents matching one query, or None when the query is invalid. */
    method Find(query: Json, coll: string, options: QueryOptions) returns (r: Option<seq<JObject>>)
      ensures log == old(log) + [FindDocs(coll, query, options)]
      modifies this
      ensures tables == old(tables) && snapshot == old(snapshot) && nextId == old(nextId)
    {
      log := log + [FindDocs(coll, query, options)];
      r := *;
    }

    /** findWithQueryParts: the documents matching compiled query parts, or None when they are invalid. */
    method FindWithQueryParts(parts: seq<Query>, coll: string, partOptions: Option<QueryOptions>)
      returns (r: Option<seq<JObject>>)
      modifies this
      ensures tables == old(tables) && snapshot == old(snapshot) && nextId == old(nextId)
      ensures log == old(log) + [FindParts(coll, Operands(parts), partOptions)]
    {
      log := log + [FindParts(coll, Operands(parts), partOptions)];
      r := *;
    }

    /** count: the number of documents of a collection, as the store reports it. */
    method Count(coll: string) returns (n: int)
      modifies this
      ensures tables == old(tables) && snapshot == old(snapshot) && nextId == old(nextId)
      ensures log == old(log) + [CountAll(coll)]
    {
      log := log + [CountAll(coll)];
      n := *;
    }

    /** countWithQuery: the number of documents matching a query, as the store reports it. */
    method CountWithQuery(query: Json, coll: string, exact: bool) returns (n: int)
      modifies this
      ensures tables == old(tables) && snapshot == old(snapshot) && nextId == old(nextId)
      ensures log == old(log) + [CountQuery(coll, query, exact)]
    {
      log := log + [CountQuery(coll, query, exact)];
      n := *;
    }

    /** dirtyCount: the number of dirty rows. */
    method DirtyCount(coll: string) returns (n: int)
      modifies this
      ensures n == |DirtyKeys(old(Table(coll)))|
      ensures tables == old(tables) && snapshot == old(snapshot) && nextId == old(nextId)
      ensures log == old(log) + [CountDirty(coll)]
    {
      log := log + [CountDirty(coll)];
      n := |DirtyKeys(Table(coll))|;
    }

    /** isDirty: whether the row whose `_id` text is `id` is dirty. */
    method IsDirty(id: string, coll: string) returns (b: bool)
      modifies this
      ensures b <==> exists k :: k in DirtyKeys(old(Table(coll))) && IdText(k) == id
      ensures tables == old(tables) && snapshot == old(snapshot) && nextId == old(nextId)
      ensures log == old(log) + [IsDirtyDoc(coll, id)]
    {
      log := log + [IsDirtyDoc(coll, id)];
      b := exists k :: k in DirtyKeys(Table(coll)) && IdText(k) == id;
    }

    /** allDirtyInCollection: the dirty documents, in the form and order the store chooses. */
    method AllDirtyInCollection(coll: string) returns (r: seq<JObject>)
      modifies this
      ensures tables == old(tables) && snapshot == old(snapshot) && nextId == old(nextId)
      ensures log == old(log) + [AllDirty(coll)]
    {
      log := log + [AllDirty(coll)];
      r := *;
    }

    /** dropTable: on success the collection's table is gone. */
    method DropTable(coll: string) returns (ok: bool)
      requires Valid()
      modifies this
      ensures Valid()
      ensures snapshot == old(snapshot) && nextId == old(nextId)
      ensures tables == if ok then old(tables) - {coll} else old(tables)
      ensures log == old(log) + [DropColl(coll)]
    {
      log := log + [DropColl(coll)];
      ok := *;
      if ok {
        tables := tables - {coll};
      }
    }

    /** clearTable: on success the collection's table is empty. */
    method ClearTable(coll: string) returns (ok: bool)
      requires Valid()
      modifies this
      ensures Valid()
      ensures snapshot == old(snapshot) && nextId == old(nextId)
      ensures tables == if ok then old(tables)[coll := map[]] else old(tables)
      ensures log == old(log) + [ClearColl(coll)]
    {
      log := log + [ClearColl(coll)];
      ok := *;
      if ok {
        tables := tables[coll := map[]];
      }
    }
  }

  /** The operand maps of query parts at the moment they are handed to the store. */
  function Operands(parts: seq<Query>): (r: seq<map<Operator, seq<Json>>>)
    reads set i | 0 <= i < |parts| :: parts[i]
    ensures |r| == |parts|
    ensures forall i :: 0 <= i < |parts| ==> r[i] == parts[i].operands
  {
    seq(|parts|, i reads parts requires 0 <= i < |parts| => parts[i].operands)
  }

  /** The key of the row a replace document names: its `_id` must be a number that is in use. */
  function ReplaceTarget(doc: Json, t: Table): (r: Option<int>)
    ensures r.Some? ==> r.value in t && doc.JObj? && Get(doc.props, "_id") == Some(JNum(r.value))
  {
    if doc.JObj? then
      match Get(doc.props, "_id")
      case Some(JNum(k)) => if k in t then Some(k) else None
      case _ => None
    else None
  }

  /** What a replace document stores: its `json` field, or the whole document without one. */
  function Payload(doc: Json): Json {
    if doc.JObj? then
      match Get(doc.props, "json")
      case Some(j) => j
      case None => doc
    else doc
  }

  /** The table after cleaning row `k`: a row marked for removal goes away, any other row stops being dirty. */
  function Cleaned(t: Table, k: int): (r: Table)
    requires k in t
    ensures k !in DirtyKeys(r)
    ensures r.Keys <= t.Keys
    ensures forall k' | k' != k && k' in t :: k' in r && r[k'] == t[k']
  {
    if t[k].removed then t - {k} else t[k := t[k].(dirty := false)]
  }

  /** The static state of JSONStore that the collection operations consult. */
  class Env {
    /** Whether the caller has opened a transaction of its own. */
    var transactionInProgress: bool
    /** The collection names that have an accessor. */
    var accessors: set<string>
    /** `JSONStoreSQLLite.sharedManager()`: null while the database is not open. */
    var store: Store?

    constructor(store: Store?)
      ensures this.store == store && !transactionInProgress && accessors == {}
    {
      this.store := store;
      transactionInProgress := false;
      accessors := {};
    }
  }
}
