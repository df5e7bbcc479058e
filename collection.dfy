/**
 * JSONStoreCollection: the operations of one collection, run against the
 * shared store. Every operation first looks up the store and throws
 * DATABASE_NOT_OPEN when there is none. An operation that opens its own
 * transaction does so only when the caller has none open
 * (`JSONStore.transactionInProgress`); inside a caller's transaction it
 * never begins, commits or rolls back.
 */
module Collections {
  import opened Wrappers
  import opened JsonValues
  import opened Constants
  import opened Queries
  import opened Stores
  import opened CollectionSpecs

  class Collection {
    const name: string

    constructor(name: string)
      ensures this.name == name
    {
      this.name := name;
    }

    /**
     * removeCollection: refuses while a transaction is in progress, drops
     * the table, and removes the accessor only when the drop worked.
     */
    method RemoveCollection(env: Env) returns (r: Result<bool>)
      requires env.store != null ==> env.store.Valid()
      modifies env, env.store
      ensures env.store == old(env.store) && env.transactionInProgress == old(env.transactionInProgress)
      ensures env.store != null ==> env.store.Valid()
      ensures env.transactionInProgress ==>
        r == Throw(TransactionFailureDuringRemoveCollection) && env.accessors == old(env.accessors)
        && (env.store != null ==> unchanged(env.store))
      ensures !env.transactionInProgress && env.store == null ==>
        r == Throw(DatabaseNotOpen) && env.accessors == old(env.accessors)
      ensures !env.transactionInProgress && env.store != null ==>
        env.store.log == old(env.store.log) + [DropColl(name)] && env.store.snapshot == old(env.store.snapshot)
      ensures !env.transactionInProgress && env.store != null && r.Success? ==>
        r.value && env.store.tables == old(env.store.tables) - {name} && env.accessors == old(env.accessors) - {name}
      ensures !env.transactionInProgress && env.store != null && r.Failure? ==>
        r == Throw(ErrorClearingCollection) && env.store.tables == old(env.store.tables) && env.accessors == old(env.accessors)
    {
      if env.transactionInProgress {
        return Throw(TransactionFailureDuringRemoveCollection);
      }
      var store := env.store;
      if store == null {
        return Throw(DatabaseNotOpen);
      }
      var worked := store.DropTable(name);
      if !worked {
        return Throw(ErrorClearingCollection);
      }
      env.accessors := env.accessors - {name};
      r := Success(worked);
    }

    /** clearCollection: empties the table and keeps the accessor. */
    method ClearCollection(env: Env) returns (r: Result<bool>)
      requires env.store != null ==> env.store.Valid()
      modifies env.store
      ensures env.store == null ==> r == Throw(DatabaseNotOpen)
      ensures env.store != null ==>
        env.store.Valid() && env.store.log == old(env.store.log) + [ClearColl(name)]
        && env.store.snapshot == old(env.store.snapshot)
      ensures env.store != null && r.Success? ==> r.value && env.store.tables == old(env.store.tables)[name := map[]]
      ensures env.store != null && r.Failure? ==>
        r == Throw(ErrorClearingCollection) && env.store.tables == old(env.store.tables)
    {
      var store := env.store;
      if store == null {
        return Throw(DatabaseNotOpen);
      }
      var worked := store.ClearTable(name);
      if !worked {
        return Throw(ErrorClearingCollection);
      }
      r := Success(worked);
    }

    /**
     * addData: stores the documents one by one. Outside a caller's
     * transaction it is all or nothing: the first failed store rolls back
     * everything and reports PERSISTENT_STORE_FAILURE, and success commits.
     * An element that is not an object makes the cast throw, and then the
     * transaction is left open.
     */
    method AddData(env: Env, docs: seq<Json>, markDirty: bool) returns (r: Result<int>, ghost n: nat)
      requires env.store != null ==> env.store.Valid()
      modifies env.store
      ensures env.store == null ==> r == Throw(DatabaseNotOpen)
      ensures env.store != null ==> env.store.Valid() && n <= |docs|
      ensures forall i | 0 <= i < n && i < |docs| :: docs[i].JObj?
      ensures env.store != null && r.Success? ==>
        n == |docs| && r.value == |docs|
        && env.store.log == old(env.store.log) + Opening(env.transactionInProgress)
             + StoreCalls(name, docs, markDirty) + Closing(env.transactionInProgress, Commit)
      ensures env.store != null && r.Failure? ==> n < |docs|
      ensures env.store != null && r.Failure? && r != Failure(OtherException) ==>
        r == Throw(PersistentStoreFailure) && docs[n].JObj?
        && env.store.log == old(env.store.log) + Opening(env.transactionInProgress)
             + StoreCalls(name, docs[..n + 1], markDirty) + Closing(env.transactionInProgress, Rollback)
      ensures env.store != null && r == Failure(OtherException) ==>
        !docs[n].JObj?
        && env.store.log == old(env.store.log) + Opening(env.transactionInProgress) + StoreCalls(name, docs[..n], markDirty)
      ensures env.store != null && r.Success? ==>
        env.store.Table(name) == Appended(old(env.store.Table(name)), old(env.store.nextId), docs, markDirty)
        && env.store.tables - {name} == old(env.store.tables) - {name}
      ensures env.store != null && r.Failure? && (env.transactionInProgress || r == Failure(OtherException)) ==>
        env.store.Table(name) == Appended(old(env.store.Table(name)), old(env.store.nextId), docs[..n], markDirty)
        && env.store.tables - {name} == old(env.store.tables) - {name}
      ensures env.store != null && !env.transactionInProgress && old(env.store.snapshot).None? ==>
        (r.Success? ==> env.store.snapshot.None?)
        && (r == Throw(PersistentStoreFailure) ==> env.store.snapshot.None? && env.store.tables == old(env.store.tables))
        && (r == Failure(OtherException) ==> env.store.snapshot == Some(old(env.store.tables)))
    {
      var store := env.store;
      if store == null {
        return Throw(DatabaseNotOpen), 0;
      }
      var inTransaction := env.transactionInProgress;
      if !inTransaction {
        var began := store.StartTransaction();
      }
      r, n := StoreEach(store, docs, markDirty, inTransaction);
      if r.Success? && !inTransaction {
        var committed := store.CommitTransaction();
      }
    }

    /**
     * The loop of addData: stores each document and stops at the first
     * element that is not an object or the first failed store, which rolls
     * back the transaction unless the caller has one open.
     */
    method StoreEach(store: Store, docs: seq<Json>, markDirty: bool, inTransaction: bool) returns (r: Result<int>, ghost n: nat)
      requires store.Valid()
      modifies store
      ensures store.Valid() && n <= |docs|
      ensures forall i | 0 <= i < n && i < |docs| :: docs[i].JObj?
      ensures r.Success? || r == Throw(PersistentStoreFailure) || r == Failure(OtherException)
      ensures r.Success? ==>
        n == |docs| && r.value == |docs|
        && store.log == old(store.log) + StoreCalls(name, docs, markDirty)
        && store.snapshot == old(store.snapshot)
        && store.Table(name) == Appended(old(store.Table(name)), old(store.nextId), docs, markDirty)
        && store.tables - {name} == old(store.tables) - {name}
      ensures r.Failure? ==> n < |docs|
      ensures r.Failure? && (inTransaction || r == Failure(OtherException)) ==>
        store.Table(name) == Appended(old(store.Table(name)), old(store.nextId), docs[..n], markDirty)
        && store.tables - {name} == old(store.tables) - {name}
      ensures r == Throw(PersistentStoreFailure) ==>
        docs[n].JObj?
        && store.log == old(store.log) + StoreCalls(name, docs[..n + 1], markDirty) + Closing(inTransaction, Rollback)
        && (!inTransaction && old(store.snapshot).Some? ==> store.snapshot.None? && store.tables == old(store.snapshot).value)
      ensures r == Failure(OtherException) ==>
        !docs[n].JObj? && store.log == old(store.log) + StoreCalls(name, docs[..n], markDirty)
        && store.snapshot == old(store.snapshot)
    {
      ghost var log0, table0, id0 := store.log, store.Table(name), store.nextId;
      var numWorked := 0;
      var i := 0;
      while i < |docs|
        invariant 0 <= i <= |docs| && numWorked == i
        invariant store.Valid()
        invariant forall k | 0 <= k < i :: docs[k].JObj?
        invariant store.log == log0 + StoreCalls(name, docs[..i], markDirty)
        invariant store.snapshot == old(store.snapshot) && store.nextId == id0 + i
        invariant store.Table(name) == Appended(table0, id0, docs[..i], markDirty)
        invariant store.tables - {name} == old(store.tables) - {name}
      {
        if !docs[i].JObj? {
          return Failure(OtherException), i;
        }
        var worked := StoreOne(store, docs[i], markDirty);
        StoreCallsStep(name, docs, i, markDirty);
        LogAppend(log0, StoreCalls(name, docs[..i], markDirty), [StoreDoc(name, docs[i], markDirty)]);
        if !worked {
          if !inTransaction {
            var rolledBack := store.RollbackTransaction();
          }
          return Throw(PersistentStoreFailure), i;
        }
        AppendedStep(table0, id0, docs, i, markDirty);
        numWorked := numWorked + 1;
        i := i + 1;
      }
      assert docs[..|docs|] == docs;
      r, n := Success(numWorked), |docs|;
    }

    /** One store of a document into the collection's table. */
    method StoreOne(store: Store, doc: JObject, markDirty: bool) returns (ok: bool)
      requires store.Valid()
      modifies store
      ensures store.Valid() && store.snapshot == old(store.snapshot)
      ensures store.log == old(store.log) + [StoreDoc(name, doc, markDirty)]
      ensures ok ==> store.Table(name) == old(store.Table(name))[old(store.nextId) := Row(doc, markDirty, false)]
                     && store.nextId == old(store.nextId) + 1 && store.tables - {name} == old(store.tables) - {name}
      ensures !ok ==> store.tables == old(store.tables) && store.nextId == old(store.nextId)
    {
      ok := store.StoreObject(doc, name, markDirty);
      if ok {
        OtherTablesKept(old(store.tables), name, old(store.Table(name))[old(store.nextId) := Row(doc, markDirty, false)]);
      }
    }

    /** What remove has done after the calls for the first `|counts|` documents. */
    ghost predicate RemovedSoFar(store: Store, log0: seq<Call>, table0: Table, tables0: map<string, Table>,
                                 docs: seq<Json>, counts: seq<int>, removed: seq<set<int>>, soft: bool, exact: bool)
      reads store
    {
      && |counts| <= |docs|
      && store.log == log0 + RemoveCalls(name, docs[..|counts|], soft, exact)
      && RemovedRows(counts, removed)
      && store.Table(name) == RemoveAll(table0, removed, soft)
      && |LiveKeys(store.Table(name))| == |LiveKeys(table0)| - Removed(counts)
      && store.tables - {name} == tables0 - {name}
    }

    /** The body of the remove loop: one remove call for the next document. */
    method RemoveNext(store: Store, docs: seq<Json>, i: nat, ghost counts: seq<int>, ghost removed: seq<set<int>>,
                      soft: bool, exact: bool, ghost log0: seq<Call>, ghost table0: Table, ghost tables0: map<string, Table>)
      returns (count: int, ghost ks: set<int>)
      requires store.Valid() && RemovedSoFar(store, log0, table0, tables0, docs, counts, removed, soft, exact)
      requires i == |counts| < |docs|
      modifies store
      ensures store.Valid() && store.snapshot == old(store.snapshot) && store.nextId == old(store.nextId)
      ensures RemovedSoFar(store, log0, table0, tables0, docs, counts + [count], removed + [ks], soft, exact)
      ensures FailedDocs(docs[..i + 1], Worked(counts + [count]))
        == FailedDocs(docs[..i], Worked(counts)) + (if count >= 0 then [] else [docs[i]])
      ensures Removed(counts + [count]) == Removed(counts) + (if count >= 0 then count else 0)
    {
      count, ks := RemoveOne(store, docs[i], soft, exact);
      RemoveStep(name, docs, i, counts, count, soft, exact);
      LogAppend(log0, RemoveCalls(name, docs[..i], soft, exact), [RemoveDoc(name, docs[i], soft, exact)]);
      RemovedRowsStep(counts, removed, count, ks);
      RemoveAllStep(table0, removed, ks, soft);
    }

    /** One store remove of the collection's rows matching `query`, and its effect on the live rows. */
    method RemoveOne(store: Store, query: Json, soft: bool, exact: bool) returns (count: int, ghost ks: set<int>)
      requires store.Valid()
      modifies store
      ensures store.Valid() && store.snapshot == old(store.snapshot) && store.nextId == old(store.nextId)
      ensures store.log == old(store.log) + [RemoveDoc(name, query, soft, exact)]
      ensures store.tables - {name} == old(store.tables) - {name}
      ensures count < 0 ==> ks == {} && store.tables == old(store.tables)
      ensures count >= 0 ==> |ks| == count
      ensures store.Table(name) == RemoveRows(old(store.Table(name)), ks, soft)
      ensures count >= 0 ==> |LiveKeys(store.Table(name))| == |LiveKeys(old(store.Table(name)))| - count
      ensures soft ==> store.Table(name).Keys == old(store.Table(name)).Keys
    {
      ghost var before, tablesBefore := store.Table(name), store.tables;
      count := store.Remove(query, name, soft, exact);
      ks := {};
      if count < 0 {
        RemoveRowsNothing(before, soft);
      } else {
        ks :| ks <= LiveKeys(before) && |ks| == count
          && store.tables == tablesBefore[name := RemoveRows(before, ks, soft)];
        RemoveRowsLive(before, ks, soft);
        OtherTablesKept(tablesBefore, name, RemoveRows(before, ks, soft));
      }
    }

    /**
     * remove: issues one store remove per document, soft unless `isErase`,
     * and never rolls back. The documents whose remove failed are reported
     * together, in input order; otherwise the result is the number of rows
     * removed.
     */
    method Remove(env: Env, docs: seq<Json>, isErase: bool, exact: bool)
      returns (r: Result<int>, ghost counts: seq<int>, ghost removed: seq<set<int>>)
      requires env.store != null ==> env.store.Valid()
      modifies env.store
      ensures env.store == null ==> r == Throw(DatabaseNotOpen)
      ensures env.store != null ==>
        env.store.Valid() && |counts| == |docs|
        && env.store.log == old(env.store.log) + RemoveCalls(name, docs, !isErase, exact)
        && env.store.snapshot == old(env.store.snapshot) && env.store.nextId == old(env.store.nextId)
        && env.store.tables - {name} == old(env.store.tables) - {name}
      ensures env.store != null ==>
        r == if |FailedDocs(docs, Worked(counts))| > 0
             then ThrowWith(RemoveWithQueriesFailure, FailedDocs(docs, Worked(counts)))
             else Success(Removed(counts))
      ensures env.store != null ==>
        |LiveKeys(env.store.Table(name))| == |LiveKeys(old(env.store.Table(name)))| - Removed(counts)
      ensures env.store != null && !isErase ==> env.store.Table(name).Keys == old(env.store.Table(name)).Keys
      ensures env.store != null ==>
        RemovedRows(counts, removed) && env.store.Table(name) == RemoveAll(old(env.store.Table(name)), removed, !isErase)
    {
      var store := env.store;
      if store == null {
        return Throw(DatabaseNotOpen), [], [];
      }
      r, counts, removed := RemoveEach(store, docs, !isErase, exact);
    }

    /** The loop of remove: one remove call per document, every one made whatever the others answered. */
    method RemoveEach(store: Store, docs: seq<Json>, soft: bool, exact: bool)
      returns (r: Result<int>, ghost counts: seq<int>, ghost removed: seq<set<int>>)
      requires store.Valid()
      modifies store
      ensures store.Valid() && store.snapshot == old(store.snapshot) && store.nextId == old(store.nextId)
      ensures |counts| == |docs| && store.log == old(store.log) + RemoveCalls(name, docs, soft, exact)
      ensures RemovedSoFar(store, old(store.log), old(store.Table(name)), old(store.tables), docs, counts, removed, soft, exact)
      ensures r == if |FailedDocs(docs, Worked(counts))| > 0
                   then ThrowWith(RemoveWithQueriesFailure, FailedDocs(docs, Worked(counts)))
                   else Success(Removed(counts))
      ensures soft ==> store.Table(name).Keys == old(store.Table(name)).Keys
    {
      ghost var log0, tables0, table0 := store.log, store.tables, store.Table(name);
      var numUpdated := 0;
      var failures: seq<Json> := [];
      counts, removed := [], [];
      var i := 0;
      while i < |docs|
        invariant 0 <= i <= |docs| && |counts| == i
        invariant store.Valid() && store.snapshot == old(store.snapshot) && store.nextId == old(store.nextId)
        invariant RemovedSoFar(store, log0, table0, tables0, docs, counts, removed, soft, exact)
        invariant failures == FailedDocs(docs[..i], Worked(counts))
        invariant numUpdated == Removed(counts)
      {
        var lastUpdated, ks := RemoveNext(store, docs, i, counts, removed, soft, exact, log0, table0, tables0);
        failures := failures + (if lastUpdated >= 0 then [] else [docs[i]]);
        numUpdated := numUpdated + (if lastUpdated >= 0 then lastUpdated else 0);
        counts, removed := counts + [lastUpdated], removed + [ks];
        i := i + 1;
      }
      assert docs[..|docs|] == docs;
      RemoveAllKeys(table0, removed, soft);
      r := if |failures| > 0 then ThrowWith(RemoveWithQueriesFailure, failures) else Success(numUpdated);
    }
    /**
     * replaceDocuments: replaces documents by their `_id` one by one and
     * stops at the first failure. Outside a caller's transaction a failure
     * rolls back the earlier replacements; the failed document is reported
     * alone with REPLACE_DOCUMENTS_FAILURE. Success commits and returns the
     * number of documents.
     */
    method ReplaceDocuments(env: Env, docs: seq<Json>, markDirty: bool) returns (r: Result<int>, ghost n: nat)
      requires env.store != null ==> env.store.Valid()
      modifies env.store
      ensures env.store == null ==> r == Throw(DatabaseNotOpen)
      ensures env.store != null ==> env.store.Valid() && n <= |docs| && env.store.nextId == old(env.store.nextId)
      ensures env.store != null && r.Success? ==>
        n == |docs| && r.value == |docs|
        && env.store.log == old(env.store.log) + Opening(env.transactionInProgress)
             + ReplaceCalls(name, docs, markDirty) + Closing(env.transactionInProgress, Commit)
        && (forall i | 0 <= i < |docs| :: ReplaceTarget(docs[i], old(env.store.Table(name))).Some?)
      ensures env.store != null && r.Failure? ==>
        n < |docs| && r == ThrowWith(ReplaceDocumentsFailure, [docs[n]])
        && env.store.log == old(env.store.log) + Opening(env.transactionInProgress)
             + ReplaceCalls(name, docs[..n + 1], markDirty) + Closing(env.transactionInProgress, Rollback)
      ensures env.store != null && r.Success? ==>
        env.store.Table(name) == ReplaceAll(old(env.store.Table(name)), docs, markDirty)
        && env.store.tables - {name} == old(env.store.tables) - {name}
      ensures env.store != null && r.Failure? && env.transactionInProgress ==>
        env.store.Table(name) == ReplaceAll(old(env.store.Table(name)), docs[..n], markDirty)
        && env.store.tables - {name} == old(env.store.tables) - {name}
      ensures env.store != null && !env.transactionInProgress && old(env.store.snapshot).None? ==>
        env.store.snapshot.None? && (r.Failure? ==> env.store.tables == old(env.store.tables))
    {
      var store := env.store;
      if store == null {
        return Throw(DatabaseNotOpen), 0;
      }
      if env.transactionInProgress {
        var numReplaced, failures;
        numReplaced, failures, n := ReplaceEach(store, docs, markDirty);
        r := if |failures| > 0 then ThrowWith(ReplaceDocumentsFailure, failures) else Success(numReplaced);
      } else {
        r, n := ReplaceInOwnTransaction(store, docs, markDirty);
      }
    }

    /**
     * replaceDocuments when no caller transaction is open: the replacements
     * run in a transaction of their own, committed on success and rolled
     * back on the first failure.
     */
    method ReplaceInOwnTransaction(store: Store, docs: seq<Json>, markDirty: bool) returns (r: Result<int>, ghost n: nat)
      requires store.Valid()
      modifies store
      ensures store.Valid() && n <= |docs| && store.nextId == old(store.nextId)
      ensures r.Success? ==>
        n == |docs| && r.value == |docs|
        && store.log == old(store.log) + [Begin] + ReplaceCalls(name, docs, markDirty) + [Commit]
        && (forall i | 0 <= i < |docs| :: ReplaceTarget(docs[i], old(store.Table(name))).Some?)
        && store.Table(name) == ReplaceAll(old(store.Table(name)), docs, markDirty)
        && store.tables - {name} == old(store.tables) - {name}
      ensures r.Failure? ==>
        n < |docs| && r == ThrowWith(ReplaceDocumentsFailure, [docs[n]])
        && store.log == old(store.log) + [Begin] + ReplaceCalls(name, docs[..n + 1], markDirty) + [Rollback]
      ensures old(store.snapshot).None? ==> store.snapshot.None? && (r.Failure? ==> store.tables == old(store.tables))
    {
      var began := store.StartTransaction();
      var numReplaced, failures;
      numReplaced, failures, n := ReplaceEach(store, docs, markDirty);
      if |failures| > 0 {
        var rolledBack := store.RollbackTransaction();
        r := ThrowWith(ReplaceDocumentsFailure, failures);
      } else {
        var committed := store.CommitTransaction();
        r := Success(numReplaced);
      }
    }

    /**
     * The loop of replaceDocuments: replaces each document until one
     * fails, which is then the only failure reported.
     */
    method ReplaceEach(store: Store, docs: seq<Json>, markDirty: bool)
      returns (numReplaced: int, failures: seq<Json>, ghost n: nat)
      requires store.Valid()
      modifies store
      ensures store.Valid() && store.snapshot == old(store.snapshot) && store.nextId == old(store.nextId)
      ensures store.tables - {name} == old(store.tables) - {name}
      ensures |failures| == 0 ==>
        n == |docs| && numReplaced == |docs|
        && store.log == old(store.log) + ReplaceCalls(name, docs, markDirty)
        && store.Table(name) == ReplaceAll(old(store.Table(name)), docs, markDirty)
        && forall i | 0 <= i < |docs| :: ReplaceTarget(docs[i], old(store.Table(name))).Some?
      ensures |failures| > 0 ==>
        n < |docs| && failures == [docs[n]]
        && store.log == old(store.log) + ReplaceCalls(name, docs[..n + 1], markDirty)
        && store.Table(name) == ReplaceAll(old(store.Table(name)), docs[..n], markDirty)
    {
      ghost var log0, table0 := store.log, store.Table(name);
      numReplaced, failures := 0, [];
      var i := 0;
      while i < |docs|
        invariant 0 <= i <= |docs| && numReplaced == i && failures == []
        invariant store.Valid() && store.snapshot == old(store.snapshot) && store.nextId == old(store.nextId)
        invariant store.tables - {name} == old(store.tables) - {name}
        invariant store.log == log0 + ReplaceCalls(name, docs[..i], markDirty)
        invariant store.Table(name) == ReplaceAll(table0, docs[..i], markDirty)
        invariant forall k | 0 <= k < i :: ReplaceTarget(docs[k], table0).Some?
      {
        var worked := ReplaceNext(store, docs, i, markDirty, log0, table0);
        if !worked {
          failures := failures + [docs[i]];
          n := i;
          return;
        }
        numReplaced := numReplaced + 1;
        i := i + 1;
      }
      assert docs[..|docs|] == docs;
      n := |docs|;
    }

    /** The body of the replace loop: one replace call for the next document. */
    method ReplaceNext(store: Store, docs: seq<Json>, i: nat, markDirty: bool, ghost log0: seq<Call>, ghost table0: Table)
      returns (worked: bool)
      requires store.Valid() && i < |docs|
      requires store.log == log0 + ReplaceCalls(name, docs[..i], markDirty)
      requires store.Table(name) == ReplaceAll(table0, docs[..i], markDirty)
      modifies store
      ensures store.Valid() && store.snapshot == old(store.snapshot) && store.nextId == old(store.nextId)
      ensures store.tables - {name} == old(store.tables) - {name}
      ensures store.log == log0 + ReplaceCalls(name, docs[..i + 1], markDirty)
      ensures worked ==>
        ReplaceTarget(docs[i], table0).Some?
        && store.Table(name) == ReplaceAll(table0, docs[..i + 1], markDirty)
      ensures !worked ==> store.Table(name) == ReplaceAll(table0, docs[..i], markDirty)
    {
      ghost var before := store.Table(name);
      worked := ReplaceOne(store, docs[i], markDirty);
      ReplaceCallsStep(name, docs, i, markDirty);
      LogAppend(log0, ReplaceCalls(name, docs[..i], markDirty), [ReplaceDoc(name, docs[i], markDirty)]);
      if worked {
        ReplaceAllKeys(table0, docs[..i], markDirty);
        TargetDependsOnKeys(docs[i], before, table0);
        ReplaceAllStep(table0, docs, i, markDirty);
      }
    }

    /** One store replace of a document of the collection. */
    method ReplaceOne(store: Store, doc: Json, markDirty: bool) returns (ok: bool)
      requires store.Valid()
      modifies store
      ensures store.Valid() && store.snapshot == old(store.snapshot) && store.nextId == old(store.nextId)
      ensures store.log == old(store.log) + [ReplaceDoc(name, doc, markDirty)]
      ensures store.tables - {name} == old(store.tables) - {name}
      ensures ok ==>
        ReplaceTarget(doc, old(store.Table(name))).Some?
        && store.Table(name) == old(store.Table(name))[ReplaceTarget(doc, old(store.Table(name))).value := Row(Payload(doc), markDirty, false)]
      ensures !ok ==> store.tables == old(store.tables)
    {
      ok := store.Replace(doc, name, markDirty);
      if ok {
        ghost var k :| ReplaceTarget(doc, old(store.Table(name))) == Some(k)
          && store.tables == old(store.tables)[name := old(store.Table(name))[k := Row(Payload(doc), markDirty, false)]];
        OtherTablesKept(old(store.tables), name, old(store.Table(name))[k := Row(Payload(doc), markDirty, false)]);
      }
    }
    /**
     * findWithQueries: runs each query in turn and gathers the documents,
     * dropping one whose `_id` text, or for a document without `_id` whose
     * serialised form, was already gathered. An offset without a positive
     * limit is refused before the store is looked up; a query the store
     * cannot run ends the loop and the whole find fails.
     */
    method FindWithQueries(env: Env, queries: seq<Json>, options: QueryOptions)
      returns (r: Result<seq<JObject>>, ghost answers: seq<seq<JObject>>)
      modifies env.store
      ensures options.offset > 0 && options.limit <= 0 ==>
        r == Throw(InvalidOffset) && (env.store != null ==> env.store.log == old(env.store.log))
      ensures !(options.offset > 0 && options.limit <= 0) && env.store == null ==> r == Throw(DatabaseNotOpen)
      ensures env.store != null ==>
        env.store.tables == old(env.store.tables) && env.store.snapshot == old(env.store.snapshot)
        && env.store.nextId == old(env.store.nextId)
      ensures !(options.offset > 0 && options.limit <= 0) && env.store != null && r.Success? ==>
        |answers| == |queries| && r.value == FindResult(answers)
        && env.store.log == old(env.store.log) + FindCalls(name, queries, options)
      ensures !(options.offset > 0 && options.limit <= 0) && env.store != null && r.Failure? ==>
        r == Throw(InvalidSearchField) && |answers| < |queries|
        && env.store.log == old(env.store.log) + FindCalls(name, queries[..|answers| + 1], options)
    {
      answers := [];
      if options.offset > 0 && options.limit <= 0 {
        return Throw(InvalidOffset), answers;
      }
      var store := env.store;
      if store == null {
        return Throw(DatabaseNotOpen), answers;
      }
      ghost var log0 := store.log;
      var ids: seq<string> := [];
      var forms: seq<Json> := [];
      var fullResults: seq<JObject> := [];
      var i := 0;
      while i < |queries|
        invariant 0 <= i <= |queries| && |answers| == i
        invariant store.tables == old(store.tables) && store.snapshot == old(store.snapshot)
        invariant store.nextId == old(store.nextId)
        invariant store.log == log0 + FindCalls(name, queries[..i], options)
        invariant Gathered(fullResults, ids, forms, Flatten(answers), Key)
      {
        var results := store.Find(queries[i], name, options);
        FindCallsStep(name, queries, i, options);
        if results.None? {
          return Throw(InvalidSearchField), answers;
        }
        ghost var seen := Flatten(answers);
        fullResults, ids, forms := Gather(fullResults, ids, forms, results.value, Key, seen);
        FlattenSnoc(answers, results.value);
        answers := answers + [results.value];
        i := i + 1;
      }
      assert queries[..|queries|] == queries;
      r := Success(fullResults);
    }

    /** findWithIds: a find by id queries, with exact matching. */
    method FindWithIds(env: Env, ids: seq<Json>) returns (r: Result<seq<JObject>>, ghost answers: seq<seq<JObject>>)
      modifies env.store
      ensures env.store == null ==> r == Throw(DatabaseNotOpen)
      ensures env.store != null ==>
        env.store.tables == old(env.store.tables) && env.store.snapshot == old(env.store.snapshot)
        && env.store.nextId == old(env.store.nextId)
      ensures env.store != null && r.Success? ==>
        |answers| == |ids| && r.value == FindResult(answers)
        && env.store.log == old(env.store.log) + FindCalls(name, ids, ExactOptions())
      ensures env.store != null && r.Failure? ==>
        r == Throw(InvalidSearchField) && |answers| < |ids|
        && env.store.log == old(env.store.log) + FindCalls(name, ids[..|answers| + 1], ExactOptions())
    {
      r, answers := FindWithQueries(env, ids, ExactOptions());
    }

    /** findWithAdvancedQuery: one store call with the compiled query parts. */
    method FindWithAdvancedQuery(env: Env, parts: seq<Query>, options: Option<QueryOptions>) returns (r: Result<seq<JObject>>)
      modifies env.store
      ensures env.store == null ==> r == Throw(DatabaseNotOpen)
      ensures env.store != null ==>
        env.store.tables == old(env.store.tables) && env.store.snapshot == old(env.store.snapshot)
        && env.store.nextId == old(env.store.nextId)
        && env.store.log == old(env.store.log) + [FindParts(name, old(Operands(parts)), options)]
        && (r.Success? || r == Throw(InvalidSearchField))
    {
      var store := env.store;
      if store == null {
        return Throw(DatabaseNotOpen);
      }
      var results := store.FindWithQueryParts(parts, name, options);
      if results.None? {
        return Throw(InvalidSearchField);
      }
      r := Success(results.value);
    }

    /** countAllDirtyDocumentsWithError: always zero. */
    method CountAllDirtyDocumentsWithError() returns (n: int)
      ensures n == 0
    {
      n := 0;
    }

    /**
     * countDocuments: a query with at least one property counts the
     * matching documents; a missing or empty query counts them all.
     */
    method CountDocuments(env: Env, query: Option<Json>, exact: bool) returns (r: Result<int>)
      modifies env.store
      ensures env.store == null ==> r == Throw(DatabaseNotOpen)
      ensures env.store != null ==>
        r.Success?
        && env.store.tables == old(env.store.tables) && env.store.snapshot == old(env.store.snapshot)
        && env.store.nextId == old(env.store.nextId)
        && env.store.log == old(env.store.log)
             + [if query.Some? && HasValues(query.value) then CountQuery(name, query.value, exact) else CountAll(name)]
    {
      var store := env.store;
      if store == null {
        return Throw(DatabaseNotOpen);
      }
      var countResult := 0;
      if query.Some? && HasValues(query.value) {
        countResult := store.CountWithQuery(query.value, name, exact);
      } else {
        countResult := store.Count(name);
      }
      r := Success(countResult);
    }

    /** countAllDirtyDocuments: the number of dirty rows of the collection. */
    method CountAllDirtyDocuments(env: Env) returns (r: Result<int>)
      modifies env.store
      ensures env.store == null ==> r == Throw(DatabaseNotOpen)
      ensures env.store != null ==>
        r == Success(|DirtyKeys(old(env.store.Table(name)))|)
        && env.store.tables == old(env.store.tables) && env.store.snapshot == old(env.store.snapshot)
        && env.store.log == old(env.store.log) + [CountDirty(name)]
    {
      var store := env.store;
      if store == null {
        return Throw(DatabaseNotOpen);
      }
      var countResult := store.DirtyCount(name);
      r := Success(countResult);
    }

    /** isDirtyDocument: whether the row with the given `_id` text is dirty. */
    method IsDirtyDocument(env: Env, id: string) returns (r: Result<bool>)
      modifies env.store
      ensures env.store == null ==> r == Throw(DatabaseNotOpen)
      ensures env.store != null ==>
        r.Success?
        && (r.value <==> exists k :: k in DirtyKeys(old(env.store.Table(name))) && IdText(k) == id)
        && env.store.tables == old(env.store.tables) && env.store.snapshot == old(env.store.snapshot)
        && env.store.log == old(env.store.log) + [IsDirtyDoc(name, id)]
    {
      var store := env.store;
      if store == null {
        return Throw(DatabaseNotOpen);
      }
      var dirty := store.IsDirty(id, name);
      r := Success(dirty);
    }

    /**
     * allDirtyWithDocuments: the dirty documents of the collection, in the
     * store's order; when documents are given, only those whose `_id` text
     * one of the given documents has.
     */
    method AllDirtyWithDocuments(env: Env, documents: seq<Json>) returns (r: Result<seq<Json>>, ghost dirty: seq<Json>)
      modifies env.store
      ensures env.store == null ==> r == Throw(DatabaseNotOpen)
      ensures env.store != null ==>
        r == SelectDirty(dirty, documents, IdOf)
        && env.store.tables == old(env.store.tables) && env.store.snapshot == old(env.store.snapshot)
        && env.store.nextId == old(env.store.nextId) && env.store.log == old(env.store.log) + [AllDirty(name)]
    {
      var store := env.store;
      if store == null {
        return Throw(DatabaseNotOpen), [];
      }
      var retArr: seq<Json> := store.AllDirtyInCollection(name);
      dirty := retArr;
      r := SelectEach(retArr, documents, IdOf);
    }

    /**
     * markDocumentsClean: one markClean call per document, never rolled
     * back. A document without `_id` or `_operation` makes the lookup throw
     * after the calls for the documents before it. The documents whose call
     * failed are reported together; otherwise the result is the number of
     * calls that worked.
     */
    method MarkDocumentsClean(env: Env, documents: seq<Json>)
      returns (r: Result<int>, ghost oks: seq<bool>, ghost keys: seq<Option<int>>)
      requires env.store != null ==> env.store.Valid()
      modifies env.store
      ensures env.store == null ==> r == Throw(DatabaseNotOpen)
      ensures env.store != null ==>
        env.store.Valid() && |oks| <= |documents|
        && env.store.snapshot == old(env.store.snapshot) && env.store.nextId == old(env.store.nextId)
        && (forall i | 0 <= i < |oks| :: CleanArgs(documents[i]).Some?)
        && env.store.log == old(env.store.log) + CleanCalls(name, documents[..|oks|])
      ensures env.store != null ==>
        CleanedRows(documents, oks, keys)
        && env.store.Table(name) == CleanAll(old(env.store.Table(name)), keys)
        && env.store.tables - {name} == old(env.store.tables) - {name}
      ensures env.store != null && r == Failure(OtherException) ==>
        |oks| < |documents| && CleanArgs(documents[|oks|]).None?
      ensures env.store != null && r != Failure(OtherException) ==>
        |oks| == |documents|
        && r == if |FailedDocs(documents, oks)| > 0
                then ThrowWith(CouldNotMarkDocumentPushed, FailedDocs(documents, oks))
                else Success(Successes(oks))
    {
      var store := env.store;
      if store == null {
        return Throw(DatabaseNotOpen), [], [];
      }
      ghost var log0, table0, tables0 := store.log, store.Table(name), store.tables;
      var numWorked := 0;
      var failedDocs: seq<Json> := [];
      oks, keys := [], [];
      var i := 0;
      while i < |documents|
        invariant 0 <= i <= |documents| && |oks| == i
        invariant store.Valid() && store.snapshot == old(store.snapshot) && store.nextId == old(store.nextId)
        invariant CleanedSoFar(store, log0, table0, tables0, documents, oks, keys)
        invariant failedDocs == FailedDocs(documents[..i], oks)
        invariant numWorked == Successes(oks)
      {
        if CleanArgs(documents[i]).None? {
          return Failure(OtherException), oks, keys;
        }
        var worked, key := CleanNext(store, documents, i, oks, keys, log0, table0, tables0);
        CleanStep(name, documents, i, oks, worked);
        numWorked := numWorked + (if worked then 1 else 0);
        failedDocs := failedDocs + (if worked then [] else [documents[i]]);
        oks, keys := oks + [worked], keys + [key];
        i := i + 1;
      }
      assert documents[..|documents|] == documents;
      if |failedDocs| > 0 {
        return ThrowWith(CouldNotMarkDocumentPushed, failedDocs), oks, keys;
      }
      r := Success(numWorked);
    }

    /** What markDocumentsClean has done after the calls for the first `|oks|` documents. */
    ghost predicate CleanedSoFar(store: Store, log0: seq<Call>, table0: Table, tables0: map<string, Table>,
                                 documents: seq<Json>, oks: seq<bool>, keys: seq<Option<int>>)
      reads store
    {
      && |oks| <= |documents|
      && (forall k | 0 <= k < |oks| :: CleanArgs(documents[k]).Some?)
      && store.log == log0 + CleanCalls(name, documents[..|oks|])
      && CleanedRows(documents, oks, keys)
      && store.Table(name) == CleanAll(table0, keys)
      && store.tables - {name} == tables0 - {name}
    }

    /** The body of the markDocumentsClean loop for a document that has both fields. */
    method CleanNext(store: Store, documents: seq<Json>, i: nat, ghost oks: seq<bool>, ghost keys: seq<Option<int>>,
                     ghost log0: seq<Call>, ghost table0: Table, ghost tables0: map<string, Table>)
      returns (worked: bool, ghost key: Option<int>)
      requires store.Valid() && CleanedSoFar(store, log0, table0, tables0, documents, oks, keys)
      requires i == |oks| < |documents| && CleanArgs(documents[i]).Some?
      modifies store
      ensures store.Valid() && store.snapshot == old(store.snapshot) && store.nextId == old(store.nextId)
      ensures CleanedSoFar(store, log0, table0, tables0, documents, oks + [worked], keys + [key])
    {
      var args := CleanArgs(documents[i]).value;
      var docId, operation := args.0, args.1;
      worked, key := CleanOne(store, docId, operation);
      CleanStep(name, documents, i, oks, worked);
      LogAppend(log0, CleanCalls(name, documents[..i]), [MarkCleanDoc(name, docId, operation)]);
      CleanAllStep(table0, keys, key);
      CleanedRowsStep(documents, oks, keys, worked, key);
    }

    /** One store markClean call, and the key of the row it cleaned when it worked. */
    method CleanOne(store: Store, id: string, operation: string) returns (worked: bool, ghost key: Option<int>)
      requires store.Valid()
      modifies store
      ensures store.Valid() && store.snapshot == old(store.snapshot) && store.nextId == old(store.nextId)
      ensures store.log == old(store.log) + [MarkCleanDoc(name, id, operation)]
      ensures store.tables - {name} == old(store.tables) - {name}
      ensures key.Some? <==> worked
      ensures worked ==>
        key.value in old(store.Table(name)) && IdText(key.value) == id
        && store.Table(name) == Cleaned(old(store.Table(name)), key.value)
      ensures !worked ==> store.tables == old(store.tables)
    {
      worked := store.MarkClean(id, name, operation);
      key := None;
      if worked {
        ghost var k :| k in old(store.Table(name)) && IdText(k) == id
          && store.tables == old(store.tables)[name := Cleaned(old(store.Table(name)), k)];
        OtherTablesKept(old(store.tables), name, Cleaned(old(store.Table(name)), k));
        key := Some(k);
      }
    }

    /**
     * changeData: for each document, finds the matches of its replace
     * criteria and replaces every match with the document, or, when there
     * is no match, adds the document if asked to. An element that is not
     * an object makes the cast throw; an exception from the find, the
     * replace or the add ends the loop. The result is the number of
     * documents replaced or added.
     */
    method ChangeData(env: Env, docs: seq<Json>, criteria: Option<seq<string>>, addNew: bool, markDirty: bool)
      returns (r: Result<int>, ghost plans: seq<Plan>, ghost finds: seq<seq<seq<JObject>>>)
      requires env.store != null ==> env.store.Valid()
      modifies env.store
      ensures env.store == null ==> r == Throw(DatabaseNotOpen)
      ensures env.store != null ==> env.store.Valid() && PlansFit(docs, criteria, addNew, finds, plans)
      ensures env.store != null && r.Success? ==>
        |plans| == |docs| && r.value == Total(plans)
        && env.store.log == old(env.store.log)
             + ChangeCalls(name, docs, criteria, plans, markDirty, env.transactionInProgress)
      ensures env.store != null && r.Failure? ==>
        |plans| < |docs|
        && old(env.store.log) + ChangeCalls(name, docs[..|plans|], criteria, plans, markDirty, env.transactionInProgress)
             <= env.store.log
    {
      var store := env.store;
      if store == null {
        return Throw(DatabaseNotOpen), [], [];
      }
      ghost var log0, inTransaction := store.log, env.transactionInProgress;
      var numUpdatedOrAdded := 0;
      plans, finds := [], [];
      var i := 0;
      while i < |docs|
        invariant 0 <= i <= |docs| && |plans| == i
        invariant ChangedSoFar(store, log0, inTransaction, docs, criteria, addNew, markDirty, finds, plans)
        invariant numUpdatedOrAdded == Total(plans)
      {
        var res, plan, answers := ChangeNext(env, docs, i, criteria, addNew, markDirty, plans, finds, log0);
        if res.Failure? {
          return Failure(res.fault), plans, finds;
        }
        numUpdatedOrAdded := numUpdatedOrAdded + res.value;
        plans, finds := plans + [plan], finds + [answers];
        i := i + 1;
      }
      assert docs[..|docs|] == docs;
      r := Success(numUpdatedOrAdded);
    }

    /**
     * The state of changeData after the documents before `plans` ran out:
     * each has its plan, and the log holds their calls.
     */
    ghost predicate ChangedSoFar(store: Store, log0: seq<Call>, inTransaction: bool, docs: seq<Json>,
                                 criteria: Option<seq<string>>, addNew: bool, markDirty: bool,
                                 finds: seq<seq<seq<JObject>>>, plans: seq<Plan>)
      reads store
    {
      && store.Valid()
      && PlansFit(docs, criteria, addNew, finds, plans)
      && store.log == log0 + ChangeCalls(name, docs[..|plans|], criteria, plans, markDirty, inTransaction)
    }

    /** The body of the changeData loop: the cast of the next document to an object, then its change. */
    method ChangeNext(env: Env, docs: seq<Json>, i: nat, criteria: Option<seq<string>>, addNew: bool, markDirty: bool,
                      ghost plans: seq<Plan>, ghost finds: seq<seq<seq<JObject>>>, ghost log0: seq<Call>)
      returns (r: Result<int>, ghost plan: Plan, ghost answers: seq<seq<JObject>>)
      requires env.store != null && i == |plans| < |docs|
      requires ChangedSoFar(env.store, log0, env.transactionInProgress, docs, criteria, addNew, markDirty, finds, plans)
      modifies env.store
      ensures env.store.Valid() && PlansFit(docs, criteria, addNew, finds, plans)
      ensures r.Success? ==>
        ChangedSoFar(env.store, log0, env.transactionInProgress, docs, criteria, addNew, markDirty, finds + [answers], plans + [plan])
        && Total(plans + [plan]) == Total(plans) + r.value
      ensures r.Failure? ==>
        log0 + ChangeCalls(name, docs[..i], criteria, plans, markDirty, env.transactionInProgress) <= env.store.log
    {
      if !docs[i].JObj? {
        r, plan, answers := Failure(OtherException), Skipped, [];
      } else {
        r, plan, answers := ChangeOne(env, docs[i], criteria, addNew, markDirty);
        if r.Success? {
          ChangeNextStep(name, docs, criteria, addNew, markDirty, env.transactionInProgress, finds, plans, answers, plan,
            log0, env.store.log);
        }
      }
    }

    /**
     * The body of the changeData loop for one document. The matches of the
     * criteria query are replaced together in one replaceDocuments call;
     * without a query or without matches the document is added alone.
     */
    method ChangeOne(env: Env, data: JObject, criteria: Option<seq<string>>, addNew: bool, markDirty: bool)
      returns (r: Result<int>, ghost plan: Plan, ghost answers: seq<seq<JObject>>)
      requires env.store != null && env.store.Valid()
      modifies env.store
      ensures env.store.Valid()
      ensures r.Success? ==>
        r.value == PlanCount(plan) && PlanFits(data, criteria, addNew, answers, plan)
        && env.store.log == old(env.store.log) + PlanCalls(name, data, criteria, plan, markDirty, env.transactionInProgress)
      ensures r.Failure? ==> old(env.store.log) <= env.store.log
    {
      ghost var log0 := env.store.log;
      var query := QueryFor(data, criteria);
      var found;
      found, answers := FindMatches(env, query);
      if found.Failure? {
        r, plan := Failure(found.fault), Skipped;
      } else {
        r, plan := ApplyPlan(env, data, found.value, addNew, markDirty);
        if r.Success? {
          PlanCallsThen(log0, name, data, criteria, plan, markDirty, env.transactionInProgress);
        }
      }
    }

    /**
     * The store calls of changeData after the find: the matches are
     * replaced when there are any, else the document is added when asked to.
     */
    method ApplyPlan(env: Env, data: JObject, results: seq<JObject>, addNew: bool, markDirty: bool)
      returns (r: Result<int>, ghost plan: Plan)
      requires env.store != null && env.store.Valid()
      modifies env.store
      ensures env.store.Valid()
      ensures r.Success? ==>
        plan == (if |results| > 0 then Replaced(results) else if addNew then Added else Skipped)
        && r.value == PlanCount(plan)
        && env.store.log == old(env.store.log) + PlanEffect(name, data, plan, markDirty, env.transactionInProgress)
      ensures r.Failure? ==> old(env.store.log) <= env.store.log
    {
      if |results| > 0 {
        plan := Replaced(results);
        var numReplaced := ReplaceMatches(env, results, data, markDirty);
        r := if numReplaced.Failure? then numReplaced else Success(if numReplaced.value > 0 then numReplaced.value else 0);
      } else if addNew {
        plan := Added;
        r := AddOne(env, data, markDirty);
      } else {
        plan := Skipped;
        r := Success(0);
      }
    }

    /**
     * The exact find of changeData; no find, and no match, when the query
     * is empty. The matches are the find's result over the store's answers.
     */
    method FindMatches(env: Env, query: seq<Json>) returns (r: Result<seq<JObject>>, ghost answers: seq<seq<JObject>>)
      requires env.store != null && env.store.Valid()
      modifies env.store
      ensures env.store.Valid()
      ensures env.store.tables == old(env.store.tables)
      ensures r.Success? ==>
        (|query| == 0 ==> answers == [] && r.value == [])
        && (|query| > 0 ==> |answers| == |query| && r.value == FindResult(answers))
        && env.store.log == old(env.store.log) + (if |query| > 0 then FindCalls(name, query, ExactOptions()) else [])
      ensures r.Failure? ==> old(env.store.log) <= env.store.log
    {
      if |query| == 0 {
        return Success([]), [];
      }
      r, answers := FindWithQueries(env, query, ExactOptions());
    }

    /** The replaceDocuments call of changeData for the matches found. */
    method ReplaceMatches(env: Env, results: seq<JObject>, data: JObject, markDirty: bool) returns (r: Result<int>)
      requires env.store != null && env.store.Valid()
      modifies env.store
      ensures env.store.Valid()
      ensures r.Success? ==>
        r.value == |results|
        && env.store.log == old(env.store.log) + (Opening(env.transactionInProgress)
             + ReplaceCalls(name, Replacements(results, data), markDirty) + Closing(env.transactionInProgress, Commit))
      ensures r.Failure? ==> old(env.store.log) <= env.store.log
    {
      var docsToReplace := ReplacementsFor(results, data);
      ghost var n, log0 := 0, env.store.log;
      r, n := ReplaceDocuments(env, docsToReplace, markDirty);
      LogAppend3(log0, Opening(env.transactionInProgress), ReplaceCalls(name, docsToReplace[..if r.Success? then |docsToReplace| else n + 1], markDirty),
        Closing(env.transactionInProgress, if r.Success? then Commit else Rollback));
      if r.Success? {
        assert docsToReplace[..|docsToReplace|] == docsToReplace;
      }
    }

    /** The addData call of changeData for a document without matches. */
    method AddOne(env: Env, data: JObject, markDirty: bool) returns (r: Result<int>)
      requires env.store != null && env.store.Valid()
      modifies env.store
      ensures env.store.Valid()
      ensures r.Success? ==>
        r.value == 1
        && env.store.log == old(env.store.log) + (Opening(env.transactionInProgress)
             + StoreCalls(name, [data], markDirty) + Closing(env.transactionInProgress, Commit))
      ensures r.Failure? ==> old(env.store.log) <= env.store.log
    {
      ghost var n;
      r, n := AddData(env, [data], markDirty);
    }

    /** The loop building the criteria query: one `{field: value}` object per criterion the document has. */
    static method QueryFor(data: JObject, criteria: Option<seq<string>>) returns (query: seq<Json>)
      ensures query == CriteriaQuery(data, criteria)
    {
      query := [];
      if criteria.Some? {
        var cs := criteria.value;
        var j := 0;
        while j < |cs|
          invariant 0 <= j <= |cs|
          invariant query == CriteriaQuery(data, Some(cs[..j]))
        {
          assert cs[..j + 1][..j] == cs[..j];
          var value := Get(data.props, cs[j]);
          if value.Some? {
            query := query + [JObj([Prop(cs[j], value.value)])];
          }
          j := j + 1;
        }
        assert cs[..|cs|] == cs;
      }
    }

    /** The loop building the replacement documents: the match's `_id` with the new data. */
    static method ReplacementsFor(results: seq<JObject>, data: JObject) returns (docsToReplace: seq<Json>)
      ensures docsToReplace == Replacements(results, data)
      ensures forall i | 0 <= i < |results| :: docsToReplace[i] == Replacement(results[i], data)
    {
      docsToReplace := [];
      var j := 0;
      while j < |results|
        invariant 0 <= j <= |results|
        invariant docsToReplace == Replacements(results[..j], data)
      {
        assert results[..j + 1][..j] == results[..j];
        var id := match Get(results[j].props, FieldId) case Some(v) => v case None => JNull;
        docsToReplace := docsToReplace + [JObj([Prop(FieldId, id), Prop(FieldJson, data)])];
        j := j + 1;
      }
      assert results[..|results|] == results;
      forall i | 0 <= i < |results| {
        ReplacementsAt(results, data, i);
      }
    }
  }

  /**
   * The state of a find after it has looked at `seen`: the gathered
   * documents, and the `_id` texts and serialised forms that were kept.
   */
  ghost predicate Gathered<T>(fullResults: seq<T>, ids: seq<string>, forms: seq<Json>, seen: seq<T>, key: T -> DocKey) {
    fullResults == Dedup(seen, key) && ids == IdsOf(fullResults, key) && forms == FormsOf(fullResults, key)
  }

  /**
   * The inner loop of findWithQueries: adds each document of one answer
   * unless its key was seen before.
   */
  method Gather<T>(fullResults: seq<T>, ids: seq<string>, forms: seq<Json>, results: seq<T>, key: T -> DocKey, ghost seen: seq<T>)
    returns (fullResults': seq<T>, ids': seq<string>, forms': seq<Json>)
    requires Gathered(fullResults, ids, forms, seen, key)
    ensures Gathered(fullResults', ids', forms', seen + results, key)
  {
    fullResults', ids', forms' := fullResults, ids, forms;
    ghost var seen' := seen;
    var j := 0;
    while j < |results|
      invariant 0 <= j <= |results| && seen' == seen + results[..j]
      invariant Gathered(fullResults', ids', forms', seen', key)
    {
      fullResults', ids', forms' := GatherOne(fullResults', ids', forms', results[j], key, seen');
      PrefixSnoc(seen, results, j);
      seen' := seen' + [results[j]];
      j := j + 1;
    }
    assert results[..|results|] == results;
  }

  /** A prefix of `results` after `seen` grows by the next element. */
  lemma PrefixSnoc<T>(seen: seq<T>, results: seq<T>, j: nat)
    requires j < |results|
    ensures seen + results[..j] + [results[j]] == seen + results[..j + 1]
  {
    assert results[..j + 1] == results[..j] + [results[j]];
  }

  /**
   * One found document: by its key, the `_id` text is looked up among the
   * ids kept so far or, for a document without `_id`, its serialised form
   * among the forms kept so far; a new one is kept and remembered.
   */
  method GatherOne<T>(fullResults: seq<T>, ids: seq<string>, forms: seq<Json>, result: T, key: T -> DocKey, ghost seen: seq<T>)
    returns (fullResults': seq<T>, ids': seq<string>, forms': seq<Json>)
    requires Gathered(fullResults, ids, forms, seen, key)
    ensures Gathered(fullResults', ids', forms', seen + [result], key)
  {
    fullResults', ids', forms' := fullResults, ids, forms;
    DedupSnoc(seen, result, key);
    IdsAndFormsSnoc(fullResults, result, key);
    match key(result) {
      case ByForm(form) =>
        IdsAndFormsAreKeys(fullResults, key, [], form);
        if form !in forms {
          fullResults' := fullResults + [result];
          forms' := forms + [form];
        }
      case ById(id) =>
        IdsAndFormsAreKeys(fullResults, key, id, JNull);
        if id !in ids {
          fullResults' := fullResults + [result];
          ids' := ids + [id];
        }
    }
  }

  /**
   * The loop of allDirtyWithDocuments over the dirty documents: each is
   * kept when no documents are given, or when the scan of the given
   * documents finds its id.
   */
  method SelectEach<T>(dirty: seq<T>, documents: seq<T>, idOf: T -> Option<string>) returns (r: Result<seq<T>>)
    ensures r == SelectDirty(dirty, documents, idOf)
  {
    var docsToReturn: seq<T> := [];
    if |dirty| > 0 {
      var i := 0;
      while i < |dirty|
        invariant 0 <= i <= |dirty|
        invariant SelectDirty(dirty[..i], documents, idOf) == Success(docsToReturn)
      {
        var md := dirty[i];
        assert dirty[..i + 1][..i] == dirty[..i];
        if |documents| > 0 {
          var dirtyId := idOf(md);
          if dirtyId.None? {
            SelectFromFailurePersists(dirty, documents, idOf, i + 1);
            return Failure(OtherException);
          }
          var found := ScanFor(documents, dirtyId.value, idOf);
          if found.Failure? {
            MatchScanFailsOnlyWithOther(documents, dirtyId.value, idOf);
            SelectFromFailurePersists(dirty, documents, idOf, i + 1);
            return Failure(OtherException);
          }
          if found.value {
            docsToReturn := docsToReturn + [md];
          }
        } else {
          assert dirty[..i] + [md] == dirty[..i + 1];
          docsToReturn := docsToReturn + [md];
        }
        i := i + 1;
      }
      assert dirty[..|dirty|] == dirty;
    }
    r := Success(docsToReturn);
  }

  /**
   * The inner loop of allDirtyWithDocuments: the given documents in order
   * until one has the id; reaching a document without one throws.
   */
  method ScanFor<T>(documents: seq<T>, id: string, idOf: T -> Option<string>) returns (r: Result<bool>)
    ensures r == MatchScan(documents, id, idOf)
  {
    var j := 0;
    while j < |documents|
      invariant 0 <= j <= |documents|
      invariant MatchScan(documents, id, idOf) == MatchScan(documents[j..], id, idOf)
    {
      assert documents[j..][1..] == documents[j + 1..];
      match idOf(documents[j]) {
        case None =>
          return Failure(OtherException);
        case Some(x) =>
          if x == id {
            return Success(true);
          }
      }
      j := j + 1;
    }
    r := Success(false);
  }
}
