# JSONStore for Windows: a verified model of the document-collection engine

This project models in Dafny the core of the Windows side of the JSONStore
Cordova plugin, and proves properties of that model. The core has four parts.

- **The secondary-index extractor** (`JSONStoreIndexer`). It walks a JSON
  document and collects, for each path declared in the collection's schema,
  the set of scalar values found at that path. `FindIndexesFromSchema` and
  its three mutually recursive helpers thread one dictionary through the
  walk. They are proved equal to a fold (`Walk`), the fold is proved equal to
  absorbing a set of (path, value) pairs (`Pairs`), and those pairs are
  characterised by an independent definition built from explicit field and
  element steps (`LeafPath`, `PairAt`).
- **The collection operations** (`JSONStoreCollection`). The store behind them
  (`JSONStoreSQLLite`) is a class `Stores.Store`. It holds the tables (row
  number to document, dirty flag and removal mark), a transaction snapshot, the
  next row number and a ghost log of every call made to it. Whether a store
  call succeeds is left open, and each store method states its effect on
  either outcome. The shared static state of `JSONStore` becomes a class
  `Stores.Env`: the open store (null when the database is not open), the
  transaction-in-progress flag and the open accessors. Each collection
  operation states:
  - the calls it makes, in order, including begin, commit and rollback;
  - what it reports;
  - what it does to the tables.
- **The plugin boundary** (`StoragePlugin`). This covers three pieces:
  - the compiler that turns advanced-query objects into query parts;
  - the `findById` loop;
  - the mapping from outcomes and exceptions to status and return codes.
- **The result type** (`StorageResult`): the status enum, `isSuccess` and both
  constructors.

Exceptions become a `Result` datatype. Its `Failure` carries a `Fault`: either
a `StoreException` (a JSONStore error code, with optional failure data) or
`OtherException` (any other exception, such as an invalid cast). The
`JSONStoreConstants` return codes become distinct constructors of
`Constants.Code`, because only their names matter to this code. The sixteen
query keywords are a parameter `keyword: Operator -> string`. No property
depends on their spelling beyond the order in which they are tried.

Files:
- `json_values.dfy`: JSON values, property lookup, ASCII lower-casing, and integer text.
- `constants.dfy`: return codes, field names, faults and results.
- `query.dfy`: query operators, first-match operator selection, query options, and the `JSONStoreQuery` class.
- `store.dfy`: the abstract store and the environment.
- `collection_spec.dfy`: the specification functions the collection operations are proved against.
- `collection.dfy`: `JSONStoreCollection`.
- `indexer.dfy`: `JSONStoreIndexer`.
- `storage_result.dfy`: `StorageResult`.
- `plugin.dfy`: `StoragePlugin`.

## Model

| member | source | states |
|---|---|---|
| JsonValues.GetFirst | src/windows/lib/JSONStoreCollection.cs:567-568 | A property lookup finds a value exactly when some property has that name. The value found is the one of the first property with that name. |
| JsonValues.Lower | src/windows/lib/JSONStoreIndexer.cs:93-97 | Lower-casing keeps the length and lowers each character in place. |
| JsonValues.LowerAppend | src/windows/lib/JSONStoreIndexer.cs:97 | Lower-casing a concatenation is the concatenation of the lower-cased parts, so `parent + "." + name` can be lowered piecewise. |
| JsonValues.LowerIsLower | src/windows/lib/JSONStoreIndexer.cs:97 | The result of lower-casing is lower case, and lower-casing twice is the same as once. |
| JsonValues.LowerOfLower | src/windows/lib/JSONStoreIndexer.cs:54-58 | Lower-casing a path that is already lower case leaves it unchanged. |
| JsonValues.IsLowerAppend | src/windows/lib/JSONStoreIndexer.cs:97 | Joining two lower-case texts gives a lower-case text. |
| JsonValues.NatToString | src/windows/lib/JSONStoreIndexer.cs:117 | The text of a natural number is never empty. |
| JsonValues.IntToString | src/windows/lib/JSONStoreIndexer.cs:117 | The text of an integer is never empty. |
| JsonValues.NatToStringDigits | src/windows/lib/JSONStoreIndexer.cs:117 | The text of a natural number consists of decimal digits only. |
| JsonValues.IntToStringStart | src/windows/lib/JSONStoreIndexer.cs:117 | The text of an integer starts with a minus sign or a digit, so it is never a boolean word. |
| JsonValues.NatToStringRoundTrip | src/windows/lib/JSONStoreIndexer.cs:117 | Reading the decimal text of a natural number back gives the number. |
| JsonValues.IntToStringRoundTrip | src/windows/lib/JSONStoreIndexer.cs:117 | Reading the text of an integer back gives the integer, so two different integers never have the same text (and two row numbers never have the same `_id` text). |
| Queries.FirstMatchSpec | src/windows/lib/StoragePlugin.cs:195-258 | The first-match selection finds nothing exactly when no keyword occurs in the name. Otherwise it returns a keyword that occurs in the name, and no earlier keyword does. |
| Queries.SelectOperatorIsFirstMatch | src/windows/lib/StoragePlugin.cs:195-258 | The operator at position i of the fixed keyword order is chosen exactly when its keyword occurs in the property name and no earlier keyword does. |
| Queries.FirstMatchIs | src/windows/lib/StoragePlugin.cs:195-258 | If candidate i matches and no earlier candidate does, the selection is candidate i. |
| Queries.SelectOperatorNone | src/windows/lib/StoragePlugin.cs:193-260 | No operator is chosen exactly when no keyword occurs in the name. The ids operator is never chosen from a property name. |
| Queries.FirstMatchIn | src/windows/lib/StoragePlugin.cs:195-258 | A selected operator is always one of the candidates. |
| Queries.ShadowedKeyword | src/windows/lib/StoragePlugin.cs:195-258 | A keyword that contains an earlier keyword is never chosen. Its names always hit the earlier branch of the if-else chain first. |
| Queries.ExactOptions | src/windows/lib/JSONStoreCollection.cs:347-348 | The options `findWithIds` builds ask for exact matching and pass the offset check. |
| Queries.Query.constructor | src/windows/lib/StoragePlugin.cs:188-190 | A new query object has no operands set. |
| Queries.Query.Set | src/windows/lib/StoragePlugin.cs:195-258 | Setting an operator's values replaces that operator's entry and leaves every other entry as it was. |
| Stores.StoreCalls | src/windows/lib/JSONStoreCollection.cs:131-156 | `addData` makes one store call per document. |
| Stores.ReplaceCalls | src/windows/lib/JSONStoreCollection.cs:230-247 | `replaceDocuments` makes one replace call per document. |
| Stores.RemoveCalls | src/windows/lib/JSONStoreCollection.cs:178-202 | `remove` makes one remove call per document. |
| Stores.FindCalls | src/windows/lib/JSONStoreCollection.cs:294-327 | `findWithQueries` makes one find call per query. |
| Stores.AppendedRows | src/windows/lib/JSONStoreCollection.cs:131-156 | Storing a batch keeps every existing row. It adds exactly one fresh row per document, numbered in input order, holding that document with the requested dirty flag. |
| Stores.RemoveRows | src/windows/lib/JSONStoreCollection.cs:162-203 | A soft remove keeps every row (it only marks rows). A hard remove deletes exactly the removed rows. |
| Stores.RemoveRowsLive | src/windows/lib/JSONStoreCollection.cs:162-203 | Removing n live rows lowers the live-row count by exactly n, both soft and hard. |
| Stores.Operands | src/windows/lib/JSONStoreCollection.cs:352-368 | The operands passed to the store are those of each query part, part by part. |
| Stores.ReplaceTarget | src/windows/lib/JSONStoreCollection.cs:232 | A document can replace only an existing row, and only the one whose number its `_id` names. |
| Stores.Cleaned | src/windows/lib/JSONStoreCollection.cs:528 | Cleaning a row makes it not dirty and leaves every other row unchanged. |
| Stores.Store.StartTransaction | src/windows/lib/JSONStoreCollection.cs:224-228 | Beginning works exactly when no transaction is open. It then snapshots the tables. It never changes data. |
| Stores.Store.CommitTransaction | src/windows/lib/JSONStoreCollection.cs:260-263 | Committing keeps the data and ends the transaction. It works exactly when one was open. |
| Stores.Store.RollbackTransaction | src/windows/lib/JSONStoreCollection.cs:249-254 | Rolling back restores the snapshot taken at begin and ends the transaction. |
| Stores.Store.StoreObject | src/windows/lib/JSONStoreCollection.cs:133 | A successful store adds one fresh row with the document and its dirty flag. A failed store changes nothing. |
| Stores.Store.Remove | src/windows/lib/JSONStoreCollection.cs:180 | A non-negative count n means exactly n live rows of that collection were removed. A negative count changes nothing. |
| Stores.Store.Replace | src/windows/lib/JSONStoreCollection.cs:232 | A successful replace overwrites the row the document's `_id` names with the document's payload and dirty flag. A failed replace changes nothing. |
| Stores.Store.MarkClean | src/windows/lib/JSONStoreCollection.cs:528 | A successful clean clears the dirty flag of the row with that id. A failed clean changes nothing. |
| Stores.Store.Find | src/windows/lib/JSONStoreCollection.cs:296 | A find changes no data and is recorded in the call log. |
| Stores.Store.FindWithQueryParts | src/windows/lib/JSONStoreCollection.cs:368 | A find with query parts changes no data and records the parts' operands. |
| Stores.Store.Count | src/windows/lib/JSONStoreCollection.cs:409 | Counting changes no data. |
| Stores.Store.CountWithQuery | src/windows/lib/JSONStoreCollection.cs:405 | Counting with a query changes no data. |
| Stores.Store.DirtyCount | src/windows/lib/JSONStoreCollection.cs:426 | The dirty count is the number of dirty rows of the collection. |
| Stores.Store.IsDirty | src/windows/lib/JSONStoreCollection.cs:446 | The answer is true exactly when a dirty row has that id. |
| Stores.Store.AllDirtyInCollection | src/windows/lib/JSONStoreCollection.cs:467 | Listing dirty documents changes no data. |
| Stores.Store.DropTable | src/windows/lib/JSONStoreCollection.cs:45-80 | A successful drop removes the collection's table. A failed drop changes nothing. |
| Stores.Store.ClearTable | src/windows/lib/JSONStoreCollection.cs:85-106 | A successful clear empties the collection's table. A failed clear changes nothing. |
| CollectionSpecs.WorkedAt | src/windows/lib/JSONStoreCollection.cs:180-200 | A document's removal counts as failed exactly when the store returned a negative count for it. |
| CollectionSpecs.NoFailedDocs | src/windows/lib/JSONStoreCollection.cs:540-544 | The failure list is empty exactly when every document worked. |
| CollectionSpecs.Successes | src/windows/lib/JSONStoreCollection.cs:530-533 | The success count is at most the number of documents. It equals that number exactly when all worked. |
| CollectionSpecs.RemovedBound | src/windows/lib/JSONStoreCollection.cs:180-190 | Every non-negative per-document count is included in the reported total. |
| CollectionSpecs.FailedDocsMembers | src/windows/lib/JSONStoreCollection.cs:534-537 | A document is in the failure list exactly when it was passed at some position whose call failed. |
| CollectionSpecs.FailedDocsAppend | src/windows/lib/JSONStoreCollection.cs:523-538 | The failure list of a concatenation is the concatenation of the failure lists, so input order is kept. |
| CollectionSpecs.SuccessesAndFailures | src/windows/lib/JSONStoreCollection.cs:523-538 | Every document is counted exactly once, either as a success or in the failure list. |
| CollectionSpecs.RemovedAppend | src/windows/lib/JSONStoreCollection.cs:178-202 | The removed total is additive over consecutive batches of documents. |
| CollectionSpecs.KeysOfMembers | src/windows/lib/JSONStoreCollection.cs:288-316 | A key is among the seen keys exactly when some seen document has it. |
| CollectionSpecs.DedupSnoc | src/windows/lib/JSONStoreCollection.cs:303-315 | One more result is kept exactly when its key (its `_id` text, or for a document without `_id` its serialised form, kept as the document itself) has not been kept before. |
| CollectionSpecs.DedupCovers | src/windows/lib/JSONStoreCollection.cs:288-316 | De-duplication loses no key: every key found by some query is in the answer. |
| CollectionSpecs.DedupDistinct | src/windows/lib/JSONStoreCollection.cs:288-316 | No two kept documents share a key. So the answer holds no two entries with one `_id`, and no id-less document twice. |
| CollectionSpecs.FindKeepsEveryIdlessDocument | src/windows/lib/JSONStoreCollection.cs:303-315 | A found document without `_id` is never merged with a different document: it is always in the find result. |
| CollectionSpecs.DedupKeepsFirst | src/windows/lib/JSONStoreCollection.cs:288-316 | Every kept document is the first occurrence of its key among all results. |
| CollectionSpecs.DedupPrefix | src/windows/lib/JSONStoreCollection.cs:294-327 | Later queries only append to the answer, so entries keep first-discovery order across queries. |
| CollectionSpecs.IdsAndFormsAreKeys | src/windows/lib/JSONStoreCollection.cs:288-316 | The seen-id list and seen-form list together hold exactly the keys of the kept documents. |
| CollectionSpecs.SelectDirty | src/windows/lib/JSONStoreCollection.cs:477-494 | With no documents passed, every dirty document is returned. |
| CollectionSpecs.MatchScanIsNamed | src/windows/lib/JSONStoreCollection.cs:481-488 | When all passed documents have an `_id`, the inner scan answers whether some passed document has the dirty document's `_id`. |
| CollectionSpecs.SelectFromFilters | src/windows/lib/JSONStoreCollection.cs:472-497 | When every document has an `_id`, the answer holds exactly the dirty documents whose `_id` equals some passed document's `_id`. |
| CollectionSpecs.SelectFromSnoc | src/windows/lib/JSONStoreCollection.cs:472-497 | Dirty documents are kept in dirty-list order, each at most once. The next one is appended exactly when it is named by a passed document. |
| CollectionSpecs.DirtyWithoutIdThrows | src/windows/lib/JSONStoreCollection.cs:480 | A dirty document without an `_id`, with documents passed, makes the operation fail on the null value. |
| CollectionSpecs.SelectFromFailsOnlyWithOther | src/windows/lib/JSONStoreCollection.cs:480-483 | The only failure of the selection is a non-JSONStore exception. |
| CollectionSpecs.SelectFromFailurePersists | src/windows/lib/JSONStoreCollection.cs:472-497 | Once the selection fails on a prefix of the dirty list, the whole call fails. |
| CollectionSpecs.MatchScanFailsOnlyWithOther | src/windows/lib/JSONStoreCollection.cs:483 | The inner scan fails only with a non-JSONStore exception (a passed document without `_id`). |
| CollectionSpecs.CleanArgs | src/windows/lib/JSONStoreCollection.cs:525-526 | The id and operation are read only from an object, and the id is the document's `_id` text. |
| CollectionSpecs.CleanCalls | src/windows/lib/JSONStoreCollection.cs:523-538 | `markDocumentsClean` makes one clean call per document. |
| CollectionSpecs.CleanAllClears | src/windows/lib/JSONStoreCollection.cs:523-538 | Every row a clean call cleaned is not dirty after all the calls. |
| CollectionSpecs.CleanAllKeepsOthers | src/windows/lib/JSONStoreCollection.cs:523-538 | A row no clean call named is kept unchanged. |
| CollectionSpecs.RemoveAllTakes | src/windows/lib/JSONStoreCollection.cs:178-202 | A row some remove call took is not live after all the calls; after soft removes it is still there and dirty, so the removal is pushed. |
| CollectionSpecs.RemoveAllKeepsOthers | src/windows/lib/JSONStoreCollection.cs:178-202 | A row no remove call took is kept unchanged. |
| CollectionSpecs.RemoveAllKeys | src/windows/lib/JSONStoreCollection.cs:178-202 | Soft removes keep every row number. |
| CollectionSpecs.CriteriaQuery | src/windows/lib/JSONStoreCollection.cs:563-575 | Without replace criteria the query is empty. With criteria it has at most one entry per criterion. |
| CollectionSpecs.CriteriaQueryShape | src/windows/lib/JSONStoreCollection.cs:566-572 | Each query entry is a one-field object. The field is a criterion, and its value is the document's value of that field. |
| CollectionSpecs.CriteriaQueryEmpty | src/windows/lib/JSONStoreCollection.cs:565-578 | The query is empty exactly when the document has none of the criteria fields. |
| CollectionSpecs.Replacements | src/windows/lib/JSONStoreCollection.cs:587-592 | One replacement document is built per match. |
| CollectionSpecs.ReplacementsAt | src/windows/lib/JSONStoreCollection.cs:587-592 | The i-th replacement pairs the i-th match's `_id` with the new data. |
| CollectionSpecs.ReplacementTargetsTheMatch | src/windows/lib/JSONStoreCollection.cs:588-590 | A replacement carries the new data as its payload. It targets exactly the row whose number is the match's `_id`. |
| CollectionSpecs.ChangeStep | src/windows/lib/JSONStoreCollection.cs:562-606 | Each document adds its own calls after the earlier documents' calls, and adds its own count to the total. |
| CollectionSpecs.NoCriteriaNoReplace | src/windows/lib/JSONStoreCollection.cs:578-605 | A document that has none of the criteria fields is never a replacement. It is added when `addNew` is set and skipped otherwise. |
| CollectionSpecs.ReplaceAllKeys | src/windows/lib/JSONStoreCollection.cs:230-247 | Replacing documents never adds or removes rows. |
| CollectionSpecs.ReplaceAllRows | src/windows/lib/JSONStoreCollection.cs:230-247 | After a replace batch, each targeted row holds the payload of the last document that targeted it. |
| CollectionSpecs.TargetDependsOnKeys | src/windows/lib/JSONStoreCollection.cs:232 | Which row a document replaces depends only on which rows exist, so earlier replaces in a batch do not redirect later ones. |
| Collections.Collection.constructor | src/windows/lib/JSONStoreCollection.cs:34-43 | A collection object records its name. |
| Collections.Collection.RemoveCollection | src/windows/lib/JSONStoreCollection.cs:45-80 | The outcomes are:<br>- while a transaction is in progress, it fails with TRANSACTION_FAILURE_DURING_REMOVE_COLLECTION and touches neither store nor accessors;<br>- otherwise, with no open store, it fails with DATABASE_NOT_OPEN;<br>- otherwise it drops the table and removes the accessor exactly when the drop worked, else fails with ERROR_CLEARING_COLLECTION and changes nothing. |
| Collections.Collection.ClearCollection | src/windows/lib/JSONStoreCollection.cs:85-106 | The outcomes are:<br>- with no open store, DATABASE_NOT_OPEN;<br>- otherwise the table is emptied on success;<br>- on failure, ERROR_CLEARING_COLLECTION with the tables unchanged. |
| Collections.Collection.AddData | src/windows/lib/JSONStoreCollection.cs:111-157 | On success it returns the input length, the table is the old one with exactly the documents appended, and other tables are kept. The log is one begin (only outside a caller transaction), one store call per document, and one commit (same condition).<br>On the first failed store it fails with PERSISTENT_STORE_FAILURE after rolling back, and never commits. Outside a transaction the tables are then as before; inside a caller transaction it never begins, commits or rolls back, and the table holds the documents stored before the failure.<br>A non-object element fails with a non-JSONStore exception, leaving the documents before it appended. |
| Collections.Collection.StoreEach | src/windows/lib/JSONStoreCollection.cs:131-156 | The loop of `addData` stops at the first failure and rolls back, restoring the snapshot when it owns the transaction. When all stores work, the table is the old one with the documents appended; when it stops without a rollback, with the documents before the failure appended. |
| Collections.Collection.StoreOne | src/windows/lib/JSONStoreCollection.cs:133-141 | One store call adds exactly one row to this collection, or changes nothing. |
| Collections.Collection.RemoveOne | src/windows/lib/JSONStoreCollection.cs:180 | One remove call takes a set of as many live rows as its count, softly or for good, and lowers the live-row count by that count. A negative count takes none and changes nothing. |
| Collections.Collection.Remove | src/windows/lib/JSONStoreCollection.cs:162-203 | It makes one remove call per document, soft exactly when `isErase` is false, and never rolls back. The table is the old one with each call's rows removed in turn, each call taking as many rows as its count. It returns the sum of the non-negative counts, and the live rows drop by that sum. It fails with REMOVE_WITH_QUERIES_FAILURE carrying exactly the documents whose count was negative, in input order, when there is one. |
| Collections.Collection.RemoveEach | src/windows/lib/JSONStoreCollection.cs:172-201 | The loop issues one remove call per document, in order. The failed documents are exactly those whose count is negative, in input order. The result is REMOVE_WITH_QUERIES_FAILURE with them when there are any, else the sum of the non-negative counts. A soft remove keeps every key. |
| Collections.Collection.RemoveNext | src/windows/lib/JSONStoreCollection.cs:180-191 | One more document: its remove call extends the log and the table fold, and its count adds to the failures or to the total. |
| Collections.Collection.ReplaceDocuments | src/windows/lib/JSONStoreCollection.cs:208-267 | On success it returns the input length, every document named an existing row, the table is the old one with the documents replaced in turn, other tables are kept, and the log ends with commit when the call owns the transaction. It stops at the first failed replace and fails with REPLACE_DOCUMENTS_FAILURE carrying just that document: outside a caller transaction after rolling back to the old tables, inside one with the replacements before it kept. |
| Collections.Collection.ReplaceEach | src/windows/lib/JSONStoreCollection.cs:230-247 | The loop stops at the first failure, with a one-element failure list. The rows before it are replaced. |
| Collections.Collection.ReplaceNext | src/windows/lib/JSONStoreCollection.cs:232-245 | One more replace call extends the log. When it works, the document named an existing row and the table fold takes one more step; otherwise the table is as before. |
| Collections.Collection.ReplaceInOwnTransaction | src/windows/lib/JSONStoreCollection.cs:224-265 | Without a caller transaction the calls are bracketed by begin and commit on success, or by begin and rollback on the first failure. With no transaction open before, a failure leaves every table as it was and no transaction stays open. |
| Collections.Collection.ReplaceOne | src/windows/lib/JSONStoreCollection.cs:232 | One replace overwrites exactly the row the document's `_id` names, or changes nothing. |
| Collections.Collection.FindWithQueries | src/windows/lib/JSONStoreCollection.cs:272-339 | It fails with INVALID_OFFSET when `offset > 0 && limit <= 0`, before touching the store. It fails with DATABASE_NOT_OPEN without a store. Otherwise it makes one find per query, in order, stopping at the first null answer with INVALID_SEARCH_FIELD. On success it returns the de-duplicated concatenation of the answers: by `_id` text, and for a document without `_id` by the document itself. It never changes data. |
| Collections.Collection.FindWithIds | src/windows/lib/JSONStoreCollection.cs:345-350 | It behaves as `findWithQueries` on the ids with exact matching. |
| Collections.Collection.FindWithAdvancedQuery | src/windows/lib/JSONStoreCollection.cs:352-379 | It makes one store call carrying the query parts' operands. It either succeeds or fails with INVALID_SEARCH_FIELD, and it changes no data. |
| Collections.Collection.CountAllDirtyDocumentsWithError | src/windows/lib/JSONStoreCollection.cs:384-387 | It always answers 0. |
| Collections.Collection.CountDocuments | src/windows/lib/JSONStoreCollection.cs:392-414 | It counts with the query only when a non-empty query is given, and counts all rows otherwise. It never changes data. |
| Collections.Collection.CountAllDirtyDocuments | src/windows/lib/JSONStoreCollection.cs:416-430 | It answers the number of dirty rows of the collection. |
| Collections.Collection.IsDirtyDocument | src/windows/lib/JSONStoreCollection.cs:435-448 | It answers true exactly when a dirty row of the collection has that id. |
| Collections.Collection.AllDirtyWithDocuments | src/windows/lib/JSONStoreCollection.cs:453-502 | It answers the dirty list filtered by the passed documents' `_id`s (all of it when none are passed), and changes no data. |
| Collections.Collection.MarkDocumentsClean | src/windows/lib/JSONStoreCollection.cs:507-548 | It makes one clean call per document, in order, and undoes none. The table is the old one with the row of each call that worked cleaned in turn, each such row having the document's `_id`; other tables are kept. It returns the success count, or fails with COULD_NOT_MARK_DOCUMENT_PUSHED carrying exactly the failed documents. A document without `_id` or `_operation` fails the call with a non-JSONStore exception. |
| Collections.Collection.CleanOne | src/windows/lib/JSONStoreCollection.cs:528 | One clean call that works cleans one row whose `_id` text is the id given; one that fails changes nothing. |
| Collections.Collection.CleanNext | src/windows/lib/JSONStoreCollection.cs:523-537 | One more document: its clean call extends the log, the record of which calls worked, and the clean fold over the table. |
| Collections.Collection.ChangeData | src/windows/lib/JSONStoreCollection.cs:550-610 | Each document gets the plan its find result dictates: with matches it replaces exactly those matches; with none it adds the document when `addNew` is set and skips it otherwise. No find is made, and nothing matches, without a criteria query. The log is each document's calls in order, and the result is the total added or replaced. |
| Collections.Collection.ChangeOne | src/windows/lib/JSONStoreCollection.cs:563-605 | One document's upsert: the plan is the one its find result dictates, and its count and calls are those of that plan. |
| Collections.Collection.ChangeNext | src/windows/lib/JSONStoreCollection.cs:562-605 | One more document: a non-object fails its cast with no call; otherwise its plan fits its find result, its calls extend the log, and its count adds to the total. |
| Collections.Collection.ApplyPlan | src/windows/lib/JSONStoreCollection.cs:584-605 | After the find, the plan is to replace the matches when there are any, else to add when `addNew` is set, else to skip. The count and the calls are those of the plan. |
| Collections.Collection.FindMatches | src/windows/lib/JSONStoreCollection.cs:577-582 | With an empty criteria query no find is made and there are no matches. Otherwise the matches are the exact find's de-duplicated result over the store's answers. It never changes data. |
| Collections.Collection.ReplaceMatches | src/windows/lib/JSONStoreCollection.cs:584-597 | Every match is replaced by `{_id: match id, json: data}`, and the count of matches is added. |
| Collections.Collection.AddOne | src/windows/lib/JSONStoreCollection.cs:598-604 | With no match it adds the one document, counting 1. |
| Collections.Collection.QueryFor | src/windows/lib/JSONStoreCollection.cs:563-575 | The loop builds the criteria query: one single-field object per criterion the document has. |
| Collections.Collection.ReplacementsFor | src/windows/lib/JSONStoreCollection.cs:585-592 | The loop builds one replacement per match, in match order: the i-th is `{_id: the i-th match's _id, json: data}`. |
| Collections.Gather | src/windows/lib/JSONStoreCollection.cs:300-316 | Merging one answer keeps the gathered list equal to the de-duplication of everything seen so far. The id and form lists stay in step with it. |
| Collections.GatherOne | src/windows/lib/JSONStoreCollection.cs:303-315 | Merging one document keeps the de-duplication invariant: it is added exactly when its `_id` (or its form, when it has no `_id`) is new. |
| Collections.SelectEach | src/windows/lib/JSONStoreCollection.cs:469-497 | The dirty-document loop computes the selection, including its failure on a missing `_id`. |
| Collections.ScanFor | src/windows/lib/JSONStoreCollection.cs:481-488 | The inner loop answers whether some passed document has the given `_id`, stopping at the first one that does. |
| StorageResults.Ordinal | src/windows/lib/StorageResult.cs:47-52 | Every status has an ordinal that indexes the message table and converts back to the same status. |
| StorageResults.FromOrdinal | src/windows/lib/StorageResult.cs:47-52 | Only 0, 1 and 2 are status values. |
| StorageResults.WithMessage | src/windows/lib/StorageResult.cs:40-44 | The status is the one given, the value is the message given, and the result is a success exactly when the status is not ERROR. |
| StorageResults.WithStatus | src/windows/lib/StorageResult.cs:23-38 | The one-argument constructor keeps the status and uses "No result", "OK" or "Error" as the value. |
| StorageResults.OrdinalRoundTrip | src/windows/lib/StorageResult.cs:47-52 | Casting an integer to a status and back gives the integer again; together with `Ordinal` the cast is a bijection between 0..2 and the statuses. |
| Indexer.Absorb | src/windows/lib/JSONStoreIndexer.cs:100 | Absorbing values never adds or removes a key. |
| Indexer.EmptyIndex | src/windows/lib/JSONStoreIndexer.cs:24-28 | The starting map has exactly the schema's keys. |
| Indexer.Offer | src/windows/lib/JSONStoreIndexer.cs:100-120 | Offering one value keeps the key set and adds the value only under a declared path. |
| Indexer.WalkIsAbsorb | src/windows/lib/JSONStoreIndexer.cs:48-121 | Walking any JSON value absorbs exactly the (path, value) pairs of that value. |
| Indexer.WalkFieldsIsAbsorb | src/windows/lib/JSONStoreIndexer.cs:50-64 | Walking an object's fields absorbs exactly the pairs of its fields. |
| Indexer.WalkElementsIsAbsorb | src/windows/lib/JSONStoreIndexer.cs:69-85 | Walking an array's elements absorbs exactly the pairs of its elements. |
| Indexer.FindIndexesFromSchema | src/windows/lib/JSONStoreIndexer.cs:22-46 | The result has exactly the schema's keys. It equals the index of the document: the empty index with every (path, value) pair of the document absorbed. |
| Indexer.HandleObject | src/windows/lib/JSONStoreIndexer.cs:48-65 | Walking an object under a parent path (any case) gives the walk of that object under the lower-cased path. |
| Indexer.HandleArray | src/windows/lib/JSONStoreIndexer.cs:67-86 | Walking an array gives the walk of that array under the same path. |
| Indexer.HandleSimple | src/windows/lib/JSONStoreIndexer.cs:88-121 | A scalar is offered under `lower(name)` at top level, otherwise under `lower(parentPath) + "." + lower(name)`. |
| Indexer.PairsSound | src/windows/lib/JSONStoreIndexer.cs:22-121 | Every collected pair comes from a scalar reached by a path of field and element steps that ends in a field. |
| Indexer.PairsComplete | src/windows/lib/JSONStoreIndexer.cs:22-121 | Every scalar reached by such a path contributes its pair. |
| Indexer.IndexesCharacterized | src/windows/lib/JSONStoreIndexer.cs:22-121 | The keys are exactly the schema's. A value is at a declared path exactly when some scalar leaf of the document has that path and value. A scalar at an undeclared path is ignored. |
| Indexer.BooleanLeafIndexed | src/windows/lib/JSONStoreIndexer.cs:103-113 | A boolean leaf at a declared path contributes "1" when true and "0" when false. |
| Indexer.BooleanTextOnlyFromStrings | src/windows/lib/JSONStoreIndexer.cs:103-119 | "true" or "false" in the index can only come from a string leaf, never from a boolean. |
| Indexer.LeafValueTextsOnlyFromStrings | src/windows/lib/JSONStoreIndexer.cs:103-119 | Only a string leaf has a boolean word as its indexed text. |
| Indexer.NumberTextIsNotBooleanText | src/windows/lib/JSONStoreIndexer.cs:117 | The text of a number is never a boolean word. |
| Indexer.UpperCasePathStaysEmpty | src/windows/lib/JSONStoreIndexer.cs:93-100 | A declared path with an upper-case letter never receives a value, because lookups use lower-cased paths. |
| Indexer.PathsAreLower | src/windows/lib/JSONStoreIndexer.cs:33-98 | Every path a value is offered under is lower case, even though top-level object and array names are passed down un-lowercased. |
| Indexer.JoinDotIsLower | src/windows/lib/JSONStoreIndexer.cs:54-58 | Joining lower-case segments with dots gives a lower-case path. |
| Indexer.ArrayElementsShareThePath | src/windows/lib/JSONStoreIndexer.cs:67-78 | An object or array inside an array is walked under the array's own path: arrays add no segment. |
| Indexer.ScalarElementIgnored | src/windows/lib/JSONStoreIndexer.cs:79-84 | Dropping a bare scalar from an array changes nothing: such elements are never indexed. |
| Indexer.RepeatedValuesCollapse | src/windows/lib/JSONStoreIndexer.cs:115-119 | Indexing a document's properties twice gives the same index, because each path keeps a set. |
| Indexer.HobbiesExample | src/windows/lib/JSONStoreIndexer.cs:79-84 | For `{hobbies: [3, {k: v}]}`, the 3 is not indexed and `hobbies.k` receives "v". |
| Indexer.HobbiesWalk | src/windows/lib/JSONStoreIndexer.cs:67-84 | Example helper: the walk of the hobbies document ignores the 3 and indexes the inner object under `hobbies`. |
| Indexer.HobbiesInner | src/windows/lib/JSONStoreIndexer.cs:88-119 | Example helper: the inner object `{k: v}` under `hobbies` contributes "v" at `hobbies.k`. |
| Indexer.ChildPath | src/windows/lib/JSONStoreIndexer.cs:54-58 | Lowering `parentPath + "." + lower(name)` gives the parent's lowered segments plus the lowered name. |
| Indexer.BooleanText | src/windows/lib/JSONStoreIndexer.cs:105 | A boolean's lowered text is "true" exactly when it is true. |
| Plugin.ReplyIsSuccess | src/windows/lib/StoragePlugin.cs:138-151 | A reply is a success exactly when the operation succeeded, and it is never NO_RESULT. |
| Plugin.FaultRepliesAreErrors | src/windows/lib/StoragePlugin.cs:62-72 | Every catch branch answers ERROR, which is not a success. |
| Plugin.FromFaultKeepsCode | src/windows/lib/StoragePlugin.cs:62-72 | A JSONStore exception answers its own error code, and different codes give different answers. Any other exception answers PERSISTENT_STORE_FAILURE. |
| Plugin.ReplaceFaultReportsData | src/windows/lib/StoragePlugin.cs:412-424 | `replace` answers the exception's failure data when there is some, and the usual mapping otherwise. |
| Plugin.RemoveFaultDropsData | src/windows/lib/StoragePlugin.cs:464-467 | `remove` answers PERSISTENT_STORE_FAILURE for every exception, so its failure list is never reported. |
| Plugin.JsBoolSentinels | src/windows/lib/StoragePlugin.cs:573-582 | A boolean is encoded as JS_TRUE exactly when true and as JS_FALSE exactly when false. |
| Plugin.ProvisionCodes | src/windows/lib/StoragePlugin.cs:57-60 | Provision succeeds with PROVISION_TABLE_EXISTS exactly when the collection was reopened, and with RC_OK exactly when it was not. |
| Plugin.TransactionCodes | src/windows/lib/StoragePlugin.cs:880-969 | A transaction call answers OK with RC_OK exactly when it worked, and with PERSISTENT_STORE_FAILURE exactly when it did not. An exception is an error. |
| Plugin.OwnerListCounts | src/windows/lib/StoragePlugin.cs:188-261 | Input object k owns exactly as many query parts as it has array-valued properties. Parts follow input order. |
| Plugin.OrderedOwners | src/windows/lib/StoragePlugin.cs:188-261 | Query parts are grouped by input object, in input order. |
| Plugin.OwnerListBelow | src/windows/lib/StoragePlugin.cs:188-261 | Every part belongs to one of the input objects. |
| Plugin.CompileOperandsKeys | src/windows/lib/StoragePlugin.cs:193-258 | An operator is set on an object's query exactly when some array property's name selects it. |
| Plugin.CompileOperandsLastWins | src/windows/lib/StoragePlugin.cs:193-258 | When several array properties select one operator, the last one's values are kept. |
| Plugin.UnmatchedNameStillAppends | src/windows/lib/StoragePlugin.cs:193-260 | An array property whose name matches no keyword still appends a part but sets no operator. |
| Plugin.CompileQueryParts | src/windows/lib/StoragePlugin.cs:186-261 | It fails (with a non-JSONStore exception) exactly when some input is not an object. Otherwise each input object gets one fresh shared query, holding the operators its property names select. It appears once per array property, in input order. |
| Plugin.PartOperands | src/windows/lib/StoragePlugin.cs:188-261 | There is one operand map per query part. |
| Plugin.CompiledPartsOperands | src/windows/lib/StoragePlugin.cs:188-261 | The compiled parts carry exactly the operand maps the inputs determine. |
| Plugin.CompileNext | src/windows/lib/StoragePlugin.cs:188-260 | Compiling one more input object extends the compiled state by that object. |
| Plugin.CompileSnoc | src/windows/lib/StoragePlugin.cs:191-260 | One more property adds a part and sets an operand only when its value is an array, and sets the operator its name selects, if any. |
| Plugin.CompilePart | src/windows/lib/StoragePlugin.cs:190-260 | One input object appends one new query per array property. The earlier parts are kept, and the query holds the selected operators. |
| Plugin.Store | src/windows/lib/StoragePlugin.cs:107-154 | A missing collection or store gives DATABASE_NOT_OPEN. A success is OK with the number of documents stored, and the table has exactly those documents appended. Every failure is PERSISTENT_STORE_FAILURE. |
| Plugin.AdvancedFind | src/windows/lib/StoragePlugin.cs:156-281 | A missing collection gives DATABASE_NOT_OPEN. A non-object query gives PERSISTENT_STORE_FAILURE. Otherwise one store call carries the compiled parts' operands, and a failure is INVALID_SEARCH_FIELD (or DATABASE_NOT_OPEN without a store). A success is OK with documents. |
| Plugin.Find | src/windows/lib/StoragePlugin.cs:283-322 | A missing collection or store gives DATABASE_NOT_OPEN. A bad offset gives INVALID_OFFSET. Otherwise a success is OK with the de-duplicated find result of the store's answers, and a failure is INVALID_SEARCH_FIELD. |
| Plugin.IdCalls | src/windows/lib/StoragePlugin.cs:348-366 | `findById` issues one ids query per id. |
| Plugin.FindById | src/windows/lib/StoragePlugin.cs:324-379 | It issues one ids query per id, in order. On success it answers the concatenation of the answers in id order, without de-duplication. A missing collection or store gives DATABASE_NOT_OPEN. An id that is not a scalar rules out success. With a store, a failure is PERSISTENT_STORE_FAILURE (a failed cast) or INVALID_SEARCH_FIELD (a find that answered null). |
| Plugin.FindByIdStep | src/windows/lib/StoragePlugin.cs:348-366 | Each id appends one call and its answer, and a scalar id extends the run of scalar ids. |
| Plugin.FindNextId | src/windows/lib/StoragePlugin.cs:349-363 | One id of the loop. A non-scalar id fails its cast with a non-JSONStore exception. A scalar id without a store gives DATABASE_NOT_OPEN. With a store, the result either answers, extending the log, the answers and the gathered documents by that id, or fails with INVALID_SEARCH_FIELD. |
| Plugin.FindOneId | src/windows/lib/StoragePlugin.cs:350-358 | One id becomes one query part with only the ids operator set. With a store, the query either answers or fails with INVALID_SEARCH_FIELD. |
| Plugin.FindCastId | src/windows/lib/StoragePlugin.cs:349-360 | An id that is not a scalar fails its cast with no query. A scalar id without a store gives DATABASE_NOT_OPEN; with one, it makes one ids query, which either answers or fails with INVALID_SEARCH_FIELD. Success implies the id was a scalar. |
| Plugin.AppendAll | src/windows/lib/StoragePlugin.cs:361-363 | The inner loop appends one id's results after those gathered so far. |
| Plugin.Replace | src/windows/lib/StoragePlugin.cs:381-431 | A missing collection or store gives DATABASE_NOT_OPEN. A success is OK with the input length. A failure answers the one failed document. |
| Plugin.Remove | src/windows/lib/StoragePlugin.cs:433-469 | A missing collection gives DATABASE_NOT_OPEN. It succeeds exactly when no document's remove failed, answering OK with the total of the rows removed. Every failure is PERSISTENT_STORE_FAILURE without documents. |
| Plugin.LocalCount | src/windows/lib/StoragePlugin.cs:471-505 | It answers OK with the collection's dirty-row count. |
| Plugin.CountEntry | src/windows/lib/StoragePlugin.cs:507-548 | It answers OK with a count, counting with the query only when the query has values. |
| Plugin.IsDirty | src/windows/lib/StoragePlugin.cs:550-594 | A query without `_id` gives PERSISTENT_STORE_FAILURE. Otherwise it answers JS_TRUE exactly when a dirty row has that id, and JS_FALSE otherwise. |
| Plugin.AllDirty | src/windows/lib/StoragePlugin.cs:596-634 | It succeeds exactly when the dirty selection does, answering those documents. Any failure is PERSISTENT_STORE_FAILURE, because the selection only throws a non-JSONStore exception. |
| Plugin.MarkClean | src/windows/lib/StoragePlugin.cs:636-673 | When every document has `_id` and `_operation`: it succeeds exactly when no document failed, answering the success count, and otherwise answers COULD_NOT_MARK_DOCUMENT_PUSHED. When a document lacks either field, the lookup throws and the reply is PERSISTENT_STORE_FAILURE. |
| Plugin.DropTable | src/windows/lib/StoragePlugin.cs:675-711 | A transaction in progress gives TRANSACTION_FAILURE_DURING_REMOVE_COLLECTION. A success is OK with RC_OK: table and accessor gone. A failure is ERROR_CLEARING_COLLECTION with nothing changed. |
| Plugin.Clear | src/windows/lib/StoragePlugin.cs:798-834 | A success is OK with RC_OK and an empty table. A failure is ERROR_CLEARING_COLLECTION with the tables unchanged. |
| Plugin.Change | src/windows/lib/StoragePlugin.cs:836-878 | A success is OK with the total added or replaced, each document following a plan that fits it. A failure stops before the last document and answers the thrown exception: ERROR with a JSONStoreException's code, otherwise PERSISTENT_STORE_FAILURE. |

## Left out

- Locking (`lock (JSONStore.lockThis)`) and the `AsyncInfo.Run` wrapping. Every call is modelled as sequential and atomic.
- Parameter parsing with `JArray.Parse`/`JsonConvert` and result serialisation. Plugin methods take already-parsed values. A `StorageResult` keeps its message as a `Message` value, not as serialised text.
- `JSONStoreSQLLite` is not part of this model. SQL, encryption and search-field handling are absent. `Stores.Store` stands in for it: each of its methods states only an assumed effect, and whether a call works is left open.
- `JSONStore`'s statics (`openCollections`, `sharedManager`, and the transaction calls) are not shown. The store, flag and accessors live in `Stores.Env`. Collection lookup becomes a `Collection?` argument. The transaction outcomes are arguments of `Plugin.TransactionReply`.
- `provision` loads collections through the accessor and schema classes, which are not shown. Only its return-code choice (`Plugin.ProvisionReply`) is modelled. `JSONStoreProvisionOptions` is a property bag with no behaviour and is not modelled.
- `isKeyGenRequired`, `changePassword`, `destroyDbFileAndKeychain`, `fileInfo` and `closeDatabase` are left out. They concern the security manager, file I/O and the database lifecycle.
- Culture-sensitive `ToLower` and `IndexOf` are modelled as ASCII lower-casing and ordinal substring search.
- Floating-point JSON numbers are left out. Numbers are integers, and their text is the decimal form.
- The literal values of `JSONStoreConstants` and of the sixteen query keywords are not shown. Codes are distinct constructors, and keywords are a parameter. `PERSISTENT_STORE_FAILURE` is taken to be negative where `replaceDocuments` tests `numReplaced < 0`.
- Query options other than offset, limit and exact are carried but not interpreted.
- `additionalSearchFields`, `dropFirst` and `wasReopened` of `JSONStoreCollection` are not modelled beyond the name (the reopen flag is an argument of `Plugin.ProvisionReply`).
- Counts are unbounded integers. C#'s 32-bit `int` overflow on very large batches is not modelled.
- Collections.Collection.ChangeData: on failure it states only that the calls of the documents before the failing one are a prefix of the log. Its effect on the tables is stated through the call log, not as table contents.
- Collections.Collection.ChangeOne, FindMatches, ReplaceMatches, AddOne: on failure they state only that the log was extended.
- Plugin.CompileQueryParts: freshness of the query objects is stated for each object in `Plugin.CompilePart`, not for the whole list.
- Stores.Store.AllDirtyInCollection: the list of dirty documents it answers is not related to the table. The dirty flag lives in the store, whose internals are not part of this model.
- Stores.Store.Find, FindWithQueryParts, Count, CountWithQuery: the answers are not related to the table contents, for the same reason.
- Plugin.Replace, Plugin.AllDirty, Plugin.Change, Plugin.MarkClean: they state the reply for each outcome of the collection operation, but not its effect on the tables. The `Collections.Collection` methods they call state that effect.
- Plugin.AdvancedFind: the documents of a success are the store's answer to the query parts; how the store matches parts against rows is not part of this model.
- JsonValues.Serialize: escaping inside strings is not modelled, so the text of two different objects or arrays can coincide. It is used only for the text of an `_id` that is an object or an array; the de-duplication of documents without `_id` compares the documents themselves.
- Plugin.FindById: the case of a missing store is stated for a first id that is a scalar, where the first query is reached.
- StorageResults.WithMessage: the value is kept as the message object, not as `JsonConvert.SerializeObject` text.
