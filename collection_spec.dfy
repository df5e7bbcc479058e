/**
 * The values the collection operations compute, as functions: the list of
 * failed documents, the de-duplicated find result, the dirty documents
 * selected by id, the queries and replacement documents of changeData,
 * and the effect of a run of replacements on a table. The methods of
 * Collections are proved against these, and the lemmas here state what the
 * functions mean.
 */
module CollectionSpecs {
  import opened Wrappers
  import opened JsonValues
  import opened Constants
  import opened Queries
  import opened Stores

  /* ---------- remove and markDocumentsClean: successes and failures ---------- */

  /** Whether each per-document remove worked, in order. */
  function Worked(counts: seq<int>): (r: seq<bool>)
    ensures |r| == |counts|
    decreases |counts|
  {
    if |counts| == 0 then [] else Worked(counts[..|counts| - 1]) + [counts[|counts| - 1] >= 0]
  }

  /** A remove worked exactly when its row count is not negative. */
  lemma {:induction false} WorkedAt(counts: seq<int>, i: nat)
    requires i < |counts|
    ensures Worked(counts)[i] <==> counts[i] >= 0
    decreases |counts|
  {
    var n := |counts| - 1;
    if i < n {
      WorkedAt(counts[..n], i);
    }
  }

  /** The documents whose call failed, in input order. */
  function FailedDocs(docs: seq<Json>, oks: seq<bool>): (r: seq<Json>)
    requires |docs| == |oks|
    ensures |r| <= |docs|
    decreases |docs|
  {
    if |docs| == 0 then []
    else
      var n := |docs| - 1;
      FailedDocs(docs[..n], oks[..n]) + (if oks[n] then [] else [docs[n]])
  }

  /** No document is reported exactly when every call worked. */
  lemma {:induction false} NoFailedDocs(docs: seq<Json>, oks: seq<bool>)
    requires |docs| == |oks|
    ensures |FailedDocs(docs, oks)| == 0 <==> forall i :: 0 <= i < |oks| ==> oks[i]
    decreases |docs|
  {
    if |docs| > 0 {
      var n := |docs| - 1;
      NoFailedDocs(docs[..n], oks[..n]);
      assert forall i :: 0 <= i < n ==> oks[..n][i] == oks[i];
    }
  }

  /** The number of calls that worked. */
  function Successes(oks: seq<bool>): (n: nat)
    ensures n <= |oks|
    ensures n == |oks| <==> forall i :: 0 <= i < |oks| ==> oks[i]
    decreases |oks|
  {
    if |oks| == 0 then 0
    else
      var k := |oks| - 1;
      assert forall i :: 0 <= i < k ==> oks[..k][i] == oks[i];
      Successes(oks[..k]) + (if oks[k] then 1 else 0)
  }

  /** The total of the non-negative row counts. */
  function Removed(counts: seq<int>): nat
    decreases |counts|
  {
    if |counts| == 0 then 0
    else
      var k := |counts| - 1;
      Removed(counts[..k]) + (if counts[k] >= 0 then counts[k] else 0)
  }

  /** Every call that worked contributes its whole row count to the total. */
  lemma {:induction false} RemovedBound(counts: seq<int>, i: nat)
    requires i < |counts| && counts[i] >= 0
    ensures counts[i] <= Removed(counts)
    decreases |counts|
  {
    var k := |counts| - 1;
    if i < k {
      RemovedBound(counts[..k], i);
    }
  }

  /** A document is in the failure list exactly when some call for it failed. */
  lemma {:induction false} FailedDocsMembers(docs: seq<Json>, oks: seq<bool>, d: Json)
    requires |docs| == |oks|
    ensures d in FailedDocs(docs, oks) <==> exists i :: 0 <= i < |docs| && !oks[i] && docs[i] == d
    decreases |docs|
  {
    if |docs| > 0 {
      var n := |docs| - 1;
      FailedDocsMembers(docs[..n], oks[..n], d);
      if exists i :: 0 <= i < |docs| && !oks[i] && docs[i] == d {
        var i :| 0 <= i < |docs| && !oks[i] && docs[i] == d;
        if i < n {
          assert docs[..n][i] == d && !oks[..n][i];
        }
      }
      if d in FailedDocs(docs[..n], oks[..n]) {
        var i :| 0 <= i < n && !oks[..n][i] && docs[..n][i] == d;
        assert !oks[i] && docs[i] == d;
      }
    }
  }

  /** The failure list of a concatenation is the concatenation of the failure lists: input order is kept. */
  lemma {:induction false} FailedDocsAppend(a: seq<Json>, oa: seq<bool>, b: seq<Json>, ob: seq<bool>)
    requires |a| == |oa| && |b| == |ob|
    ensures FailedDocs(a + b, oa + ob) == FailedDocs(a, oa) + FailedDocs(b, ob)
    decreases |b|
  {
    if |b| > 0 {
      var n := |b| - 1;
      FailedDocsAppend(a, oa, b[..n], ob[..n]);
      var ab, oab := a + b, oa + ob;
      assert ab[..|a| + n] == a + b[..n];
      assert oab[..|a| + n] == oa + ob[..n];
      assert FailedDocs(ab, oab) == FailedDocs(a + b[..n], oa + ob[..n]) + (if ob[n] then [] else [b[n]]);
      assert FailedDocs(b, ob) == FailedDocs(b[..n], ob[..n]) + (if ob[n] then [] else [b[n]]);
    } else {
      assert a + b == a && oa + ob == oa;
    }
  }

  /** Every call either worked or put its document on the failure list. */
  lemma {:induction false} SuccessesAndFailures(docs: seq<Json>, oks: seq<bool>)
    requires |docs| == |oks|
    ensures Successes(oks) + |FailedDocs(docs, oks)| == |docs|
    decreases |docs|
  {
    if |docs| > 0 {
      SuccessesAndFailures(docs[..|docs| - 1], oks[..|oks| - 1]);
    }
  }

  /** The total removed adds up over consecutive runs of documents. */
  lemma {:induction false} RemovedAppend(a: seq<int>, b: seq<int>)
    ensures Removed(a + b) == Removed(a) + Removed(b)
    decreases |b|
  {
    if |b| > 0 {
      var n := |b| - 1;
      RemovedAppend(a, b[..n]);
      var ab := a + b;
      assert ab[..|a| + n] == a + b[..n];
      assert Removed(ab) == Removed(a + b[..n]) + (if b[n] >= 0 then b[n] else 0);
    } else {
      assert a + b == a;
    }
  }

  /** One more remove call: its log entry, its failure (if any) and its row count extend the totals. */
  lemma RemoveStep(coll: string, docs: seq<Json>, i: nat, counts: seq<int>, last: int, soft: bool, exact: bool)
    requires i < |docs| && |counts| == i
    ensures RemoveCalls(coll, docs[..i + 1], soft, exact)
      == RemoveCalls(coll, docs[..i], soft, exact) + [RemoveDoc(coll, docs[i], soft, exact)]
    ensures FailedDocs(docs[..i + 1], Worked(counts + [last]))
      == FailedDocs(docs[..i], Worked(counts)) + (if last >= 0 then [] else [docs[i]])
    ensures Removed(counts + [last]) == Removed(counts) + (if last >= 0 then last else 0)
  {
    var counts' := counts + [last];
    assert docs[..i + 1][..i] == docs[..i];
    assert counts'[..i] == counts;
  }

  /**
   * `removed` records the rows each remove call took: as many as its
   * count when it worked, none when it failed.
   */
  ghost predicate RemovedRows(counts: seq<int>, removed: seq<set<int>>) {
    && |removed| == |counts|
    && forall i | 0 <= i < |counts| ::
         && (counts[i] >= 0 ==> |removed[i]| == counts[i])
         && (counts[i] < 0 ==> removed[i] == {})
  }

  lemma RemovedRowsStep(counts: seq<int>, removed: seq<set<int>>, last: int, ks: set<int>)
    requires RemovedRows(counts, removed)
    requires last >= 0 ==> |ks| == last
    requires last < 0 ==> ks == {}
    ensures RemovedRows(counts + [last], removed + [ks])
  {
  }

  /** The table after the remove calls, in order, each taking its rows softly or for good. */
  function RemoveAll(t: Table, removed: seq<set<int>>, soft: bool): Table
    decreases |removed|
  {
    if |removed| == 0 then t else RemoveRows(RemoveAll(t, removed[..|removed| - 1], soft), removed[|removed| - 1], soft)
  }

  lemma RemoveAllStep(t: Table, removed: seq<set<int>>, ks: set<int>, soft: bool)
    ensures RemoveAll(t, removed + [ks], soft) == RemoveRows(RemoveAll(t, removed, soft), ks, soft)
  {
    assert (removed + [ks])[..|removed|] == removed;
  }

  /**
   * A row a remove call took is no longer live afterwards, whatever the
   * later calls did; a soft remove keeps it, marked removed and dirty, so
   * that the removal is pushed.
   */
  lemma {:induction false} RemoveAllTakes(t: Table, removed: seq<set<int>>, soft: bool, i: nat, k: int)
    requires i < |removed| && k in removed[i]
    ensures k !in LiveKeys(RemoveAll(t, removed, soft))
    ensures soft && k in t ==> k in RemoveAll(t, removed, soft) && RemoveAll(t, removed, soft)[k].dirty
    decreases |removed|
  {
    var n := |removed| - 1;
    var prev := RemoveAll(t, removed[..n], soft);
    if i < n {
      RemoveAllTakes(t, removed[..n], soft, i, k);
    }
    if soft && k in t {
      RemoveAllKeys(t, removed[..n], soft);
    }
  }

  /** Soft removes keep every key. */
  lemma {:induction false} RemoveAllKeys(t: Table, removed: seq<set<int>>, soft: bool)
    ensures soft ==> RemoveAll(t, removed, soft).Keys == t.Keys
    decreases |removed|
  {
    if |removed| > 0 {
      RemoveAllKeys(t, removed[..|removed| - 1], soft);
    }
  }

  /** A row no remove call took is kept as it was. */
  lemma {:induction false} RemoveAllKeepsOthers(t: Table, removed: seq<set<int>>, soft: bool, k: int)
    requires k in t && forall i | 0 <= i < |removed| :: k !in removed[i]
    ensures k in RemoveAll(t, removed, soft) && RemoveAll(t, removed, soft)[k] == t[k]
    decreases |removed|
  {
    if |removed| > 0 {
      var n := |removed| - 1;
      RemoveAllKeepsOthers(t, removed[..n], soft, k);
    }
  }

  /* ---------- findWithQueries: de-duplication ---------- */

  /**
   * What a found document is de-duplicated by: the text of its `_id`, or
   * for a document without one its serialised form. The serialiser
   * escapes quotes inside strings, so two documents have the same form
   * exactly when they are the same token; the form is therefore kept as
   * the document itself. The two lists are kept apart, so an id never
   * collides with a form.
   */
  datatype DocKey = ById(id: string) | ByForm(form: Json)

  function Key(doc: JObject): DocKey {
    match Get(doc.props, FieldId)
    case Some(v) => ById(Text(v))
    case None => ByForm(doc)
  }

  /** The answers of consecutive queries, one after another. */
  function Flatten(answers: seq<seq<JObject>>): (r: seq<JObject>)
    decreases |answers|
  {
    if |answers| == 0 then [] else Flatten(answers[..|answers| - 1]) + answers[|answers| - 1]
  }

  /*
   * De-duplication and selection by id are stated for any key function, so
   * that their proofs never look inside `Key` or `IdOf`; the collection
   * operations use them with those two.
   */

  /** The keys of a sequence. */
  function KeysOf<T, K>(s: seq<T>, key: T -> K): set<K>
    decreases |s|
  {
    if |s| == 0 then {} else KeysOf(s[..|s| - 1], key) + {key(s[|s| - 1])}
  }

  /** The elements in order, each dropped when an earlier kept one has the same key. */
  function Dedup<T, K(==)>(docs: seq<T>, key: T -> K): (r: seq<T>)
    decreases |docs|
  {
    if |docs| == 0 then []
    else
      var prev := Dedup(docs[..|docs| - 1], key);
      var d := docs[|docs| - 1];
      if key(d) in KeysOf(prev, key) then prev else prev + [d]
  }

  /** Flattening one more answer appends it. */
  lemma FlattenSnoc(answers: seq<seq<JObject>>, a: seq<JObject>)
    ensures Flatten(answers + [a]) == Flatten(answers) + a
  {
    assert (answers + [a])[..|answers|] == answers;
  }

  /** A key is in the set exactly when some element has it. */
  lemma {:induction false} KeysOfMembers<T, K>(s: seq<T>, key: T -> K, k: K)
    ensures k in KeysOf(s, key) <==> exists i :: 0 <= i < |s| && key(s[i]) == k
    decreases |s|
  {
    if |s| > 0 {
      var n := |s| - 1;
      KeysOfMembers(s[..n], key, k);
      if k in KeysOf(s[..n], key) {
        var i :| 0 <= i < n && key(s[..n][i]) == k;
        assert key(s[i]) == k;
      }
    }
  }

  /** Keeping one more element adds its key. */
  lemma KeysOfSnoc<T, K>(s: seq<T>, d: T, key: T -> K)
    ensures KeysOf(s + [d], key) == KeysOf(s, key) + {key(d)}
  {
    assert (s + [d])[..|s|] == s;
  }

  /** Considering one more element keeps it exactly when its key is new. */
  lemma DedupSnoc<T, K>(docs: seq<T>, d: T, key: T -> K)
    ensures Dedup(docs + [d], key) ==
      if key(d) in KeysOf(Dedup(docs, key), key) then Dedup(docs, key) else Dedup(docs, key) + [d]
  {
    assert (docs + [d])[..|docs|] == docs;
  }

  /** Every key of the input is in the result, and no other. */
  lemma {:induction false} DedupCovers<T, K>(docs: seq<T>, key: T -> K)
    ensures KeysOf(Dedup(docs, key), key) == KeysOf(docs, key)
    decreases |docs|
  {
    if |docs| > 0 {
      var n := |docs| - 1;
      var prev, d := Dedup(docs[..n], key), docs[n];
      DedupCovers(docs[..n], key);
      assert KeysOf(docs, key) == KeysOf(docs[..n], key) + {key(d)};
      if key(d) in KeysOf(prev, key) {
        assert Dedup(docs, key) == prev;
      } else {
        assert Dedup(docs, key) == prev + [d];
        KeysOfSnoc(prev, d, key);
      }
    }
  }

  /** No two entries of the result have the same key. */
  lemma {:induction false} DedupDistinct<T, K>(docs: seq<T>, key: T -> K)
    ensures forall i, j :: 0 <= i < j < |Dedup(docs, key)| ==> key(Dedup(docs, key)[i]) != key(Dedup(docs, key)[j])
    decreases |docs|
  {
    if |docs| > 0 {
      var n := |docs| - 1;
      var prev, d := Dedup(docs[..n], key), docs[n];
      DedupDistinct(docs[..n], key);
      if key(d) !in KeysOf(prev, key) {
        KeysOfMembers(prev, key, key(d));
        var r := prev + [d];
        forall i, j | 0 <= i < j < |r|
          ensures key(r[i]) != key(r[j])
        {
          if j == |prev| {
            assert r[i] == prev[i];
          } else {
            assert r[i] == prev[i] && r[j] == prev[j];
          }
        }
      }
    }
  }

  /**
   * Each entry of the result is the first element of the input with its
   * key: an earlier element with the same key would have been kept instead.
   */
  lemma {:induction false} DedupKeepsFirst<T, K>(docs: seq<T>, key: T -> K, i: nat)
    requires i < |Dedup(docs, key)|
    ensures exists j :: (0 <= j < |docs| && docs[j] == Dedup(docs, key)[i]
      && forall j' :: 0 <= j' < j ==> key(docs[j']) != key(docs[j]))
    decreases |docs|
  {
    var n := |docs| - 1;
    var prev := Dedup(docs[..n], key);
    if i < |prev| {
      DedupKeepsFirst(docs[..n], key, i);
      var j :| 0 <= j < n && docs[..n][j] == prev[i]
        && forall j' :: 0 <= j' < j ==> key(docs[..n][j']) != key(docs[..n][j]);
      assert forall j' :: 0 <= j' < j ==> docs[..n][j'] == docs[j'];
      assert docs[j] == Dedup(docs, key)[i];
    } else {
      DedupCovers(docs[..n], key);
      KeysOfMembers(docs[..n], key, key(docs[n]));
      assert forall j' :: 0 <= j' < n ==> docs[..n][j'] == docs[j'];
    }
  }

  /**
   * The result for a longer input extends the result for a shorter one:
   * entries keep the order in which they were found.
   */
  lemma {:induction false} DedupPrefix<T, K>(a: seq<T>, b: seq<T>, key: T -> K)
    ensures Dedup(a, key) <= Dedup(a + b, key)
    decreases |b|
  {
    if |b| > 0 {
      var n := |b| - 1;
      DedupPrefix(a, b[..n], key);
      assert a + b == (a + b[..n]) + [b[n]];
      DedupSnoc(a + b[..n], b[n], key);
    } else {
      assert a + b == a;
    }
  }

  /** The `_id` texts among the keys, in order. */
  function IdsOf<T>(docs: seq<T>, key: T -> DocKey): seq<string>
    decreases |docs|
  {
    if |docs| == 0 then []
    else
      var n := |docs| - 1;
      IdsOf(docs[..n], key) + (match key(docs[n]) case ById(x) => [x] case ByForm(_) => [])
  }

  /** The serialised forms among the keys, in order. */
  function FormsOf<T>(docs: seq<T>, key: T -> DocKey): seq<Json>
    decreases |docs|
  {
    if |docs| == 0 then []
    else
      var n := |docs| - 1;
      FormsOf(docs[..n], key) + (match key(docs[n]) case ById(_) => [] case ByForm(x) => [x])
  }

  /** One more element adds its `_id` text or its serialised form, by its key. */
  lemma IdsAndFormsSnoc<T>(docs: seq<T>, d: T, key: T -> DocKey)
    ensures IdsOf(docs + [d], key) == IdsOf(docs, key) + (match key(d) case ById(x) => [x] case ByForm(_) => [])
    ensures FormsOf(docs + [d], key) == FormsOf(docs, key) + (match key(d) case ById(_) => [] case ByForm(x) => [x])
  {
    assert (docs + [d])[..|docs|] == docs;
  }

  /** The list of `_id` texts holds exactly the id keys, and the list of forms the form keys. */
  lemma {:induction false} IdsAndFormsAreKeys<T>(docs: seq<T>, key: T -> DocKey, x: string, f: Json)
    ensures x in IdsOf(docs, key) <==> ById(x) in KeysOf(docs, key)
    ensures f in FormsOf(docs, key) <==> ByForm(f) in KeysOf(docs, key)
    decreases |docs|
  {
    if |docs| > 0 {
      IdsAndFormsAreKeys(docs[..|docs| - 1], key, x, f);
    }
  }

  /** The find result: the answers of all queries, de-duplicated by `Key`. */
  function FindResult(answers: seq<seq<JObject>>): seq<JObject> {
    Dedup(Flatten(answers), Key)
  }

  /**
   * A found document without `_id` is never merged with a different one:
   * it is itself in the find result.
   */
  lemma FindKeepsEveryIdlessDocument(answers: seq<seq<JObject>>, d: JObject)
    requires d in Flatten(answers) && Get(d.props, FieldId).None?
    ensures d in FindResult(answers)
  {
    var all := Flatten(answers);
    var i :| 0 <= i < |all| && all[i] == d;
    KeysOfMembers(all, Key, Key(d));
    DedupCovers(all, Key);
    var kept := Dedup(all, Key);
    KeysOfMembers(kept, Key, Key(d));
    var j :| 0 <= j < |kept| && Key(kept[j]) == Key(d);
    assert Key(d) == ByForm(d);
    assert kept[j] == d;
  }

  /* ---------- allDirtyWithDocuments: selection by id ---------- */

  /** `doc.GetValue("_id").ToString()`: None when the cast to an object or the lookup fails. */
  function IdOf(doc: Json): Option<string> {
    if doc.JObj? then
      match Get(doc.props, FieldId)
      case Some(v) => Some(Text(v))
      case None => None
    else None
  }

  /** Every element has an id. */
  predicate AllHaveIds<T>(docs: seq<T>, idOf: T -> Option<string>) {
    forall i :: 0 <= i < |docs| ==> idOf(docs[i]).Some?
  }

  /**
   * The inner loop: scan the given documents in order and stop at the first
   * whose id is `id`. A document reached before that which has no id makes
   * the scan throw.
   */
  function MatchScan<T>(docs: seq<T>, id: string, idOf: T -> Option<string>): Result<bool>
    decreases |docs|
  {
    if |docs| == 0 then Success(false)
    else
      match idOf(docs[0])
      case None => Failure(OtherException)
      case Some(x) => if x == id then Success(true) else MatchScan(docs[1..], id, idOf)
  }

  /** The outer loop over the dirty documents, in their order, when some documents were given. */
  function SelectFrom<T>(dirty: seq<T>, docs: seq<T>, idOf: T -> Option<string>): Result<seq<T>>
    decreases |dirty|
  {
    if |dirty| == 0 then Success([])
    else
      var n := |dirty| - 1;
      match SelectFrom(dirty[..n], docs, idOf)
      case Failure(f) => Failure(f)
      case Success(prev) =>
        match idOf(dirty[n])
        case None => Failure(OtherException)
        case Some(id) =>
          match MatchScan(docs, id, idOf)
          case Failure(f) => Failure(f)
          case Success(b) => Success(if b then prev + [dirty[n]] else prev)
  }

  /** The dirty documents returned for the given documents: all of them when none are given. */
  function SelectDirty<T>(dirty: seq<T>, docs: seq<T>, idOf: T -> Option<string>): (r: Result<seq<T>>)
    ensures |docs| == 0 ==> r == Success(dirty)
  {
    if |docs| == 0 then Success(dirty) else SelectFrom(dirty, docs, idOf)
  }

  /** Some given document has the id `id`. */
  predicate Named<T>(docs: seq<T>, id: string, idOf: T -> Option<string>) {
    exists i :: 0 <= i < |docs| && idOf(docs[i]) == Some(id)
  }

  /** Over documents that all have ids, the scan with its early exit is plain membership. */
  lemma {:induction false} MatchScanIsNamed<T>(docs: seq<T>, id: string, idOf: T -> Option<string>)
    requires AllHaveIds(docs, idOf)
    ensures MatchScan(docs, id, idOf) == Success(Named(docs, id, idOf))
    decreases |docs|
  {
    if |docs| > 0 {
      var rest := docs[1..];
      assert forall i :: 0 <= i < |rest| ==> rest[i] == docs[i + 1];
      MatchScanIsNamed(rest, id, idOf);
      if idOf(docs[0]) != Some(id) {
        if Named(docs, id, idOf) {
          var i :| 0 <= i < |docs| && idOf(docs[i]) == Some(id);
          assert idOf(rest[i - 1]) == Some(id);
        }
      }
    }
  }

  /**
   * When every document has an id, the selection succeeds and holds
   * exactly the dirty documents whose id some given document names.
   */
  lemma {:induction false} SelectFromFilters<T>(dirty: seq<T>, docs: seq<T>, idOf: T -> Option<string>)
    requires AllHaveIds(dirty, idOf) && AllHaveIds(docs, idOf)
    ensures SelectFrom(dirty, docs, idOf).Success?
    ensures forall x :: x in SelectFrom(dirty, docs, idOf).value <==> x in dirty && Named(docs, idOf(x).value, idOf)
    decreases |dirty|
  {
    if |dirty| > 0 {
      var n := |dirty| - 1;
      assert forall i :: 0 <= i < n ==> dirty[..n][i] == dirty[i];
      SelectFromFilters(dirty[..n], docs, idOf);
      SelectFromSnoc(dirty, docs, idOf);
      InPrefixOrLast(dirty);
    }
  }

  /**
   * When every document has an id, one more dirty document is appended
   * exactly when some given document names it: the result keeps the order
   * of the dirty list, duplicates included.
   */
  lemma SelectFromSnoc<T>(dirty: seq<T>, docs: seq<T>, idOf: T -> Option<string>)
    requires |dirty| > 0 && idOf(dirty[|dirty| - 1]).Some? && AllHaveIds(docs, idOf)
    requires SelectFrom(dirty[..|dirty| - 1], docs, idOf).Success?
    ensures var prev := SelectFrom(dirty[..|dirty| - 1], docs, idOf).value;
      SelectFrom(dirty, docs, idOf) ==
        Success(if Named(docs, idOf(dirty[|dirty| - 1]).value, idOf) then prev + [dirty[|dirty| - 1]] else prev)
  {
    var n := |dirty| - 1;
    var prev := SelectFrom(dirty[..n], docs, idOf).value;
    var id := idOf(dirty[n]).value;
    MatchScanIsNamed(docs, id, idOf);
    var b := Named(docs, id, idOf);
    assert MatchScan(docs, id, idOf) == Success(b);
    assert SelectFrom(dirty, docs, idOf) == Success(if b then prev + [dirty[n]] else prev);
  }

  lemma InPrefixOrLast<T>(s: seq<T>)
    requires |s| > 0
    ensures forall x :: x in s <==> x in s[..|s| - 1] || x == s[|s| - 1]
  {
    assert s == s[..|s| - 1] + [s[|s| - 1]];
  }

  /** A dirty document without an id makes a selection against given documents throw. */
  lemma {:induction false} DirtyWithoutIdThrows<T>(dirty: seq<T>, docs: seq<T>, idOf: T -> Option<string>, i: nat)
    requires i < |dirty| && idOf(dirty[i]).None? && |docs| > 0
    ensures SelectDirty(dirty, docs, idOf) == Failure(OtherException)
    decreases |dirty|
  {
    var n := |dirty| - 1;
    if i < n {
      assert dirty[..n][i] == dirty[i];
      DirtyWithoutIdThrows(dirty[..n], docs, idOf, i);
    } else {
      SelectFromFailsOnlyWithOther(dirty[..n], docs, idOf);
    }
  }

  /** The selection only ever throws the exception of a failed cast or lookup. */
  lemma {:induction false} SelectFromFailsOnlyWithOther<T>(dirty: seq<T>, docs: seq<T>, idOf: T -> Option<string>)
    ensures SelectFrom(dirty, docs, idOf).Failure? ==> SelectFrom(dirty, docs, idOf) == Failure(OtherException)
    decreases |dirty|
  {
    if |dirty| > 0 {
      var n := |dirty| - 1;
      SelectFromFailsOnlyWithOther(dirty[..n], docs, idOf);
      if idOf(dirty[n]).Some? {
        MatchScanFailsOnlyWithOther(docs, idOf(dirty[n]).value, idOf);
      }
    }
  }

  /** Once the selection over a prefix of the dirty documents has thrown, so has the whole selection. */
  lemma {:induction false} SelectFromFailurePersists<T>(dirty: seq<T>, docs: seq<T>, idOf: T -> Option<string>, i: nat)
    requires i <= |dirty| && SelectFrom(dirty[..i], docs, idOf).Failure?
    ensures SelectFrom(dirty, docs, idOf) == Failure(OtherException)
    decreases |dirty|
  {
    SelectFromFailsOnlyWithOther(dirty[..i], docs, idOf);
    if i < |dirty| {
      var n := |dirty| - 1;
      assert dirty[..n][..i] == dirty[..i];
      SelectFromFailurePersists(dirty[..n], docs, idOf, i);
    } else {
      assert dirty[..i] == dirty;
    }
  }

  lemma {:induction false} MatchScanFailsOnlyWithOther<T>(docs: seq<T>, id: string, idOf: T -> Option<string>)
    ensures MatchScan(docs, id, idOf).Failure? ==> MatchScan(docs, id, idOf) == Failure(OtherException)
    decreases |docs|
  {
    if |docs| > 0 {
      MatchScanFailsOnlyWithOther(docs[1..], id, idOf);
    }
  }

  /* ---------- markDocumentsClean: the arguments of each markClean call ---------- */

  /** The `_id` and `_operation` texts of a document, or None when the cast or a lookup fails. */
  function CleanArgs(doc: Json): (r: Option<(string, string)>)
    ensures r.Some? ==> doc.JObj? && IdOf(doc) == Some(r.value.0)
  {
    if doc.JObj? then
      match (Get(doc.props, FieldId), Get(doc.props, FieldOperation))
      case (Some(id), Some(op)) => Some((Text(id), Text(op)))
      case _ => None
    else None
  }

  /** The markClean calls for documents that all have both fields, in order. */
  function CleanCalls(coll: string, docs: seq<Json>): (r: seq<Call>)
    requires forall i :: 0 <= i < |docs| ==> CleanArgs(docs[i]).Some?
    ensures |r| == |docs|
    decreases |docs|
  {
    if |docs| == 0 then []
    else
      var n := |docs| - 1;
      var args := CleanArgs(docs[n]).value;
      CleanCalls(coll, docs[..n]) + [MarkCleanDoc(coll, args.0, args.1)]
  }

  /** One more markClean call: its log entry, its failure (if any) and its success extend the totals. */
  lemma CleanStep(coll: string, docs: seq<Json>, i: nat, oks: seq<bool>, worked: bool)
    requires i < |docs| && |oks| == i
    requires forall k | 0 <= k <= i :: CleanArgs(docs[k]).Some?
    ensures CleanCalls(coll, docs[..i + 1])
      == CleanCalls(coll, docs[..i]) + [MarkCleanDoc(coll, CleanArgs(docs[i]).value.0, CleanArgs(docs[i]).value.1)]
    ensures FailedDocs(docs[..i + 1], oks + [worked]) == FailedDocs(docs[..i], oks) + (if worked then [] else [docs[i]])
    ensures Successes(oks + [worked]) == Successes(oks) + (if worked then 1 else 0)
  {
    assert docs[..i + 1][..i] == docs[..i];
    assert (oks + [worked])[..i] == oks;
  }

  /**
   * The table after the markClean calls, in order: `keys` holds, for each
   * call, the key of the row it cleaned, or None when it failed.
   */
  function CleanAll(t: Table, keys: seq<Option<int>>): Table
    decreases |keys|
  {
    if |keys| == 0 then t
    else
      var prev := CleanAll(t, keys[..|keys| - 1]);
      match keys[|keys| - 1]
      case Some(k) => if k in prev then Cleaned(prev, k) else prev
      case None => prev
  }

  /**
   * `keys` records the markClean calls on the first `|oks|` documents: a
   * key exactly for the calls that worked, naming a row with the
   * document's `_id`.
   */
  ghost predicate CleanedRows(docs: seq<Json>, oks: seq<bool>, keys: seq<Option<int>>) {
    && |keys| == |oks| <= |docs|
    && forall i | 0 <= i < |oks| ::
         && (keys[i].Some? <==> oks[i])
         && (keys[i].Some? ==> CleanArgs(docs[i]).Some? && IdText(keys[i].value) == CleanArgs(docs[i]).value.0)
  }

  lemma CleanedRowsStep(docs: seq<Json>, oks: seq<bool>, keys: seq<Option<int>>, worked: bool, key: Option<int>)
    requires CleanedRows(docs, oks, keys) && |oks| < |docs| && CleanArgs(docs[|oks|]).Some?
    requires key.Some? <==> worked
    requires key.Some? ==> IdText(key.value) == CleanArgs(docs[|oks|]).value.0
    ensures CleanedRows(docs, oks + [worked], keys + [key])
  {
  }

  lemma CleanAllStep(t: Table, keys: seq<Option<int>>, key: Option<int>)
    ensures CleanAll(t, keys + [key]) ==
      match key
      case Some(k) => if k in CleanAll(t, keys) then Cleaned(CleanAll(t, keys), k) else CleanAll(t, keys)
      case None => CleanAll(t, keys)
  {
    assert (keys + [key])[..|keys|] == keys;
  }

  /** Every row a markClean call cleaned is no longer dirty afterwards, whatever the later calls did. */
  lemma {:induction false} CleanAllClears(t: Table, keys: seq<Option<int>>, i: nat)
    requires i < |keys| && keys[i].Some?
    ensures keys[i].value !in DirtyKeys(CleanAll(t, keys))
    decreases |keys|
  {
    var n := |keys| - 1;
    var prev := CleanAll(t, keys[..n]);
    if i < n {
      CleanAllClears(t, keys[..n], i);
    }
  }

  /** A row no call cleaned is kept as it was. */
  lemma {:induction false} CleanAllKeepsOthers(t: Table, keys: seq<Option<int>>, k: int)
    requires k in t && Some(k) !in keys
    ensures k in CleanAll(t, keys) && CleanAll(t, keys)[k] == t[k]
    decreases |keys|
  {
    if |keys| > 0 {
      var n := |keys| - 1;
      assert Some(k) !in keys[..n];
      CleanAllKeepsOthers(t, keys[..n], k);
    }
  }

  /* ---------- changeData: criteria queries and replacement documents ---------- */

  /** One `{field: value}` query for each replace criterion the document has, in criteria order. */
  function CriteriaQuery(obj: JObject, criteria: Option<seq<string>>): (r: seq<Json>)
    ensures criteria.None? ==> r == []
    ensures criteria.Some? ==> |r| <= |criteria.value|
    decreases if criteria.Some? then |criteria.value| else 0
  {
    match criteria
    case None => []
    case Some(cs) =>
      if |cs| == 0 then []
      else
        var n := |cs| - 1;
        var prev := CriteriaQuery(obj, Some(cs[..n]));
        match Get(obj.props, cs[n])
        case Some(v) => prev + [JObj([Prop(cs[n], v)])]
        case None => prev
  }

  /**
   * Each query asks for one criterion field of the document with the value
   * the document has there.
   */
  lemma {:induction false} CriteriaQueryShape(obj: JObject, cs: seq<string>, i: nat)
    requires i < |CriteriaQuery(obj, Some(cs))|
    ensures var q := CriteriaQuery(obj, Some(cs))[i];
      q.JObj? && |q.props| == 1 && q.props[0].name in cs && Get(obj.props, q.props[0].name) == Some(q.props[0].value)
    decreases |cs|
  {
    var n := |cs| - 1;
    var prev := CriteriaQuery(obj, Some(cs[..n]));
    if i < |prev| {
      CriteriaQueryShape(obj, cs[..n], i);
      var q := prev[i];
      assert q.props[0].name in cs[..n];
    }
  }

  /** No query is issued exactly when no criterion is given or the document has none of the criteria fields. */
  lemma {:induction false} CriteriaQueryEmpty(obj: JObject, cs: seq<string>)
    ensures CriteriaQuery(obj, Some(cs)) == [] <==> forall i :: 0 <= i < |cs| ==> Get(obj.props, cs[i]).None?
    decreases |cs|
  {
    if |cs| > 0 {
      var n := |cs| - 1;
      CriteriaQueryEmpty(obj, cs[..n]);
      assert forall i :: 0 <= i < n ==> cs[..n][i] == cs[i];
    }
  }

  /** `{_id: <the match's _id, or null>, json: data}`. */
  function Replacement(found: JObject, data: JObject): JObject {
    JObj([Prop(FieldId, match Get(found.props, FieldId) case Some(v) => v case None => JNull), Prop(FieldJson, data)])
  }

  /** The replacement document of each match, in the order found. */
  function Replacements(found: seq<JObject>, data: JObject): (r: seq<Json>)
    ensures |r| == |found|
    decreases |found|
  {
    if |found| == 0 then []
    else Replacements(found[..|found| - 1], data) + [Replacement(found[|found| - 1], data)]
  }

  /** The replacement at position `i` is built from the match at position `i`. */
  lemma {:induction false} ReplacementsAt(found: seq<JObject>, data: JObject, i: nat)
    requires i < |found|
    ensures Replacements(found, data)[i] == Replacement(found[i], data)
    decreases |found|
  {
    var n := |found| - 1;
    if i < n {
      ReplacementsAt(found[..n], data, i);
    }
  }

  /**
   * A replacement document stores the changed data, and it replaces the
   * row of the match it was built from: the row whose key is the match's
   * numeric `_id`.
   */
  lemma ReplacementTargetsTheMatch(found: JObject, data: JObject, t: Table)
    ensures Payload(Replacement(found, data)) == data
    ensures forall k :: ReplaceTarget(Replacement(found, data), t) == Some(k) <==>
      Get(found.props, FieldId) == Some(JNum(k)) && k in t
  {
    var r := Replacement(found, data);
    assert Get(r.props, FieldId) == Some(r.props[0].value);
    assert FieldId != FieldJson;
    assert Get(r.props, FieldJson) == Some(data);
  }

  /** What changeData did with one document: replaced these matches, added it, or skipped it. */
  datatype Plan = Replaced(found: seq<JObject>) | Added | Skipped

  /** The number of documents a plan replaced or added. */
  function PlanCount(plan: Plan): nat {
    match plan
    case Replaced(found) => |found|
    case Added => 1
    case Skipped => 0
  }

  /** The total number of documents replaced or added. */
  function Total(plans: seq<Plan>): nat
    decreases |plans|
  {
    if |plans| == 0 then 0 else Total(plans[..|plans| - 1]) + PlanCount(plans[|plans| - 1])
  }

  /**
   * The matches changeData acts on for one document: the result of the
   * exact find of its criteria query, given the store's answers to the
   * query's parts; no find is made, and nothing matches, without a query.
   */
  function Matches(doc: JObject, criteria: Option<seq<string>>, answers: seq<seq<JObject>>): seq<JObject> {
    if |CriteriaQuery(doc, criteria)| > 0 then FindResult(answers) else []
  }

  /**
   * The rules changeData follows for one document, given what its find
   * returned: it replaces exactly the matches when there are any, and
   * otherwise adds the document exactly when asked to.
   */
  ghost predicate PlanFits(doc: JObject, criteria: Option<seq<string>>, addNew: bool, answers: seq<seq<JObject>>, plan: Plan) {
    var m := Matches(doc, criteria, answers);
    && (|CriteriaQuery(doc, criteria)| > 0 ==> |answers| == |CriteriaQuery(doc, criteria)|)
    && (|CriteriaQuery(doc, criteria)| == 0 ==> answers == [])
    && plan == if |m| > 0 then Replaced(m) else if addNew then Added else Skipped
  }

  /** Each of the first `|plans|` documents is an object and got the plan its find result dictates. */
  ghost predicate PlansFit(docs: seq<Json>, criteria: Option<seq<string>>, addNew: bool,
                           finds: seq<seq<seq<JObject>>>, plans: seq<Plan>) {
    && |finds| == |plans| <= |docs|
    && forall i | 0 <= i < |plans| :: docs[i].JObj? && PlanFits(docs[i], criteria, addNew, finds[i], plans[i])
  }

  /** One more document of changeData: its plan fits, its calls extend the log, its count adds to the total. */
  lemma ChangeNextStep(coll: string, docs: seq<Json>, criteria: Option<seq<string>>, addNew: bool, markDirty: bool,
                       inTransaction: bool, finds: seq<seq<seq<JObject>>>, plans: seq<Plan>,
                       answers: seq<seq<JObject>>, plan: Plan, log0: seq<Call>, log: seq<Call>)
    requires PlansFit(docs, criteria, addNew, finds, plans) && |plans| < |docs| && docs[|plans|].JObj?
    requires PlanFits(docs[|plans|], criteria, addNew, answers, plan)
    requires log == log0 + ChangeCalls(coll, docs[..|plans|], criteria, plans, markDirty, inTransaction)
      + PlanCalls(coll, docs[|plans|], criteria, plan, markDirty, inTransaction)
    ensures PlansFit(docs, criteria, addNew, finds + [answers], plans + [plan])
    ensures log == log0 + ChangeCalls(coll, docs[..|plans| + 1], criteria, plans + [plan], markDirty, inTransaction)
    ensures Total(plans + [plan]) == Total(plans) + PlanCount(plan)
  {
    ChangeStep(coll, docs, criteria, plans, plan, markDirty, inTransaction, |plans|);
    PlansFitStep(docs, criteria, addNew, finds, plans, answers, plan);
    LogAppend(log0, ChangeCalls(coll, docs[..|plans|], criteria, plans, markDirty, inTransaction),
      PlanCalls(coll, docs[|plans|], criteria, plan, markDirty, inTransaction));
  }

  lemma PlansFitStep(docs: seq<Json>, criteria: Option<seq<string>>, addNew: bool,
                     finds: seq<seq<seq<JObject>>>, plans: seq<Plan>, answers: seq<seq<JObject>>, plan: Plan)
    requires PlansFit(docs, criteria, addNew, finds, plans) && |plans| < |docs| && docs[|plans|].JObj?
    requires PlanFits(docs[|plans|], criteria, addNew, answers, plan)
    ensures PlansFit(docs, criteria, addNew, finds + [answers], plans + [plan])
  {
  }

  /** The store calls changeData makes for one document under a plan. */
  function PlanCalls(coll: string, doc: JObject, criteria: Option<seq<string>>, plan: Plan,
                     markDirty: bool, inTransaction: bool): seq<Call>
  {
    var query := CriteriaQuery(doc, criteria);
    (if |query| > 0 then FindCalls(coll, query, ExactOptions()) else [])
    + match plan
      case Replaced(found) =>
        Opening(inTransaction) + ReplaceCalls(coll, Replacements(found, doc), markDirty) + Closing(inTransaction, Commit)
      case Added => Opening(inTransaction) + StoreCalls(coll, [doc], markDirty) + Closing(inTransaction, Commit)
      case Skipped => []
  }

  /** The store calls that carry out a plan, after the find. */
  function PlanEffect(coll: string, doc: JObject, plan: Plan, markDirty: bool, inTransaction: bool): seq<Call> {
    match plan
    case Replaced(found) =>
      Opening(inTransaction) + ReplaceCalls(coll, Replacements(found, doc), markDirty) + Closing(inTransaction, Commit)
    case Added => Opening(inTransaction) + StoreCalls(coll, [doc], markDirty) + Closing(inTransaction, Commit)
    case Skipped => []
  }

  /** The calls for one document: the find, then the plan's effect, appended to the log so far. */
  lemma PlanCallsThen(log: seq<Call>, coll: string, doc: JObject, criteria: Option<seq<string>>, plan: Plan,
                      markDirty: bool, inTransaction: bool)
    ensures log + PlanCalls(coll, doc, criteria, plan, markDirty, inTransaction)
      == log + (if |CriteriaQuery(doc, criteria)| > 0 then FindCalls(coll, CriteriaQuery(doc, criteria), ExactOptions()) else [])
         + PlanEffect(coll, doc, plan, markDirty, inTransaction)
  {
  }

  /**
   * The store calls changeData makes, one document after another. An
   * element that is not an object fails its cast before any call.
   */
  function ChangeCalls(coll: string, docs: seq<Json>, criteria: Option<seq<string>>, plans: seq<Plan>,
                       markDirty: bool, inTransaction: bool): seq<Call>
    requires |docs| == |plans|
    decreases |docs|
  {
    if |docs| == 0 then []
    else
      var n := |docs| - 1;
      ChangeCalls(coll, docs[..n], criteria, plans[..n], markDirty, inTransaction)
        + (if docs[n].JObj? then PlanCalls(coll, docs[n], criteria, plans[n], markDirty, inTransaction) else [])
  }

  /** One more document: its calls follow the earlier documents' calls, and its count adds to the total. */
  lemma ChangeStep(coll: string, docs: seq<Json>, criteria: Option<seq<string>>, plans: seq<Plan>, plan: Plan,
                   markDirty: bool, inTransaction: bool, i: nat)
    requires i < |docs| && |plans| == i && docs[i].JObj?
    ensures ChangeCalls(coll, docs[..i + 1], criteria, plans + [plan], markDirty, inTransaction)
      == ChangeCalls(coll, docs[..i], criteria, plans, markDirty, inTransaction)
         + PlanCalls(coll, docs[i], criteria, plan, markDirty, inTransaction)
    ensures Total(plans + [plan]) == Total(plans) + PlanCount(plan)
  {
    assert docs[..i + 1][..i] == docs[..i];
    assert (plans + [plan])[..i] == plans;
  }

  /** A document none of whose criteria fields are present is never replaced, only added or skipped. */
  lemma NoCriteriaNoReplace(doc: JObject, cs: seq<string>, addNew: bool, answers: seq<seq<JObject>>, plan: Plan)
    requires forall i :: 0 <= i < |cs| ==> Get(doc.props, cs[i]).None?
    requires PlanFits(doc, Some(cs), addNew, answers, plan)
    ensures plan == if addNew then Added else Skipped
  {
    CriteriaQueryEmpty(doc, cs);
  }

  /* ---------- replaceDocuments: the effect on the table ---------- */

  /** The table after replacing the given documents one after another. */
  function ReplaceAll(t: Table, docs: seq<Json>, dirty: bool): (r: Table)
    decreases |docs|
  {
    if |docs| == 0 then t
    else
      var prev := ReplaceAll(t, docs[..|docs| - 1], dirty);
      match ReplaceTarget(docs[|docs| - 1], prev)
      case Some(k) => prev[k := Row(Payload(docs[|docs| - 1]), dirty, false)]
      case None => prev
  }

  /** Replacing never adds or deletes a row. */
  lemma {:induction false} ReplaceAllKeys(t: Table, docs: seq<Json>, dirty: bool)
    ensures ReplaceAll(t, docs, dirty).Keys == t.Keys
    decreases |docs|
  {
    if |docs| > 0 {
      ReplaceAllKeys(t, docs[..|docs| - 1], dirty);
    }
  }

  /** One more replace document applies to the table the earlier ones left. */
  lemma ReplaceAllStep(t: Table, docs: seq<Json>, i: nat, dirty: bool)
    requires i < |docs|
    ensures ReplaceAll(t, docs[..i + 1], dirty) ==
      match ReplaceTarget(docs[i], ReplaceAll(t, docs[..i], dirty))
      case Some(k) => ReplaceAll(t, docs[..i], dirty)[k := Row(Payload(docs[i]), dirty, false)]
      case None => ReplaceAll(t, docs[..i], dirty)
  {
    assert docs[..i + 1][..i] == docs[..i];
  }

  /**
   * Replacing keeps the set of rows; the row a document names holds its
   * payload, clean or dirty as asked, unless a later document names it too.
   */
  lemma {:induction false} ReplaceAllRows(t: Table, docs: seq<Json>, dirty: bool)
    ensures ReplaceAll(t, docs, dirty).Keys == t.Keys
    ensures forall i, k | 0 <= i < |docs| && ReplaceTarget(docs[i], t) == Some(k)
      && (forall j | i < j < |docs| :: ReplaceTarget(docs[j], t) != Some(k)) ::
        ReplaceAll(t, docs, dirty)[k] == Row(Payload(docs[i]), dirty, false)
    decreases |docs|
  {
    if |docs| > 0 {
      var n := |docs| - 1;
      ReplaceAllRows(t, docs[..n], dirty);
      assert forall i :: 0 <= i < n ==> docs[..n][i] == docs[i];
      TargetDependsOnKeys(docs[n], ReplaceAll(t, docs[..n], dirty), t);
      forall j | 0 <= j < n
        ensures ReplaceTarget(docs[j], ReplaceAll(t, docs[..n], dirty)) == ReplaceTarget(docs[j], t)
      {
        TargetDependsOnKeys(docs[j], ReplaceAll(t, docs[..n], dirty), t);
      }
    }
  }

  /** Which row a document names depends only on which keys the table has. */
  lemma TargetDependsOnKeys(doc: Json, t: Table, u: Table)
    requires t.Keys == u.Keys
    ensures ReplaceTarget(doc, t) == ReplaceTarget(doc, u)
  {
  }
}
