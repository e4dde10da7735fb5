/** `ChromaIngestor` (rag_agent/app/ingestion/store_embeddings.py): loads
    the embeddings files into four parallel lists, drops the records whose
    id the vector store already holds and adds the rest in batches. The
    store is modelled by the part of its behaviour the ingestor relies on:
    a map from id to record, queried by id and extended by `add`. */
module VectorStore {
  import opened Common
  import Embeddings

  /** One JSON object of an embeddings file; `metadata` is `None` when the
      key is absent. */
  datatype StoredItem = StoredItem(id: string, text: string, metadata: Option<Embeddings.Metadata>, embedding: Embeddings.Embedding)

  datatype EmbeddingsFile = EmbeddingsFile(name: string, items: seq<StoredItem>)

  /** One position of the four parallel lists; `meta == None` is the empty
      dict `{}`. */
  datatype Row = Row(id: string, doc: string, meta: Option<Embeddings.Metadata>, vector: Embeddings.Embedding)

  /** What `ingest` leaves behind: whether it raised, the store and the
      lists (as rows). */
  datatype IngestRun = IngestRun(outcome: Result<()>, store: map<string, Row>, pending: seq<Row>)

  const IdBatchSize: int := 1000
  const DefaultIngestBatchSize: int := 500

  // ---------- loading ----------

  /** `item.get("metadata", {})` and the other three keys, as one row. */
  function RowOf(item: StoredItem): Row {
    Row(item.id, item.text, item.metadata, item.embedding)
  }

  function FileRows(items: seq<StoredItem>): (r: seq<Row>)
    ensures |r| == |items| && forall k :: 0 <= k < |items| ==> r[k] == RowOf(items[k])
  {
    seq(|items|, k requires 0 <= k < |items| => RowOf(items[k]))
  }

  /** The rows of the files, file after file. */
  function LoadedRows(files: seq<EmbeddingsFile>): seq<Row>
    decreases |files|
  {
    if files == [] then [] else LoadedRows(files[..|files| - 1]) + FileRows(files[|files| - 1].items)
  }

  /** The files `glob("*_embeddings.json")` returns. */
  function EmbeddingsFiles(listing: seq<EmbeddingsFile>): (r: seq<EmbeddingsFile>)
    ensures |r| <= |listing|
    ensures forall k :: 0 <= k < |r| ==> Embeddings.GlobMatches(r[k].name, Embeddings.EmbeddingsSuffix)
    decreases |listing|
  {
    if listing == [] then []
    else
      var init := EmbeddingsFiles(listing[..|listing| - 1]);
      if Embeddings.GlobMatches(listing[|listing| - 1].name, Embeddings.EmbeddingsSuffix) then init + [listing[|listing| - 1]] else init
  }

  /** Every record of every file is loaded, in order, one row each. */
  lemma {:induction false} LoadedRowsCount(files: seq<EmbeddingsFile>)
    ensures |LoadedRows(files)| == TotalItems(files)
    decreases |files|
  {
    if files != [] {
      LoadedRowsCount(files[..|files| - 1]);
    }
  }

  function TotalItems(files: seq<EmbeddingsFile>): nat
    decreases |files|
  {
    if files == [] then 0 else TotalItems(files[..|files| - 1]) + |files[|files| - 1].items|
  }

  /** What `process_file` writes, as this reader loads it. */
  function AsStored(r: Embeddings.EmbeddingRecord): StoredItem {
    StoredItem(r.id, r.text, Some(r.meta), r.embedding)
  }

  // ---------- the store ----------

  function Ids(rows: seq<Row>): (r: seq<string>)
    ensures |r| == |rows| && forall k :: 0 <= k < |rows| ==> r[k] == rows[k].id
  {
    seq(|rows|, k requires 0 <= k < |rows| => rows[k].id)
  }

  /** The ids among `ids` that the store holds (what `get` reports). */
  function Present(ids: seq<string>, store: map<string, Row>): set<string>
    decreases |ids|
  {
    if ids == [] then {}
    else Present(ids[..|ids| - 1], store) + (if ids[|ids| - 1] in store then {ids[|ids| - 1]} else {})
  }

  /** The ids reported are exactly the candidates the store holds. */
  lemma {:induction false} PresentIff(ids: seq<string>, store: map<string, Row>, x: string)
    ensures x in Present(ids, store) <==> x in ids && x in store
    decreases |ids|
  {
    if ids != [] {
      var init := ids[..|ids| - 1];
      PresentIff(init, store, x);
      assert ids == init + [ids[|ids| - 1]];
    }
  }

  /** Asking batch by batch reports the same ids as asking all at once. */
  lemma {:induction false} PresentAppend(a: seq<string>, b: seq<string>, store: map<string, Row>)
    ensures Present(a + b, store) == Present(a, store) + Present(b, store)
    decreases |b|
  {
    if b == [] {
      assert a + b == a;
    } else {
      var init := b[..|b| - 1];
      PresentAppend(a, init, store);
      assert (a + b)[..|a + b| - 1] == a + init;
    }
  }

  /** Chroma's `add`, one record after another: an id the store already
      holds keeps its record. */
  function Inserted(store: map<string, Row>, rows: seq<Row>): map<string, Row>
    decreases |rows|
  {
    if rows == [] then store
    else
      var s := Inserted(store, rows[..|rows| - 1]);
      var row := rows[|rows| - 1];
      if row.id in s then s else s[row.id := row]
  }

  /** Adding in batches is adding all at once. */
  lemma {:induction false} InsertedAppend(store: map<string, Row>, a: seq<Row>, b: seq<Row>)
    ensures Inserted(store, a + b) == Inserted(Inserted(store, a), b)
    decreases |b|
  {
    if b == [] {
      assert a + b == a;
    } else {
      var init := b[..|b| - 1];
      InsertedAppend(store, a, init);
      assert (a + b)[..|a + b| - 1] == a + init;
      assert (a + b)[|a + b| - 1] == b[|b| - 1];
    }
  }

  /** Adding keeps every record already stored and stores every new id. */
  lemma {:induction false} InsertedKeys(store: map<string, Row>, rows: seq<Row>)
    ensures forall x :: x in Inserted(store, rows) <==> x in store || x in Ids(rows)
    ensures forall x :: x in store ==> Inserted(store, rows)[x] == store[x]
    decreases |rows|
  {
    if rows != [] {
      var init := rows[..|rows| - 1];
      InsertedKeys(store, init);
      assert Ids(rows) == Ids(init) + [rows[|rows| - 1].id];
    }
  }

  /** A new id is stored with the first row that carries it. */
  lemma {:induction false} InsertedFirst(store: map<string, Row>, rows: seq<Row>, k: nat)
    requires k < |rows| && rows[k].id !in store
    requires forall j :: 0 <= j < k ==> rows[j].id != rows[k].id
    ensures rows[k].id in Inserted(store, rows) && Inserted(store, rows)[rows[k].id] == rows[k]
    decreases |rows|
  {
    var init := rows[..|rows| - 1];
    InsertedKeys(store, init);
    if k < |rows| - 1 {
      InsertedFirst(store, init, k);
    } else {
      assert rows[k].id !in Ids(init);
    }
  }

  // ---------- filtering ----------

  /** The `new_data` comprehension: the rows whose id is not in `existing`. */
  function KeepNew(rows: seq<Row>, existing: set<string>): (r: seq<Row>)
    ensures |r| <= |rows|
    decreases |rows|
  {
    if rows == [] then []
    else
      var init := KeepNew(rows[..|rows| - 1], existing);
      if rows[|rows| - 1].id in existing then init else init + [rows[|rows| - 1]]
  }

  /** `_filter_existing_ids` on rows against a store. */
  function Filtered(rows: seq<Row>, store: map<string, Row>): seq<Row>
  {
    KeepNew(rows, Present(Ids(rows), store))
  }

  /** The kept rows keep their order. */
  lemma {:induction false} KeepNewOrder(rows: seq<Row>, existing: set<string>)
    ensures Subsequence(KeepNew(rows, existing), rows)
    decreases |rows|
  {
    if rows != [] {
      var init, last := rows[..|rows| - 1], rows[|rows| - 1];
      KeepNewOrder(init, existing);
      SubsequenceExtend(KeepNew(init, existing), init, last);
      assert init + [last] == rows;
    }
  }

  /** No kept row has an id in `existing`. */
  lemma {:induction false} KeepNewOnlyNew(rows: seq<Row>, existing: set<string>)
    ensures forall k :: 0 <= k < |KeepNew(rows, existing)| ==> KeepNew(rows, existing)[k].id !in existing
    decreases |rows|
  {
    if rows != [] {
      var init, last := rows[..|rows| - 1], rows[|rows| - 1];
      var r, r' := KeepNew(rows, existing), KeepNew(init, existing);
      KeepNewOnlyNew(init, existing);
      if last.id !in existing {
        forall k | 0 <= k < |r| ensures r[k].id !in existing {
          if k < |r'| {
            assert r[k] == r'[k];
          }
        }
      }
    }
  }

  /** Every row whose id is not in `existing` is kept as often as it occurs
      (duplicate ids included); the others not at all. */
  lemma {:induction false} KeepNewCount(rows: seq<Row>, existing: set<string>, x: Row)
    ensures Count(KeepNew(rows, existing), x) == if x.id in existing then 0 else Count(rows, x)
    decreases |rows|
  {
    if rows != [] {
      var init, last := rows[..|rows| - 1], rows[|rows| - 1];
      var r, r' := KeepNew(rows, existing), KeepNew(init, existing);
      KeepNewCount(init, existing, x);
      if last.id !in existing {
        assert r == r' + [last];
        assert r[..|r| - 1] == r';
      }
    }
  }

  /** Nothing stored: the lists pass unchanged. */
  lemma {:induction false} KeepNewNone(rows: seq<Row>, existing: set<string>)
    requires forall k :: 0 <= k < |rows| ==> rows[k].id !in existing
    ensures KeepNew(rows, existing) == rows
    decreases |rows|
  {
    if rows != [] {
      KeepNewNone(rows[..|rows| - 1], existing);
      assert rows[..|rows| - 1] + [rows[|rows| - 1]] == rows;
    }
  }

  /** Everything stored: the lists become empty. */
  lemma {:induction false} KeepNewAll(rows: seq<Row>, existing: set<string>)
    requires forall k :: 0 <= k < |rows| ==> rows[k].id in existing
    ensures KeepNew(rows, existing) == []
    decreases |rows|
  {
    if rows != [] {
      KeepNewAll(rows[..|rows| - 1], existing);
    }
  }

  /** Filtering removes only ids the store holds: two loaded records with
      the same new id both survive. */
  lemma DuplicatesSurviveFilter(x: Row, store: map<string, Row>)
    requires x.id !in store
    ensures Filtered([x, x], store) == [x, x]
  {
    var rows := [x, x];
    PresentIff(Ids(rows), store, x.id);
    assert forall k :: 0 <= k < |rows| ==> rows[k].id !in Present(Ids(rows), store);
    KeepNewNone(rows, Present(Ids(rows), store));
  }

  // ---------- ingest ----------

  /** `ingest(batch_size)`: nothing happens for empty lists or when every
      id is stored; otherwise the lists are filtered and the new rows added,
      unless `range` raises on a zero batch size or is empty on a negative one. */
  function Ingested(store: map<string, Row>, rows: seq<Row>, batchSize: int): IngestRun
  {
    if rows == [] then IngestRun(Ok(()), store, rows)
    else
      var newRows := Filtered(rows, store);
      if newRows == [] then IngestRun(Ok(()), store, [])
      else if batchSize == 0 then IngestRun(Err(ValueError), store, newRows)
      else if batchSize < 0 then IngestRun(Ok(()), store, newRows)
      else IngestRun(Ok(()), Inserted(store, newRows), newRows)
  }

  /** `ingest` raises exactly when there is something new and the batch size is zero. */
  lemma IngestRaises(store: map<string, Row>, rows: seq<Row>, batchSize: int)
    ensures Ingested(store, rows, batchSize).outcome.Err? <==> Filtered(rows, store) != [] && batchSize == 0
  {
  }

  /** `ingest` never replaces a stored record, and with a positive batch
      size it stores every loaded id. */
  lemma IngestStoresEveryId(store: map<string, Row>, rows: seq<Row>, batchSize: int)
    requires batchSize > 0
    ensures var s := Ingested(store, rows, batchSize).store;
      && (forall x :: x in s <==> x in store || x in Ids(rows))
      && (forall x :: x in store ==> s[x] == store[x])
  {
    var existing := Present(Ids(rows), store);
    var newRows := KeepNew(rows, existing);
    var s := Ingested(store, rows, batchSize).store;
    InsertedKeys(store, newRows);
    assert s == Inserted(store, newRows);
    forall x | x in Ids(rows) && x !in store ensures x in Ids(newRows) {
      var k :| 0 <= k < |rows| && rows[k].id == x;
      PresentIff(Ids(rows), store, x);
      CountPositive(rows, k);
      KeepNewCount(rows, existing, rows[k]);
      var j := CountWitness(newRows, rows[k]);
    }
    forall x | x in Ids(newRows) ensures x in Ids(rows) {
      var j :| 0 <= j < |newRows| && newRows[j].id == x;
      CountPositive(newRows, j);
      KeepNewCount(rows, existing, newRows[j]);
      var k := CountWitness(rows, newRows[j]);
    }
  }

  /** Ingesting the same records a second time adds nothing and leaves the
      lists empty. */
  lemma SecondIngestAddsNothing(store: map<string, Row>, rows: seq<Row>, batchSize: int)
    requires batchSize > 0
    ensures var s := Ingested(store, rows, batchSize).store;
      Ingested(s, rows, batchSize) == IngestRun(Ok(()), s, [])
  {
    var s := Ingested(store, rows, batchSize).store;
    IngestStoresEveryId(store, rows, batchSize);
    if rows != [] {
      var existing := Present(Ids(rows), s);
      forall k | 0 <= k < |rows| ensures rows[k].id in existing {
        PresentIff(Ids(rows), s, rows[k].id);
      }
      KeepNewAll(rows, existing);
    }
  }

  // ---------- the classes ----------

  /** The vector-store collection, reduced to its records by id. */
  class Collection {
    var records: map<string, Row>

    constructor(records: map<string, Row>)
      ensures this.records == records
    {
      this.records := records;
    }

    /** `collection.get(ids=...)["ids"]`, as a set. */
    function Get(ids: seq<string>): set<string>
      reads this
    {
      Present(ids, records)
    }

    /** `collection.add(...)` of one batch. */
    method Add(rows: seq<Row>)
      modifies this
      ensures records == Inserted(old(records), rows)
    {
      records := Inserted(records, rows);
    }
  }

  class ChromaIngestor {
    const collection: Collection
    var ids: seq<string>
    var docs: seq<string>
    var metadatas: seq<Option<Embeddings.Metadata>>
    var vectors: seq<Embeddings.Embedding>

    /** The four lists have one entry per record. */
    predicate Aligned()
      reads this
    {
      |docs| == |ids| && |metadatas| == |ids| && |vectors| == |ids|
    }

    /** The lists read position by position. */
    function Rows(): (r: seq<Row>)
      reads this
      requires Aligned()
      ensures |r| == |ids| && forall k :: 0 <= k < |ids| ==> r[k] == Row(ids[k], docs[k], metadatas[k], vectors[k])
    {
      var i, d, m, v := ids, docs, metadatas, vectors;
      seq(|i|, k requires 0 <= k < |i| => Row(i[k], d[k], m[k], v[k]))
    }

    constructor(collection: Collection)
      ensures this.collection == collection && Aligned() && Rows() == []
    {
      this.collection := collection;
      ids, docs, metadatas, vectors := [], [], [], [];
    }

    /** Appends one record to the four lists. */
    method Append(item: StoredItem)
      requires Aligned()
      modifies this
      ensures Aligned() && Rows() == old(Rows()) + [RowOf(item)]
    {
      ids := ids + [item.id];
      docs := docs + [item.text];
      metadatas := metadatas + [item.metadata];
      vectors := vectors + [item.embedding];
    }

    /** The loop over the items of one file. */
    method LoadFile(items: seq<StoredItem>)
      requires Aligned()
      modifies this
      ensures Aligned() && Rows() == old(Rows()) + FileRows(items)
    {
      for j := 0 to |items|
        invariant Aligned() && Rows() == old(Rows()) + FileRows(items[..j])
      {
        Append(items[j]);
        assert FileRows(items[..j + 1]) == FileRows(items[..j]) + [RowOf(items[j])];
      }
      assert items[..|items|] == items;
    }

    /** `load_all_json`: `ValueError` when no embeddings file matches;
        otherwise every record of every file is appended, in order. */
    method LoadAllJson(listing: seq<EmbeddingsFile>) returns (r: Result<()>)
      requires Aligned()
      modifies this
      ensures Aligned()
      ensures r.Err? <==> EmbeddingsFiles(listing) == []
      ensures r.Err? ==> r.error == ValueError && Rows() == old(Rows())
      ensures r.Ok? ==> Rows() == old(Rows()) + LoadedRows(EmbeddingsFiles(listing))
    {
      var files := EmbeddingsFiles(listing);
      if files == [] {
        return Err(ValueError);
      }
      for i := 0 to |files|
        invariant Aligned() && Rows() == old(Rows()) + LoadedRows(files[..i])
      {
        assert files[..i + 1][..i] == files[..i];
        assert LoadedRows(files[..i + 1]) == LoadedRows(files[..i]) + FileRows(files[i].items);
        LoadFile(files[i].items);
      }
      assert files[..|files|] == files;
      r := Ok(());
    }

    /** The id-existence loop: the ids asked for in batches of 1000. */
    method ExistingIds() returns (existing: set<string>)
      ensures existing == Present(ids, collection.records)
    {
      existing := {};
      var i := 0;
      while i < |ids|
        invariant existing == Present(ids[..Embeddings.Min(i, |ids|)], collection.records)
        decreases |ids| - i
      {
        var stop := Embeddings.Min(i + IdBatchSize, |ids|);
        var batch := ids[i..stop];
        PresentAppend(ids[..i], batch, collection.records);
        assert ids[..i] + batch == ids[..stop];
        existing := existing + collection.Get(batch);
        i := i + IdBatchSize;
      }
      assert ids[..|ids|] == ids;
    }

    /** The comprehension building `new_data`: the rows whose id is not in
        `existing`, in order. */
    static method NewData(rows: seq<Row>, existing: set<string>) returns (newData: seq<Row>)
      ensures newData == KeepNew(rows, existing)
    {
      newData := [];
      for k := 0 to |rows|
        invariant newData == KeepNew(rows[..k], existing)
      {
        assert rows[..k + 1][..k] == rows[..k];
        if rows[k].id !in existing {
          newData := newData + [rows[k]];
        }
      }
      assert rows[..|rows|] == rows;
    }

    /** `_filter_existing_ids`: the lists lose exactly the records whose id
        the store holds. */
    method FilterExistingIds()
      requires Aligned()
      modifies this
      ensures Aligned() && Rows() == Filtered(old(Rows()), collection.records)
    {
      var rows := Rows();
      assert Ids(rows) == ids;
      if ids == [] {
        return;
      }
      var existing := ExistingIds();
      if existing == {} {
        KeepNewNone(rows, existing);
        return;
      }
      var newData := NewData(rows, existing);
      if newData == [] {
        ids, docs, metadatas, vectors := [], [], [], [];
        return;
      }
      SetRows(newData);
    }

    /** `map(list, zip(*new_data))`: the four lists rebuilt from the rows. */
    method SetRows(rows: seq<Row>)
      modifies this
      ensures Aligned() && Rows() == rows
    {
      ids := seq(|rows|, k requires 0 <= k < |rows| => rows[k].id);
      docs := seq(|rows|, k requires 0 <= k < |rows| => rows[k].doc);
      metadatas := seq(|rows|, k requires 0 <= k < |rows| => rows[k].meta);
      vectors := seq(|rows|, k requires 0 <= k < |rows| => rows[k].vector);
      assert Rows() == rows;
    }

    /** The batch loop of `ingest`: `range(0, len(ids), batch_size)`, tracked
        by the end of the last batch. */
    method AddInBatches(rows: seq<Row>, batchSize: int)
      requires batchSize > 0
      modifies collection
      ensures collection.records == Inserted(old(collection.records), rows)
    {
      var done := 0;
      while done < |rows|
        invariant 0 <= done <= |rows|
        invariant collection.records == Inserted(old(collection.records), rows[..done])
        decreases |rows| - done
      {
        var stop := Embeddings.Min(done + batchSize, |rows|);
        InsertedAppend(old(collection.records), rows[..done], rows[done..stop]);
        assert rows[..done] + rows[done..stop] == rows[..stop];
        collection.Add(rows[done..stop]);
        done := stop;
      }
      assert rows[..done] == rows;
    }

    /** `ingest(batch_size)`. */
    method Ingest(batchSize: int) returns (r: Result<()>)
      requires Aligned()
      modifies this, collection
      ensures Aligned()
      ensures IngestRun(r, collection.records, Rows()) == Ingested(old(collection.records), old(Rows()), batchSize)
    {
      ghost var store, before := collection.records, Rows();
      if ids == [] {
        return Ok(());
      }
      FilterExistingIds();
      var rows := Rows();
      assert rows == Filtered(before, store);
      if ids == [] {
        assert rows == [];
        return Ok(());
      }
      if batchSize == 0 {
        return Err(ValueError);
      }
      if batchSize > 0 {
        AddInBatches(rows, batchSize);
      }
      r := Ok(());
    }
  }
}
