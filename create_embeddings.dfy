/** `ChunkVectorizer` (rag_agent/app/ingestion/create_embeddings.py): reads a
    domain's chunk file, keeps the non-blank chunks, gives each an id and
    metadata, drops repeated ids (first occurrence wins), embeds the texts
    in fixed-size batches through an external encoder and writes one record
    per chunk. The encoder and MD5 are parameters; files are values. */
module Embeddings {
  import opened Common
  import opened Text
  import DocumentLoading

  /** A vector returned by the sentence encoder. */
  type Embedding = seq<real>

  /** One JSON object of a chunk file; `None` is a key that is absent. */
  datatype Item = Item(text: Option<string>, id: Option<string>, source: Option<string>, chunkIndex: Option<int>)

  datatype Metadata = Metadata(source: string, chunkIndex: int, domain: string)

  /** A kept chunk: its id, its stripped text and its metadata. */
  datatype Entry = Entry(id: string, text: string, meta: Metadata)

  datatype EmbeddingRecord = EmbeddingRecord(id: string, text: string, meta: Metadata, embedding: Embedding)

  /** The file `process_file` writes: its name and its records. */
  datatype FileOutput = FileOutput(path: string, records: seq<EmbeddingRecord>)

  /** A file of the chunk directory and the items it holds. */
  datatype ChunkFile = ChunkFile(name: string, items: seq<Item>)

  const ChunksSuffix: string := "_chunks.json"
  const EmbeddingsSuffix: string := "_embeddings.json"
  const DefaultBatchSize: int := 64

  function Min(a: int, b: int): int { if a <= b then a else b }

  // ---------- domain name ----------

  /** Python's `s.replace(pat, "")`: occurrences removed left to right,
      without overlap. */
  function RemoveAll(s: string, pat: string): (r: string)
    requires pat != []
    ensures |r| <= |s|
    decreases |s|
  {
    if |pat| <= |s| && s[..|pat|] == pat then RemoveAll(s[|pat|..], pat)
    else if s == [] then []
    else [s[0]] + RemoveAll(s[1..], pat)
  }

  /** The domain a chunk file belongs to. */
  function DomainName(fileName: string): string
  {
    RemoveAll(fileName, ChunksSuffix)
  }

  /** Removing a pattern whose first character occurs nowhere else in it
      from `d + pat` gives back `d` when `d` does not contain it. */
  lemma {:induction false} RemoveAllAppended(d: string, pat: string)
    requires pat != [] && forall k :: 1 <= k < |pat| ==> pat[k] != pat[0]
    requires !Occurs(pat, d)
    ensures RemoveAll(d + pat, pat) == d
    decreases |d|
  {
    var s := d + pat;
    if d == [] {
      assert s == pat && s[|pat|..] == [];
    } else {
      if |pat| <= |d| {
        assert s[..|pat|] == d[..|pat|];
      } else {
        assert s[..|pat|][|d|] == pat[0] != pat[|d|];
      }
      assert s[0] == d[0] && s[1..] == d[1..] + pat;
      RemoveAllAppended(d[1..], pat);
    }
  }

  /** The loader saves a domain's chunks as `<domain>_chunks.json`; reading
      the domain back from that name gives the domain, unless the domain
      itself contains `_chunks.json`. */
  lemma DomainOfChunkFile(domain: string)
    requires !Occurs(ChunksSuffix, domain)
    ensures DomainName(domain + ChunksSuffix) == domain
  {
    assert ChunksSuffix == ['_', 'c', 'h', 'u', 'n', 'k', 's', '.', 'j', 's', 'o', 'n'];
    RemoveAllAppended(domain, ChunksSuffix);
  }

  // ---------- collecting the items ----------

  /** What one item contributes: nothing when its stripped text is empty,
      else an entry with the item's id or the MD5 of the text, its source or
      "unknown", its chunk index or -1, and the domain. */
  function EntryOf(md5Hex: string -> string, domain: string, item: Item): (r: Option<Entry>)
    ensures r.None? <==> Strip(item.text.GetOr("")) == []
    ensures r.Some? ==>
      && r.value.text == Strip(item.text.GetOr(""))
      && r.value.id == (if item.id.Some? then item.id.value else md5Hex(r.value.text))
      && r.value.meta == Metadata(item.source.GetOr("unknown"), item.chunkIndex.GetOr(-1), domain)
  {
    var text := Strip(item.text.GetOr(""));
    if text == [] then None
    else Some(Entry(item.id.GetOr(md5Hex(text)), text, Metadata(item.source.GetOr("unknown"), item.chunkIndex.GetOr(-1), domain)))
  }

  /** The entries the collecting loop builds, in item order. */
  function Collected(md5Hex: string -> string, domain: string, items: seq<Item>): (r: seq<Entry>)
    ensures |r| <= |items|
    decreases |items|
  {
    if items == [] then []
    else
      var init := Collected(md5Hex, domain, items[..|items| - 1]);
      match EntryOf(md5Hex, domain, items[|items| - 1])
      case Some(e) => init + [e]
      case None => init
  }

  /** Every kept text is non-empty and already stripped, and every entry is
      tagged with the file's domain. */
  lemma {:induction false} CollectedWellFormed(md5Hex: string -> string, domain: string, items: seq<Item>)
    ensures var r := Collected(md5Hex, domain, items);
      forall k :: 0 <= k < |r| ==> r[k].text != [] && IsStripped(r[k].text) && r[k].meta.domain == domain
    decreases |items|
  {
    if items != [] {
      var init := items[..|items| - 1];
      CollectedWellFormed(md5Hex, domain, init);
      var e := EntryOf(md5Hex, domain, items[|items| - 1]);
      if e.Some? {
        var r := Collected(md5Hex, domain, init) + [e.value];
        assert Collected(md5Hex, domain, items) == r;
        assert r[|r| - 1] == e.value;
        forall k | 0 <= k < |r| ensures r[k].text != [] && IsStripped(r[k].text) && r[k].meta.domain == domain {
          if k < |r| - 1 {
            assert r[k] == Collected(md5Hex, domain, init)[k];
          }
        }
      }
    }
  }

  /** When no item is blank, each item gives exactly one entry, in order. */
  lemma {:induction false} CollectedKeepsAll(md5Hex: string -> string, domain: string, items: seq<Item>)
    requires forall i :: 0 <= i < |items| ==> Strip(items[i].text.GetOr("")) != []
    ensures var r := Collected(md5Hex, domain, items);
      |r| == |items| && forall k :: 0 <= k < |r| ==> Some(r[k]) == EntryOf(md5Hex, domain, items[k])
    decreases |items|
  {
    if items != [] {
      var init := items[..|items| - 1];
      CollectedKeepsAll(md5Hex, domain, init);
      assert forall k :: 0 <= k < |init| ==> init[k] == items[k];
    }
  }

  /** Only blank items are dropped: nothing is kept exactly when every item is blank. */
  lemma {:induction false} CollectedEmptyIff(md5Hex: string -> string, domain: string, items: seq<Item>)
    ensures Collected(md5Hex, domain, items) == [] <==> forall i :: 0 <= i < |items| ==> Strip(items[i].text.GetOr("")) == []
    decreases |items|
  {
    if items != [] {
      var init := items[..|items| - 1];
      CollectedEmptyIff(md5Hex, domain, init);
      assert forall i :: 0 <= i < |init| ==> init[i] == items[i];
    }
  }

  // ---------- de-duplication ----------

  /** The ids of `es`. */
  function IdSet(es: seq<Entry>): set<string>
    decreases |es|
  {
    if es == [] then {} else IdSet(es[..|es| - 1]) + {es[|es| - 1].id}
  }

  /** The first entry of `es` with the given id. */
  function FirstWith(es: seq<Entry>, id: string): Option<Entry>
    decreases |es|
  {
    if es == [] then None
    else
      match FirstWith(es[..|es| - 1], id)
      case Some(e) => Some(e)
      case None => if es[|es| - 1].id == id then Some(es[|es| - 1]) else None
  }

  /** The order-preserving `unique` dict of `process_file`: an entry is kept
      when its id has not been seen before. */
  function Dedup(es: seq<Entry>): (r: seq<Entry>)
    ensures |r| <= |es|
    decreases |es|
  {
    if es == [] then []
    else
      var init := es[..|es| - 1];
      if es[|es| - 1].id in IdSet(init) then Dedup(init) else Dedup(init) + [es[|es| - 1]]
  }

  /** The ids of `es` are pairwise distinct. */
  predicate DistinctIds(es: seq<Entry>) {
    forall i, j :: 0 <= i < j < |es| ==> es[i].id != es[j].id
  }

  lemma {:induction false} IdSetHas(es: seq<Entry>, i: nat)
    requires i < |es|
    ensures es[i].id in IdSet(es)
    decreases |es|
  {
    if i < |es| - 1 {
      IdSetHas(es[..|es| - 1], i);
    }
  }

  lemma {:induction false} IdSetWitness(es: seq<Entry>, id: string) returns (i: nat)
    requires id in IdSet(es)
    ensures i < |es| && es[i].id == id
    decreases |es|
  {
    if es[|es| - 1].id == id {
      i := |es| - 1;
    } else {
      i := IdSetWitness(es[..|es| - 1], id);
    }
  }

  lemma {:induction false} IdSetAppend(es: seq<Entry>, e: Entry)
    ensures IdSet(es + [e]) == IdSet(es) + {e.id}
  {
    assert (es + [e])[..|es|] == es;
  }

  /** No id is lost: the kept entries carry every id of the input. */
  lemma {:induction false} DedupIdSet(es: seq<Entry>)
    ensures IdSet(Dedup(es)) == IdSet(es)
    decreases |es|
  {
    if es != [] {
      var init := es[..|es| - 1];
      DedupIdSet(init);
      IdSetAppend(Dedup(init), es[|es| - 1]);
    }
  }

  /** The kept ids are pairwise distinct. */
  lemma {:induction false} DedupDistinct(es: seq<Entry>)
    ensures DistinctIds(Dedup(es))
    decreases |es|
  {
    if es != [] {
      var init, last := es[..|es| - 1], es[|es| - 1];
      var d, r := Dedup(init), Dedup(es);
      DedupDistinct(init);
      if last.id !in IdSet(init) {
        assert r == d + [last];
        DedupIdSet(init);
        forall i, j | 0 <= i < j < |r| ensures r[i].id != r[j].id {
          if j == |d| {
            IdSetHas(d, i);
          } else {
            assert r[i] == d[i] && r[j] == d[j];
          }
        }
      } else {
        assert r == d;
      }
    }
  }

  /** The kept entries keep the input order. */
  lemma {:induction false} DedupSubsequence(es: seq<Entry>)
    ensures Subsequence(Dedup(es), es)
    decreases |es|
  {
    if es != [] {
      var init, last := es[..|es| - 1], es[|es| - 1];
      DedupSubsequence(init);
      SubsequenceExtend(Dedup(init), init, last);
      assert init + [last] == es;
    }
  }

  lemma {:induction false} FirstWithNone(es: seq<Entry>, id: string)
    ensures FirstWith(es, id) == None <==> id !in IdSet(es)
    decreases |es|
  {
    if es != [] {
      FirstWithNone(es[..|es| - 1], id);
    }
  }

  /** Each kept entry is the first occurrence of its id, text and metadata
      included. */
  lemma {:induction false} DedupFirst(es: seq<Entry>)
    ensures forall k :: 0 <= k < |Dedup(es)| ==> FirstWith(es, Dedup(es)[k].id) == Some(Dedup(es)[k])
    decreases |es|
  {
    if es != [] {
      var init, last := es[..|es| - 1], es[|es| - 1];
      var d, d' := Dedup(es), Dedup(init);
      DedupFirst(init);
      if last.id !in IdSet(init) {
        FirstWithNone(init, last.id);
      }
      forall k | 0 <= k < |d| ensures FirstWith(es, d[k].id) == Some(d[k]) {
        if k < |d'| {
          assert d[k] == d'[k];
          assert FirstWith(init, d'[k].id) == Some(d'[k]);
        } else {
          assert d[k] == last && FirstWith(init, last.id) == None;
        }
      }
    }
  }

  /** Input whose ids are already distinct passes unchanged. */
  lemma {:induction false} DedupOfDistinct(es: seq<Entry>)
    requires DistinctIds(es)
    ensures Dedup(es) == es
    decreases |es|
  {
    if es != [] {
      var init, last := es[..|es| - 1], es[|es| - 1];
      DedupOfDistinct(init);
      if last.id in IdSet(init) {
        var i := IdSetWitness(init, last.id);
        assert false;
      }
      assert init + [last] == es;
    }
  }

  // ---------- batches ----------

  /** The batches `texts[i:i + size]` for `i` in `range(start, len(texts), size)`. */
  function BatchesFrom(texts: seq<string>, start: nat, size: nat): seq<seq<string>>
    requires size > 0
    decreases |texts| - start
  {
    if start < |texts| then [texts[start..Min(start + size, |texts|)]] + BatchesFrom(texts, start + size, size)
    else []
  }

  function Flatten<T>(xs: seq<seq<T>>): seq<T>
  {
    if xs == [] then [] else xs[0] + Flatten(xs[1..])
  }

  /** The batches laid end to end give back the texts: every index lies in
      exactly one batch. */
  lemma {:induction false} BatchesFlatten(texts: seq<string>, start: nat, size: nat)
    requires size > 0 && start <= |texts|
    ensures Flatten(BatchesFrom(texts, start, size)) == texts[start..]
    decreases |texts| - start
  {
    if start < |texts| {
      var stop := Min(start + size, |texts|);
      var rest := BatchesFrom(texts, start + size, size);
      assert ([texts[start..stop]] + rest)[1..] == rest;
      if start + size <= |texts| {
        BatchesFlatten(texts, start + size, size);
      }
      assert texts[start..stop] + texts[stop..] == texts[start..];
    }
  }

  /** Batch `k` begins at the `k`-th value of the `range`. */
  lemma {:induction false} BatchesAtStarts(texts: seq<string>, start: nat, size: nat)
    requires size > 0
    ensures var b, s := BatchesFrom(texts, start, size), StartsFrom(start, |texts|, size);
      |b| == |s| && forall k :: 0 <= k < |b| ==> b[k] == texts[s[k]..Min(s[k] + size, |texts|)]
    decreases |texts| - start
  {
    if start < |texts| {
      BatchesAtStarts(texts, start + size, size);
    }
  }

  /** Every batch is non-empty and at most `size` long; only the last may be shorter. */
  lemma {:induction false} BatchShapes(texts: seq<string>, start: nat, size: nat)
    requires size > 0
    ensures forall k :: 0 <= k < |BatchesFrom(texts, start, size)| ==>
      0 < |BatchesFrom(texts, start, size)[k]| <= size &&
      (k + 1 < |BatchesFrom(texts, start, size)| ==> |BatchesFrom(texts, start, size)[k]| == size)
    decreases |texts| - start
  {
    if start < |texts| {
      var rest := BatchesFrom(texts, start + size, size);
      BatchShapes(texts, start + size, size);
      var b := [texts[start..Min(start + size, |texts|)]] + rest;
      if rest != [] {
        assert start + size < |texts|;
      }
      forall k | 0 <= k < |b| ensures 0 < |b[k]| <= size && (k + 1 < |b| ==> |b[k]| == size) {
        if k > 0 {
          assert b[k] == rest[k - 1];
        }
      }
    }
  }

  /** The vectors of the batches, in batch order (`embeddings.extend`). */
  function EncodeAll(encode: seq<string> -> seq<Embedding>, batches: seq<seq<string>>): seq<Embedding>
  {
    if batches == [] then [] else encode(batches[0]) + EncodeAll(encode, batches[1..])
  }

  /** The encoder returns one vector per text. */
  ghost predicate OneVectorPerText(encode: seq<string> -> seq<Embedding>) {
    forall texts :: |encode(texts)| == |texts|
  }

  lemma {:induction false} EncodeAllCount(encode: seq<string> -> seq<Embedding>, batches: seq<seq<string>>)
    requires OneVectorPerText(encode)
    ensures |EncodeAll(encode, batches)| == |Flatten(batches)|
  {
    if batches != [] {
      EncodeAllCount(encode, batches[1..]);
    }
  }

  /** The embedding loop: `range` raises `ValueError` on a zero step and
      is empty on a negative one. */
  function Embedded(encode: seq<string> -> seq<Embedding>, texts: seq<string>, size: int): (r: Result<seq<Embedding>>)
    ensures r.Err? <==> size == 0
    ensures size < 0 ==> r == Ok([])
  {
    if size == 0 then Err(ValueError)
    else if size < 0 then Ok([])
    else Ok(EncodeAll(encode, BatchesFrom(texts, 0, size)))
  }

  /** With an encoder that returns one vector per text and a positive batch
      size there is exactly one vector per text. */
  lemma EmbeddedCount(encode: seq<string> -> seq<Embedding>, texts: seq<string>, size: int)
    requires OneVectorPerText(encode) && size > 0
    ensures Embedded(encode, texts, size) == Ok(EncodeAll(encode, BatchesFrom(texts, 0, size)))
    ensures |Embedded(encode, texts, size).value| == |texts|
  {
    EncodeAllCount(encode, BatchesFrom(texts, 0, size));
    BatchesFlatten(texts, 0, size);
    assert texts[0..] == texts;
  }

  // ---------- output ----------

  function Texts(es: seq<Entry>): seq<string>
  {
    seq(|es|, k requires 0 <= k < |es| => es[k].text)
  }

  /** `zip(ids, chunks, metadata, embeddings)`: as long as the shorter side. */
  function Records(es: seq<Entry>, embeddings: seq<Embedding>): (r: seq<EmbeddingRecord>)
    ensures |r| == Min(|es|, |embeddings|)
  {
    seq(Min(|es|, |embeddings|), k requires 0 <= k < Min(|es|, |embeddings|) =>
      EmbeddingRecord(es[k].id, es[k].text, es[k].meta, embeddings[k]))
  }

  /** What `process_file` produces for a chunk file. */
  function FileResult(md5Hex: string -> string, encode: seq<string> -> seq<Embedding>, batchSize: int,
                      fileName: string, items: seq<Item>): Result<FileOutput>
  {
    var domain := DomainName(fileName);
    var entries := Dedup(Collected(md5Hex, domain, items));
    match Embedded(encode, Texts(entries), batchSize)
    case Err(e) => Err(e)
    case Ok(embeddings) => Ok(FileOutput(domain + EmbeddingsSuffix, Records(entries, embeddings)))
  }

  /** A chunk file fails exactly when the batch size is zero; otherwise its
      records carry pairwise distinct ids, each the first occurrence of the
      id among the non-blank items, in order. */
  lemma FileRecordsDistinct(md5Hex: string -> string, encode: seq<string> -> seq<Embedding>, batchSize: int,
                            fileName: string, items: seq<Item>)
    ensures var r := FileResult(md5Hex, encode, batchSize, fileName, items);
      && (r.Err? <==> batchSize == 0)
      && (r.Ok? ==>
            var es := Collected(md5Hex, DomainName(fileName), items);
            var out := r.value.records;
            && r.value.path == DomainName(fileName) + EmbeddingsSuffix
            && |out| <= |Dedup(es)|
            && (forall i, j :: 0 <= i < j < |out| ==> out[i].id != out[j].id)
            && (forall k :: 0 <= k < |out| ==>
                  FirstWith(es, out[k].id) == Some(Entry(out[k].id, out[k].text, out[k].meta))))
  {
    var es := Collected(md5Hex, DomainName(fileName), items);
    DedupDistinct(es);
    DedupFirst(es);
  }

  /** With an encoder that returns one vector per text and a positive batch
      size, every de-duplicated chunk gets exactly one record. */
  lemma OneRecordPerChunk(md5Hex: string -> string, encode: seq<string> -> seq<Embedding>, batchSize: int,
                          fileName: string, items: seq<Item>)
    requires OneVectorPerText(encode) && batchSize > 0
    ensures var r := FileResult(md5Hex, encode, batchSize, fileName, items);
      var d := Dedup(Collected(md5Hex, DomainName(fileName), items));
      && r.Ok? && |r.value.records| == |d|
      && forall k :: 0 <= k < |d| ==>
           r.value.records[k].id == d[k].id && r.value.records[k].text == d[k].text && r.value.records[k].meta == d[k].meta
  {
    var d := Dedup(Collected(md5Hex, DomainName(fileName), items));
    EmbeddedCount(encode, Texts(d), batchSize);
  }

  /** A negative batch size makes the `range` empty: the file is written
      with no records at all. */
  lemma NegativeBatchSizeWritesNothing(md5Hex: string -> string, encode: seq<string> -> seq<Embedding>, batchSize: int,
                                       fileName: string, items: seq<Item>)
    requires batchSize < 0
    ensures FileResult(md5Hex, encode, batchSize, fileName, items) == Ok(FileOutput(DomainName(fileName) + EmbeddingsSuffix, []))
  {
  }

  // ---------- chunk files written by the loader ----------

  /** A loader record as this reader sees it: the loader writes `chunk_id`
      and no `chunk_index`, so both keys this reader asks for are absent. */
  function AsItem(r: DocumentLoading.ChunkRecord): Item
  {
    Item(Some(r.text), None, r.source, None)
  }

  function AsItems(rs: seq<DocumentLoading.ChunkRecord>): (r: seq<Item>)
    ensures |r| == |rs| && forall k :: 0 <= k < |rs| ==> r[k] == AsItem(rs[k])
  {
    seq(|rs|, k requires 0 <= k < |rs| => AsItem(rs[k]))
  }

  /** Every entry read from a loader chunk file has the MD5 of its text as
      id and -1 as chunk index. */
  lemma {:induction false} LoaderChunksGetHashIds(md5Hex: string -> string, domain: string, rs: seq<DocumentLoading.ChunkRecord>)
    ensures var es := Collected(md5Hex, domain, AsItems(rs));
      forall k :: 0 <= k < |es| ==> es[k].id == md5Hex(es[k].text) && es[k].meta.chunkIndex == -1
    decreases |rs|
  {
    if rs != [] {
      var init := rs[..|rs| - 1];
      LoaderChunksGetHashIds(md5Hex, domain, init);
      assert AsItems(rs)[..|rs| - 1] == AsItems(init);
      var e := EntryOf(md5Hex, domain, AsItem(rs[|rs| - 1]));
      if e.Some? {
        var r := Collected(md5Hex, domain, AsItems(init)) + [e.value];
        assert Collected(md5Hex, domain, AsItems(rs)) == r;
        forall k | 0 <= k < |r| ensures r[k].id == md5Hex(r[k].text) && r[k].meta.chunkIndex == -1 {
          if k < |r| - 1 {
            assert r[k] == Collected(md5Hex, domain, AsItems(init))[k];
          }
        }
      }
    }
  }

  /** Hence de-duplication of loader chunks is by text: the embedded texts of
      a domain are pairwise distinct, even across source files. */
  lemma LoaderChunksDedupByText(md5Hex: string -> string, domain: string, rs: seq<DocumentLoading.ChunkRecord>)
    ensures var d := Dedup(Collected(md5Hex, domain, AsItems(rs)));
      forall i, j :: 0 <= i < j < |d| ==> d[i].text != d[j].text
  {
    var es := Collected(md5Hex, domain, AsItems(rs));
    var d := Dedup(es);
    LoaderChunksGetHashIds(md5Hex, domain, rs);
    DedupDistinct(es);
    DedupSubsequenceIds(es, md5Hex);
  }

  /** Entries whose id is the hash of their text keep that property through
      de-duplication. */
  lemma {:induction false} DedupSubsequenceIds(es: seq<Entry>, md5Hex: string -> string)
    requires forall k :: 0 <= k < |es| ==> es[k].id == md5Hex(es[k].text)
    ensures forall k :: 0 <= k < |Dedup(es)| ==> Dedup(es)[k].id == md5Hex(Dedup(es)[k].text)
    decreases |es|
  {
    if es != [] {
      var init := es[..|es| - 1];
      assert forall k :: 0 <= k < |init| ==> init[k] == es[k];
      DedupSubsequenceIds(init, md5Hex);
      var d, d' := Dedup(es), Dedup(init);
      forall k | 0 <= k < |d| ensures d[k].id == md5Hex(d[k].text) {
        if k < |d'| {
          assert d[k] == d'[k];
        } else {
          assert d[k] == es[|es| - 1];
        }
      }
    }
  }

  // ---------- the pipeline ----------

  /** The names the glob pattern `"*" + suffix` matches: `*` skips hidden files. */
  predicate GlobMatches(name: string, suffix: string) {
    name != [] && name[0] != '.' && |suffix| <= |name| && name[|name| - |suffix|..] == suffix
  }

  predicate IsChunkFile(name: string) {
    GlobMatches(name, ChunksSuffix)
  }

  function ChunkFiles(listing: seq<ChunkFile>): (r: seq<ChunkFile>)
    ensures |r| <= |listing|
    ensures forall k :: 0 <= k < |r| ==> IsChunkFile(r[k].name)
    decreases |listing|
  {
    if listing == [] then []
    else
      var init := ChunkFiles(listing[..|listing| - 1]);
      if IsChunkFile(listing[|listing| - 1].name) then init + [listing[|listing| - 1]] else init
  }

  /** The files written by the remaining chunk files, after `written`; the
      first failure ends the run. */
  function WriteAll(md5Hex: string -> string, encode: seq<string> -> seq<Embedding>, batchSize: int,
                    written: map<string, seq<EmbeddingRecord>>, files: seq<ChunkFile>): Result<map<string, seq<EmbeddingRecord>>>
    decreases |files|
  {
    if files == [] then Ok(written)
    else
      match FileResult(md5Hex, encode, batchSize, files[0].name, files[0].items)
      case Err(e) => Err(e)
      case Ok(out) => WriteAll(md5Hex, encode, batchSize, written[out.path := out.records], files[1..])
  }

  /** `run_pipeline`: `ValueError` when there is no chunk file. */
  function PipelineResult(md5Hex: string -> string, encode: seq<string> -> seq<Embedding>, batchSize: int,
                          listing: seq<ChunkFile>): Result<map<string, seq<EmbeddingRecord>>>
  {
    var files := ChunkFiles(listing);
    if files == [] then Err(ValueError) else WriteAll(md5Hex, encode, batchSize, map[], files)
  }

  /** The output file names of `files`. */
  function OutputNames(files: seq<ChunkFile>): set<string>
  {
    if files == [] then {} else {DomainName(files[0].name) + EmbeddingsSuffix} + OutputNames(files[1..])
  }

  lemma {:induction false} WriteAllOutcome(md5Hex: string -> string, encode: seq<string> -> seq<Embedding>, batchSize: int,
                                           written: map<string, seq<EmbeddingRecord>>, files: seq<ChunkFile>)
    requires files != []
    decreases |files|
    ensures var r := WriteAll(md5Hex, encode, batchSize, written, files);
      (r.Err? <==> batchSize == 0) && (r.Ok? ==> r.value.Keys == written.Keys + OutputNames(files))
  {
    var out := FileResult(md5Hex, encode, batchSize, files[0].name, files[0].items);
    FileRecordsDistinct(md5Hex, encode, batchSize, files[0].name, files[0].items);
    if batchSize != 0 && |files| > 1 {
      WriteAllOutcome(md5Hex, encode, batchSize, written[out.value.path := out.value.records], files[1..]);
    }
  }

  /** `run_pipeline` raises `ValueError` exactly when no chunk file matches
      or the batch size is zero; otherwise it writes one embeddings file per
      domain of the matching chunk files. */
  lemma PipelineOutcome(md5Hex: string -> string, encode: seq<string> -> seq<Embedding>, batchSize: int, listing: seq<ChunkFile>)
    ensures var r := PipelineResult(md5Hex, encode, batchSize, listing);
      && (r == Err(ValueError) <==> ChunkFiles(listing) == [] || batchSize == 0)
      && (r.Ok? ==> r.value.Keys == OutputNames(ChunkFiles(listing)))
  {
    if ChunkFiles(listing) != [] {
      WriteAllOutcome(md5Hex, encode, batchSize, map[], ChunkFiles(listing));
    }
  }

  // ---------- the vectorizer ----------

  /** `keys` lists the ids of `d` in order and `unique` maps each to its
      entry's text and metadata. */
  ghost predicate Tracks(unique: map<string, (string, Metadata)>, keys: seq<string>, d: seq<Entry>)
  {
    && |keys| == |d|
    && forall k :: 0 <= k < |keys| ==> keys[k] == d[k].id && keys[k] in unique && unique[keys[k]] == (d[k].text, d[k].meta)
  }

  /** The collaborators `process_file` uses: the batch size, the sentence
      encoder (asked for unit-normalised vectors) and MD5 as hex. */
  class ChunkVectorizer {
    const batchSize: int
    const encode: seq<string> -> seq<Embedding>
    const md5Hex: string -> string

    constructor(batchSize: int, encode: seq<string> -> seq<Embedding>, md5Hex: string -> string)
      ensures this.batchSize == batchSize && this.encode == encode && this.md5Hex == md5Hex
    {
      this.batchSize := batchSize;
      this.encode := encode;
      this.md5Hex := md5Hex;
    }

    /** The loop over the items of a chunk file. */
    method CollectEntries(domain: string, data: seq<Item>) returns (entries: seq<Entry>)
      ensures entries == Collected(md5Hex, domain, data)
    {
      entries := [];
      for i := 0 to |data|
        invariant entries == Collected(md5Hex, domain, data[..i])
      {
        assert data[..i + 1][..i] == data[..i];
        var text := Strip(data[i].text.GetOr(""));
        if text == [] {
          continue;
        }
        var chunkId := data[i].id.GetOr(md5Hex(text));
        var meta := Metadata(data[i].source.GetOr("unknown"), data[i].chunkIndex.GetOr(-1), domain);
        entries := entries + [Entry(chunkId, text, meta)];
      }
      assert data[..|data|] == data;
    }

    /** The `unique` dict, filled in input order, read back in insertion order. */
    method Deduplicate(entries: seq<Entry>) returns (deduped: seq<Entry>)
      ensures deduped == Dedup(entries)
    {
      var unique, keys := UniqueById(entries);
      deduped := [];
      for k := 0 to |keys|
        invariant deduped == Dedup(entries)[..k]
      {
        var (text, meta) := unique[keys[k]];
        deduped := deduped + [Entry(keys[k], text, meta)];
      }
    }

    /** The dictionary `unique` keyed by id, first entry winning, and its
        keys in insertion order. */
    static method UniqueById(entries: seq<Entry>) returns (unique: map<string, (string, Metadata)>, keys: seq<string>)
      ensures unique.Keys == IdSet(entries)
      ensures Tracks(unique, keys, Dedup(entries))
    {
      unique := map[];
      keys := [];
      for i := 0 to |entries|
        invariant unique.Keys == IdSet(entries[..i])
        invariant Tracks(unique, keys, Dedup(entries[..i]))
      {
        assert entries[..i + 1][..i] == entries[..i];
        var cid := entries[i].id;
        if cid !in unique {
          unique := unique[cid := (entries[i].text, entries[i].meta)];
          keys := keys + [cid];
        }
      }
      assert entries[..|entries|] == entries;
    }

    /** The embedding loop over `range(0, len(chunks), batch_size)`. */
    method EmbedTexts(texts: seq<string>) returns (r: Result<seq<Embedding>>)
      ensures r == Embedded(encode, texts, batchSize)
    {
      if batchSize == 0 {
        return Err(ValueError);
      }
      var embeddings: seq<Embedding> := [];
      if batchSize > 0 {
        var i := 0;
        while i < |texts|
          invariant embeddings + EncodeAll(encode, BatchesFrom(texts, i, batchSize))
                    == EncodeAll(encode, BatchesFrom(texts, 0, batchSize))
          decreases |texts| - i
        {
          var batch := texts[i..Min(i + batchSize, |texts|)];
          assert ([batch] + BatchesFrom(texts, i + batchSize, batchSize))[1..] == BatchesFrom(texts, i + batchSize, batchSize);
          embeddings := embeddings + encode(batch);
          i := i + batchSize;
        }
        assert BatchesFrom(texts, i, batchSize) == [];
        assert embeddings + EncodeAll(encode, []) == embeddings;
      }
      r := Ok(embeddings);
    }

    /** The output loop over `zip(ids, chunks, metadata, embeddings)`. */
    method BuildOutput(entries: seq<Entry>, embeddings: seq<Embedding>) returns (records: seq<EmbeddingRecord>)
      ensures records == Records(entries, embeddings)
    {
      records := [];
      var n := Min(|entries|, |embeddings|);
      for k := 0 to n
        invariant records == Records(entries, embeddings)[..k]
      {
        records := records + [EmbeddingRecord(entries[k].id, entries[k].text, entries[k].meta, embeddings[k])];
      }
    }

    /** `process_file` on a chunk file given by name and contents. */
    method ProcessFile(fileName: string, data: seq<Item>) returns (r: Result<FileOutput>)
      ensures r == FileResult(md5Hex, encode, batchSize, fileName, data)
    {
      var domain := DomainName(fileName);
      var entries := CollectEntries(domain, data);
      entries := Deduplicate(entries);
      var embedded := EmbedTexts(Texts(entries));
      if embedded.Err? {
        return Err(embedded.error);
      }
      var records := BuildOutput(entries, embedded.value);
      r := Ok(FileOutput(domain + EmbeddingsSuffix, records));
    }

    /** `run_pipeline`: every matching chunk file in listing order, each
        written to its domain's embeddings file. */
    method RunPipeline(listing: seq<ChunkFile>) returns (r: Result<map<string, seq<EmbeddingRecord>>>)
      ensures r == PipelineResult(md5Hex, encode, batchSize, listing)
    {
      var files := ChunkFiles(listing);
      if files == [] {
        return Err(ValueError);
      }
      var written: map<string, seq<EmbeddingRecord>> := map[];
      for i := 0 to |files|
        invariant WriteAll(md5Hex, encode, batchSize, written, files[i..]) == WriteAll(md5Hex, encode, batchSize, map[], files)
      {
        assert files[i..][1..] == files[i + 1..];
        var out := ProcessFile(files[i].name, files[i].items);
        if out.Err? {
          return Err(out.error);
        }
        written := written[out.value.path := out.value.records];
      }
      r := Ok(written);
    }
  }
}
